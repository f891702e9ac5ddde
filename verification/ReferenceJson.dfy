/** The reference's canonical JSON, from a parsed value to text, and why it writes what the guard
    writes for every value both accept. */
module ReferenceJson {
  import opened Protocol
  import opened CanonicalJson
  import opened CanonicalOrder
  import D = Decimal
  import G = JsonDecode
  import S = Snapshot
  import T = DecimalText

  datatype Error =
    | InputTooLarge | InvalidJson | NestingTooDeep | DuplicateKey | TooManyKeys | TooManyItems
    | InvalidString | InvalidNumber

  datatype Result<+T> = Ok(value: T) | Err(error: Error)

  /** A captured value and the bytes charged so far. */
  datatype Captured<+T> = Captured(value: T, used: nat)

  ghost function NumberText(raw: string): (r: Result<string>) {
    if D.ParseToken(raw).None? then Err(InvalidNumber)
    else
      D.ReadIsSpelled(raw);
      var text := T.Rendered(D.ParseToken(raw).value);
      if text.Err? then Err(InvalidNumber) else Ok(text.text)
  }

  // ----- Capture -----

  function Charge<T>(value: T, used: nat): (r: Result<Captured<T>>) {
    if used > S.MAX_INPUT_BYTES then Err(InputTooLarge) else Ok(Captured(value, used))
  }

  /** `_snapshot_value` of a parsed value, which shares no containers: strings in normal form,
      numbers as they are. */
  ghost function Capture(v: Json, nfc: G.Normalizer, depth: nat, used: nat): (r: Result<Captured<Json>>)
    decreases v, 0
  {
    match v
    case Null => Charge(v, used + 5)
    case Bool(_) => Charge(v, used + 5)
    case Num(raw) => var text := NumberText(raw); if text.Err? then Err(text.error) else Charge(v, used + |text.value|)
    case Str(s) =>
      if nfc(s).None? then Err(InvalidString) else Charge(Str(nfc(s).value), used + G.Bytes(nfc(s).value) + 2)
    case Arr(items) =>
      if depth >= S.MAX_NESTING_DEPTH then Err(NestingTooDeep)
      else if used + 2 > S.MAX_INPUT_BYTES then Err(InputTooLarge)
      else
        var r := CaptureItems(items, nfc, depth + 1, used + 2, 0);
        if r.Err? then Err(r.error) else Ok(Captured(Arr(r.value.value), r.value.used))
    case Obj(members) =>
      if depth >= S.MAX_NESTING_DEPTH then Err(NestingTooDeep)
      else if used + 2 > S.MAX_INPUT_BYTES then Err(InputTooLarge)
      else
        var r := CaptureMembers(members, nfc, depth + 1, used + 2, {});
        if r.Err? then Err(r.error) else Ok(Captured(Obj(r.value.value), r.value.used))
  }

  ghost function CaptureItems(items: seq<Json>, nfc: G.Normalizer, depth: nat, used: nat, taken: nat)
    : (r: Result<Captured<seq<Json>>>)
    decreases items, 1
  {
    if items == [] then Ok(Captured([], used))
    else if taken >= S.MAX_ARRAY_ITEMS then Err(TooManyItems)
    else if used + 1 > S.MAX_INPUT_BYTES then Err(InputTooLarge)
    else
      var first := Capture(items[0], nfc, depth, used + 1);
      if first.Err? then Err(first.error)
      else
        var rest := CaptureItems(items[1..], nfc, depth, first.value.used, taken + 1);
        if rest.Err? then rest else Ok(Captured([first.value.value] + rest.value.value, rest.value.used))
  }

  ghost function CaptureMembers(ms: seq<Member>, nfc: G.Normalizer, depth: nat, used: nat, seen: set<string>)
    : (r: Result<Captured<seq<Member>>>)
    decreases ms, 1
  {
    if ms == [] then Ok(Captured([], used))
    else if |seen| + 1 > S.MAX_OBJECT_KEYS then Err(TooManyKeys)
    else
      var key := nfc(ms[0].key);
      if key.None? then Err(InvalidString)
      else if key.value in seen then Err(DuplicateKey)
      else if used + G.Bytes(key.value) + 4 > S.MAX_INPUT_BYTES then Err(InputTooLarge)
      else
        var first := Capture(ms[0].value, nfc, depth, used + G.Bytes(key.value) + 4);
        if first.Err? then Err(first.error)
        else
          var rest := CaptureMembers(ms[1..], nfc, depth, first.value.used, seen + {key.value});
          if rest.Err? then rest
          else Ok(Captured([Member(key.value, first.value.value)] + rest.value.value, rest.value.used))
  }

  // ----- Encoding -----

  function Joined(parts: seq<string>): string {
    if parts == [] then "" else parts[0] + (if |parts| == 1 then "" else "," + Joined(parts[1..]))
  }

  /** The members under their normalised keys. */
  function Renamed(ms: seq<Member>, nfc: G.Normalizer, seen: set<string>): (r: Result<seq<Member>>)
    ensures r.Ok? ==> |r.value| == |ms| && forall i :: 0 <= i < |ms| ==> r.value[i].value == ms[i].value
  {
    if ms == [] then Ok([])
    else
      var key := nfc(ms[0].key);
      if key.None? then Err(InvalidString)
      else if key.value in seen then Err(DuplicateKey)
      else
        var rest := Renamed(ms[1..], nfc, seen + {key.value});
        if rest.Err? then rest else Ok([Member(key.value, ms[0].value)] + rest.value)
  }

  predicate HasValue(ms: seq<Member>, v: Json) { exists i :: 0 <= i < |ms| && ms[i].value == v }

  predicate FromMembers(ms: seq<Member>, sorted: seq<Member>) { forall m :: m in sorted ==> HasValue(ms, m.value) }

  lemma {:induction false} SortHolds(ms: seq<Member>)
    ensures forall x :: x in Sort(ms) <==> x in ms
    decreases |ms|
  {
    if ms != [] {
      SortHolds(ms[1..]);
      InsertHolds(ms[0], Sort(ms[1..]));
      assert ms == [ms[0]] + ms[1..];
    }
  }

  lemma SortedFrom(ms: seq<Member>, renamed: seq<Member>)
    requires |renamed| == |ms| && forall i :: 0 <= i < |ms| ==> renamed[i].value == ms[i].value
    ensures FromMembers(ms, Sort(renamed))
  {
    SortHolds(renamed);
    forall m | m in Sort(renamed) ensures HasValue(ms, m.value) {
      var i :| 0 <= i < |renamed| && renamed[i] == m;
      assert ms[i].value == m.value;
    }
  }

  /** `_encode_canonical` of a captured value: members by the code points of their keys. */
  ghost function EncodeReference(v: Json, nfc: G.Normalizer): (r: Result<string>)
    decreases v, 0
  {
    match v
    case Null => Ok("null")
    case Bool(b) => Ok(if b then "true" else "false")
    case Num(raw) => NumberText(raw)
    case Str(s) => QuotedNormal(s, nfc)
    case Arr(items) =>
      var r := EncodeItems(items, nfc);
      if r.Err? then Err(r.error) else Ok("[" + Joined(r.value) + "]")
    case Obj(members) =>
      var renamed := Renamed(members, nfc, {});
      if renamed.Err? then Err(renamed.error)
      else
        SortedFrom(members, renamed.value);
        var r := EncodeFields(members, Sort(renamed.value), nfc);
        if r.Err? then Err(r.error) else Ok("{" + Joined(r.value) + "}")
  }

  function QuotedNormal(s: string, nfc: G.Normalizer): (r: Result<string>) {
    if nfc(s).None? then Err(InvalidString) else Ok(Quote(nfc(s).value))
  }

  ghost function EncodeItems(items: seq<Json>, nfc: G.Normalizer): (r: Result<seq<string>>)
    decreases items, 1
  {
    if items == [] then Ok([])
    else
      var first := EncodeReference(items[0], nfc);
      if first.Err? then Err(first.error)
      else
        var rest := EncodeItems(items[1..], nfc);
        if rest.Err? then rest else Ok([first.value] + rest.value)
  }

  ghost function EncodeFields(ms: seq<Member>, sorted: seq<Member>, nfc: G.Normalizer): (r: Result<seq<string>>)
    requires FromMembers(ms, sorted)
    decreases ms, 1 + |sorted|
  {
    if sorted == [] then Ok([])
    else
      assert sorted[0] in sorted && HasValue(ms, sorted[0].value);
      var i :| 0 <= i < |ms| && ms[i].value == sorted[0].value;
      assert ms[i].value < ms[i];
      var key := QuotedNormal(sorted[0].key, nfc);
      if key.Err? then Err(key.error)
      else
        var value := EncodeReference(sorted[0].value, nfc);
        if value.Err? then Err(value.error)
        else
          assert forall m :: m in sorted[1..] ==> m in sorted;
          var rest := EncodeFields(ms, sorted[1..], nfc);
          if rest.Err? then rest else Ok([key.value + ":" + value.value] + rest.value)
  }

  /** `canonical_json` of the value `parse_json` reads from a text. */
  ghost function Canonicalize(input: string, parse: G.Parser, nfc: G.Normalizer): (r: Result<string>) {
    if G.Bytes(input) > S.MAX_INPUT_BYTES then Err(InputTooLarge)
    else if parse(input).None? then Err(InvalidJson)
    else
      var shot := Capture(parse(input).value, nfc, 0, 0);
      if shot.Err? then Err(shot.error)
      else
        var text := EncodeReference(shot.value.value, nfc);
        if text.Err? then text
        else if G.Bytes(text.value) > S.MAX_INPUT_BYTES then Err(InputTooLarge)
        else text
  }

  // ----- The captured value and the decoded one -----

  /** A value the reference captured and the one the guard decoded from the same input. */
  predicate Alike(c: Json, w: Json, nfc: G.Normalizer)
    decreases c
  {
    match c
    case Null => w.Null?
    case Bool(_) => w == c
    case Num(raw) => w.Num? && D.NormalizeNumber(raw) == D.Ok(w.text)
    case Str(s) => w == c && nfc(s) == Some(s)
    case Arr(items) =>
      w.Arr? && |w.items| == |items| && forall i :: 0 <= i < |items| ==> Alike(items[i], w.items[i], nfc)
    case Obj(members) =>
      && w.Obj? && |w.members| == |members| && DistinctKeys(members)
      && forall i :: 0 <= i < |members| ==>
           && members[i].key == w.members[i].key && nfc(members[i].key) == Some(members[i].key)
           && Alike(members[i].value, w.members[i].value, nfc)
  }

  /** Guard and reference normalise alike whatever both accept. */
  ghost predicate NormalizersAgree(normal: G.Normalizer, nfc: G.Normalizer) {
    forall s :: normal(s).Some? && nfc(s).Some? ==> normal(s) == nfc(s)
  }

  lemma {:induction false} CapturesAlike(v: Json, normal: G.Normalizer, nfc: G.Normalizer, depth: nat, level: nat,
                                         used: nat)
    requires G.Stable(nfc) && NormalizersAgree(normal, nfc)
    requires G.Decode(v, normal, depth).Ok? && Capture(v, nfc, level, used).Ok?
    ensures Alike(Capture(v, nfc, level, used).value.value, G.Decode(v, normal, depth).value, nfc)
    decreases v, 0
  {
    hide D.NormalizeNumber, NumberText, G.Bytes;
    match v
    case Arr(items) => ItemsAlike(items, normal, nfc, depth + 1, level + 1, used + 2, 0, 0);
    case Obj(members) => MembersAlike(members, normal, nfc, depth + 1, level + 1, used + 2, {});
    case Null => case Bool(_) => case Num(_) => case Str(_) =>
  }

  lemma {:induction false} ItemsAlike(items: seq<Json>, normal: G.Normalizer, nfc: G.Normalizer, depth: nat, level: nat,
                                      used: nat, taken: nat, got: nat)
    requires G.Stable(nfc) && NormalizersAgree(normal, nfc)
    requires G.DecodeItems(items, normal, depth, taken).Ok? && CaptureItems(items, nfc, level, used, got).Ok?
    ensures var c := CaptureItems(items, nfc, level, used, got).value.value;
            var w := G.DecodeItems(items, normal, depth, taken).value;
            |c| == |w| && forall i :: 0 <= i < |c| ==> Alike(c[i], w[i], nfc)
    decreases items, 1
  {
    if items != [] {
      CapturesAlike(items[0], normal, nfc, depth, level, used + 1);
      var first := Capture(items[0], nfc, level, used + 1);
      ItemsAlike(items[1..], normal, nfc, depth, level, first.value.used, taken + 1, got + 1);
    }
  }

  /** Members in step: the same settled keys, and alike values. */
  predicate InStep(a: seq<Member>, b: seq<Member>, nfc: G.Normalizer) {
    && |a| == |b|
    && forall i :: 0 <= i < |a| ==>
         a[i].key == b[i].key && nfc(a[i].key) == Some(a[i].key) && Alike(a[i].value, b[i].value, nfc)
  }

  /** Members in step, under distinct keys not seen before. */
  predicate FreshStep(a: seq<Member>, b: seq<Member>, nfc: G.Normalizer, seen: set<string>) {
    InStep(a, b, nfc) && DistinctKeys(a) && forall i :: 0 <= i < |a| ==> a[i].key !in seen
  }

  lemma PrependStep(m: Member, n: Member, a: seq<Member>, b: seq<Member>, nfc: G.Normalizer, seen: set<string>)
    requires FreshStep(a, b, nfc, seen + {m.key}) && m.key !in seen
    requires m.key == n.key && nfc(m.key) == Some(m.key) && Alike(m.value, n.value, nfc)
    ensures FreshStep([m] + a, [n] + b, nfc, seen)
  {
    hide Alike;
  }

  lemma {:induction false} MembersAlike(ms: seq<Member>, normal: G.Normalizer, nfc: G.Normalizer, depth: nat,
                                        level: nat, used: nat, seen: set<string>)
    requires G.Stable(nfc) && NormalizersAgree(normal, nfc)
    requires G.DecodeMembers(ms, normal, depth, seen).Ok? && CaptureMembers(ms, nfc, level, used, seen).Ok?
    ensures FreshStep(CaptureMembers(ms, nfc, level, used, seen).value.value,
                      G.DecodeMembers(ms, normal, depth, seen).value, nfc, seen)
    decreases ms, 1
  {
    hide G.Bytes, Alike, FreshStep, Capture, G.Decode;
    if ms == [] {
      NothingInStep(nfc, seen);
    } else {
      var key := nfc(ms[0].key).value;
      var start := used + G.Bytes(key) + 4;
      var first, second := Capture(ms[0].value, nfc, level, start).value, G.Decode(ms[0].value, normal, depth).value;
      CapturesAlike(ms[0].value, normal, nfc, depth, level, start);
      MembersAlike(ms[1..], normal, nfc, depth, level, first.used, seen + {key});
      PrependStep(Member(key, first.value), Member(key, second),
                  CaptureMembers(ms[1..], nfc, level, first.used, seen + {key}).value.value,
                  G.DecodeMembers(ms[1..], normal, depth, seen + {key}).value, nfc, seen);
    }
  }

  lemma NothingInStep(nfc: G.Normalizer, seen: set<string>)
    ensures FreshStep([], [], nfc, seen)
  {
  }

  // ----- Sorting in step -----

  lemma {:induction false} InsertInStep(m: Member, n: Member, a: seq<Member>, b: seq<Member>, nfc: G.Normalizer)
    requires InStep(a, b, nfc) && m.key == n.key && nfc(m.key) == Some(m.key) && Alike(m.value, n.value, nfc)
    ensures InStep(Insert(m, a), Insert(n, b), nfc)
    decreases |a|
  {
    hide Alike, KeyLess;
    if a != [] && !KeyLess(m.key, a[0].key) { InsertInStep(m, n, a[1..], b[1..], nfc); }
  }

  lemma {:induction false} SortInStep(a: seq<Member>, b: seq<Member>, nfc: G.Normalizer)
    requires InStep(a, b, nfc)
    ensures InStep(Sort(a), Sort(b), nfc)
    decreases |a|
  {
    hide Alike, KeyLess, Insert;
    if a != [] {
      SortInStep(a[1..], b[1..], nfc);
      InsertInStep(a[0], b[0], Sort(a[1..]), Sort(b[1..]), nfc);
    }
  }

  function CanonMember(m: Member): Member { Member(m.key, Canon(m.value)) }

  lemma {:induction false} InsertCanon(m: Member, ms: seq<Member>)
    ensures Insert(CanonMember(m), CanonMembers(ms)) == CanonMembers(Insert(m, ms))
    decreases |ms|
  {
    hide KeyLess, Canon;
    if ms != [] {
      var rest := ms[1..];
      assert CanonMembers(ms)[1..] == CanonMembers(rest);
      if KeyLess(m.key, ms[0].key) {
        assert ([m] + ms)[1..] == ms;
      } else {
        InsertCanon(m, rest);
        assert ([ms[0]] + Insert(m, rest))[1..] == Insert(m, rest);
      }
    } else {
      assert ([m] + ms)[1..] == [];
    }
  }

  lemma {:induction false} SortCanon(ms: seq<Member>)
    ensures Sort(CanonMembers(ms)) == CanonMembers(Sort(ms))
    decreases |ms|
  {
    hide KeyLess, Canon, Insert;
    if ms != [] {
      SortCanon(ms[1..]);
      assert CanonMembers(ms)[0] == CanonMember(ms[0]) && CanonMembers(ms)[1..] == CanonMembers(ms[1..]);
      InsertCanon(ms[0], Sort(ms[1..]));
    }
  }

  // ----- Equal texts -----

  lemma {:induction false} RenamedSettled(ms: seq<Member>, nfc: G.Normalizer, seen: set<string>)
    requires DistinctKeys(ms)
    requires forall i :: 0 <= i < |ms| ==> nfc(ms[i].key) == Some(ms[i].key) && ms[i].key !in seen
    ensures Renamed(ms, nfc, seen) == Ok(ms)
    decreases |ms|
  {
    if ms != [] {
      RenamedSettled(ms[1..], nfc, seen + {ms[0].key});
      assert [Member(ms[0].key, ms[0].value)] + ms[1..] == ms;
    }
  }

  lemma NumbersAgree(raw: string)
    requires D.NormalizeNumber(raw).Ok? && NumberText(raw).Ok?
    ensures NumberText(raw).value == D.NormalizeNumber(raw).text
  {
    hide D.Normalize, T.Rendered;
    D.ReadIsSpelled(raw);
    T.TextsAgree(D.ParseToken(raw).value);
  }

  /** The reference's text of a captured value is the canonical text of the decoded one. */
  lemma {:induction false} AlikeEncodes(c: Json, w: Json, nfc: G.Normalizer)
    requires Alike(c, w, nfc) && EncodeReference(c, nfc).Ok?
    ensures EncodeReference(c, nfc).value == Encode(w)
    decreases c, 0
  {
    hide D.NormalizeNumber, NumberText;
    match c
    case Num(raw) => NumbersAgree(raw);
    case Arr(items) => ItemsEncode(items, w.items, nfc);
    case Obj(members) => ObjectEncodes(members, w.members, nfc);
    case Null => case Bool(_) => case Str(_) =>
  }

  lemma {:induction false} ItemsEncode(cs: seq<Json>, ws: seq<Json>, nfc: G.Normalizer)
    requires |cs| == |ws| && (forall i :: 0 <= i < |cs| ==> Alike(cs[i], ws[i], nfc)) && EncodeItems(cs, nfc).Ok?
    ensures |EncodeItems(cs, nfc).value| == |cs|
    ensures Joined(EncodeItems(cs, nfc).value) == ItemsText(CanonItems(ws))
    decreases cs, 1
  {
    hide Alike, EncodeReference, Canon, Text;
    if cs != [] {
      AlikeEncodes(cs[0], ws[0], nfc);
      ItemsEncode(cs[1..], ws[1..], nfc);
      var first, rest := EncodeReference(cs[0], nfc).value, EncodeItems(cs[1..], nfc).value;
      assert ([first] + rest)[1..] == rest;
      assert CanonItems(ws)[1..] == CanonItems(ws[1..]);
    }
  }

  lemma ObjectEncodes(cs: seq<Member>, ws: seq<Member>, nfc: G.Normalizer)
    requires InStep(cs, ws, nfc) && DistinctKeys(cs) && EncodeReference(Obj(cs), nfc).Ok?
    ensures EncodeReference(Obj(cs), nfc).value == Encode(Obj(ws))
    decreases cs, 2 + |cs|
  {
    hide Alike, Canon, Text, Sort;
    RenamedSettled(cs, nfc, {});
    SortedFrom(cs, cs);
    SortInStep(cs, ws, nfc);
    FieldsEncode(cs, Sort(cs), Sort(ws), nfc);
    SortCanon(ws);
    CanonOfObject(ws);
  }

  lemma CanonOfObject(ws: seq<Member>)
    ensures Encode(Obj(ws)) == "{" + MembersText(Sort(CanonMembers(ws))) + "}"
  {
  }

  lemma {:induction false} FieldsEncode(ms: seq<Member>, cs: seq<Member>, ws: seq<Member>, nfc: G.Normalizer)
    requires FromMembers(ms, cs) && InStep(cs, ws, nfc) && EncodeFields(ms, cs, nfc).Ok?
    ensures |EncodeFields(ms, cs, nfc).value| == |cs|
    ensures Joined(EncodeFields(ms, cs, nfc).value) == MembersText(CanonMembers(ws))
    decreases ms, 1 + |cs|
  {
    hide Alike, EncodeReference, Canon, Text, Quote;
    if cs != [] {
      assert cs[0] in cs && HasValue(ms, cs[0].value);
      var i :| 0 <= i < |ms| && ms[i].value == cs[0].value;
      assert ms[i].value < ms[i];
      AlikeEncodes(cs[0].value, ws[0].value, nfc);
      assert forall m :: m in cs[1..] ==> m in cs;
      FieldsEncode(ms, cs[1..], ws[1..], nfc);
      var first := Quote(cs[0].key) + ":" + EncodeReference(cs[0].value, nfc).value;
      var rest := EncodeFields(ms, cs[1..], nfc).value;
      assert ([first] + rest)[1..] == rest;
      assert CanonMembers(ws)[1..] == CanonMembers(ws[1..]);
    }
  }

  /** Both encoders emit identical text for every input both accept. */
  lemma EncodersAgree(input: string, parse: G.Parser, normal: G.Normalizer, nfc: G.Normalizer)
    requires G.Stable(nfc) && NormalizersAgree(normal, nfc)
    requires G.Canonicalize(input, parse, normal).Ok? && Canonicalize(input, parse, nfc).Ok?
    ensures G.Canonicalize(input, parse, normal).value == Canonicalize(input, parse, nfc).value
  {
    hide G.Stable, NormalizersAgree, G.Decode, Capture, EncodeReference, Alike, Encode, G.Bytes;
    var v := parse(input).value;
    CapturesAlike(v, normal, nfc, 0, 0, 0);
    AlikeEncodes(Capture(v, nfc, 0, 0).value.value, G.Decode(v, normal, 0).value, nfc);
  }
}
