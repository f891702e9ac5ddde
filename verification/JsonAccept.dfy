/** Exactly which values the two canonicalizers accept, and what they make of them. */
module JsonAccept {
  import opened Protocol
  import opened CanonicalJson
  import opened CanonicalOrder
  import D = Decimal
  import G = JsonDecode
  import R = ReferenceJson
  import S = Snapshot

  // ----- Values in normal form -----

  function Text(s: string, normal: G.Normalizer): string { if normal(s).Some? then normal(s).value else s }

  function Number(raw: string): string {
    if D.NormalizeNumber(raw).Ok? then D.NormalizeNumber(raw).text else raw
  }

  /** Every string in normal form and, if asked for, every number. */
  function Tidy(v: Json, normal: G.Normalizer, numbers: bool): Json
    decreases v
  {
    match v
    case Num(raw) => Num(if numbers then Number(raw) else raw)
    case Str(s) => Str(Text(s, normal))
    case Arr(items) => Arr(TidyItems(items, normal, numbers))
    case Obj(members) => Obj(TidyMembers(members, normal, numbers))
    case Null => v case Bool(_) => v
  }

  function TidyItems(items: seq<Json>, normal: G.Normalizer, numbers: bool): (r: seq<Json>)
    ensures |r| == |items| && forall i :: 0 <= i < |items| ==> r[i] == Tidy(items[i], normal, numbers)
    decreases items
  {
    if items == [] then [] else [Tidy(items[0], normal, numbers)] + TidyItems(items[1..], normal, numbers)
  }

  function TidyMembers(ms: seq<Member>, normal: G.Normalizer, numbers: bool): (r: seq<Member>)
    ensures |r| == |ms|
    ensures forall i :: 0 <= i < |ms| ==> r[i] == Member(Text(ms[i].key, normal), Tidy(ms[i].value, normal, numbers))
    decreases ms
  {
    if ms == [] then []
    else [Member(Text(ms[0].key, normal), Tidy(ms[0].value, normal, numbers))] + TidyMembers(ms[1..], normal, numbers)
  }

  /** Every key has a normal form, and no two have the same. */
  predicate KeysNormalize(ms: seq<Member>, normal: G.Normalizer) {
    && (forall i :: 0 <= i < |ms| ==> normal(ms[i].key).Some?)
    && (forall i, j :: 0 <= i < j < |ms| ==> normal(ms[i].key) != normal(ms[j].key))
  }

  predicate Unseen(ms: seq<Member>, normal: G.Normalizer, seen: set<string>) {
    forall i :: 0 <= i < |ms| ==> normal(ms[i].key).Some? && normal(ms[i].key).value !in seen
  }

  lemma KeysStep(ms: seq<Member>, normal: G.Normalizer, seen: set<string>)
    requires ms != []
    ensures KeysNormalize(ms, normal) && Unseen(ms, normal, seen) <==>
            && normal(ms[0].key).Some? && normal(ms[0].key).value !in seen
            && KeysNormalize(ms[1..], normal) && Unseen(ms[1..], normal, seen + {normal(ms[0].key).value})
  {
    var rest := ms[1..];
    assert forall i :: 1 <= i < |ms| ==> ms[i] == rest[i - 1];
    if KeysNormalize(ms, normal) && Unseen(ms, normal, seen) {
      forall i | 0 <= i < |rest|
        ensures normal(rest[i].key).Some? && normal(rest[i].key).value !in seen + {normal(ms[0].key).value}
      {
        assert rest[i] == ms[i + 1] && normal(ms[0].key) != normal(ms[i + 1].key);
      }
      forall i, j | 0 <= i < j < |rest| ensures normal(rest[i].key) != normal(rest[j].key) {
        assert rest[i] == ms[i + 1] && rest[j] == ms[j + 1];
      }
    }
  }

  // ----- The guard -----

  predicate Decodable(v: Json, normal: G.Normalizer, depth: nat)
    decreases v
  {
    && depth <= G.MAX_DEPTH
    && match v
       case Num(raw) => D.NormalizeNumber(raw).Ok?
       case Str(s) => normal(s).Some?
       case Arr(items) =>
         |items| <= G.MAX_ARRAY_ITEMS && forall i :: 0 <= i < |items| ==> Decodable(items[i], normal, depth + 1)
       case Obj(members) =>
         && |members| <= G.MAX_OBJECT_KEYS && KeysNormalize(members, normal)
         && forall i :: 0 <= i < |members| ==> Decodable(members[i].value, normal, depth + 1)
       case Null => true case Bool(_) => true
  }

  /** The guard decodes a value exactly if it is decodable, and to its normal form. */
  lemma {:induction false} DecodeExactly(v: Json, normal: G.Normalizer, depth: nat)
    ensures G.Decode(v, normal, depth).Ok? <==> Decodable(v, normal, depth)
    ensures G.Decode(v, normal, depth).Ok? ==> G.Decode(v, normal, depth).value == Tidy(v, normal, true)
    decreases v, 0
  {
    hide D.NormalizeNumber;
    match v
    case Arr(items) => if depth <= G.MAX_DEPTH { ItemsExactly(items, normal, depth + 1, 0); }
    case Obj(members) =>
      if depth <= G.MAX_DEPTH {
        NothingSeen(members, normal);
        MembersExactly(members, normal, depth + 1, {});
      }
    case Null => case Bool(_) => case Num(_) => case Str(_) =>
  }

  lemma NothingSeen(ms: seq<Member>, normal: G.Normalizer)
    ensures KeysNormalize(ms, normal) ==> Unseen(ms, normal, {})
  {
  }

  lemma {:induction false} ItemsExactly(items: seq<Json>, normal: G.Normalizer, depth: nat, taken: nat)
    requires taken <= G.MAX_ARRAY_ITEMS
    ensures var r := G.DecodeItems(items, normal, depth, taken);
            && (r.Ok? <==> taken + |items| <= G.MAX_ARRAY_ITEMS
                           && forall i :: 0 <= i < |items| ==> Decodable(items[i], normal, depth))
            && (r.Ok? ==> r.value == TidyItems(items, normal, true))
    decreases items, 1
  {
    hide Decodable;
    if items != [] {
      DecodeExactly(items[0], normal, depth);
      if taken < G.MAX_ARRAY_ITEMS { ItemsExactly(items[1..], normal, depth, taken + 1); }
      assert forall i :: 1 <= i < |items| ==> items[i] == items[1..][i - 1];
    }
  }

  lemma {:induction false} MembersExactly(ms: seq<Member>, normal: G.Normalizer, depth: nat, seen: set<string>)
    requires |seen| <= G.MAX_OBJECT_KEYS
    ensures var r := G.DecodeMembers(ms, normal, depth, seen);
            && (r.Ok? <==>
                  && |seen| + |ms| <= G.MAX_OBJECT_KEYS && KeysNormalize(ms, normal) && Unseen(ms, normal, seen)
                  && forall i :: 0 <= i < |ms| ==> Decodable(ms[i].value, normal, depth))
            && (r.Ok? ==> r.value == TidyMembers(ms, normal, true))
    decreases ms, 1
  {
    hide Decodable, KeysNormalize, Unseen, G.Decode;
    if ms == [] {
      NoKeys(normal, seen);
    } else {
      KeysStep(ms, normal, seen);
      DecodeExactly(ms[0].value, normal, depth);
      var key := normal(ms[0].key);
      if key.Some? && key.value !in seen && |seen| < G.MAX_OBJECT_KEYS {
        MembersExactly(ms[1..], normal, depth, seen + {key.value});
      }
      assert forall i :: 1 <= i < |ms| ==> ms[i] == ms[1..][i - 1];
    }
  }

  lemma NoKeys(normal: G.Normalizer, seen: set<string>)
    ensures KeysNormalize([], normal) && Unseen([], normal, seen)
  {
  }

  // ----- The reference -----

  ghost predicate Capturable(v: Json, nfc: G.Normalizer, depth: nat)
    decreases v
  {
    match v
    case Num(raw) => R.NumberText(raw).Ok?
    case Str(s) => nfc(s).Some?
    case Arr(items) =>
      && depth < S.MAX_NESTING_DEPTH && |items| <= S.MAX_ARRAY_ITEMS
      && forall i :: 0 <= i < |items| ==> Capturable(items[i], nfc, depth + 1)
    case Obj(members) =>
      && depth < S.MAX_NESTING_DEPTH && |members| <= S.MAX_OBJECT_KEYS && KeysNormalize(members, nfc)
      && forall i :: 0 <= i < |members| ==> Capturable(members[i].value, nfc, depth + 1)
    case Null => true case Bool(_) => true
  }

  /** What a value is charged. */
  ghost function Cost(v: Json, nfc: G.Normalizer): nat
    decreases v
  {
    match v
    case Null => 5
    case Bool(_) => 5
    case Num(raw) => if R.NumberText(raw).Ok? then |R.NumberText(raw).value| else 0
    case Str(s) => G.Bytes(Text(s, nfc)) + 2
    case Arr(items) => 2 + CostOfItems(items, nfc)
    case Obj(members) => 2 + CostOfMembers(members, nfc)
  }

  ghost function CostOfItems(items: seq<Json>, nfc: G.Normalizer): nat
    decreases items
  {
    if items == [] then 0 else 1 + Cost(items[0], nfc) + CostOfItems(items[1..], nfc)
  }

  ghost function CostOfMembers(ms: seq<Member>, nfc: G.Normalizer): nat
    decreases ms
  {
    if ms == [] then 0
    else G.Bytes(Text(ms[0].key, nfc)) + 4 + Cost(ms[0].value, nfc) + CostOfMembers(ms[1..], nfc)
  }

  /** The reference captures a value exactly if it is capturable and its whole charge fits: no
      check on the way matters. */
  lemma {:induction false} CaptureExactly(v: Json, nfc: G.Normalizer, depth: nat, used: nat)
    ensures var r := R.Capture(v, nfc, depth, used);
            && (r.Ok? <==> Capturable(v, nfc, depth) && used + Cost(v, nfc) <= S.MAX_INPUT_BYTES)
            && (r.Ok? ==> r.value == R.Captured(Tidy(v, nfc, false), used + Cost(v, nfc)))
    decreases v, 0
  {
    hide R.NumberText, G.Bytes;
    match v
    case Arr(items) =>
      if depth < S.MAX_NESTING_DEPTH && used + 2 <= S.MAX_INPUT_BYTES {
        ItemsCaptured(items, nfc, depth + 1, used + 2, 0);
      }
    case Obj(members) =>
      if depth < S.MAX_NESTING_DEPTH && used + 2 <= S.MAX_INPUT_BYTES {
        NothingSeen(members, nfc);
        MembersCaptured(members, nfc, depth + 1, used + 2, {});
      }
    case Null => case Bool(_) => case Num(_) => case Str(_) =>
  }

  lemma {:induction false} ItemsCaptured(items: seq<Json>, nfc: G.Normalizer, depth: nat, used: nat, taken: nat)
    requires taken <= S.MAX_ARRAY_ITEMS && used <= S.MAX_INPUT_BYTES
    ensures var r := R.CaptureItems(items, nfc, depth, used, taken);
            && (r.Ok? <==>
                  && taken + |items| <= S.MAX_ARRAY_ITEMS && used + CostOfItems(items, nfc) <= S.MAX_INPUT_BYTES
                  && forall i :: 0 <= i < |items| ==> Capturable(items[i], nfc, depth))
            && (r.Ok? ==> r.value == R.Captured(TidyItems(items, nfc, false), used + CostOfItems(items, nfc)))
    decreases items, 1
  {
    hide Capturable, Cost, R.Capture;
    if items != [] {
      CaptureExactly(items[0], nfc, depth, used + 1);
      var next := used + 1 + Cost(items[0], nfc);
      if taken < S.MAX_ARRAY_ITEMS && next <= S.MAX_INPUT_BYTES {
        ItemsCaptured(items[1..], nfc, depth, next, taken + 1);
      }
      assert forall i :: 1 <= i < |items| ==> items[i] == items[1..][i - 1];
    }
  }

  lemma {:induction false} MembersCaptured(ms: seq<Member>, nfc: G.Normalizer, depth: nat, used: nat,
                                           seen: set<string>)
    requires |seen| <= S.MAX_OBJECT_KEYS && used <= S.MAX_INPUT_BYTES
    ensures var r := R.CaptureMembers(ms, nfc, depth, used, seen);
            && (r.Ok? <==>
                  && |seen| + |ms| <= S.MAX_OBJECT_KEYS && used + CostOfMembers(ms, nfc) <= S.MAX_INPUT_BYTES
                  && KeysNormalize(ms, nfc) && Unseen(ms, nfc, seen)
                  && forall i :: 0 <= i < |ms| ==> Capturable(ms[i].value, nfc, depth))
            && (r.Ok? ==> r.value == R.Captured(TidyMembers(ms, nfc, false), used + CostOfMembers(ms, nfc)))
    decreases ms, 1
  {
    hide Capturable, Cost, R.Capture, KeysNormalize, Unseen, G.Bytes;
    if ms == [] {
      NoKeys(nfc, seen);
    } else {
      KeysStep(ms, nfc, seen);
      var start := used + G.Bytes(Text(ms[0].key, nfc)) + 4;
      CaptureExactly(ms[0].value, nfc, depth, start);
      var key, next := nfc(ms[0].key), start + Cost(ms[0].value, nfc);
      if key.Some? && key.value !in seen && |seen| < S.MAX_OBJECT_KEYS && next <= S.MAX_INPUT_BYTES {
        MembersCaptured(ms[1..], nfc, depth, next, seen + {key.value});
      }
      assert forall i :: 1 <= i < |ms| ==> ms[i] == ms[1..][i - 1];
    }
  }

  // ----- Captured values are always encoded -----

  ghost predicate Settled(v: Json, nfc: G.Normalizer)
    decreases v
  {
    match v
    case Num(raw) => R.NumberText(raw).Ok?
    case Str(s) => nfc(s) == Some(s)
    case Arr(items) => forall i :: 0 <= i < |items| ==> Settled(items[i], nfc)
    case Obj(members) =>
      && DistinctKeys(members)
      && forall i :: 0 <= i < |members| ==>
           nfc(members[i].key) == Some(members[i].key) && Settled(members[i].value, nfc)
    case Null => true case Bool(_) => true
  }

  lemma {:induction false} TidyIsSettled(v: Json, nfc: G.Normalizer, depth: nat)
    requires G.Stable(nfc) && Capturable(v, nfc, depth)
    ensures Settled(Tidy(v, nfc, false), nfc)
    decreases v
  {
    hide R.NumberText;
    match v
    case Arr(items) =>
      forall i | 0 <= i < |items| ensures Settled(Tidy(items[i], nfc, false), nfc) {
        TidyIsSettled(items[i], nfc, depth + 1);
      }
    case Obj(members) =>
      forall i | 0 <= i < |members| ensures Settled(Tidy(members[i].value, nfc, false), nfc) {
        TidyIsSettled(members[i].value, nfc, depth + 1);
      }
      TidyKeys(members, nfc);
    case Null => case Bool(_) => case Num(_) => case Str(_) =>
  }

  lemma TidyKeys(ms: seq<Member>, nfc: G.Normalizer)
    requires G.Stable(nfc) && KeysNormalize(ms, nfc)
    ensures var r := TidyMembers(ms, nfc, false);
            DistinctKeys(r) && forall i :: 0 <= i < |r| ==> nfc(r[i].key) == Some(r[i].key)
  {
    hide Tidy;
  }

  lemma {:induction false} SettledEncodes(v: Json, nfc: G.Normalizer)
    requires Settled(v, nfc)
    ensures R.EncodeReference(v, nfc).Ok?
    decreases v, 0
  {
    hide R.NumberText;
    match v
    case Arr(items) => ItemsSettled(items, nfc);
    case Obj(members) => ObjectSettled(members, nfc);
    case Null => case Bool(_) => case Num(_) => case Str(_) =>
  }

  lemma {:induction false} ItemsSettled(items: seq<Json>, nfc: G.Normalizer)
    requires forall i :: 0 <= i < |items| ==> Settled(items[i], nfc)
    ensures R.EncodeItems(items, nfc).Ok?
    decreases items, 1
  {
    hide Settled, R.EncodeReference;
    if items != [] {
      SettledEncodes(items[0], nfc);
      ItemsSettled(items[1..], nfc);
    }
  }

  lemma ObjectSettled(ms: seq<Member>, nfc: G.Normalizer)
    requires Settled(Obj(ms), nfc)
    ensures R.EncodeReference(Obj(ms), nfc).Ok?
    decreases ms, 2 + |ms|
  {
    hide R.EncodeFields, Sort;
    R.RenamedSettled(ms, nfc, {});
    R.SortedFrom(ms, ms);
    R.SortHolds(ms);
    forall m | m in Sort(ms) ensures nfc(m.key) == Some(m.key) && Settled(m.value, nfc) { Listed(ms, m, nfc); }
    FieldsSettled(ms, Sort(ms), nfc);
  }

  lemma Listed(ms: seq<Member>, m: Member, nfc: G.Normalizer)
    requires Settled(Obj(ms), nfc) && m in ms
    ensures nfc(m.key) == Some(m.key) && Settled(m.value, nfc)
  {
    var i :| 0 <= i < |ms| && ms[i] == m;
  }

  lemma {:induction false} FieldsSettled(ms: seq<Member>, sorted: seq<Member>, nfc: G.Normalizer)
    requires R.FromMembers(ms, sorted)
    requires forall m :: m in sorted ==> nfc(m.key) == Some(m.key) && Settled(m.value, nfc)
    ensures R.EncodeFields(ms, sorted, nfc).Ok?
    decreases ms, 1 + |sorted|
  {
    hide Settled, R.EncodeReference;
    if sorted != [] {
      assert sorted[0] in sorted && R.HasValue(ms, sorted[0].value);
      var i :| 0 <= i < |ms| && ms[i].value == sorted[0].value;
      assert ms[i].value < ms[i];
      SettledEncodes(sorted[0].value, nfc);
      assert forall m :: m in sorted[1..] ==> m in sorted;
      FieldsSettled(ms, sorted[1..], nfc);
    }
  }

  // ----- Whole inputs -----

  /** The guard canonicalizes an input exactly if it and its text are short enough and the value it
      spells is decodable; the text is that of the value's normal form. */
  lemma GuardAcceptsExactly(input: string, parse: G.Parser, normal: G.Normalizer, text: string)
    ensures G.Canonicalize(input, parse, normal) == G.Ok(text) <==>
            && G.Bytes(input) <= G.MAX_JSON_BYTES && parse(input).Some? && Decodable(parse(input).value, normal, 0)
            && text == Encode(Tidy(parse(input).value, normal, true)) && G.Bytes(text) <= G.MAX_JSON_BYTES
  {
    hide G.Decode, Decodable, Tidy, G.Bytes, Encode;
    if parse(input).Some? { DecodeExactly(parse(input).value, normal, 0); }
  }

  /** The reference canonicalizes an input exactly if it and its text are short enough, the value it
      spells is capturable and its charge is within the limit. */
  lemma ReferenceAcceptsExactly(input: string, parse: G.Parser, nfc: G.Normalizer)
    requires G.Stable(nfc)
    ensures R.Canonicalize(input, parse, nfc).Ok? <==>
            && G.Bytes(input) <= S.MAX_INPUT_BYTES && parse(input).Some?
            && var v := parse(input).value;
            && Capturable(v, nfc, 0) && Cost(v, nfc) <= S.MAX_INPUT_BYTES
            && R.EncodeReference(Tidy(v, nfc, false), nfc).Ok?
            && G.Bytes(R.EncodeReference(Tidy(v, nfc, false), nfc).value) <= S.MAX_INPUT_BYTES
    ensures parse(input).Some? && Capturable(parse(input).value, nfc, 0) ==>
              R.EncodeReference(Tidy(parse(input).value, nfc, false), nfc).Ok?
  {
    hide R.Capture, Capturable, Tidy, G.Bytes, R.EncodeReference, Cost, G.Stable;
    if parse(input).Some? {
      CaptureExactly(parse(input).value, nfc, 0, 0);
      if Capturable(parse(input).value, nfc, 0) {
        TidyIsSettled(parse(input).value, nfc, 0);
        SettledEncodes(Tidy(parse(input).value, nfc, false), nfc);
      }
    }
  }
}
