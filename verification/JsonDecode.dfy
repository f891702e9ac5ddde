/** The guard's `CanonicalJSON`: parse, normalise strings and numbers under the portable limits,
    encode.  String normalisation (NFC and the characters it refuses) is a parameter. */
module JsonDecode {
  import opened Protocol
  import opened CanonicalJson
  import opened CanonicalOrder
  import D = Decimal
  import U = Utf8

  const MAX_DEPTH: int := 32
  const MAX_OBJECT_KEYS: int := 256
  const MAX_ARRAY_ITEMS: int := 1024
  const MAX_JSON_BYTES: int := 65_536

  datatype Error =
    | InputTooLarge | InvalidJson | NestingTooDeep | DuplicateKey | TooManyKeys | TooManyItems
    | InvalidString | InvalidNumber(cause: D.Error)

  datatype Result<+T> = Ok(value: T) | Err(error: Error)

  type Normalizer = string -> Option<string>

  /** What the JSON decoder makes of a text, white space and escapes included; numbers keep their text. */
  type Parser = string -> Option<Json>

  /** The parser reads the encoder's texts back. */
  ghost predicate Inverts(parse: Parser) {
    forall v :: Valid(v) ==> parse(Text(v)) == Some(v)
  }

  /** A normalised string is its own normalisation. */
  ghost predicate Stable(normal: Normalizer) {
    forall s :: normal(s).Some? ==> normal(normal(s).value) == normal(s)
  }

  // ----- Decoding -----

  function Decode(v: Json, normal: Normalizer, depth: nat): (r: Result<Json>)
    decreases v, 0
  {
    if depth > MAX_DEPTH then Err(NestingTooDeep)
    else
      match v
      case Null => Ok(v)
      case Bool(_) => Ok(v)
      case Num(text) =>
        var n := D.NormalizeNumber(text);
        if n.Err? then Err(InvalidNumber(n.error)) else Ok(Num(n.text))
      case Str(s) => if normal(s).None? then Err(InvalidString) else Ok(Str(normal(s).value))
      case Arr(items) =>
        var r := DecodeItems(items, normal, depth + 1, 0);
        if r.Err? then Err(r.error) else Ok(Arr(r.value))
      case Obj(members) =>
        var r := DecodeMembers(members, normal, depth + 1, {});
        if r.Err? then Err(r.error) else Ok(Obj(r.value))
  }

  function DecodeItems(items: seq<Json>, normal: Normalizer, depth: nat, taken: nat): (r: Result<seq<Json>>)
    decreases items, 1
  {
    if items == [] then Ok([])
    else if taken >= MAX_ARRAY_ITEMS then Err(TooManyItems)
    else
      var first := Decode(items[0], normal, depth);
      if first.Err? then Err(first.error)
      else
        var rest := DecodeItems(items[1..], normal, depth, taken + 1);
        if rest.Err? then rest else Ok([first.value] + rest.value)
  }

  function DecodeMembers(ms: seq<Member>, normal: Normalizer, depth: nat, seen: set<string>): (r: Result<seq<Member>>)
    decreases ms, 1
  {
    if ms == [] then Ok([])
    else
      var key := normal(ms[0].key);
      if key.None? then Err(InvalidString)
      else if key.value in seen then Err(DuplicateKey)
      else if |seen + {key.value}| > MAX_OBJECT_KEYS then Err(TooManyKeys)
      else
        var first := Decode(ms[0].value, normal, depth);
        if first.Err? then Err(first.error)
        else
          var rest := DecodeMembers(ms[1..], normal, depth, seen + {key.value});
          if rest.Err? then rest else Ok([Member(key.value, first.value)] + rest.value)
  }

  function Bytes(text: string): nat { |U.EncodeAll(Codes(text))| }

  function Canonicalize(input: string, parse: Parser, normal: Normalizer): (r: Result<string>) {
    if Bytes(input) > MAX_JSON_BYTES then Err(InputTooLarge)
    else
      var parsed := parse(input);
      if parsed.None? then Err(InvalidJson)
      else
        var v := Decode(parsed.value, normal, 0);
        if v.Err? then Err(v.error)
        else if Bytes(Encode(v.value)) > MAX_JSON_BYTES then Err(InputTooLarge)
        else Ok(Encode(v.value))
  }

  // ----- What decoding accepts -----

  /** A value that decoding leaves as it is. */
  predicate Fit(v: Json, normal: Normalizer, depth: nat)
    decreases v
  {
    && depth <= MAX_DEPTH
    && match v
       case Num(text) => D.NormalizeNumber(text) == D.Ok(text)
       case Str(s) => normal(s) == Some(s)
       case Arr(items) =>
         |items| <= MAX_ARRAY_ITEMS && forall i :: 0 <= i < |items| ==> Fit(items[i], normal, depth + 1)
       case Obj(members) =>
         && |members| <= MAX_OBJECT_KEYS && DistinctKeys(members)
         && forall i :: 0 <= i < |members| ==>
              normal(members[i].key) == Some(members[i].key) && Fit(members[i].value, normal, depth + 1)
       case Null => true case Bool(_) => true
  }

  lemma {:induction false} FitIsValid(v: Json, normal: Normalizer, depth: nat)
    requires Fit(v, normal, depth)
    ensures Valid(v)
    decreases v
  {
    match v
    case Arr(items) => forall i | 0 <= i < |items| ensures Valid(items[i]) { FitIsValid(items[i], normal, depth + 1); }
    case Obj(members) =>
      forall i | 0 <= i < |members| ensures Valid(members[i].value) { FitIsValid(members[i].value, normal, depth + 1); }
    case Null => case Bool(_) => case Num(_) => case Str(_) =>
  }

  /** Whatever decoding returns is fit. */
  lemma {:induction false} DecodeIsFit(v: Json, normal: Normalizer, depth: nat)
    requires Stable(normal) && Decode(v, normal, depth).Ok?
    ensures Fit(Decode(v, normal, depth).value, normal, depth)
    decreases v, 0
  {
    hide D.NormalizeNumber;
    match v
    case Num(text) => D.NumberTextIsNormal(text);
    case Arr(items) => ItemsAreFit(items, normal, depth + 1, 0);
    case Obj(members) => MembersAreFit(members, normal, depth + 1, {});
    case Null => case Bool(_) => case Str(_) =>
  }

  lemma {:induction false} ItemsAreFit(items: seq<Json>, normal: Normalizer, depth: nat, taken: nat)
    requires Stable(normal) && DecodeItems(items, normal, depth, taken).Ok? && taken <= MAX_ARRAY_ITEMS
    ensures var r := DecodeItems(items, normal, depth, taken).value;
            taken + |r| <= MAX_ARRAY_ITEMS && forall i :: 0 <= i < |r| ==> Fit(r[i], normal, depth)
    decreases items, 1
  {
    if items != [] {
      DecodeIsFit(items[0], normal, depth);
      ItemsAreFit(items[1..], normal, depth, taken + 1);
    }
  }

  lemma {:induction false} MembersAreFit(ms: seq<Member>, normal: Normalizer, depth: nat, seen: set<string>)
    requires Stable(normal) && DecodeMembers(ms, normal, depth, seen).Ok? && |seen| <= MAX_OBJECT_KEYS
    ensures var r := DecodeMembers(ms, normal, depth, seen).value;
            && |seen| + |r| <= MAX_OBJECT_KEYS && DistinctKeys(r)
            && forall i :: 0 <= i < |r| ==>
                 r[i].key !in seen && normal(r[i].key) == Some(r[i].key) && Fit(r[i].value, normal, depth)
    decreases ms, 1
  {
    if ms != [] {
      var key := normal(ms[0].key).value;
      DecodeIsFit(ms[0].value, normal, depth);
      MembersAreFit(ms[1..], normal, depth, seen + {key});
    }
  }

  /** A fit value decodes to itself. */
  lemma {:induction false} FitDecodes(v: Json, normal: Normalizer, depth: nat)
    requires Fit(v, normal, depth)
    ensures Decode(v, normal, depth) == Ok(v)
    decreases v, 0
  {
    match v
    case Arr(items) => ItemsDecode(items, normal, depth + 1, 0);
    case Obj(members) => MembersDecode(members, normal, depth + 1, {});
    case Null => case Bool(_) => case Num(_) => case Str(_) =>
  }

  lemma {:induction false} ItemsDecode(items: seq<Json>, normal: Normalizer, depth: nat, taken: nat)
    requires taken + |items| <= MAX_ARRAY_ITEMS && forall i :: 0 <= i < |items| ==> Fit(items[i], normal, depth)
    ensures DecodeItems(items, normal, depth, taken) == Ok(items)
    decreases items, 1
  {
    if items != [] {
      FitDecodes(items[0], normal, depth);
      ItemsDecode(items[1..], normal, depth, taken + 1);
      assert items == [items[0]] + items[1..];
    }
  }

  lemma {:induction false} MembersDecode(ms: seq<Member>, normal: Normalizer, depth: nat, seen: set<string>)
    requires |seen| + |ms| <= MAX_OBJECT_KEYS && DistinctKeys(ms)
    requires forall i :: 0 <= i < |ms| ==>
               ms[i].key !in seen && normal(ms[i].key) == Some(ms[i].key) && Fit(ms[i].value, normal, depth)
    ensures DecodeMembers(ms, normal, depth, seen) == Ok(ms)
    decreases ms, 1
  {
    if ms != [] {
      FitDecodes(ms[0].value, normal, depth);
      MembersDecode(ms[1..], normal, depth, seen + {ms[0].key});
      assert ms == [ms[0]] + ms[1..];
    }
  }

  /** Sorting members keeps a value fit. */
  lemma {:induction false} CanonIsFit(v: Json, normal: Normalizer, depth: nat)
    requires Fit(v, normal, depth)
    ensures Fit(Canon(v), normal, depth)
    decreases v
  {
    match v
    case Arr(items) =>
      forall i | 0 <= i < |items| ensures Fit(Canon(items[i]), normal, depth + 1) {
        CanonIsFit(items[i], normal, depth + 1);
      }
    case Obj(members) =>
      var cs := CanonMembers(members);
      CanonMembersDistinct(members);
      SortSorts(cs);
      InOrderIsDistinct(Sort(cs));
      forall i | 0 <= i < |members| ensures Fit(Canon(members[i].value), normal, depth + 1) {
        CanonIsFit(members[i].value, normal, depth + 1);
      }
      forall i | 0 <= i < |Sort(cs)|
        ensures normal(Sort(cs)[i].key) == Some(Sort(cs)[i].key) && Fit(Sort(cs)[i].value, normal, depth + 1)
      {
        assert Sort(cs)[i] in cs;
        var k :| 0 <= k < |cs| && cs[k] == Sort(cs)[i];
      }
    case Null => case Bool(_) => case Num(_) => case Str(_) =>
  }

  /** A parser that inverts the encoder exists. */
  lemma ParseInverts()
    ensures Inverts(Parse)
  {
    forall v | Valid(v) ensures Parse(Text(v)) == Some(v) { ParseInvertsText(v); }
  }

  /** Canonical text is its own canonical text, whatever the parser accepts beyond it. */
  lemma CanonicalizeIsIdempotent(input: string, parse: Parser, normal: Normalizer)
    requires Stable(normal) && Inverts(parse) && Canonicalize(input, parse, normal).Ok?
    ensures Canonicalize(Canonicalize(input, parse, normal).value, parse, normal) == Canonicalize(input, parse, normal)
  {
    hide Stable, Decode, Fit, Bytes, Canon, Text, Valid;
    var v := Decode(parse(input).value, normal, 0).value;
    DecodeIsFit(parse(input).value, normal, 0);
    CanonIsFit(v, normal, 0);
    FitIsValid(v, normal, 0);
    CanonIsValid(v);
    FitDecodes(Canon(v), normal, 0);
    CanonKeepsMeaning(v);
    MeaningDecidesCanon(Canon(v), v);
  }

  /** Two inputs have the same canonical text exactly if they decode to the same meaning. */
  lemma SameTextSameMeaning(a: string, b: string, parse: Parser, normal: Normalizer)
    requires Stable(normal) && Canonicalize(a, parse, normal).Ok? && Canonicalize(b, parse, normal).Ok?
    ensures Canonicalize(a, parse, normal) == Canonicalize(b, parse, normal) <==>
            MeaningOf(Decode(parse(a).value, normal, 0).value) == MeaningOf(Decode(parse(b).value, normal, 0).value)
  {
    hide Stable, Decode, Fit, Bytes, Canon, Text;
    var v, w := Decode(parse(a).value, normal, 0).value, Decode(parse(b).value, normal, 0).value;
    DecodeIsFit(parse(a).value, normal, 0);
    DecodeIsFit(parse(b).value, normal, 0);
    FitIsValid(v, normal, 0);
    FitIsValid(w, normal, 0);
    EqualTextIsEqualMeaning(v, w);
  }
}
