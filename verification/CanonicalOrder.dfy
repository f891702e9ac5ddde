/** Canonical encoding of values whose members come in any order: sorted by key, written out.
    Equal text is equal meaning, and encoding decoded text again changes nothing. */
module CanonicalOrder {
  import opened CanonicalJson
  import U = Utf8

  // ----- Key order -----

  function Codes(s: string): seq<U.Scalar> {
    seq(|s|, i requires 0 <= i < |s| => s[i] as int)
  }

  /** By code points, as the reference sorts. */
  predicate KeyLess(a: string, b: string) { U.Lex(Codes(a), Codes(b)) < 0 }

  /** By UTF-8 bytes, as the guard sorts. */
  predicate BytesLess(a: string, b: string) { U.Lex(U.EncodeAll(Codes(a)), U.EncodeAll(Codes(b))) < 0 }

  /** Both encoders put keys in the same order. */
  lemma KeyOrdersAgree(a: string, b: string)
    ensures KeyLess(a, b) <==> BytesLess(a, b)
  {
    U.ByteOrderIsCodePointOrder(Codes(a), Codes(b));
  }

  lemma CodesInjective(a: string, b: string)
    ensures Codes(a) == Codes(b) <==> a == b
  {
    if Codes(a) == Codes(b) {
      assert |a| == |Codes(a)| == |b|;
      forall i | 0 <= i < |a| ensures a[i] == b[i] { assert Codes(a)[i] == Codes(b)[i]; }
    }
  }

  lemma KeysCompare(a: string, b: string)
    ensures a == b || KeyLess(a, b) || KeyLess(b, a)
    ensures !(KeyLess(a, b) && KeyLess(b, a)) && !KeyLess(a, a)
  {
    U.LexIsStrict(Codes(a), Codes(b));
    U.LexIsStrict(Codes(a), Codes(a));
    CodesInjective(a, b);
  }

  lemma KeysTransitive(a: string, b: string, c: string)
    requires KeyLess(a, b) && KeyLess(b, c)
    ensures KeyLess(a, c)
  {
    U.LexIsTransitive(Codes(a), Codes(b), Codes(c));
  }

  // ----- Sorting members -----

  predicate InOrder(ms: seq<Member>) {
    forall i, j :: 0 <= i < j < |ms| ==> KeyLess(ms[i].key, ms[j].key)
  }

  predicate InByteOrder(ms: seq<Member>) {
    forall i, j :: 0 <= i < j < |ms| ==> BytesLess(ms[i].key, ms[j].key)
  }

  function Insert(m: Member, ms: seq<Member>): seq<Member> {
    if ms == [] || KeyLess(m.key, ms[0].key) then [m] + ms else [ms[0]] + Insert(m, ms[1..])
  }

  function Sort(ms: seq<Member>): (r: seq<Member>)
    ensures |r| == |ms|
  {
    if ms == [] then [] else SizeOfInsert(ms[0], Sort(ms[1..])); Insert(ms[0], Sort(ms[1..]))
  }

  lemma {:induction false} SizeOfInsert(m: Member, ms: seq<Member>)
    ensures |Insert(m, ms)| == |ms| + 1
  {
    if ms != [] && !KeyLess(m.key, ms[0].key) { SizeOfInsert(m, ms[1..]); }
  }

  lemma {:induction false} InsertHolds(m: Member, ms: seq<Member>)
    ensures forall x :: x in Insert(m, ms) <==> x == m || x in ms
    decreases |ms|
  {
    if ms != [] && !KeyLess(m.key, ms[0].key) {
      InsertHolds(m, ms[1..]);
      assert ms == [ms[0]] + ms[1..];
    }
  }

  lemma {:induction false} InsertKeepsOrder(m: Member, ms: seq<Member>)
    requires InOrder(ms) && forall x :: x in ms ==> x.key != m.key
    ensures InOrder(Insert(m, ms))
    decreases |ms|
  {
    if ms != [] {
      var first := ms[0];
      assert first in ms;
      KeysCompare(m.key, first.key);
      if KeyLess(m.key, first.key) {
        FirstIsLess(m, ms);
      } else {
        TailInOrder(ms);
        InsertKeepsOrder(m, ms[1..]);
        InsertHolds(m, ms[1..]);
        PrependKeepsOrder(first, Insert(m, ms[1..]));
      }
    }
  }

  lemma TailInOrder(ms: seq<Member>)
    requires InOrder(ms) && ms != []
    ensures InOrder(ms[1..]) && forall x :: x in ms[1..] ==> x in ms && KeyLess(ms[0].key, x.key)
  {
    forall i, j | 0 <= i < j < |ms[1..]| ensures KeyLess(ms[1..][i].key, ms[1..][j].key) {
      assert KeyLess(ms[i + 1].key, ms[j + 1].key);
    }
  }

  lemma PrependKeepsOrder(first: Member, ms: seq<Member>)
    requires InOrder(ms) && forall x :: x in ms ==> KeyLess(first.key, x.key)
    ensures InOrder([first] + ms)
  {
    var all := [first] + ms;
    forall i, j | 0 <= i < j < |all| ensures KeyLess(all[i].key, all[j].key) {
      if i == 0 { assert all[j] in ms; } else { assert KeyLess(ms[i - 1].key, ms[j - 1].key); }
    }
  }

  lemma FirstIsLess(m: Member, ms: seq<Member>)
    requires InOrder(ms) && ms != [] && KeyLess(m.key, ms[0].key)
    ensures InOrder([m] + ms)
  {
    TailInOrder(ms);
    forall x | x in ms ensures KeyLess(m.key, x.key) {
      if x != ms[0] {
        assert x in ms[1..] by { var i :| 0 <= i < |ms| && ms[i] == x; assert ms[1..][i - 1] == x; }
        KeysTransitive(m.key, ms[0].key, x.key);
      }
    }
    PrependKeepsOrder(m, ms);
  }

  /** Sorting keeps the members and puts them in order. */
  lemma {:induction false} SortSorts(ms: seq<Member>)
    requires DistinctKeys(ms)
    ensures InOrder(Sort(ms)) && forall x :: x in Sort(ms) <==> x in ms
    decreases |ms|
  {
    if ms != [] {
      assert DistinctKeys(ms[1..]) by {
        forall i, j | 0 <= i < j < |ms[1..]| ensures ms[1..][i].key != ms[1..][j].key {
          assert ms[i + 1].key != ms[j + 1].key;
        }
      }
      SortSorts(ms[1..]);
      forall x | x in Sort(ms[1..]) ensures x.key != ms[0].key {
        var i :| 0 <= i < |ms[1..]| && ms[1..][i] == x;
        assert ms[i + 1] == x;
      }
      InsertKeepsOrder(ms[0], Sort(ms[1..]));
      InsertHolds(ms[0], Sort(ms[1..]));
      assert ms == [ms[0]] + ms[1..];
    }
  }

  lemma InOrderIsDistinct(ms: seq<Member>)
    requires InOrder(ms)
    ensures DistinctKeys(ms)
  {
    forall i, j | 0 <= i < j < |ms| ensures ms[i].key != ms[j].key { KeysCompare(ms[i].key, ms[j].key); }
  }

  /** There is one ordered sequence of given members. */
  lemma {:induction false} OrderIsUnique(a: seq<Member>, b: seq<Member>)
    requires InOrder(a) && InOrder(b) && forall x :: x in a <==> x in b
    ensures a == b
    decreases |a|
  {
    assert b != [] ==> b[0] in b;
    if a != [] {
      assert a[0] in a && a[0] in b;
      SameFirst(a, b);
      TailInOrder(a);
      TailInOrder(b);
      Tails(a);
      Tails(b);
      OrderIsUnique(a[1..], b[1..]);
      assert a == [a[0]] + a[1..] && b == [b[0]] + b[1..];
    }
  }

  lemma Tails(ms: seq<Member>)
    requires InOrder(ms) && ms != []
    ensures forall x :: x in ms[1..] <==> x in ms && x != ms[0]
  {
    TailInOrder(ms);
    KeysCompare(ms[0].key, ms[0].key);
    forall x | x in ms && x != ms[0] ensures x in ms[1..] {
      var i :| 0 <= i < |ms| && ms[i] == x;
      assert ms[1..][i - 1] == x;
    }
  }

  lemma SameFirst(a: seq<Member>, b: seq<Member>)
    requires InOrder(a) && InOrder(b) && a != [] && b != [] && forall x :: x in a <==> x in b
    ensures a[0] == b[0]
  {
    assert a[0] in a && b[0] in b;
    var i :| 0 <= i < |a| && a[i] == b[0];
    var j :| 0 <= j < |b| && b[j] == a[0];
    assert i > 0 ==> KeyLess(a[0].key, a[i].key);
    assert j > 0 ==> KeyLess(b[0].key, b[j].key);
    KeysCompare(a[0].key, b[0].key);
  }

  // ----- Canonical form -----

  function Canon(v: Json): (r: Json)
    decreases v
  {
    match v
    case Arr(items) => Arr(CanonItems(items))
    case Obj(members) => Obj(Sort(CanonMembers(members)))
    case Null => v case Bool(_) => v case Num(_) => v case Str(_) => v
  }

  function CanonItems(items: seq<Json>): (r: seq<Json>)
    ensures |r| == |items| && forall i :: 0 <= i < |items| ==> r[i] == Canon(items[i])
    decreases items
  {
    if items == [] then [] else [Canon(items[0])] + CanonItems(items[1..])
  }

  function CanonMembers(ms: seq<Member>): (r: seq<Member>)
    ensures |r| == |ms| && forall i :: 0 <= i < |ms| ==> r[i] == Member(ms[i].key, Canon(ms[i].value))
    decreases ms
  {
    if ms == [] then [] else [Member(ms[0].key, Canon(ms[0].value))] + CanonMembers(ms[1..])
  }

  /** The canonical text: members sorted at every level. */
  function Encode(v: Json): string { Text(Canon(v)) }

  lemma CanonMembersDistinct(ms: seq<Member>)
    requires DistinctKeys(ms)
    ensures DistinctKeys(CanonMembers(ms))
  {
  }

  lemma {:induction false} CanonIsValid(v: Json)
    requires Valid(v)
    ensures Valid(Canon(v))
    decreases v
  {
    match v
    case Arr(items) =>
      forall i | 0 <= i < |items| ensures Valid(Canon(items[i])) { CanonIsValid(items[i]); }
    case Obj(members) =>
      var cs := CanonMembers(members);
      CanonMembersDistinct(members);
      SortSorts(cs);
      InOrderIsDistinct(Sort(cs));
      forall i | 0 <= i < |members| ensures Valid(Canon(members[i].value)) { CanonIsValid(members[i].value); }
      forall i | 0 <= i < |Sort(cs)| ensures Valid(Sort(cs)[i].value) {
        assert Sort(cs)[i] in cs;
        var k :| 0 <= k < |cs| && cs[k] == Sort(cs)[i];
      }
    case Null => case Bool(_) => case Num(_) => case Str(_) =>
  }

  // ----- What a value means -----

  /** A value without member order. */
  datatype Meaning =
    | MNull | MBool(b: bool) | MNum(text: string) | MStr(s: string)
    | MArr(items: seq<Meaning>) | MObj(fields: map<string, Meaning>)

  function MeaningOf(v: Json): Meaning
    decreases v
  {
    match v
    case Null => MNull
    case Bool(b) => MBool(b)
    case Num(text) => MNum(text)
    case Str(s) => MStr(s)
    case Arr(items) => MArr(ItemMeanings(items))
    case Obj(members) => MObj(Fields(members))
  }

  function ItemMeanings(items: seq<Json>): (r: seq<Meaning>)
    ensures |r| == |items| && forall i :: 0 <= i < |items| ==> r[i] == MeaningOf(items[i])
    decreases items
  {
    if items == [] then [] else [MeaningOf(items[0])] + ItemMeanings(items[1..])
  }

  function Fields(ms: seq<Member>): map<string, Meaning>
    decreases ms
  {
    if ms == [] then map[] else Fields(ms[1..])[ms[0].key := MeaningOf(ms[0].value)]
  }

  lemma {:induction false} FieldsAre(ms: seq<Member>)
    requires DistinctKeys(ms)
    ensures forall k :: k in Fields(ms) <==> exists i :: 0 <= i < |ms| && ms[i].key == k
    ensures forall i :: 0 <= i < |ms| ==> Fields(ms)[ms[i].key] == MeaningOf(ms[i].value)
    decreases |ms|
  {
    if ms != [] {
      var rest := ms[1..];
      assert DistinctKeys(rest) by {
        forall i, j | 0 <= i < j < |rest| ensures rest[i].key != rest[j].key { assert ms[i + 1].key != ms[j + 1].key; }
      }
      FieldsAre(rest);
      forall k | k in Fields(ms) ensures exists i :: 0 <= i < |ms| && ms[i].key == k {
        if k != ms[0].key {
          assert k in Fields(rest);
          var i :| 0 <= i < |rest| && rest[i].key == k;
          assert ms[i + 1].key == k;
        }
      }
      forall i | 0 <= i < |ms| ensures ms[i].key in Fields(ms) && Fields(ms)[ms[i].key] == MeaningOf(ms[i].value) {
        if i > 0 { assert rest[i - 1] == ms[i] && ms[0].key != ms[i].key; }
      }
    }
  }

  /** One of the members has this key and this meaning. */
  ghost predicate HasField(ms: seq<Member>, key: string, meaning: Meaning) {
    exists i :: 0 <= i < |ms| && ms[i].key == key && MeaningOf(ms[i].value) == meaning
  }

  lemma FieldsHave(ms: seq<Member>, key: string)
    requires DistinctKeys(ms)
    ensures key in Fields(ms) ==> HasField(ms, key, Fields(ms)[key])
    ensures forall meaning :: HasField(ms, key, meaning) ==> key in Fields(ms) && Fields(ms)[key] == meaning
  {
    FieldsAre(ms);
  }

  /** Members with the same keys and meanings make the same fields. */
  lemma SameFields(a: seq<Member>, b: seq<Member>)
    requires DistinctKeys(a) && DistinctKeys(b)
    requires forall k, v :: HasField(a, k, v) <==> HasField(b, k, v)
    ensures Fields(a) == Fields(b)
  {
    hide HasField, Fields, DistinctKeys;
    forall k ensures k in Fields(a) <==> k in Fields(b) {
      FieldsHave(a, k);
      FieldsHave(b, k);
    }
    forall k | k in Fields(a) ensures Fields(a)[k] == Fields(b)[k] {
      FieldsHave(a, k);
      FieldsHave(b, k);
    }
  }

  /** Sorting at every level keeps the meaning. */
  lemma {:induction false} CanonKeepsMeaning(v: Json)
    requires Valid(v)
    ensures MeaningOf(Canon(v)) == MeaningOf(v)
    decreases v
  {
    match v
    case Arr(items) =>
      forall i | 0 <= i < |items| ensures MeaningOf(Canon(items[i])) == MeaningOf(items[i]) {
        CanonKeepsMeaning(items[i]);
      }
      assert ItemMeanings(CanonItems(items)) == ItemMeanings(items);
    case Obj(members) =>
      forall i | 0 <= i < |members| ensures MeaningOf(Canon(members[i].value)) == MeaningOf(members[i].value) {
        CanonKeepsMeaning(members[i].value);
      }
      ObjectKeepsMeaning(members);
    case Null => case Bool(_) => case Num(_) => case Str(_) =>
  }

  lemma ObjectKeepsMeaning(ms: seq<Member>)
    requires DistinctKeys(ms) && forall i :: 0 <= i < |ms| ==> MeaningOf(Canon(ms[i].value)) == MeaningOf(ms[i].value)
    ensures Fields(Sort(CanonMembers(ms))) == Fields(ms)
  {
    hide HasField, MeaningOf, Canon, Fields, Sort, InOrder, DistinctKeys;
    var cs := CanonMembers(ms);
    CanonMembersDistinct(ms);
    SortSorts(cs);
    InOrderIsDistinct(Sort(cs));
    forall k, v ensures HasField(Sort(cs), k, v) <==> HasField(ms, k, v) {
      SameMembersSameFields(Sort(cs), cs, k, v);
      SamePlacesSameFields(cs, ms, k, v);
    }
    SameFields(Sort(cs), ms);
  }

  lemma SamePlacesSameFields(a: seq<Member>, b: seq<Member>, key: string, meaning: Meaning)
    requires |a| == |b|
    requires forall i :: 0 <= i < |b| ==> a[i].key == b[i].key && MeaningOf(a[i].value) == MeaningOf(b[i].value)
    ensures HasField(a, key, meaning) <==> HasField(b, key, meaning)
  {
    hide MeaningOf;
  }

  lemma SameMembersSameFields(a: seq<Member>, b: seq<Member>, key: string, meaning: Meaning)
    requires forall x :: x in a <==> x in b
    ensures HasField(a, key, meaning) <==> HasField(b, key, meaning)
  {
    if HasField(a, key, meaning) { FieldCarries(a, b, key, meaning); }
    if HasField(b, key, meaning) { FieldCarries(b, a, key, meaning); }
  }

  lemma FieldCarries(a: seq<Member>, b: seq<Member>, key: string, meaning: Meaning)
    requires (forall x :: x in a ==> x in b) && HasField(a, key, meaning)
    ensures HasField(b, key, meaning)
  {
    var i :| 0 <= i < |a| && a[i].key == key && MeaningOf(a[i].value) == meaning;
    assert a[i] in b;
    var j :| 0 <= j < |b| && b[j] == a[i];
  }

  /** The meaning decides the canonical form. */
  lemma {:induction false} MeaningDecidesCanon(v: Json, w: Json)
    requires Valid(v) && Valid(w) && MeaningOf(v) == MeaningOf(w)
    ensures Canon(v) == Canon(w)
    decreases v
  {
    match v
    case Arr(items) =>
      forall i | 0 <= i < |items| ensures Canon(items[i]) == Canon(w.items[i]) {
        assert ItemMeanings(items)[i] == ItemMeanings(w.items)[i];
        MeaningDecidesCanon(items[i], w.items[i]);
      }
      assert CanonItems(items) == CanonItems(w.items);
    case Obj(members) =>
      FieldsAre(members);
      FieldsAre(w.members);
      forall i, j | 0 <= i < |members| && 0 <= j < |w.members| && members[i].key == w.members[j].key
        ensures Canon(members[i].value) == Canon(w.members[j].value)
      {
        MeaningDecidesCanon(members[i].value, w.members[j].value);
      }
      ObjectsAgree(members, w.members);
    case Null => case Bool(_) => case Num(_) => case Str(_) =>
  }

  lemma ObjectsAgree(a: seq<Member>, b: seq<Member>)
    requires DistinctKeys(a) && DistinctKeys(b) && Fields(a) == Fields(b)
    requires forall i, j :: 0 <= i < |a| && 0 <= j < |b| && a[i].key == b[j].key ==>
               Canon(a[i].value) == Canon(b[j].value)
    ensures Sort(CanonMembers(a)) == Sort(CanonMembers(b))
  {
    var x, y := CanonMembers(a), CanonMembers(b);
    CanonMembersDistinct(a);
    CanonMembersDistinct(b);
    SortSorts(x);
    SortSorts(y);
    MembersCarry(a, b);
    MembersCarry(b, a);
    OrderIsUnique(Sort(x), Sort(y));
  }

  lemma MembersCarry(a: seq<Member>, b: seq<Member>)
    requires DistinctKeys(a) && DistinctKeys(b) && Fields(a) == Fields(b)
    requires forall i, j :: 0 <= i < |a| && 0 <= j < |b| && a[i].key == b[j].key ==>
               Canon(a[i].value) == Canon(b[j].value)
    ensures forall m :: m in CanonMembers(a) ==> m in CanonMembers(b)
  {
    hide Canon;
    var x, y := CanonMembers(a), CanonMembers(b);
    FieldsAre(a);
    FieldsAre(b);
    forall m | m in x ensures m in y {
      var i :| 0 <= i < |x| && x[i] == m;
      assert a[i].key in Fields(b);
      var j :| 0 <= j < |b| && b[j].key == a[i].key;
      assert y[j] == m;
    }
  }

  /** Two values have the same canonical text exactly if they mean the same: equal bytes are equal
      values, and the order members came in never matters. */
  lemma EqualTextIsEqualMeaning(v: Json, w: Json)
    requires Valid(v) && Valid(w)
    ensures Encode(v) == Encode(w) <==> MeaningOf(v) == MeaningOf(w)
  {
    CanonIsValid(v);
    CanonIsValid(w);
    ParseInvertsText(Canon(v));
    ParseInvertsText(Canon(w));
    CanonKeepsMeaning(v);
    CanonKeepsMeaning(w);
    if MeaningOf(v) == MeaningOf(w) { MeaningDecidesCanon(v, w); }
  }
}
