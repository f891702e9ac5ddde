/** The guard's encoder: sort the pairs of an object, then write item after item to a buffer. */
module JsonEncode {
  import opened CanonicalJson
  import opened CanonicalOrder

  /** Insertion sort of the pairs, by the bytes of their keys. */
  method SortPairs(ms: seq<Member>) returns (sorted: seq<Member>)
    requires DistinctKeys(ms)
    ensures InByteOrder(sorted) && multiset(sorted) == multiset(ms)
  {
    sorted := [];
    var i := 0;
    while i < |ms|
      invariant 0 <= i <= |ms| && InByteOrder(sorted) && multiset(sorted) == multiset(ms[..i])
    {
      assert ms[..i + 1] == ms[..i] + [ms[i]];
      forall m | m in sorted ensures m.key != ms[i].key { assert m in multiset(ms[..i]); }
      sorted := InsertPair(sorted, ms[i]);
      i := i + 1;
    }
    assert ms[..|ms|] == ms;
  }

  method InsertPair(ms: seq<Member>, m: Member) returns (out: seq<Member>)
    requires InByteOrder(ms) && forall x :: x in ms ==> x.key != m.key
    ensures InByteOrder(out) && multiset(out) == multiset(ms) + multiset{m}
  {
    hide InByteOrder, BytesLess;
    var i := |ms|;
    while i > 0 && BytesLess(m.key, ms[i - 1].key)
      invariant 0 <= i <= |ms|
      invariant forall k :: i <= k < |ms| ==> BytesLess(m.key, ms[k].key)
    {
      i := i - 1;
    }
    out := ms[..i] + [m] + ms[i..];
    assert ms == ms[..i] + ms[i..];
    forall k | 0 <= k < i ensures BytesLess(ms[k].key, m.key) { EarlierIsLess(ms, k, i - 1, m); }
    PlacedInOrder(ms, i, m);
  }

  lemma EarlierIsLess(ms: seq<Member>, k: int, i: int, m: Member)
    requires InByteOrder(ms) && 0 <= k <= i < |ms|
    requires !BytesLess(m.key, ms[i].key) && forall x :: x in ms ==> x.key != m.key
    ensures BytesLess(ms[k].key, m.key)
  {
    hide BytesLess, KeyLess;
    assert ms[i] in ms;
    KeyOrdersAgree(m.key, ms[i].key);
    KeyOrdersAgree(ms[k].key, ms[i].key);
    KeyOrdersAgree(ms[k].key, m.key);
    KeysCompare(ms[i].key, m.key);
    if k < i { KeysTransitive(ms[k].key, ms[i].key, m.key); }
  }

  lemma PlacedInOrder(ms: seq<Member>, i: nat, m: Member)
    requires InByteOrder(ms) && i <= |ms|
    requires forall k :: 0 <= k < i ==> BytesLess(ms[k].key, m.key)
    requires forall k :: i <= k < |ms| ==> BytesLess(m.key, ms[k].key)
    ensures InByteOrder(ms[..i] + [m] + ms[i..])
  {
    hide BytesLess;
    var out := ms[..i] + [m] + ms[i..];
    forall a, b | 0 <= a < b < |out| ensures BytesLess(out[a].key, out[b].key) {
      var x, y := if a > i then a - 1 else a, if b > i then b - 1 else b;
      assert a != i ==> out[a] == ms[x];
      assert b != i ==> out[b] == ms[y];
    }
  }

  /** Pairs sorted by bytes are sorted by code points. */
  lemma ByteOrderIsOrder(ms: seq<Member>)
    ensures InByteOrder(ms) <==> InOrder(ms)
  {
    hide BytesLess, KeyLess;
    forall i, j | 0 <= i < j < |ms| ensures BytesLess(ms[i].key, ms[j].key) <==> KeyLess(ms[i].key, ms[j].key) {
      KeyOrdersAgree(ms[i].key, ms[j].key);
    }
  }

  /** Sorting pairs and then canonicalising their values is canonicalising and then sorting. */
  lemma SortCommutes(ms: seq<Member>, sorted: seq<Member>)
    requires DistinctKeys(ms) && InOrder(sorted) && multiset(sorted) == multiset(ms)
    ensures Sort(CanonMembers(ms)) == CanonMembers(sorted)
  {
    var cs, ds := CanonMembers(ms), CanonMembers(sorted);
    CanonMembersDistinct(ms);
    SortSorts(cs);
    forall i, j | 0 <= i < j < |ds| ensures KeyLess(ds[i].key, ds[j].key) {
      assert KeyLess(sorted[i].key, sorted[j].key);
    }
    forall m ensures m in cs <==> m in ds {
      if m in cs {
        var i :| 0 <= i < |cs| && cs[i] == m;
        assert ms[i] in multiset(sorted);
        var k :| 0 <= k < |sorted| && sorted[k] == ms[i];
        assert ds[k] == m;
      }
      if m in ds {
        var k :| 0 <= k < |ds| && ds[k] == m;
        assert sorted[k] in multiset(ms);
        var i :| 0 <= i < |ms| && ms[i] == sorted[k];
        assert cs[i] == m;
      }
    }
    OrderIsUnique(Sort(cs), ds);
  }

  /** What is still to be written from position `i` on. */
  function ItemsFrom(items: seq<Json>, i: nat): string
    requires i <= |items|
  {
    if i == |items| then "" else (if i > 0 then "," else "") + ItemsText(items[i..])
  }

  function MembersFrom(ms: seq<Member>, i: nat): string
    requires i <= |ms|
  {
    if i == |ms| then "" else (if i > 0 then "," else "") + MembersText(ms[i..])
  }

  lemma ItemsWhole(items: seq<Json>)
    ensures ItemsFrom(items, 0) == ItemsText(items) && ItemsFrom(items, |items|) == ""
  {
    hide ItemsText;
    EmptyItems();
    assert items[0..] == items;
    assert "" + ItemsText(items) == ItemsText(items);
  }

  lemma MembersWhole(ms: seq<Member>)
    ensures MembersFrom(ms, 0) == MembersText(ms) && MembersFrom(ms, |ms|) == ""
  {
    hide MembersText;
    EmptyItems();
    assert ms[0..] == ms;
    assert "" + MembersText(ms) == MembersText(ms);
  }

  lemma ItemStep(items: seq<Json>, i: nat)
    requires i < |items|
    ensures ItemsFrom(items, i) == (if i > 0 then "," else "") + Text(items[i]) + ItemsFrom(items, i + 1)
  {
    hide ItemsText, Text;
    ItemsStep(items[i..]);
    Assoc(if i > 0 then "," else "", Text(items[i]), ItemsFrom(items, i + 1));
    assert items[i..][0] == items[i] && items[i..][1..] == items[i + 1..];
  }

  lemma MemberStep(ms: seq<Member>, i: nat)
    requires i < |ms|
    ensures MembersFrom(ms, i) == (if i > 0 then "," else "") + MemberText(ms[i]) + MembersFrom(ms, i + 1)
  {
    hide MembersText, MemberText;
    assert ms[i..][0] == ms[i] && ms[i..][1..] == ms[i + 1..];
    MembersStep(ms[i..]);
    Assoc(if i > 0 then "," else "", MemberText(ms[i]), MembersFrom(ms, i + 1));
  }

  /** `encodeValue`. */
  method EncodeValue(v: Json) returns (text: string)
    requires Valid(v)
    ensures text == Encode(v)
    decreases v, 2
  {
    match v
    case Null => return "null";
    case Bool(b) => return if b then "true" else "false";
    case Num(n) => return n;
    case Str(s) => return Quote(s);
    case Arr(items) =>
      var body := EncodeItems(items);
      return "[" + body + "]";
    case Obj(members) =>
      var sorted := SortPairs(members);
      ByteOrderIsOrder(sorted);
      SortCommutes(members, sorted);
      var body := EncodeMembers(members, sorted);
      return "{" + body + "}";
  }

  method EncodeItems(items: seq<Json>) returns (buffer: string)
    requires forall i :: 0 <= i < |items| ==> Valid(items[i])
    ensures buffer == ItemsText(CanonItems(items))
    decreases items, 1
  {
    hide Text, ItemsText, ItemsFrom;
    ghost var cs := CanonItems(items);
    ItemsWhole(cs);
    buffer := "";
    var i := 0;
    while i < |items|
      invariant 0 <= i <= |items|
      invariant buffer + ItemsFrom(cs, i) == ItemsFrom(cs, 0)
    {
      ItemStep(cs, i);
      var encoded := EncodeValue(items[i]);
      var piece := (if i > 0 then "," else "") + encoded;
      Assoc(buffer, piece, ItemsFrom(cs, i + 1));
      buffer, i := buffer + piece, i + 1;
    }
    assert buffer + "" == buffer;
  }

  method EncodeMembers(ms: seq<Member>, sorted: seq<Member>) returns (buffer: string)
    requires multiset(sorted) == multiset(ms) && forall i :: 0 <= i < |ms| ==> Valid(ms[i].value)
    ensures buffer == MembersText(CanonMembers(sorted))
    decreases ms, 1
  {
    hide Text, Quote, MembersText, MembersFrom;
    ghost var cs := CanonMembers(sorted);
    MembersWhole(cs);
    buffer := "";
    var i := 0;
    while i < |sorted|
      invariant 0 <= i <= |sorted|
      invariant buffer + MembersFrom(cs, i) == MembersFrom(cs, 0)
    {
      MemberStep(cs, i);
      assert sorted[i] in multiset(ms);
      ghost var k :| 0 <= k < |ms| && ms[k] == sorted[i];
      assert ms[k].value < ms[k];
      var encoded := EncodeValue(sorted[i].value);
      var piece := (if i > 0 then "," else "") + (Quote(sorted[i].key) + ":" + encoded);
      Assoc(buffer, piece, MembersFrom(cs, i + 1));
      buffer, i := buffer + piece, i + 1;
    }
    assert buffer + "" == buffer;
  }
}
