/** Putting records in batch order. */
module QueueListing {
  import opened Protocol
  import opened QueueRecord
  import opened QueueDisk
  import opened QueueFence
  import opened QueuePlans

  predicate DistinctIds(items: seq<Envelope>) {
    forall i, j :: 0 <= i < j < |items| ==> Id(items[i]) != Id(items[j])
  }

  /** One step of the sort: `e` goes after everything that belongs before it. */
  method Insert(items: seq<Envelope>, e: Envelope) returns (out: seq<Envelope>)
    requires InOrder(items) && forall g :: g in items ==> Id(g) != Id(e)
    ensures InOrder(out) && multiset(out) == multiset(items) + multiset{e}
  {
    hide InOrder;
    var i := |items|;
    while i > 0 && Before(e, items[i - 1])
      invariant 0 <= i <= |items|
      invariant forall k :: i <= k < |items| ==> Before(e, items[k])
    {
      i := i - 1;
    }
    out := items[..i] + [e] + items[i..];
    assert items == items[..i] + items[i..];
    if i > 0 {
      assert items[i - 1] in items;
      forall k | 0 <= k < i ensures Before(items[k], e) { BeforeTransitive(items, k, i - 1, e); }
    }
    PlacedInOrder(items, i, e);
  }

  lemma PlacedInOrder(items: seq<Envelope>, i: nat, e: Envelope)
    requires InOrder(items) && i <= |items|
    requires (forall k :: 0 <= k < i ==> Before(items[k], e)) && forall k :: i <= k < |items| ==> Before(e, items[k])
    ensures InOrder(items[..i] + [e] + items[i..])
  {
    hide Before;
    var out := items[..i] + [e] + items[i..];
    forall a, b | 0 <= a < b < |out| ensures Before(out[a], out[b]) {
      var x, y := if a > i then a - 1 else a, if b > i then b - 1 else b;
      assert a != i ==> out[a] == items[x];
      assert b != i ==> out[b] == items[y];
    }
  }

  lemma BeforeTransitive(items: seq<Envelope>, k: int, i: int, e: Envelope)
    requires InOrder(items) && 0 <= k <= i < |items| && !Before(e, items[i]) && Id(items[i]) != Id(e)
    ensures Before(items[k], e)
  {
    assert k < i ==> Before(items[k], items[i]);
  }

  method Sort(items: seq<Envelope>) returns (out: seq<Envelope>)
    requires DistinctIds(items)
    ensures InOrder(out) && multiset(out) == multiset(items)
  {
    out := [];
    var i := 0;
    while i < |items|
      invariant 0 <= i <= |items| && InOrder(out) && multiset(out) == multiset(items[..i])
    {
      assert items[..i + 1] == items[..i] + [items[i]];
      forall g | g in out ensures Id(g) != Id(items[i]) { assert g in multiset(items[..i]); }
      out := Insert(out, items[i]);
      i := i + 1;
    }
    assert items[..|items|] == items;
  }

  // ----- There is only one batch order -----

  lemma {:induction false} SortedIsUnique(s: seq<Envelope>, t: seq<Envelope>)
    requires InOrder(s) && InOrder(t) && forall e :: e in s <==> e in t
    ensures s == t
    decreases |s|
  {
    assert t != [] ==> t[0] in t;
    if s != [] {
      assert s[0] in s && s[0] in t;
      FirstIsLeast(s, t);
      TailsAgree(s, t);
      SortedIsUnique(s[1..], t[1..]);
      assert s == [s[0]] + s[1..] && t == [t[0]] + t[1..];
    }
  }

  lemma FirstIsLeast(s: seq<Envelope>, t: seq<Envelope>)
    requires InOrder(s) && InOrder(t) && s != [] && t != [] && forall e :: e in s <==> e in t
    ensures s[0] == t[0]
  {
    assert s[0] in s && t[0] in t;
    var i :| 0 <= i < |s| && s[i] == t[0];
    var j :| 0 <= j < |t| && t[j] == s[0];
    assert i > 0 ==> Before(s[0], s[i]);
    assert j > 0 ==> Before(t[0], t[j]);
  }

  lemma TailsAgree(s: seq<Envelope>, t: seq<Envelope>)
    requires InOrder(s) && InOrder(t) && s != [] && t != [] && s[0] == t[0] && forall e :: e in s <==> e in t
    ensures forall e :: e in s[1..] <==> e in t[1..]
  {
    TailHolds(s);
    TailHolds(t);
  }

  lemma TailHolds(s: seq<Envelope>)
    requires InOrder(s) && s != []
    ensures forall e :: e in s[1..] <==> e in s && e != s[0]
  {
    forall i | 1 <= i < |s| ensures s[i] != s[0] { assert Before(s[0], s[i]); }
    forall e | e in s && e != s[0] ensures e in s[1..] {
      var i :| 0 <= i < |s| && s[i] == e;
      assert s[1..][i - 1] == e;
    }
  }

  /** The owner's records in batch order. */
  ghost function Listing(d: Disk, b: Binding): (items: seq<Envelope>) {
    if exists s :: ListsBound(d, b, s) then var s :| ListsBound(d, b, s); s else []
  }

  lemma ListingIs(d: Disk, b: Binding, items: seq<Envelope>)
    requires ListsBound(d, b, items)
    ensures Listing(d, b) == items
  {
    var s := Listing(d, b);
    assert ListsBound(d, b, s);
    forall e | e in s ensures e in items { assert d.records[Id(e)] in items; }
    forall e | e in items ensures e in s { assert d.records[Id(e)] in s; }
    SortedIsUnique(s, items);
  }

  /** A sorted enumeration is the listing. */
  lemma SortedEnumeration(d: Disk, b: Option<Binding>, items: seq<Envelope>, sorted: seq<Envelope>)
    requires Enumerates(d, b, items) && InOrder(sorted) && multiset(sorted) == multiset(items)
    ensures b.None? ==> Lists(d, sorted)
    ensures b.Some? ==> ListsBound(d, b.value, sorted)
  {
    forall e ensures e in sorted <==> e in items { assert e in sorted <==> e in multiset(sorted); }
  }
}
