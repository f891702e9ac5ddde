/** The reference's capture of a caller's value before it is encoded: containers may be shared
    or cyclic, each is visited once and remembered with what it cost. */
module Snapshot {
  import opened Protocol

  const MAX_INPUT_BYTES: int := 65_536
  const MAX_NESTING_DEPTH: int := 32
  const MAX_OBJECT_KEYS: int := 256
  const MAX_ARRAY_ITEMS: int := 1024

  type Identity = nat

  /** What a container holds: a scalar with its captured form and its charge, something that is
      refused outright, or another container. */
  datatype Item = Scalar(text: string, charge: nat) | Refused | Ref(id: Identity)

  /** An entry's key in normal form, unless it is refused, and the length of its text. */
  datatype Entry = Entry(key: Option<string>, length: nat, item: Item)

  datatype Cell = List(items: seq<Item>) | Dict(entries: seq<Entry>)

  type Heap = map<Identity, Cell>

  datatype Tree = Leaf(text: string) | Tuple(items: seq<Tree>) | Mapping(fields: seq<Field>)
  datatype Field = Field(key: string, value: Tree)

  datatype Shot<T> = Shot(captured: T, cost: nat)

  // ----- Visiting the unfolded value -----

  /** The capture of an item and its cost, with every shared container visited anew, to a depth
      of `fuel` containers. */
  function Unfold(h: Heap, item: Item, fuel: nat): (r: Option<Shot<Tree>>)
    decreases fuel, 0
  {
    match item
    case Scalar(text, charge) => Some(Shot(Leaf(text), charge))
    case Refused => None
    case Ref(id) =>
      if fuel == 0 || id !in h then None
      else match h[id]
        case List(items) =>
          var r := if |items| > MAX_ARRAY_ITEMS then None else UnfoldItems(h, items, fuel - 1);
          if r.None? then None else Some(Shot(Tuple(r.value.captured), 2 + r.value.cost))
        case Dict(entries) =>
          var r := if |entries| > MAX_OBJECT_KEYS then None else UnfoldEntries(h, entries, fuel - 1);
          if r.None? then None else Some(Shot(Mapping(r.value.captured), 2 + r.value.cost))
  }

  function UnfoldItems(h: Heap, items: seq<Item>, fuel: nat): (r: Option<Shot<seq<Tree>>>)
    decreases fuel, 1, |items|
  {
    if items == [] then Some(Shot([], 0))
    else
      var before := UnfoldItems(h, items[..|items| - 1], fuel);
      var last := Unfold(h, items[|items| - 1], fuel);
      if before.None? || last.None? then None
      else Some(Shot(before.value.captured + [last.value.captured], before.value.cost + 1 + last.value.cost))
  }

  predicate HasKey(fields: seq<Field>, key: string) { exists i :: 0 <= i < |fields| && fields[i].key == key }

  function UnfoldEntries(h: Heap, entries: seq<Entry>, fuel: nat): (r: Option<Shot<seq<Field>>>)
    decreases fuel, 1, |entries|
  {
    if entries == [] then Some(Shot([], 0))
    else
      var e := entries[|entries| - 1];
      var before := UnfoldEntries(h, entries[..|entries| - 1], fuel);
      var last := Unfold(h, e.item, fuel);
      if before.None? || last.None? || e.key.None? || HasKey(before.value.captured, e.key.value) then None
      else Some(Shot(before.value.captured + [Field(e.key.value, last.value.captured)],
                     before.value.cost + e.length + 4 + last.value.cost))
  }

  // ----- More fuel changes nothing -----

  lemma {:induction false} UnfoldSettled(h: Heap, item: Item, fuel: nat)
    ensures Unfold(h, item, fuel).Some? ==> Unfold(h, item, fuel + 1) == Unfold(h, item, fuel)
    decreases fuel, 0
  {
    if item.Ref? && fuel > 0 && item.id in h {
      match h[item.id]
      case List(items) => ItemsSettled(h, items, fuel - 1);
      case Dict(entries) => EntriesSettled(h, entries, fuel - 1);
    }
  }

  lemma {:induction false} ItemsSettled(h: Heap, items: seq<Item>, fuel: nat)
    ensures UnfoldItems(h, items, fuel).Some? ==> UnfoldItems(h, items, fuel + 1) == UnfoldItems(h, items, fuel)
    decreases fuel, 1, |items|
  {
    if items != [] {
      ItemsSettled(h, items[..|items| - 1], fuel);
      UnfoldSettled(h, items[|items| - 1], fuel);
    }
  }

  lemma {:induction false} EntriesSettled(h: Heap, entries: seq<Entry>, fuel: nat)
    ensures UnfoldEntries(h, entries, fuel).Some? ==>
              UnfoldEntries(h, entries, fuel + 1) == UnfoldEntries(h, entries, fuel)
    decreases fuel, 1, |entries|
  {
    if entries != [] {
      EntriesSettled(h, entries[..|entries| - 1], fuel);
      UnfoldSettled(h, entries[|entries| - 1].item, fuel);
    }
  }

  lemma {:induction false} UnfoldMore(h: Heap, item: Item, fuel: nat, more: nat)
    requires fuel <= more && Unfold(h, item, fuel).Some?
    ensures Unfold(h, item, more) == Unfold(h, item, fuel)
    decreases more - fuel
  {
    if fuel < more {
      UnfoldSettled(h, item, fuel);
      UnfoldMore(h, item, fuel + 1, more);
    }
  }

  lemma {:induction false} ItemsMore(h: Heap, items: seq<Item>, fuel: nat, more: nat)
    requires fuel <= more && UnfoldItems(h, items, fuel).Some?
    ensures UnfoldItems(h, items, more) == UnfoldItems(h, items, fuel)
    decreases more - fuel
  {
    if fuel < more {
      ItemsSettled(h, items, fuel);
      ItemsMore(h, items, fuel + 1, more);
    }
  }

  lemma {:induction false} EntriesMore(h: Heap, entries: seq<Entry>, fuel: nat, more: nat)
    requires fuel <= more && UnfoldEntries(h, entries, fuel).Some?
    ensures UnfoldEntries(h, entries, more) == UnfoldEntries(h, entries, fuel)
    decreases more - fuel
  {
    if fuel < more {
      EntriesSettled(h, entries, fuel);
      EntriesMore(h, entries, fuel + 1, more);
    }
  }

  /** The unfolding of an item, if it is finite and within the limits on width. */
  ghost predicate Unfolds(h: Heap, item: Item, shot: Shot<Tree>) {
    exists fuel :: Unfold(h, item, fuel) == Some(shot)
  }

  ghost predicate ItemsUnfold(h: Heap, items: seq<Item>, shot: Shot<seq<Tree>>) {
    exists fuel :: UnfoldItems(h, items, fuel) == Some(shot)
  }

  ghost predicate EntriesUnfold(h: Heap, entries: seq<Entry>, shot: Shot<seq<Field>>) {
    exists fuel :: UnfoldEntries(h, entries, fuel) == Some(shot)
  }

  function Max(a: nat, b: nat): nat { if a >= b then a else b }

  lemma AppendItem(h: Heap, items: seq<Item>, i: nat, shot: Shot<seq<Tree>>, last: Shot<Tree>)
    requires i < |items| && ItemsUnfold(h, items[..i], shot) && Unfolds(h, items[i], last)
    ensures ItemsUnfold(h, items[..i + 1], Shot(shot.captured + [last.captured], shot.cost + 1 + last.cost))
  {
    var f: nat :| UnfoldItems(h, items[..i], f) == Some(shot);
    var g: nat :| Unfold(h, items[i], g) == Some(last);
    ItemsMore(h, items[..i], f, Max(f, g));
    UnfoldMore(h, items[i], g, Max(f, g));
    var longer := items[..i + 1];
    assert longer[..|longer| - 1] == items[..i] && longer[|longer| - 1] == items[i];
    assert UnfoldItems(h, longer, Max(f, g)).Some?;
  }

  lemma AppendEntry(h: Heap, entries: seq<Entry>, i: nat, shot: Shot<seq<Field>>, last: Shot<Tree>)
    requires i < |entries| && EntriesUnfold(h, entries[..i], shot) && Unfolds(h, entries[i].item, last)
    requires entries[i].key.Some? && !HasKey(shot.captured, entries[i].key.value)
    ensures EntriesUnfold(h, entries[..i + 1],
                          Shot(shot.captured + [Field(entries[i].key.value, last.captured)],
                               shot.cost + entries[i].length + 4 + last.cost))
  {
    var f: nat :| UnfoldEntries(h, entries[..i], f) == Some(shot);
    var g: nat :| Unfold(h, entries[i].item, g) == Some(last);
    EntriesMore(h, entries[..i], f, Max(f, g));
    UnfoldMore(h, entries[i].item, g, Max(f, g));
    var longer := entries[..i + 1];
    assert longer[..|longer| - 1] == entries[..i] && longer[|longer| - 1] == entries[i];
    assert UnfoldEntries(h, longer, Max(f, g)).Some?;
  }

  // ----- Cycles -----

  predicate Holds(cell: Cell, item: Item) {
    match cell
    case List(items) => item in items
    case Dict(entries) => exists e :: e in entries && e.item == item
  }

  lemma {:induction false} ItemUnfolds(h: Heap, items: seq<Item>, fuel: nat, i: nat)
    requires UnfoldItems(h, items, fuel).Some? && i < |items|
    ensures Unfold(h, items[i], fuel).Some?
    decreases |items|
  {
    if i < |items| - 1 { ItemUnfolds(h, items[..|items| - 1], fuel, i); }
  }

  lemma {:induction false} EntryUnfolds(h: Heap, entries: seq<Entry>, fuel: nat, i: nat)
    requires UnfoldEntries(h, entries, fuel).Some? && i < |entries|
    ensures Unfold(h, entries[i].item, fuel).Some?
    decreases |entries|
  {
    if i < |entries| - 1 { EntryUnfolds(h, entries[..|entries| - 1], fuel, i); }
  }

  /** A container that unfolds has items that unfold one level shallower. */
  lemma PartUnfolds(h: Heap, id: Identity, item: Item, fuel: nat)
    requires id in h && Holds(h[id], item) && Unfold(h, Ref(id), fuel).Some?
    ensures fuel > 0 && Unfold(h, item, fuel - 1).Some?
  {
    match h[id]
    case List(items) =>
      var i :| 0 <= i < |items| && items[i] == item;
      ItemUnfolds(h, items, fuel - 1, i);
    case Dict(entries) =>
      var e :| e in entries && e.item == item;
      var i :| 0 <= i < |entries| && entries[i] == e;
      EntryUnfolds(h, entries, fuel - 1, i);
  }

  predicate LeadsInto(h: Heap, id: Identity, loop: set<Identity>) {
    id in h && exists y :: y in loop && Holds(h[id], Ref(y))
  }

  /** A value that runs into a cycle does not unfold, whatever the depth. */
  lemma {:induction false} CyclesNeverUnfold(h: Heap, loop: set<Identity>, id: Identity, fuel: nat)
    requires id in loop && forall x :: x in loop ==> LeadsInto(h, x, loop)
    ensures Unfold(h, Ref(id), fuel).None?
    decreases fuel
  {
    hide Unfold, Holds;
    assert LeadsInto(h, id, loop);
    if Unfold(h, Ref(id), fuel).Some? {
      var y :| y in loop && Holds(h[id], Ref(y));
      PartUnfolds(h, id, Ref(y), fuel);
      CyclesNeverUnfold(h, loop, y, fuel - 1);
    }
  }

  /** Whenever the open container `a` unfolds, `item` does so at least one level shallower. */
  ghost predicate Above(h: Heap, a: Identity, item: Item) {
    forall fuel: nat :: Unfold(h, Ref(a), fuel).Some? ==> fuel > 0 && Unfold(h, item, fuel - 1).Some?
  }

  lemma {:induction false} NothingAboveItself(h: Heap, a: Identity, fuel: nat)
    requires Above(h, a, Ref(a))
    ensures Unfold(h, Ref(a), fuel).None?
    decreases fuel
  {
    if fuel > 0 { NothingAboveItself(h, a, fuel - 1); }
  }

  ghost predicate AllAbove(h: Heap, active: set<Identity>, item: Item) {
    forall a :: a in active ==> Above(h, a, item)
  }

  lemma AbovePart(h: Heap, a: Identity, id: Identity, item: Item)
    requires id in h && Holds(h[id], item) && (a == id || Above(h, a, Ref(id)))
    ensures Above(h, a, item)
  {
    hide Unfold, Holds;
    forall fuel: nat | Unfold(h, Ref(a), fuel).Some? ensures fuel > 0 && Unfold(h, item, fuel - 1).Some? {
      if a == id {
        PartUnfolds(h, id, item, fuel);
      } else {
        PartUnfolds(h, id, item, fuel - 1);
        UnfoldMore(h, item, fuel - 2, fuel - 1);
      }
    }
  }

  lemma AboveParts(h: Heap, active: set<Identity>, id: Identity, item: Item)
    requires id in h && Holds(h[id], item) && AllAbove(h, active - {id}, Ref(id))
    ensures AllAbove(h, active, item)
  {
    forall a | a in active ensures Above(h, a, item) { AbovePart(h, a, id, item); }
  }

  // ----- The memoised traversal -----

  datatype Error =
    | InputTooLarge | NestingTooDeep | CyclicValue | TooManyKeys | TooManyItems
    | InvalidKey | DuplicateKey | Unsupported

  datatype Result<+T> = Ok(value: T) | Err(error: Error)

  /** An item that unfolds within the depth and bytes that are left. */
  ghost predicate Affordable(h: Heap, item: Item, depth: nat, used: nat) {
    depth <= MAX_NESTING_DEPTH && Unfold(h, item, MAX_NESTING_DEPTH - depth).Some?
    && used + Unfold(h, item, MAX_NESTING_DEPTH - depth).value.cost <= MAX_INPUT_BYTES
  }

  class Snapshotter {
    const heap: Heap
    var active: set<Identity>
    var memo: map<Identity, Shot<Tree>>
    var used: nat

    /** Everything remembered is what unfolding gives and costs. */
    ghost predicate Valid()
      reads this
    {
      forall id :: id in memo ==> Unfolds(heap, Ref(id), memo[id])
    }

    constructor (heap: Heap)
      ensures Valid() && this.heap == heap && active == {} && used == 0 && memo == map[]
    {
      this.heap := heap;
      active, memo, used := {}, map[], 0;
    }

    method Charge(amount: nat) returns (ok: bool)
      modifies `used
      ensures used == old(used) + amount && ok == (used <= MAX_INPUT_BYTES)
    {
      used := used + amount;
      return used <= MAX_INPUT_BYTES;
    }

    /** The two halves of the contract: a capture is the unfolding and charges its cost; an item
        that unfolds within depth and bytes is captured. */
    method Visit(item: Item, depth: nat) returns (r: Result<Tree>)
      requires Valid() && depth <= MAX_NESTING_DEPTH && used <= MAX_INPUT_BYTES
      modifies `active, `memo, `used
      ensures Valid() && used >= old(used)
      ensures r.Ok? ==> Unfolds(heap, item, Shot(r.value, used - old(used)))
      ensures r.Ok? ==> used <= MAX_INPUT_BYTES && active == old(active)
      ensures Affordable(heap, item, depth, old(used)) && AllAbove(heap, old(active), item) ==> r.Ok?
      decreases MAX_NESTING_DEPTH - depth, 3
    {
      match item
      case Scalar(text, charge) =>
        var ok := Charge(charge);
        assert Unfold(heap, item, 0) == Some(Shot(Leaf(text), charge));
        return if ok then Ok(Leaf(text)) else Err(InputTooLarge);
      case Refused => return Err(Unsupported);
      case Ref(id) =>
        if id !in heap { return Err(Unsupported); }
        if depth >= MAX_NESTING_DEPTH { return Err(NestingTooDeep); }
        r := VisitContainer(id, depth);
    }

    method VisitContainer(id: Identity, depth: nat) returns (r: Result<Tree>)
      requires Valid() && id in heap && depth < MAX_NESTING_DEPTH && used <= MAX_INPUT_BYTES
      modifies `active, `memo, `used
      ensures Valid() && used >= old(used)
      ensures r.Ok? ==> Unfolds(heap, Ref(id), Shot(r.value, used - old(used)))
      ensures r.Ok? ==> used <= MAX_INPUT_BYTES && active == old(active)
      ensures Affordable(heap, Ref(id), depth, old(used)) && AllAbove(heap, old(active), Ref(id)) ==> r.Ok?
      decreases MAX_NESTING_DEPTH - depth, 2
    {
      hide Unfold, UnfoldItems, UnfoldEntries;
      if id in active {
        if Above(heap, id, Ref(id)) { NothingAboveItself(heap, id, MAX_NESTING_DEPTH - depth); }
        return Err(CyclicValue);
      }
      if id in memo {
        var known := memo[id];
        if Affordable(heap, Ref(id), depth, used) { UnfoldIsUnique(heap, Ref(id), MAX_NESTING_DEPTH - depth, known); }
        var ok := Charge(known.cost);
        return if ok then Ok(known.captured) else Err(InputTooLarge);
      }
      var before := used;
      active := active + {id};
      CostsTwo(heap, id, MAX_NESTING_DEPTH - depth);
      var ok := Charge(2);
      if !ok { return Err(InputTooLarge); }
      match heap[id] {
        case List(_) => r := VisitList(id, depth);
        case Dict(_) => r := VisitDict(id, depth);
      }
      assert old(active) + {id} - {id} == old(active);
      active := active - {id};
      if r.Ok? { memo := memo[id := Shot(r.value, used - before)]; }
    }

    method VisitList(id: Identity, depth: nat) returns (r: Result<Tree>)
      requires Valid() && id in heap && heap[id].List? && id in active
      requires depth < MAX_NESTING_DEPTH && 2 <= used <= MAX_INPUT_BYTES
      modifies `active, `memo, `used
      ensures Valid() && used >= old(used)
      ensures r.Ok? ==> Unfolds(heap, Ref(id), Shot(r.value, used - old(used) + 2))
      ensures r.Ok? ==> used <= MAX_INPUT_BYTES && active == old(active)
      ensures Affordable(heap, Ref(id), depth, old(used) - 2) && AllAbove(heap, old(active) - {id}, Ref(id)) ==> r.Ok?
      decreases MAX_NESTING_DEPTH - depth, 1
    {
      hide Unfold, UnfoldItems, Above;
      var items := heap[id].items;
      ghost var fits := Affordable(heap, Ref(id), depth, used - 2) && AllAbove(heap, active - {id}, Ref(id));
      ghost var fuel := MAX_NESTING_DEPTH - depth - 1;
      if fits { ListAffordable(heap, id, fuel); }
      var values: seq<Tree> := [];
      var i := 0;
      NoItems(heap, items);
      while i < |items|
        invariant 0 <= i <= |items| && |values| == i <= MAX_ARRAY_ITEMS
        invariant Valid() && active == old(active) && old(used) <= used <= MAX_INPUT_BYTES
        invariant ItemsUnfold(heap, items[..i], Shot(values, used - old(used)))
      {
        if |values| >= MAX_ARRAY_ITEMS { return Err(TooManyItems); }
        ghost var so := Shot(values, used - old(used));
        if fits {
          ItemAffordable(heap, items, i, fuel, so);
          AboveParts(heap, active, id, items[i]);
        }
        var ok := Charge(1);
        if !ok { return Err(InputTooLarge); }
        ghost var from := used;
        r := Visit(items[i], depth + 1);
        if r.Err? { return; }
        AppendItem(heap, items, i, so, Shot(r.value, used - from));
        values, i := values + [r.value], i + 1;
      }
      ListUnfolds(heap, id, Shot(values, used - old(used)));
      return Ok(Tuple(values));
    }

    method VisitDict(id: Identity, depth: nat) returns (r: Result<Tree>)
      requires Valid() && id in heap && heap[id].Dict? && id in active
      requires depth < MAX_NESTING_DEPTH && 2 <= used <= MAX_INPUT_BYTES
      modifies `active, `memo, `used
      ensures Valid() && used >= old(used)
      ensures r.Ok? ==> Unfolds(heap, Ref(id), Shot(r.value, used - old(used) + 2))
      ensures r.Ok? ==> used <= MAX_INPUT_BYTES && active == old(active)
      ensures Affordable(heap, Ref(id), depth, old(used) - 2) && AllAbove(heap, old(active) - {id}, Ref(id)) ==> r.Ok?
      decreases MAX_NESTING_DEPTH - depth, 1
    {
      hide Unfold, UnfoldEntries, Above;
      var entries := heap[id].entries;
      ghost var fits := Affordable(heap, Ref(id), depth, used - 2) && AllAbove(heap, active - {id}, Ref(id));
      ghost var fuel := MAX_NESTING_DEPTH - depth - 1;
      if fits { DictAffordable(heap, id, fuel); }
      var captured: seq<Field> := [];
      var i := 0;
      NoEntries(heap, entries);
      while i < |entries|
        invariant 0 <= i <= |entries| && |captured| == i <= MAX_OBJECT_KEYS
        invariant Valid() && active == old(active) && old(used) <= used <= MAX_INPUT_BYTES
        invariant EntriesUnfold(heap, entries[..i], Shot(captured, used - old(used)))
      {
        ghost var so := Shot(captured, used - old(used));
        if fits {
          EntryAffordable(heap, entries, i, fuel, so);
          AboveParts(heap, active, id, entries[i].item);
        }
        if i + 1 > MAX_OBJECT_KEYS { return Err(TooManyKeys); }
        var e := entries[i];
        if e.key.None? { return Err(InvalidKey); }
        if HasKey(captured, e.key.value) { return Err(DuplicateKey); }
        var ok := Charge(e.length + 4);
        if !ok { return Err(InputTooLarge); }
        ghost var from := used;
        r := Visit(e.item, depth + 1);
        if r.Err? { return; }
        AppendEntry(heap, entries, i, so, Shot(r.value, used - from));
        captured, i := captured + [Field(e.key.value, r.value)], i + 1;
      }
      DictUnfolds(heap, id, Shot(captured, used - old(used)));
      return Ok(Mapping(captured));
    }
  }

  lemma NoItems(h: Heap, items: seq<Item>)
    ensures ItemsUnfold(h, items[..0], Shot([], 0))
  {
    assert UnfoldItems(h, items[..0], 0) == Some(Shot([], 0));
  }

  lemma NoEntries(h: Heap, entries: seq<Entry>)
    ensures EntriesUnfold(h, entries[..0], Shot([], 0))
  {
    assert UnfoldEntries(h, entries[..0], 0) == Some(Shot([], 0));
  }

  lemma ListUnfolds(h: Heap, id: Identity, shot: Shot<seq<Tree>>)
    requires id in h && h[id].List? && |h[id].items| <= MAX_ARRAY_ITEMS
    requires ItemsUnfold(h, h[id].items[..|h[id].items|], shot)
    ensures Unfolds(h, Ref(id), Shot(Tuple(shot.captured), shot.cost + 2))
  {
    var items := h[id].items;
    assert items[..|items|] == items;
    var f: nat :| UnfoldItems(h, items, f) == Some(shot);
    assert Unfold(h, Ref(id), f + 1) == Some(Shot(Tuple(shot.captured), shot.cost + 2));
  }

  lemma DictUnfolds(h: Heap, id: Identity, shot: Shot<seq<Field>>)
    requires id in h && h[id].Dict? && |h[id].entries| <= MAX_OBJECT_KEYS
    requires EntriesUnfold(h, h[id].entries[..|h[id].entries|], shot)
    ensures Unfolds(h, Ref(id), Shot(Mapping(shot.captured), shot.cost + 2))
  {
    var entries := h[id].entries;
    assert entries[..|entries|] == entries;
    var f: nat :| UnfoldEntries(h, entries, f) == Some(shot);
    assert Unfold(h, Ref(id), f + 1) == Some(Shot(Mapping(shot.captured), shot.cost + 2));
  }

  lemma ListAffordable(h: Heap, id: Identity, fuel: nat)
    requires id in h && h[id].List? && Unfold(h, Ref(id), fuel + 1).Some?
    ensures |h[id].items| <= MAX_ARRAY_ITEMS && UnfoldItems(h, h[id].items, fuel).Some?
    ensures Unfold(h, Ref(id), fuel + 1).value.cost == 2 + UnfoldItems(h, h[id].items, fuel).value.cost
  {
  }

  lemma DictAffordable(h: Heap, id: Identity, fuel: nat)
    requires id in h && h[id].Dict? && Unfold(h, Ref(id), fuel + 1).Some?
    ensures |h[id].entries| <= MAX_OBJECT_KEYS && UnfoldEntries(h, h[id].entries, fuel).Some?
    ensures Unfold(h, Ref(id), fuel + 1).value.cost == 2 + UnfoldEntries(h, h[id].entries, fuel).value.cost
  {
  }

  lemma {:induction false} ItemsPrefix(h: Heap, items: seq<Item>, fuel: nat, k: nat)
    requires UnfoldItems(h, items, fuel).Some? && k <= |items|
    ensures UnfoldItems(h, items[..k], fuel).Some?
    ensures UnfoldItems(h, items[..k], fuel).value.cost <= UnfoldItems(h, items, fuel).value.cost
    decreases |items|
  {
    if k == |items| {
      assert items[..k] == items;
    } else {
      ItemsPrefix(h, items[..|items| - 1], fuel, k);
      assert items[..|items| - 1][..k] == items[..k];
    }
  }

  lemma {:induction false} EntriesPrefix(h: Heap, entries: seq<Entry>, fuel: nat, k: nat)
    requires UnfoldEntries(h, entries, fuel).Some? && k <= |entries|
    ensures UnfoldEntries(h, entries[..k], fuel).Some?
    ensures UnfoldEntries(h, entries[..k], fuel).value.cost <= UnfoldEntries(h, entries, fuel).value.cost
    decreases |entries|
  {
    if k == |entries| {
      assert entries[..k] == entries;
    } else {
      EntriesPrefix(h, entries[..|entries| - 1], fuel, k);
      assert entries[..|entries| - 1][..k] == entries[..k];
    }
  }

  /** With `shot` captured so far, the next item and its own byte are still within the total. */
  lemma ItemAffordable(h: Heap, items: seq<Item>, i: nat, fuel: nat, shot: Shot<seq<Tree>>)
    requires UnfoldItems(h, items, fuel).Some? && i < |items| && ItemsUnfold(h, items[..i], shot)
    ensures Unfold(h, items[i], fuel).Some?
    ensures shot.cost + 1 + Unfold(h, items[i], fuel).value.cost <= UnfoldItems(h, items, fuel).value.cost
  {
    ItemsPrefix(h, items, fuel, i);
    ItemsPrefix(h, items, fuel, i + 1);
    var longer := items[..i + 1];
    assert longer[..|longer| - 1] == items[..i] && longer[|longer| - 1] == items[i];
    var f: nat :| UnfoldItems(h, items[..i], f) == Some(shot);
    ItemsMore(h, items[..i], f, Max(f, fuel));
    ItemsMore(h, items[..i], fuel, Max(f, fuel));
  }

  lemma EntryAffordable(h: Heap, entries: seq<Entry>, i: nat, fuel: nat, shot: Shot<seq<Field>>)
    requires UnfoldEntries(h, entries, fuel).Some? && i < |entries| && EntriesUnfold(h, entries[..i], shot)
    ensures Unfold(h, entries[i].item, fuel).Some? && entries[i].key.Some?
    ensures !HasKey(shot.captured, entries[i].key.value)
    ensures shot.cost + entries[i].length + 4 + Unfold(h, entries[i].item, fuel).value.cost
            <= UnfoldEntries(h, entries, fuel).value.cost
  {
    EntriesPrefix(h, entries, fuel, i);
    EntriesPrefix(h, entries, fuel, i + 1);
    var longer := entries[..i + 1];
    assert longer[..|longer| - 1] == entries[..i] && longer[|longer| - 1] == entries[i];
    var f: nat :| UnfoldEntries(h, entries[..i], f) == Some(shot);
    EntriesMore(h, entries[..i], f, Max(f, fuel));
    EntriesMore(h, entries[..i], fuel, Max(f, fuel));
  }

  lemma UnfoldIsUnique(h: Heap, item: Item, fuel: nat, shot: Shot<Tree>)
    requires Unfolds(h, item, shot) && Unfold(h, item, fuel).Some?
    ensures Unfold(h, item, fuel) == Some(shot)
  {
    var f: nat :| Unfold(h, item, f) == Some(shot);
    UnfoldMore(h, item, f, Max(f, fuel));
    UnfoldMore(h, item, fuel, Max(f, fuel));
  }

  lemma CostsTwo(h: Heap, id: Identity, fuel: nat)
    ensures Unfold(h, Ref(id), fuel).Some? ==> Unfold(h, Ref(id), fuel).value.cost >= 2
  {
  }

  /** `_snapshot_value`: what is captured is the unfolded value, charged in full; whatever unfolds
      within the limits is captured; and a value that runs into a cycle is rejected. */
  method SnapshotValue(h: Heap, item: Item) returns (r: Result<Shot<Tree>>)
    ensures r.Ok? ==> Unfolds(h, item, r.value) && r.value.cost <= MAX_INPUT_BYTES
    ensures Affordable(h, item, 0, 0) ==> r.Ok?
    ensures forall loop :: item.Ref? && item.id in loop && (forall x :: x in loop ==> LeadsInto(h, x, loop)) ==> r.Err?
  {
    hide Unfold, LeadsInto;
    var s := new Snapshotter(h);
    var tree := s.Visit(item, 0);
    if tree.Err? { return Err(tree.error); }
    r := Ok(Shot(tree.value, s.used));
    ghost var fuel: nat :| Unfold(h, item, fuel) == Some(r.value);
    forall loop | item.Ref? && item.id in loop && (forall x :: x in loop ==> LeadsInto(h, x, loop)) ensures false {
      CyclesNeverUnfold(h, loop, item.id, fuel);
    }
  }
}
