/** The generator's check that no schema refers back to itself without consuming part of the
    value: a depth-first search over the references that stay on the same value. */
module SchemaGraph {
  import opened Protocol
  import D = DotSegments

  /** A schema's document kind and the pointer the collector assigned to it. */
  datatype Node = Node(kind: string, pointer: string)

  datatype Value =
    | Null | Bool(b: bool) | Number(n: int) | Str(s: string)
    | Array(elements: seq<Value>) | Object(members: seq<Member>)

  datatype Member = Member(name: string, value: Value)

  /** A reference: the node its text spells, which the search follows, and the schema its text
      leads to in the generated validator, if any. */
  datatype Ref = Ref(spelled: Node, target: Option<Node>)

  datatype Additional = Allowed | Forbidden | Additional(node: Node)

  /** A collected schema: its subschemas by node, and the checks that look at the value alone,
      those before the combinators (`early`) and those after (`late`). */
  datatype Schema = Schema(
    ref: Option<Ref>,
    early: Value -> bool,
    allOf: seq<Node>,
    anyOf: Option<seq<Node>>,
    oneOf: Option<seq<Node>>,
    negated: Option<Node>,
    condition: Option<Node>,
    thenBranch: Option<Node>,
    elseBranch: Option<Node>,
    contentSchema: Option<Node>,
    dependentSchemas: seq<Node>,
    required: seq<string>,
    properties: map<string, Node>,
    additional: Additional,
    propertyNames: Option<Node>,
    items: Option<Node>,
    otherConsuming: seq<Node>,
    late: Value -> bool)

  type Graph = map<Node, Schema>

  function Opt(n: Option<Node>): seq<Node> { if n.Some? then [n.value] else [] }
  function Spelled(r: Option<Ref>): seq<Node> { if r.Some? then [r.value.spelled] else [] }
  function Many(ns: Option<seq<Node>>): seq<Node> { if ns.Some? then ns.value else [] }

  // ----- Pointers -----

  function Replaced(s: string, code: char, plain: char): string {
    if s == "" then ""
    else if |s| >= 2 && s[0] == '~' && s[1] == code then [plain] + Replaced(s[2..], code, plain)
    else [s[0]] + Replaced(s[1..], code, plain)
  }

  function Named(segs: seq<string>): seq<string> {
    if segs == [] then []
    else (if segs[0] == "" then [] else [Replaced(Replaced(segs[0], '1', '/'), '0', '~')]) + Named(segs[1..])
  }

  /** The keys a pointer walks down; empty ones are skipped. */
  function Tokens(pointer: string): seq<string> { Named(D.Split(pointer)) }

  /** References lead to the schema their keys walk down to. */
  ghost predicate Resolved(g: Graph) {
    forall n, m :: n in g && m in g && g[n].ref.Some? && LeadsDown(g[n].ref.value.spelled, m) ==>
      g[n].ref.value.target == Some(m)
  }

  predicate LeadsDown(spelled: Node, m: Node) {
    spelled.kind == m.kind && Tokens(spelled.pointer) == Tokens(m.pointer)
  }

  /** Every reference spells the collected pointer of the schema it leads to, or leads nowhere. */
  ghost predicate PlainlySpelled(g: Graph) {
    forall n :: n in g && g[n].ref.Some? && g[n].ref.value.target.Some? ==>
      g[n].ref.value.target.value == g[n].ref.value.spelled && g[n].ref.value.spelled in g
  }

  // ----- Edges -----

  /** The edges along which validation stays on the same value, as the search sees them. */
  function ZeroTargets(s: Schema): seq<Node> {
    Spelled(s.ref) + s.allOf + Many(s.anyOf) + Many(s.oneOf) + Opt(s.negated) + Opt(s.condition)
    + Opt(s.thenBranch) + Opt(s.elseBranch) + Opt(s.contentSchema) + s.dependentSchemas
  }

  function Zero(g: Graph, n: Node): seq<Node> {
    if n in g then ZeroTargets(g[n]) else []
  }

  /** A walk along same-value edges. */
  predicate IsPath(g: Graph, path: seq<Node>) {
    |path| > 0 && forall i :: 0 <= i < |path| - 1 ==> path[i + 1] in Zero(g, path[i])
  }

  predicate IsCycle(g: Graph, path: seq<Node>) {
    |path| > 1 && IsPath(g, path) && path[0] == path[|path| - 1]
  }

  /** Numbers that fall along every same-value edge. */
  ghost predicate Ranks(g: Graph, rank: map<Node, nat>) {
    forall n, t :: n in rank && t in Zero(g, n) ==> t in rank && rank[t] < rank[n]
  }

  /** A ranked graph has no cycle. */
  lemma {:induction false} RankFalls(g: Graph, rank: map<Node, nat>, path: seq<Node>)
    requires Ranks(g, rank) && IsPath(g, path) && path[0] in rank
    ensures path[|path| - 1] in rank && rank[path[|path| - 1]] + |path| - 1 <= rank[path[0]]
    decreases |path|
  {
    if |path| > 1 {
      var rest := path[1..];
      forall i | 0 <= i < |rest| - 1 ensures rest[i + 1] in Zero(g, rest[i]) {
        assert path[i + 2] in Zero(g, path[i + 1]);
      }
      assert path[1] in Zero(g, path[0]);
      RankFalls(g, rank, rest);
    }
  }

  lemma RankedMeansAcyclic(g: Graph, rank: map<Node, nat>, path: seq<Node>)
    requires Ranks(g, rank) && path != [] && path[0] in rank
    ensures !IsCycle(g, path)
  {
    if IsPath(g, path) { RankFalls(g, rank, path); }
  }

  /** Every node and everything it may lead to on the same value. */
  function Universe(g: Graph): set<Node> {
    g.Keys + set n, t | n in g && t in ZeroTargets(g[n]) :: t
  }

  /** Finished nodes in the order they finished: each one's targets finished before it. */
  ghost predicate Finished(g: Graph, order: seq<Node>) {
    && (forall i, j :: 0 <= i < j < |order| ==> order[i] != order[j])
    && (forall i, t :: 0 <= i < |order| && t in Zero(g, order[i]) ==> t in order[..i])
  }

  ghost function RankOf(order: seq<Node>): map<Node, nat> {
    map n | n in order :: Position(order, n)
  }

  ghost function Position(order: seq<Node>, n: Node): (i: nat)
    requires n in order
    ensures i < |order| && order[i] == n
  {
    var i :| 0 <= i < |order| && order[i] == n; i
  }

  lemma FinishedIsRanked(g: Graph, order: seq<Node>)
    requires Finished(g, order)
    ensures Ranks(g, RankOf(order)) && forall n :: n in order ==> n in RankOf(order) && RankOf(order)[n] < |order|
  {
    forall n, t | n in RankOf(order) && t in Zero(g, n)
      ensures t in RankOf(order) && RankOf(order)[t] < RankOf(order)[n]
    {
      var i := Position(order, n);
      assert t in order[..i];
      var k :| 0 <= k < i && order[k] == t;
      assert Position(order, t) == k;
    }
  }

  lemma FinishOne(g: Graph, order: seq<Node>, n: Node)
    requires Finished(g, order) && n !in order && forall t :: t in Zero(g, n) ==> t in order
    ensures Finished(g, order + [n])
  {
    var longer := order + [n];
    forall i, t | 0 <= i < |longer| && t in Zero(g, longer[i]) ensures t in longer[..i] {
      if i < |order| { assert t in order[..i] && order[..i] == longer[..i]; } else { assert longer[..i] == order; }
    }
  }

  lemma {:induction false} DistinctFits(order: seq<Node>, nodes: set<Node>)
    requires (forall i, j :: 0 <= i < j < |order| ==> order[i] != order[j]) && forall n :: n in order ==> n in nodes
    ensures |order| <= |nodes|
    decreases |order|
  {
    if order != [] {
      var n := order[0];
      forall x | x in order[1..] ensures x in nodes - {n} { assert x in order; }
      DistinctFits(order[1..], nodes - {n});
    }
  }

  /** The search's state: the open nodes form a path, and the closed ones are finished. */
  ghost predicate Sound(g: Graph, visiting: seq<Node>, visited: set<Node>, order: seq<Node>) {
    && Finished(g, order) && (forall n :: n in visited <==> n in order) && visited <= Universe(g)
    && (forall n :: n in visiting ==> n in Universe(g) && n !in visited)
    && (forall i, j :: 0 <= i < j < |visiting| ==> visiting[i] != visiting[j])
    && (visiting == [] || IsPath(g, visiting))
  }

  /** How many nodes are left to open. */
  ghost function Unopened(g: Graph, visiting: seq<Node>): nat {
    |Universe(g) - (set x | x in visiting)|
  }

  /** `n` is where the last open node leads. */
  predicate LeadsTo(g: Graph, visiting: seq<Node>, n: Node) {
    n in Universe(g) && (visiting == [] || n in Zero(g, visiting[|visiting| - 1]))
  }

  lemma PathExtends(g: Graph, path: seq<Node>, n: Node)
    requires IsPath(g, path) && n in Zero(g, path[|path| - 1])
    ensures IsPath(g, path + [n])
  {
    hide Zero;
    var longer := path + [n];
    forall i | 0 <= i < |longer| - 1 ensures longer[i + 1] in Zero(g, longer[i]) {
      if i < |path| - 1 { assert path[i + 1] in Zero(g, path[i]); }
    }
  }

  lemma PushKeeps(g: Graph, visiting: seq<Node>, visited: set<Node>, order: seq<Node>, n: Node)
    requires Sound(g, visiting, visited, order) && LeadsTo(g, visiting, n) && n !in visiting && n !in visited
    ensures Sound(g, visiting + [n], visited, order)
    ensures Unopened(g, visiting + [n]) < Unopened(g, visiting)
  {
    hide Finished, Universe, Zero, IsPath, Unopened;
    if visiting != [] { PathExtends(g, visiting, n); } else { SingletonPath(g, n); }
    DistinctExtends(visiting, n);
    assert [] + [n] == [n];
    StillFewer(g, visiting, n);
  }

  lemma SingletonPath(g: Graph, n: Node)
    ensures IsPath(g, [n])
  {
  }

  lemma DistinctExtends(s: seq<Node>, n: Node)
    requires n !in s && forall i, j :: 0 <= i < j < |s| ==> s[i] != s[j]
    ensures forall i, j :: 0 <= i < j < |s + [n]| ==> (s + [n])[i] != (s + [n])[j]
  {
  }

  lemma StillFewer(g: Graph, visiting: seq<Node>, n: Node)
    requires n in Universe(g) && n !in visiting
    ensures Unopened(g, visiting + [n]) < Unopened(g, visiting)
  {
    hide Universe;
    FewerLeft(Universe(g), visiting, n);
  }

  lemma FewerLeft(all: set<Node>, visiting: seq<Node>, n: Node)
    requires n in all && n !in visiting
    ensures |all - (set x | x in visiting + [n])| < |all - (set x | x in visiting)|
  {
    assert all - (set x | x in visiting) == (all - (set x | x in visiting + [n])) + {n};
  }

  lemma PopKeeps(g: Graph, visiting: seq<Node>, visited: set<Node>, order: seq<Node>, n: Node)
    requires Sound(g, visiting + [n], visited, order) && forall t :: t in Zero(g, n) ==> t in visited
    ensures Sound(g, visiting, visited + {n}, order + [n])
  {
    hide Universe;
    var open := visiting + [n];
    assert open[|visiting|] == n;
    assert n in open && (forall x :: x in visiting ==> x in open);
    FinishOne(g, order, n);
    if visiting != [] {
      forall i | 0 <= i < |visiting| - 1 ensures visiting[i + 1] in Zero(g, visiting[i]) {
        assert open[i + 1] in Zero(g, open[i]);
      }
    }
    forall i, j | 0 <= i < j < |visiting| ensures visiting[i] != visiting[j] { assert open[i] != open[j]; }
    forall i | 0 <= i < |visiting| ensures visiting[i] != n { assert open[i] != open[|visiting|]; }
  }

  lemma CycleFound(g: Graph, visiting: seq<Node>, start: nat, n: Node)
    requires IsPath(g, visiting) && n in Zero(g, visiting[|visiting| - 1]) && start < |visiting| && visiting[start] == n
    ensures IsCycle(g, visiting[start..] + [n])
  {
    PathExtends(g, visiting, n);
    var whole, cycle := visiting + [n], visiting[start..] + [n];
    forall i | 0 <= i < |cycle| - 1 ensures cycle[i + 1] in Zero(g, cycle[i]) {
      assert whole[start + i + 1] in Zero(g, whole[start + i]);
    }
  }

  lemma SearchedIsRanked(g: Graph, visited: set<Node>, order: seq<Node>)
    requires Sound(g, [], visited, order) && g.Keys <= visited
    ensures Ranked(g)
  {
    hide Universe;
    FinishedIsRanked(g, order);
    DistinctFits(order, Universe(g));
    assert g.Keys <= RankOf(order).Keys;
  }

  /** Some ranking covers every node, with fewer ranks than there are nodes to reach. */
  ghost predicate Ranked(g: Graph) {
    exists rank: map<Node, nat> ::
      Ranks(g, rank) && g.Keys <= rank.Keys && forall n :: n in rank ==> rank[n] < |Universe(g)|
  }

  class RefGraph {
    const graph: Graph
    var visiting: seq<Node>
    var visited: set<Node>
    ghost var order: seq<Node>

    ghost predicate Valid()
      reads this
    {
      Sound(graph, visiting, visited, order)
    }

    constructor (graph: Graph)
      ensures Valid() && this.graph == graph && visiting == [] && visited == {}
    {
      this.graph := graph;
      visiting, visited, order := [], {}, [];
    }

    /** Visits `n`, which the last open node leads to; returns a cycle if it meets one. */
    method Visit(n: Node) returns (cycle: Option<seq<Node>>)
      requires Valid() && LeadsTo(graph, visiting, n)
      modifies this
      ensures cycle.None? ==> Valid() && visiting == old(visiting) && old(visited) <= visited && n in visited
      ensures cycle.Some? ==> IsCycle(graph, cycle.value)
      decreases Unopened(graph, visiting), 0
    {
      hide Sound, Universe, Zero, IsCycle, IsPath, Unopened;
      if n in visiting {
        var start := IndexOf(visiting, n);
        PathOf(graph, visiting, visited, order);
        CycleFound(graph, visiting, start, n);
        return Some(visiting[start..] + [n]);
      }
      if n in visited { return None; }
      ghost var before := visiting;
      PushKeeps(graph, visiting, visited, order, n);
      visiting := visiting + [n];
      cycle := VisitTargets(n);
      if cycle.Some? { return; }
      PopKeeps(graph, before, visited, order, n);
      visiting, visited, order := visiting[..|visiting| - 1], visited + {n}, order + [n];
      assert visiting == before;
    }

    method VisitTargets(n: Node) returns (cycle: Option<seq<Node>>)
      requires Valid() && visiting != [] && visiting[|visiting| - 1] == n
      modifies this
      ensures cycle.None? ==> Valid() && visiting == old(visiting) && old(visited) <= visited
                              && forall t :: t in Zero(graph, n) ==> t in visited
      ensures cycle.Some? ==> IsCycle(graph, cycle.value)
      decreases Unopened(graph, visiting), 1
    {
      hide Sound, Universe, Zero, Unopened;
      var targets := Zero(graph, n);
      var i := 0;
      while i < |targets|
        invariant 0 <= i <= |targets|
        invariant Valid() && visiting == old(visiting) && old(visited) <= visited
        invariant forall k :: 0 <= k < i ==> targets[k] in visited
      {
        InUniverse(graph, n, targets[i]);
        cycle := Visit(targets[i]);
        if cycle.Some? { return; }
        i := i + 1;
      }
      return None;
    }

    /** Accepts only ranked graphs, and rejects only with a cycle in hand. */
    method Validate() returns (cycle: Option<seq<Node>>)
      requires Valid() && visiting == [] && visited == {}
      modifies this
      ensures cycle.None? ==> Ranked(graph)
      ensures cycle.Some? ==> IsCycle(graph, cycle.value)
    {
      hide Sound, Ranked;
      var rest := graph.Keys;
      while rest != {}
        invariant Valid() && visiting == [] && rest <= graph.Keys
        invariant forall n :: n in graph && n !in rest ==> n in visited
        decreases |rest|
      {
        var n :| n in rest;
        cycle := Visit(n);
        if cycle.Some? { return; }
        rest := rest - {n};
      }
      SearchedIsRanked(graph, visited, order);
      return None;
    }
  }

  method IndexOf(s: seq<Node>, n: Node) returns (i: nat)
    requires n in s
    ensures i < |s| && s[i] == n && n !in s[..i]
  {
    i := 0;
    while s[i] != n
      invariant i < |s| && n in s[i..] && n !in s[..i]
      decreases |s| - i
    {
      i := i + 1;
    }
  }

  lemma PathOf(g: Graph, visiting: seq<Node>, visited: set<Node>, order: seq<Node>)
    requires Sound(g, visiting, visited, order) && visiting != []
    ensures IsPath(g, visiting)
  {
  }

  lemma InUniverse(g: Graph, n: Node, t: Node)
    requires t in Zero(g, n)
    ensures t in Universe(g)
  {
  }

  /** So the search accepts a graph exactly if no walk along same-value edges from one of its nodes comes back. */
  lemma RankedHasNoCycle(g: Graph, path: seq<Node>)
    requires Ranked(g)
    ensures !IsCycle(g, path)
  {
    var rank: map<Node, nat> :|
      Ranks(g, rank) && g.Keys <= rank.Keys && forall n :: n in rank ==> rank[n] < |Universe(g)|;
    if |path| > 1 && path[1] in Zero(g, path[0]) { RankedMeansAcyclic(g, rank, path); }
  }
}
