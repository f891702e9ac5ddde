/** What the generated validator decides: the schema's keywords, each taken to mean what it says,
    have one common meaning on an accepted graph, and the verdict is that meaning. */
module SchemaMeaning {
  import opened Protocol
  import opened SchemaGraph
  import opened SchemaValidator

  /** Which values satisfy which schemas. */
  type Meaning = (Node, Value) -> bool

  // ----- The keywords -----

  predicate OnlyAt(v: Meaning, nodes: seq<Node>, value: Value, i: nat) {
    i < |nodes| && v(nodes[i], value) && forall j :: 0 <= j < |nodes| && j != i ==> !v(nodes[j], value)
  }

  ghost predicate ExactlyOne(v: Meaning, nodes: seq<Node>, value: Value) {
    exists i: nat :: OnlyAt(v, nodes, value, i)
  }

  predicate SomeOf(v: Meaning, nodes: seq<Node>, value: Value) { exists n :: n in nodes && v(n, value) }
  predicate AllOf(v: Meaning, nodes: seq<Node>, value: Value) { forall n :: n in nodes ==> v(n, value) }
  predicate IfAny(v: Meaning, n: Option<Node>, value: Value) { n.Some? ==> v(n.value, value) }

  /** `$ref`, `allOf`, `anyOf`, `oneOf`, `not` and `if`/`then`/`else`. */
  ghost predicate CombinatorsHold(v: Meaning, s: Schema, value: Value) {
    && (s.ref.Some? ==> s.ref.value.target.Some? && v(s.ref.value.target.value, value))
    && s.early(value)
    && AllOf(v, s.allOf, value)
    && (s.anyOf.Some? ==> SomeOf(v, s.anyOf.value, value))
    && (s.oneOf.Some? ==> ExactlyOne(v, s.oneOf.value, value))
    && (s.negated.Some? ==> !v(s.negated.value, value))
    && (s.condition.Some? ==>
          if v(s.condition.value, value) then IfAny(v, s.thenBranch, value) else IfAny(v, s.elseBranch, value))
  }

  /** `properties` and `additionalProperties` for one member. */
  predicate MemberHolds(v: Meaning, s: Schema, m: Member) {
    if m.name in s.properties then v(s.properties[m.name], m.value)
    else !s.additional.Forbidden? && (s.additional.Additional? ==> v(s.additional.node, m.value))
  }

  /** `required`, members, `propertyNames` and `items`, and what looks at the value alone. */
  predicate ContentsHold(v: Meaning, s: Schema, value: Value) {
    && RequiredPresent(s, value)
    && (value.Object? ==>
          forall i :: 0 <= i < |value.members| ==>
            && MemberHolds(v, s, value.members[i])
            && IfAny(v, s.propertyNames, Str(value.members[i].name)))
    && (value.Array? && s.items.Some? ==>
          forall i :: 0 <= i < |value.elements| ==> v(s.items.value, value.elements[i]))
    && s.late(value)
  }

  /** The schema at `n` holds of the value, if `v` says what its subschemas hold of. */
  ghost predicate Holds(g: Graph, v: Meaning, n: Node, value: Value) {
    n in g && CombinatorsHold(v, g[n], value) && ContentsHold(v, g[n], value)
  }

  /** `v` gives every schema the meaning its keywords have under `v`. */
  ghost predicate Solves(g: Graph, v: Meaning) {
    forall n, value :: v(n, value) <==> Holds(g, v, n, value)
  }

  // ----- One level of validation -----

  function Of(b: bool): Outcome { if b then Pass else Raise }

  /** Validation with this fuel decides what `v` says. */
  predicate Decides(g: Graph, v: Meaning, n: Node, value: Value, fuel: nat) {
    Run(g, n, value, fuel) == Of(v(n, value))
  }

  predicate TaskHolds(v: Meaning, t: Task) { t.Task? && v(t.node, t.value) }
  predicate AllHold(v: Meaning, tasks: seq<Task>) { forall t :: t in tasks ==> TaskHolds(v, t) }
  predicate TasksDecided(g: Graph, v: Meaning, tasks: seq<Task>, fuel: nat) {
    forall t :: t in tasks && t.Task? ==> Decides(g, v, t.node, t.value, fuel)
  }
  predicate NodesDecided(g: Graph, v: Meaning, nodes: seq<Node>, value: Value, fuel: nat) {
    forall n :: n in nodes ==> Decides(g, v, n, value, fuel)
  }

  lemma {:induction false} EachDecides(g: Graph, v: Meaning, tasks: seq<Task>, fuel: nat)
    requires TasksDecided(g, v, tasks, fuel)
    ensures RunEach(g, tasks, fuel) == Of(AllHold(v, tasks))
    decreases |tasks|
  {
    hide Run;
    if tasks != [] {
      assert tasks[0] in tasks && forall t :: t in tasks[1..] ==> t in tasks;
      EachDecides(g, v, tasks[1..], fuel);
      forall t | t in tasks ensures t == tasks[0] || t in tasks[1..] { HeadOrTail(tasks, t); }
    }
  }

  lemma HeadOrTail<T>(s: seq<T>, x: T)
    requires x in s
    ensures x == s[0] || x in s[1..]
  {
    var i :| 0 <= i < |s| && s[i] == x;
    assert i > 0 ==> s[1..][i - 1] == x;
  }

  lemma {:induction false} AnyDecides(g: Graph, v: Meaning, nodes: seq<Node>, value: Value, fuel: nat)
    requires NodesDecided(g, v, nodes, value, fuel)
    ensures AnyOf(g, nodes, value, fuel) == Of(SomeOf(v, nodes, value))
    decreases |nodes|
  {
    hide Run;
    if nodes != [] {
      assert nodes[0] in nodes && forall n :: n in nodes[1..] ==> n in nodes;
      AnyDecides(g, v, nodes[1..], value, fuel);
      forall n | n in nodes ensures n == nodes[0] || n in nodes[1..] { HeadOrTail(nodes, n); }
    }
  }

  function Count(v: Meaning, nodes: seq<Node>, value: Value): nat {
    if nodes == [] then 0 else (if v(nodes[0], value) then 1 else 0) + Count(v, nodes[1..], value)
  }

  lemma {:induction false} OneDecides(g: Graph, v: Meaning, nodes: seq<Node>, value: Value, fuel: nat, matches: nat)
    requires NodesDecided(g, v, nodes, value, fuel)
    ensures OneOf(g, nodes, value, fuel, matches) == Of(matches + Count(v, nodes, value) == 1)
    decreases |nodes|
  {
    hide Run;
    if nodes != [] {
      assert nodes[0] in nodes && forall n :: n in nodes[1..] ==> n in nodes;
      OneDecides(g, v, nodes[1..], value, fuel, matches + if v(nodes[0], value) then 1 else 0);
    }
  }

  lemma {:induction false} CountNone(v: Meaning, nodes: seq<Node>, value: Value)
    ensures Count(v, nodes, value) == 0 <==> forall j :: 0 <= j < |nodes| ==> !v(nodes[j], value)
    decreases |nodes|
  {
    if nodes != [] {
      CountNone(v, nodes[1..], value);
      assert forall j :: 1 <= j < |nodes| ==> nodes[j] == nodes[1..][j - 1];
    }
  }

  lemma {:induction false} OneFound(v: Meaning, nodes: seq<Node>, value: Value) returns (i: nat)
    requires Count(v, nodes, value) == 1
    ensures OnlyAt(v, nodes, value, i)
    decreases |nodes|
  {
    var rest := nodes[1..];
    assert forall j :: 1 <= j < |nodes| ==> nodes[j] == rest[j - 1];
    if v(nodes[0], value) {
      CountNone(v, rest, value);
      i := 0;
    } else {
      i := OneFound(v, rest, value);
      i := i + 1;
    }
  }

  lemma {:induction false} OneCounts(v: Meaning, nodes: seq<Node>, value: Value, i: nat)
    requires OnlyAt(v, nodes, value, i)
    ensures Count(v, nodes, value) == 1
    decreases |nodes|
  {
    var rest := nodes[1..];
    assert forall j :: 0 <= j < |rest| ==> rest[j] == nodes[j + 1];
    if i == 0 { CountNone(v, rest, value); } else { OneCounts(v, rest, value, i - 1); }
  }

  lemma CountOne(v: Meaning, nodes: seq<Node>, value: Value)
    ensures Count(v, nodes, value) == 1 <==> ExactlyOne(v, nodes, value)
  {
    hide Count, OnlyAt;
    if Count(v, nodes, value) == 1 { var i := OneFound(v, nodes, value); }
    if ExactlyOne(v, nodes, value) {
      var i: nat :| OnlyAt(v, nodes, value, i);
      OneCounts(v, nodes, value, i);
    }
  }

  // ----- The parts of a value -----

  lemma SingleHolds(v: Meaning, t: Task)
    ensures AllHold(v, [t]) <==> TaskHolds(v, t)
  {
    assert t in [t];
  }

  lemma AllHoldAt(v: Meaning, tasks: seq<Task>)
    ensures AllHold(v, tasks) <==> forall i :: 0 <= i < |tasks| ==> TaskHolds(v, tasks[i])
  {
    forall i | 0 <= i < |tasks| ensures tasks[i] in tasks {}
  }

  lemma {:induction false} MembersMean(v: Meaning, s: Schema, members: seq<Member>)
    ensures AllHold(v, MemberTasks(s, members)) <==>
            forall i :: 0 <= i < |members| ==> MemberHolds(v, s, members[i])
    decreases |members|
  {
    if members != [] {
      var m, rest := members[0], members[1..];
      MembersMean(v, s, rest);
      assert forall i :: 1 <= i < |members| ==> members[i] == rest[i - 1];
      NothingHolds(v);
      var first :=
        if m.name in s.properties then [Task(s.properties[m.name], m.value)]
        else if s.additional.Additional? then [Task(s.additional.node, m.value)]
        else if s.additional.Forbidden? then [Deny] else [];
      if first != [] { SingleHolds(v, first[0]); }
      BothHold(v, first, MemberTasks(s, rest));
    }
  }

  lemma NamesMean(v: Meaning, s: Schema, members: seq<Member>)
    ensures AllHold(v, NameTasks(s, members)) <==>
            forall i :: 0 <= i < |members| ==> IfAny(v, s.propertyNames, Str(members[i].name))
  {
    var tasks := NameTasks(s, members);
    AllHoldAt(v, tasks);
    assert s.propertyNames.Some? ==>
             forall i :: 0 <= i < |members| ==> tasks[i] == Task(s.propertyNames.value, Str(members[i].name));
  }

  lemma ElementsMean(v: Meaning, n: Node, elements: seq<Value>)
    ensures AllHold(v, ElementTasks(n, elements)) <==> forall i :: 0 <= i < |elements| ==> v(n, elements[i])
  {
    var tasks := ElementTasks(n, elements);
    AllHoldAt(v, tasks);
    assert forall i :: 0 <= i < |elements| ==> tasks[i] == Task(n, elements[i]);
  }

  lemma BothHold(v: Meaning, a: seq<Task>, b: seq<Task>)
    ensures AllHold(v, a + b) <==> AllHold(v, a) && AllHold(v, b)
  {
  }

  lemma PartsMean(v: Meaning, s: Schema, value: Value)
    ensures ContentsHold(v, s, value) <==>
            RequiredPresent(s, value) && AllHold(v, Parts(s, value)) && s.late(value)
  {
    hide RequiredPresent, MemberHolds, IfAny, AllHold, MemberTasks, NameTasks, ElementTasks;
    NothingHolds(v);
    match value
    case Object(members) =>
      MembersMean(v, s, members);
      NamesMean(v, s, members);
      BothHold(v, MemberTasks(s, members), NameTasks(s, members));
    case Array(elements) => if s.items.Some? { ElementsMean(v, s.items.value, elements); }
    case Null => case Bool(_) => case Number(_) => case Str(_) =>
  }

  lemma NothingHolds(v: Meaning)
    ensures AllHold(v, [])
  {
  }

  // ----- One schema -----

  /** Everything the schema at `n` looks at is decided. */
  predicate LevelDecided(g: Graph, v: Meaning, s: Schema, value: Value, fuel: nat) {
    && (s.ref.Some? && s.ref.value.target.Some? ==> Decides(g, v, s.ref.value.target.value, value, fuel))
    && NodesDecided(g, v, ZeroTargets(s), value, fuel)
    && TasksDecided(g, v, Parts(s, value), fuel)
  }

  lemma SameTasks(v: Meaning, nodes: seq<Node>, value: Value)
    ensures AllHold(v, OnSame(nodes, value)) <==> AllOf(v, nodes, value)
  {
    var tasks := OnSame(nodes, value);
    AllHoldAt(v, tasks);
    assert forall i :: 0 <= i < |nodes| ==> tasks[i] == Task(nodes[i], value);
  }

  lemma SameDecided(g: Graph, v: Meaning, nodes: seq<Node>, value: Value, fuel: nat)
    requires NodesDecided(g, v, nodes, value, fuel)
    ensures TasksDecided(g, v, OnSame(nodes, value), fuel)
  {
    hide Run;
  }

  lemma TargetsInclude(s: Schema)
    ensures s.negated.Some? ==> s.negated.value in ZeroTargets(s)
    ensures s.condition.Some? ==> s.condition.value in ZeroTargets(s)
    ensures s.thenBranch.Some? ==> s.thenBranch.value in ZeroTargets(s)
    ensures s.elseBranch.Some? ==> s.elseBranch.value in ZeroTargets(s)
    ensures forall t :: t in s.allOf || t in Many(s.anyOf) || t in Many(s.oneOf) ==> t in ZeroTargets(s)
  {
  }

  lemma BranchDecides(g: Graph, v: Meaning, s: Schema, value: Value, fuel: nat)
    requires LevelDecided(g, v, s, value, fuel)
    ensures Branch(g, s, value, fuel) ==
            Of(s.condition.Some? ==>
                 if v(s.condition.value, value) then IfAny(v, s.thenBranch, value) else IfAny(v, s.elseBranch, value))
  {
    hide Run, ZeroTargets, TasksDecided;
    TargetsInclude(s);
  }

  lemma CombinatorsDecide(g: Graph, v: Meaning, s: Schema, value: Value, fuel: nat)
    requires LevelDecided(g, v, s, value, fuel)
    ensures Combinators(g, s, value, fuel) == Of(CombinatorsHold(v, s, value))
  {
    hide Run, ZeroTargets, TasksDecided, RunEach, AnyOf, OneOf, Branch, AllOf, SomeOf, ExactlyOne, OnSame;
    TargetsInclude(s);
    SameDecided(g, v, s.allOf, value, fuel);
    EachDecides(g, v, OnSame(s.allOf, value), fuel);
    SameTasks(v, s.allOf, value);
    if s.anyOf.Some? { AnyDecides(g, v, s.anyOf.value, value, fuel); }
    if s.oneOf.Some? {
      OneDecides(g, v, s.oneOf.value, value, fuel, 0);
      CountOne(v, s.oneOf.value, value);
    }
    BranchDecides(g, v, s, value, fuel);
  }

  /** One level: with the subschemas decided, the schema's own verdict is what its keywords say. */
  lemma LevelDecides(g: Graph, v: Meaning, n: Node, value: Value, fuel: nat)
    requires n in g ==> LevelDecided(g, v, g[n], value, fuel)
    ensures Run(g, n, value, fuel + 1) == Of(Holds(g, v, n, value))
  {
    hide Combinators, CombinatorsHold, ContentsHold, RunEach, NodesDecided, Parts;
    if n in g {
      CombinatorsDecide(g, v, g[n], value, fuel);
      EachDecides(g, v, Parts(g[n], value), fuel);
      PartsMean(v, g[n], value);
    }
  }

  // ----- Accepted graphs -----

  /** Everything a schema looks at has a smaller measure. */
  lemma LevelFalls(g: Graph, rank: map<Node, nat>, ranks: nat, n: Node, value: Value)
    requires RanksBelow(g, rank, ranks) && n in g
    ensures forall t :: t in ZeroTargets(g[n]) ==> Measure(rank, ranks, t, value) < Measure(rank, ranks, n, value)
    ensures forall t :: t in Parts(g[n], value) && t.Task? ==>
              Measure(rank, ranks, t.node, t.value) < Measure(rank, ranks, n, value)
    ensures g[n].ref.Some? && g[n].ref.value.target.Some? ==> g[n].ref.value.target.value in ZeroTargets(g[n])
  {
    hide Measure, Parts, RanksBelow;
    forall t | t in ZeroTargets(g[n]) ensures Measure(rank, ranks, t, value) < Measure(rank, ranks, n, value) {
      SameValueFalls(g, rank, ranks, n, t, value);
    }
    PartsAreSmaller(g[n], value);
    forall t | t in Parts(g[n], value) && t.Task?
      ensures Measure(rank, ranks, t.node, t.value) < Measure(rank, ranks, n, value)
    {
      SmallerValueFalls(g, rank, ranks, n, t, value);
    }
    if g[n].ref.Some? && g[n].ref.value.target.Some? { PlainTarget(g, rank, ranks, n); }
  }

  lemma PlainTarget(g: Graph, rank: map<Node, nat>, ranks: nat, n: Node)
    requires RanksBelow(g, rank, ranks) && n in g && g[n].ref.Some? && g[n].ref.value.target.Some?
    ensures g[n].ref.value.target.value in ZeroTargets(g[n])
  {
  }

  /** Any meaning that solves the schema equations is what validation decides, so there is one. */
  lemma {:induction false} RunDecides(g: Graph, rank: map<Node, nat>, ranks: nat, v: Meaning, n: Node, value: Value,
                                      fuel: nat)
    requires RanksBelow(g, rank, ranks) && Solves(g, v) && Measure(rank, ranks, n, value) < fuel
    ensures Run(g, n, value, fuel) == Of(v(n, value))
    decreases fuel
  {
    hide Measure, RanksBelow, Run, Holds, ZeroTargets, Parts;
    if n in g {
      LevelFalls(g, rank, ranks, n, value);
      forall t | t in ZeroTargets(g[n]) ensures Decides(g, v, t, value, fuel - 1) {
        RunDecides(g, rank, ranks, v, t, value, fuel - 1);
      }
      forall t | t in Parts(g[n], value) && t.Task? ensures Decides(g, v, t.node, t.value, fuel - 1) {
        RunDecides(g, rank, ranks, v, t.node, t.value, fuel - 1);
      }
    }
    LevelDecides(g, v, n, value, fuel - 1);
  }

  /** The verdict with enough fuel. */
  ghost predicate Verdict(g: Graph, rank: map<Node, nat>, ranks: nat, n: Node, value: Value) {
    Run(g, n, value, Measure(rank, ranks, n, value) + 1).Pass?
  }

  lemma VerdictStands(g: Graph, rank: map<Node, nat>, ranks: nat, n: Node, value: Value, fuel: nat)
    requires RanksBelow(g, rank, ranks) && Measure(rank, ranks, n, value) < fuel
    ensures Run(g, n, value, fuel) == Of(Verdict(g, rank, ranks, n, value))
  {
    hide Measure, RanksBelow, Run;
    var least := Measure(rank, ranks, n, value) + 1;
    RunTerminates(g, rank, ranks, n, value, least);
    MoreFuel(g, n, value, least, fuel);
  }

  lemma VerdictHolds(g: Graph, rank: map<Node, nat>, ranks: nat, v: Meaning, n: Node, value: Value)
    requires RanksBelow(g, rank, ranks)
    requires forall m, x :: v(m, x) <==> Verdict(g, rank, ranks, m, x)
    ensures v(n, value) <==> Holds(g, v, n, value)
  {
    hide Measure, RanksBelow, Run, Holds, ZeroTargets, Parts, Verdict;
    var fuel := Measure(rank, ranks, n, value);
    if n in g {
      LevelFalls(g, rank, ranks, n, value);
      forall t | t in ZeroTargets(g[n]) ensures Decides(g, v, t, value, fuel) {
        VerdictStands(g, rank, ranks, t, value, fuel);
      }
      forall t | t in Parts(g[n], value) && t.Task? ensures Decides(g, v, t.node, t.value, fuel) {
        VerdictStands(g, rank, ranks, t.node, t.value, fuel);
      }
    }
    LevelDecides(g, v, n, value, fuel);
    VerdictStands(g, rank, ranks, n, value, fuel + 1);
  }

  /** Validation ends with `v`'s verdict, */
  ghost predicate SettledBy(g: Graph, v: Meaning, n: Node, value: Value) {
    exists fuel :: SettlesAt(g, n, value, fuel, Of(v(n, value)))
  }

  /** whatever the schema and the value. */
  ghost predicate DecidedBy(g: Graph, v: Meaning) {
    forall n, value :: SettledBy(g, v, n, value)
  }

  lemma VerdictSettles(g: Graph, rank: map<Node, nat>, ranks: nat, v: Meaning, n: Node, value: Value)
    requires RanksBelow(g, rank, ranks) && (v(n, value) <==> Verdict(g, rank, ranks, n, value))
    ensures SettledBy(g, v, n, value)
  {
    hide Measure, RanksBelow, Run, Verdict;
    var fuel := Measure(rank, ranks, n, value) + 1;
    forall more: nat | fuel <= more ensures Run(g, n, value, more) == Of(v(n, value)) {
      VerdictStands(g, rank, ranks, n, value, more);
    }
    assert SettlesAt(g, n, value, fuel, Of(v(n, value)));
  }

  /** On a graph the search accepts, with plainly spelled references, the keywords determine a
      meaning, and validation decides it. */
  lemma AcceptedIsDecided(g: Graph) returns (v: Meaning)
    requires Ranked(g) && PlainlySpelled(g)
    ensures Solves(g, v) && DecidedBy(g, v)
  {
    hide Universe, Ranks, Run, Measure, PlainlySpelled, Verdict, Holds, SettledBy;
    var rank: map<Node, nat> :|
      Ranks(g, rank) && g.Keys <= rank.Keys && forall n :: n in rank ==> rank[n] < |Universe(g)|;
    var ranks := |Universe(g)|;
    assert RanksBelow(g, rank, ranks);
    v := (n, value) => Verdict(g, rank, ranks, n, value);
    forall n, value ensures v(n, value) <==> Holds(g, v, n, value) { VerdictHolds(g, rank, ranks, v, n, value); }
    forall n, value ensures SettledBy(g, v, n, value) {
      VerdictSettles(g, rank, ranks, v, n, value);
    }
  }

  /** There is no other: whatever meaning the keywords allow is the verdict. */
  lemma MeaningIsUnique(g: Graph, v: Meaning, w: Meaning, n: Node, value: Value)
    requires Ranked(g) && PlainlySpelled(g) && Solves(g, v) && Solves(g, w)
    ensures v(n, value) <==> w(n, value)
  {
    hide Universe, Ranks, Run, Measure, PlainlySpelled, Solves;
    var rank: map<Node, nat> :|
      Ranks(g, rank) && g.Keys <= rank.Keys && forall n :: n in rank ==> rank[n] < |Universe(g)|;
    var fuel := Measure(rank, |Universe(g)|, n, value) + 1;
    RunDecides(g, rank, |Universe(g)|, v, n, value, fuel);
    RunDecides(g, rank, |Universe(g)|, w, n, value, fuel);
  }
}
