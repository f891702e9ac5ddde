/** The generated validator.  Its recursion is written with fuel, one unit for each nested call,
    so that "it terminates" is "some fuel is enough". */
module SchemaValidator {
  import opened Protocol
  import opened SchemaGraph

  datatype Outcome = Pass | Raise | Stuck

  /** A value to validate against a schema, or a member no schema allows. */
  datatype Task = Task(node: Node, value: Value) | Deny

  function Then(a: Outcome, b: Outcome): Outcome { if a.Pass? then b else a }
  function Check(ok: bool): Outcome { if ok then Pass else Raise }

  // ----- Validation -----

  /** `_validate` of `value` against the schema at `n`. */
  function Run(g: Graph, n: Node, value: Value, fuel: nat): (r: Outcome)
    decreases fuel, 1, 0
  {
    if fuel == 0 then Stuck
    else if n !in g then Raise
    else
      Then(Combinators(g, g[n], value, fuel - 1), Contents(g, g[n], value, fuel - 1))
  }

  /** The part of a schema that stays on the same value. */
  function Combinators(g: Graph, s: Schema, value: Value, fuel: nat): (r: Outcome)
    decreases fuel, 4, 0
  {
    Then(RunRef(g, s.ref, value, fuel),
    Then(Check(s.early(value)),
    Then(RunEach(g, OnSame(s.allOf, value), fuel),
    Then(if s.anyOf.Some? then AnyOf(g, s.anyOf.value, value, fuel) else Pass,
    Then(if s.oneOf.Some? then OneOf(g, s.oneOf.value, value, fuel, 0) else Pass,
    Then(if s.negated.Some? then Negate(Run(g, s.negated.value, value, fuel)) else Pass,
         Branch(g, s, value, fuel)))))))
  }

  /** The part that looks into the value. */
  function Contents(g: Graph, s: Schema, value: Value, fuel: nat): (r: Outcome)
    decreases fuel, 4, 0
  {
    Then(Check(RequiredPresent(s, value)),
    Then(RunEach(g, Parts(s, value), fuel),
         Check(s.late(value))))
  }

  /** A reference that leads nowhere raises. */
  function RunRef(g: Graph, r: Option<Ref>, value: Value, fuel: nat): (o: Outcome)
    decreases fuel, 2, 0
  {
    if r.None? then Pass
    else if r.value.target.None? then Raise
    else Run(g, r.value.target.value, value, fuel)
  }

  function RunOption(g: Graph, n: Option<Node>, value: Value, fuel: nat): (r: Outcome)
    decreases fuel, 2, 0
  {
    if n.Some? then Run(g, n.value, value, fuel) else Pass
  }

  /** Tasks in order, stopping at the first that does not pass. */
  function RunEach(g: Graph, tasks: seq<Task>, fuel: nat): (r: Outcome)
    decreases fuel, 2, |tasks|
  {
    if tasks == [] then Pass
    else if tasks[0].Deny? then Raise
    else Then(Run(g, tasks[0].node, tasks[0].value, fuel), RunEach(g, tasks[1..], fuel))
  }

  /** Stops at the first match. */
  function AnyOf(g: Graph, nodes: seq<Node>, value: Value, fuel: nat): (r: Outcome)
    decreases fuel, 2, |nodes|
  {
    if nodes == [] then Raise
    else
      var first := Run(g, nodes[0], value, fuel);
      if first.Raise? then AnyOf(g, nodes[1..], value, fuel) else first
  }

  /** Counts every match. */
  function OneOf(g: Graph, nodes: seq<Node>, value: Value, fuel: nat, matches: nat): (r: Outcome)
    decreases fuel, 2, |nodes|
  {
    if nodes == [] then Check(matches == 1)
    else
      var first := Run(g, nodes[0], value, fuel);
      if first.Stuck? then Stuck
      else OneOf(g, nodes[1..], value, fuel, matches + if first.Pass? then 1 else 0)
  }

  function Negate(r: Outcome): Outcome {
    match r case Pass => Raise case Raise => Pass case Stuck => Stuck
  }

  function Branch(g: Graph, s: Schema, value: Value, fuel: nat): (r: Outcome)
    decreases fuel, 3, 0
  {
    if s.condition.None? then Pass
    else
      match Run(g, s.condition.value, value, fuel)
      case Pass => RunOption(g, s.thenBranch, value, fuel)
      case Raise => RunOption(g, s.elseBranch, value, fuel)
      case Stuck => Stuck
  }

  function OnSame(nodes: seq<Node>, value: Value): seq<Task> {
    seq(|nodes|, i requires 0 <= i < |nodes| => Task(nodes[i], value))
  }

  predicate RequiredPresent(s: Schema, value: Value) {
    value.Object? ==> forall name :: name in s.required ==> exists m :: m in value.members && m.name == name
  }

  /** The parts of a value its schema looks into: members, then member names, or elements. */
  function Parts(s: Schema, value: Value): seq<Task> {
    match value
    case Object(members) => MemberTasks(s, members) + NameTasks(s, members)
    case Array(elements) => if s.items.Some? then ElementTasks(s.items.value, elements) else []
    case Null => [] case Bool(_) => [] case Number(_) => [] case Str(_) => []
  }

  function MemberTasks(s: Schema, members: seq<Member>): seq<Task> {
    if members == [] then []
    else
      var m := members[0];
      (if m.name in s.properties then [Task(s.properties[m.name], m.value)]
       else if s.additional.Additional? then [Task(s.additional.node, m.value)]
       else if s.additional.Forbidden? then [Deny]
       else []) + MemberTasks(s, members[1..])
  }

  function NameTasks(s: Schema, members: seq<Member>): seq<Task> {
    if s.propertyNames.None? then []
    else seq(|members|, i requires 0 <= i < |members| => Task(s.propertyNames.value, Str(members[i].name)))
  }

  function ElementTasks(n: Node, elements: seq<Value>): seq<Task> {
    seq(|elements|, i requires 0 <= i < |elements| => Task(n, elements[i]))
  }

  // ----- Sizes -----

  function Size(value: Value): (size: nat)
    ensures size >= 1
    decreases value
  {
    match value
    case Array(elements) => 1 + ElementsSize(elements)
    case Object(members) => 1 + MembersSize(members)
    case Null => 1 case Bool(_) => 1 case Number(_) => 1 case Str(_) => 1
  }

  function ElementsSize(elements: seq<Value>): (size: nat)
    decreases elements
  {
    if elements == [] then 0 else Size(elements[0]) + ElementsSize(elements[1..])
  }

  function MembersSize(members: seq<Member>): (size: nat)
    decreases members
  {
    if members == [] then 0 else 1 + Size(members[0].value) + MembersSize(members[1..])
  }

  lemma {:induction false} ElementIsSmaller(elements: seq<Value>, i: nat)
    requires i < |elements|
    ensures Size(elements[i]) <= ElementsSize(elements)
  {
    if i > 0 { ElementIsSmaller(elements[1..], i - 1); }
  }

  lemma {:induction false} MemberIsSmaller(members: seq<Member>, i: nat)
    requires i < |members|
    ensures 1 + Size(members[i].value) <= MembersSize(members)
  {
    if i > 0 { MemberIsSmaller(members[1..], i - 1); }
  }

  lemma {:induction false} MemberTasksAreMembers(s: Schema, members: seq<Member>)
    ensures forall t :: t in MemberTasks(s, members) && t.Task? ==>
                          exists i :: 0 <= i < |members| && t.value == members[i].value
  {
    if members != [] {
      MemberTasksAreMembers(s, members[1..]);
      forall t | t in MemberTasks(s, members) && t.Task?
        ensures exists i :: 0 <= i < |members| && t.value == members[i].value
      {
        if t in MemberTasks(s, members[1..]) {
          var i :| 0 <= i < |members[1..]| && t.value == members[1..][i].value;
          assert t.value == members[i + 1].value;
        } else {
          assert t.value == members[0].value;
        }
      }
    }
  }

  /** Consuming edges lead to smaller values. */
  lemma PartsAreSmaller(s: Schema, value: Value)
    ensures forall t :: t in Parts(s, value) && t.Task? ==> Size(t.value) < Size(value)
  {
    forall t | t in Parts(s, value) && t.Task? ensures Size(t.value) < Size(value) {
      match value
      case Object(members) =>
        if t in MemberTasks(s, members) {
          MemberTasksAreMembers(s, members);
          var i :| 0 <= i < |members| && t.value == members[i].value;
          MemberIsSmaller(members, i);
        } else {
          var i :| 0 <= i < |members| && t == Task(s.propertyNames.value, Str(members[i].name));
          MemberIsSmaller(members, i);
        }
      case Array(elements) =>
        var i :| 0 <= i < |elements| && t.value == elements[i];
        ElementIsSmaller(elements, i);
    }
  }

  // ----- Termination -----

  /** The lexicographic measure (value size, rank) as one number. */
  ghost function Measure(rank: map<Node, nat>, ranks: nat, n: Node, value: Value): nat {
    Size(value) * ranks + if n in rank then rank[n] else 0
  }

  /** `fuel` exceeds the measure of every task. */
  ghost predicate Enough(g: Graph, rank: map<Node, nat>, ranks: nat, tasks: seq<Task>, fuel: nat) {
    forall t :: t in tasks && t.Task? ==> Measure(rank, ranks, t.node, t.value) < fuel
  }

  ghost predicate RanksBelow(g: Graph, rank: map<Node, nat>, ranks: nat) {
    && PlainlySpelled(g)
    && Ranks(g, rank) && g.Keys <= rank.Keys && forall n :: n in rank ==> rank[n] < ranks
  }

  lemma SameValueFalls(g: Graph, rank: map<Node, nat>, ranks: nat, n: Node, t: Node, value: Value)
    requires RanksBelow(g, rank, ranks) && n in g && t in ZeroTargets(g[n])
    ensures Measure(rank, ranks, t, value) < Measure(rank, ranks, n, value)
  {
    hide ZeroTargets, Size;
    assert t in Zero(g, n);
  }

  lemma SmallerValueFalls(g: Graph, rank: map<Node, nat>, ranks: nat, n: Node, t: Task, value: Value)
    requires RanksBelow(g, rank, ranks) && n in g && t.Task? && Size(t.value) < Size(value)
    ensures Measure(rank, ranks, t.node, t.value) < Measure(rank, ranks, n, value)
  {
    assert ranks > 0;
    assert (Size(t.value) + 1) * ranks == Size(t.value) * ranks + ranks;
    assert Size(value) * ranks >= (Size(t.value) + 1) * ranks by { Grows(Size(t.value) + 1, Size(value), ranks); }
  }

  lemma Grows(a: nat, b: nat, k: nat)
    requires a <= b
    ensures a * k <= b * k
  {
    assert b * k - a * k == (b - a) * k;
  }

  lemma {:induction false} EachTerminates(g: Graph, rank: map<Node, nat>, ranks: nat, tasks: seq<Task>, fuel: nat)
    requires RanksBelow(g, rank, ranks) && Enough(g, rank, ranks, tasks, fuel)
    ensures !RunEach(g, tasks, fuel).Stuck?
    decreases fuel, 2, |tasks|
  {
    if tasks != [] {
      assert tasks[0] in tasks;
      if tasks[0].Task? { RunTerminates(g, rank, ranks, tasks[0].node, tasks[0].value, fuel); }
      forall t | t in tasks[1..] ensures t in tasks {}
      EachTerminates(g, rank, ranks, tasks[1..], fuel);
    }
  }

  lemma {:induction false} AnyTerminates(g: Graph, rank: map<Node, nat>, ranks: nat, nodes: seq<Node>, value: Value,
                                         fuel: nat)
    requires RanksBelow(g, rank, ranks) && forall t :: t in nodes ==> Measure(rank, ranks, t, value) < fuel
    ensures !AnyOf(g, nodes, value, fuel).Stuck?
    decreases fuel, 2, |nodes|
  {
    if nodes != [] {
      RunTerminates(g, rank, ranks, nodes[0], value, fuel);
      AnyTerminates(g, rank, ranks, nodes[1..], value, fuel);
    }
  }

  lemma {:induction false} OneTerminates(g: Graph, rank: map<Node, nat>, ranks: nat, nodes: seq<Node>, value: Value,
                                         fuel: nat, matches: nat)
    requires RanksBelow(g, rank, ranks) && forall t :: t in nodes ==> Measure(rank, ranks, t, value) < fuel
    ensures !OneOf(g, nodes, value, fuel, matches).Stuck?
    decreases fuel, 2, |nodes|
  {
    if nodes != [] {
      RunTerminates(g, rank, ranks, nodes[0], value, fuel);
      var more := if Run(g, nodes[0], value, fuel).Pass? then 1 else 0;
      OneTerminates(g, rank, ranks, nodes[1..], value, fuel, matches + more);
    }
  }

  lemma OptionTerminates(g: Graph, rank: map<Node, nat>, ranks: nat, n: Option<Node>, value: Value, fuel: nat)
    requires RanksBelow(g, rank, ranks) && (n.Some? ==> Measure(rank, ranks, n.value, value) < fuel)
    ensures !RunOption(g, n, value, fuel).Stuck?
    decreases fuel, 2, 0
  {
    if n.Some? { RunTerminates(g, rank, ranks, n.value, value, fuel); }
  }

  lemma RefTerminates(g: Graph, rank: map<Node, nat>, ranks: nat, n: Node, value: Value, fuel: nat)
    requires RanksBelow(g, rank, ranks) && n in g && Measure(rank, ranks, n, value) <= fuel
    ensures !RunRef(g, g[n].ref, value, fuel).Stuck?
    decreases fuel, 2, 0
  {
    hide Measure, ZeroTargets, Run;
    TargetsFall(g, rank, ranks, n, value, fuel);
    var r := g[n].ref;
    if r.Some? && r.value.target.Some? { RunTerminates(g, rank, ranks, r.value.target.value, value, fuel); }
  }

  lemma BranchTerminates(g: Graph, rank: map<Node, nat>, ranks: nat, n: Node, value: Value, fuel: nat)
    requires RanksBelow(g, rank, ranks) && n in g && Measure(rank, ranks, n, value) <= fuel
    ensures !Branch(g, g[n], value, fuel).Stuck?
    decreases fuel, 3, 0
  {
    hide Measure, RanksBelow, ZeroTargets, Run;
    var s := g[n];
    TargetsFall(g, rank, ranks, n, value, fuel);
    if s.condition.Some? {
      RunTerminates(g, rank, ranks, s.condition.value, value, fuel);
      OptionTerminates(g, rank, ranks, s.thenBranch, value, fuel);
      OptionTerminates(g, rank, ranks, s.elseBranch, value, fuel);
    }
  }

  lemma TargetsFall(g: Graph, rank: map<Node, nat>, ranks: nat, n: Node, value: Value, fuel: nat)
    requires RanksBelow(g, rank, ranks) && n in g && Measure(rank, ranks, n, value) <= fuel
    ensures forall t :: t in ZeroTargets(g[n]) ==> Measure(rank, ranks, t, value) < fuel
    ensures var s := g[n];
            && (s.ref.Some? ==> s.ref.value.spelled in ZeroTargets(s))
            && (s.negated.Some? ==> s.negated.value in ZeroTargets(s))
            && (s.condition.Some? ==> s.condition.value in ZeroTargets(s))
            && (s.thenBranch.Some? ==> s.thenBranch.value in ZeroTargets(s))
            && (s.elseBranch.Some? ==> s.elseBranch.value in ZeroTargets(s))
            && (forall t :: t in s.allOf || t in Many(s.anyOf) || t in Many(s.oneOf) ==> t in ZeroTargets(s))
  {
    forall t | t in ZeroTargets(g[n]) ensures Measure(rank, ranks, t, value) < fuel {
      SameValueFalls(g, rank, ranks, n, t, value);
    }
  }

  lemma CombinatorsTerminate(g: Graph, rank: map<Node, nat>, ranks: nat, n: Node, value: Value, fuel: nat)
    requires RanksBelow(g, rank, ranks) && n in g && Measure(rank, ranks, n, value) <= fuel
    ensures !Combinators(g, g[n], value, fuel).Stuck?
    decreases fuel, 4, 0
  {
    hide Measure, ZeroTargets, RanksBelow, RunEach, AnyOf, OneOf, Branch;
    var s := g[n];
    TargetsFall(g, rank, ranks, n, value, fuel);
    RefTerminates(g, rank, ranks, n, value, fuel);
    EachTerminates(g, rank, ranks, OnSame(s.allOf, value), fuel);
    if s.anyOf.Some? { AnyTerminates(g, rank, ranks, s.anyOf.value, value, fuel); }
    if s.oneOf.Some? { OneTerminates(g, rank, ranks, s.oneOf.value, value, fuel, 0); }
    OptionTerminates(g, rank, ranks, s.negated, value, fuel);
    BranchTerminates(g, rank, ranks, n, value, fuel);
  }

  lemma ContentsTerminate(g: Graph, rank: map<Node, nat>, ranks: nat, n: Node, value: Value, fuel: nat)
    requires RanksBelow(g, rank, ranks) && n in g && Measure(rank, ranks, n, value) <= fuel
    ensures !Contents(g, g[n], value, fuel).Stuck?
    decreases fuel, 4, 0
  {
    hide Measure, ZeroTargets, RanksBelow, RunEach, Parts;
    PartsAreSmaller(g[n], value);
    forall t | t in Parts(g[n], value) && t.Task? ensures Measure(rank, ranks, t.node, t.value) < fuel {
      SmallerValueFalls(g, rank, ranks, n, t, value);
    }
    EachTerminates(g, rank, ranks, Parts(g[n], value), fuel);
  }

  /** With a rank, fuel above the measure is enough for every value. */
  lemma {:induction false} RunTerminates(g: Graph, rank: map<Node, nat>, ranks: nat, n: Node, value: Value, fuel: nat)
    requires RanksBelow(g, rank, ranks) && Measure(rank, ranks, n, value) < fuel
    ensures !Run(g, n, value, fuel).Stuck?
    decreases fuel, 1, 0
  {
    hide Measure, RanksBelow, Combinators, Contents;
    if n in g {
      CombinatorsTerminate(g, rank, ranks, n, value, fuel - 1);
      ContentsTerminate(g, rank, ranks, n, value, fuel - 1);
    }
  }

  // ----- More fuel changes nothing -----

  lemma {:induction false} EachSettled(g: Graph, tasks: seq<Task>, fuel: nat)
    ensures !RunEach(g, tasks, fuel).Stuck? ==> RunEach(g, tasks, fuel + 1) == RunEach(g, tasks, fuel)
    decreases fuel, 2, |tasks|
  {
    if tasks != [] {
      if tasks[0].Task? { RunSettled(g, tasks[0].node, tasks[0].value, fuel); }
      EachSettled(g, tasks[1..], fuel);
    }
  }

  lemma {:induction false} AnySettled(g: Graph, nodes: seq<Node>, value: Value, fuel: nat)
    ensures !AnyOf(g, nodes, value, fuel).Stuck? ==> AnyOf(g, nodes, value, fuel + 1) == AnyOf(g, nodes, value, fuel)
    decreases fuel, 2, |nodes|
  {
    if nodes != [] {
      RunSettled(g, nodes[0], value, fuel);
      AnySettled(g, nodes[1..], value, fuel);
    }
  }

  lemma {:induction false} OneSettled(g: Graph, nodes: seq<Node>, value: Value, fuel: nat, matches: nat)
    ensures !OneOf(g, nodes, value, fuel, matches).Stuck? ==>
              OneOf(g, nodes, value, fuel + 1, matches) == OneOf(g, nodes, value, fuel, matches)
    decreases fuel, 2, |nodes|
  {
    if nodes != [] {
      RunSettled(g, nodes[0], value, fuel);
      OneSettled(g, nodes[1..], value, fuel, matches + if Run(g, nodes[0], value, fuel).Pass? then 1 else 0);
    }
  }

  lemma RefSettled(g: Graph, r: Option<Ref>, value: Value, fuel: nat)
    ensures !RunRef(g, r, value, fuel).Stuck? ==> RunRef(g, r, value, fuel + 1) == RunRef(g, r, value, fuel)
    decreases fuel, 2, 0
  {
    if r.Some? && r.value.target.Some? { RunSettled(g, r.value.target.value, value, fuel); }
  }

  lemma OptionSettled(g: Graph, n: Option<Node>, value: Value, fuel: nat)
    ensures !RunOption(g, n, value, fuel).Stuck? ==> RunOption(g, n, value, fuel + 1) == RunOption(g, n, value, fuel)
    decreases fuel, 2, 0
  {
    if n.Some? { RunSettled(g, n.value, value, fuel); }
  }

  lemma BranchSettled(g: Graph, s: Schema, value: Value, fuel: nat)
    ensures !Branch(g, s, value, fuel).Stuck? ==> Branch(g, s, value, fuel + 1) == Branch(g, s, value, fuel)
    decreases fuel, 3, 0
  {
    if s.condition.Some? {
      RunSettled(g, s.condition.value, value, fuel);
      OptionSettled(g, s.thenBranch, value, fuel);
      OptionSettled(g, s.elseBranch, value, fuel);
    }
  }

  lemma CombinatorsSettled(g: Graph, s: Schema, value: Value, fuel: nat)
    ensures !Combinators(g, s, value, fuel).Stuck? ==>
              Combinators(g, s, value, fuel + 1) == Combinators(g, s, value, fuel)
    decreases fuel, 4, 0
  {
    hide RunEach, AnyOf, OneOf, Branch, Run;
    RefSettled(g, s.ref, value, fuel);
    EachSettled(g, OnSame(s.allOf, value), fuel);
    if s.anyOf.Some? { AnySettled(g, s.anyOf.value, value, fuel); }
    if s.oneOf.Some? { OneSettled(g, s.oneOf.value, value, fuel, 0); }
    OptionSettled(g, s.negated, value, fuel);
    BranchSettled(g, s, value, fuel);
  }

  lemma {:induction false} RunSettled(g: Graph, n: Node, value: Value, fuel: nat)
    ensures !Run(g, n, value, fuel).Stuck? ==> Run(g, n, value, fuel + 1) == Run(g, n, value, fuel)
    decreases fuel, 1, 0
  {
    if fuel > 0 && n in g {
      CombinatorsSettled(g, g[n], value, fuel - 1);
      EachSettled(g, Parts(g[n], value), fuel - 1);
    }
  }

  lemma {:induction false} MoreFuel(g: Graph, n: Node, value: Value, fuel: nat, more: nat)
    requires fuel <= more && !Run(g, n, value, fuel).Stuck?
    ensures Run(g, n, value, more) == Run(g, n, value, fuel)
    decreases more - fuel
  {
    if fuel < more {
      RunSettled(g, n, value, fuel);
      MoreFuel(g, n, value, fuel + 1, more);
    }
  }

  /** From `fuel` on, validation ends with `verdict`. */
  ghost predicate SettlesAt(g: Graph, n: Node, value: Value, fuel: nat, verdict: Outcome) {
    verdict != Stuck && forall more :: fuel <= more ==> Run(g, n, value, more) == verdict
  }

  /** If the search accepts and every reference is plainly spelled, validation terminates on
      every value: some fuel is enough, and more never changes the verdict. */
  lemma AcceptedTerminates(g: Graph, n: Node, value: Value)
    requires Ranked(g) && PlainlySpelled(g)
    ensures exists fuel, verdict :: SettlesAt(g, n, value, fuel, verdict)
  {
    hide Universe, Ranks, Run, Measure, PlainlySpelled;
    var rank: map<Node, nat> :|
      Ranks(g, rank) && g.Keys <= rank.Keys && forall n :: n in rank ==> rank[n] < |Universe(g)|;
    var fuel := Measure(rank, |Universe(g)|, n, value) + 1;
    RunTerminates(g, rank, |Universe(g)|, n, value, fuel);
    var verdict := Run(g, n, value, fuel);
    forall more: nat | fuel <= more ensures Run(g, n, value, more) == verdict { MoreFuel(g, n, value, fuel, more); }
    assert SettlesAt(g, n, value, fuel, verdict);
  }

  /** Nodes whose references lead to each other never let validation end. */
  lemma {:induction false} ReferenceLoopNeverEnds(g: Graph, loop: set<Node>, n: Node, value: Value, fuel: nat)
    requires n in loop
    requires forall x :: x in loop ==>
               x in g && g[x].ref.Some? && g[x].ref.value.target.Some? && g[x].ref.value.target.value in loop
    ensures Run(g, n, value, fuel).Stuck?
    decreases fuel
  {
    if fuel > 0 {
      ReferenceLoopNeverEnds(g, loop, g[n].ref.value.target.value, value, fuel - 1);
      assert RunRef(g, g[n].ref, value, fuel - 1).Stuck?;
      assert Combinators(g, g[n], value, fuel - 1).Stuck?;
    }
  }

  // ----- Other spellings -----

  /** An extra slash before a pointer makes another spelling of the same place. */
  lemma ExtraSlash(pointer: string)
    ensures Tokens("/" + pointer) == Tokens(pointer) && "/" + pointer != pointer
  {
    D.SplitCons("", pointer);
    assert "" + ("/" + pointer) == "/" + pointer;
    assert ([""] + D.Split(pointer))[1..] == D.Split(pointer);
  }

  /** A schema that refers to itself with an extra slash never lets validation end. */
  lemma SelfAliasNeverEnds(g: Graph, n: Node, value: Value, fuel: nat)
    requires Resolved(g) && n in g && g[n].ref.Some? && g[n].ref.value.spelled == Node(n.kind, "/" + n.pointer)
    ensures Run(g, n, value, fuel).Stuck?
  {
    ExtraSlash(n.pointer);
    assert LeadsDown(g[n].ref.value.spelled, n);
    ReferenceLoopNeverEnds(g, {n}, n, value, fuel);
  }

  function Only(ref: Option<Ref>): Schema {
    Schema(ref, _ => true, [], None, None, None, None, None, None, None, [], [], map[], Allowed, None, None, [],
           _ => true)
  }

  const ALIASED: Node := Node("common", "/$defs/a")
  const ALIAS: Node := Node("common", "//$defs/a")

  /** A document whose one definition, `a`, is a reference to `#//$defs/a`. */
  function AliasedGraph(): Graph {
    map[Node("common", "") := Only(None), ALIASED := Only(Some(Ref(ALIAS, Some(ALIASED))))]
  }

  lemma RootIsElsewhere()
    ensures Tokens("") == [] && Tokens("/$defs/a") != []
  {
    hide D.Split;
    D.SplitOne("");
    D.SplitCons("", "$defs/a");
    D.SplitCons("$defs", "a");
    assert "" + ("/" + "$defs/a") == "/$defs/a" && "$defs" + ("/" + "a") == "$defs/a";
    FirstIsNamed("$defs", D.Split("a"));
    var rest := ["$defs"] + D.Split("a");
    assert ([""] + rest)[1..] == rest;
  }

  lemma FirstIsNamed(name: string, segs: seq<string>)
    requires name != ""
    ensures Named([name] + segs) != []
  {
  }

  lemma AliasResolves()
    ensures Resolved(AliasedGraph()) && !PlainlySpelled(AliasedGraph())
  {
    hide Tokens;
    RootIsElsewhere();
    ExtraSlash("/$defs/a");
    assert "/" + "/$defs/a" == "//$defs/a";
    assert ALIASED in AliasedGraph() && ALIAS.pointer != ALIASED.pointer;
  }

  lemma TwoNodes(g: Graph, m: Node, n: Node)
    requires m in g && n in g && m != n
    ensures |Universe(g)| >= 2
  {
    var nodes := Universe(g);
    assert m in nodes && n in nodes;
    assert |nodes - {n}| == |nodes| - 1 && m in nodes - {n};
  }

  /** No collected schema is called what the reference spells, so the search finds no cycle. */
  lemma AliasIsRanked()
    ensures Ranked(AliasedGraph())
  {
    hide Zero, Universe;
    AliasEdges();
    assert ALIAS.pointer[1] != ALIASED.pointer[1];
    RankedByHand(AliasedGraph(), Node("common", ""), ALIASED, ALIAS);
  }

  lemma RankedByHand(g: Graph, root: Node, a: Node, alias: Node)
    requires g.Keys == {root, a} && root != a && a != alias
    requires Zero(g, root) == [] && Zero(g, a) == [alias] && Zero(g, alias) == []
    ensures Ranked(g)
  {
    hide Zero, Universe;
    var rank: map<Node, nat> := map[root := 0, alias := 0, a := 1];
    assert Ranks(g, rank);
    TwoNodes(g, root, a);
  }

  lemma AliasEdges()
    ensures AliasedGraph().Keys == {Node("common", ""), ALIASED}
    ensures Zero(AliasedGraph(), ALIASED) == [ALIAS] && Zero(AliasedGraph(), ALIAS) == []
    ensures Zero(AliasedGraph(), Node("common", "")) == []
  {
    assert ALIAS.pointer[1] != ALIASED.pointer[1] && ALIAS.pointer != "";
  }

  /** So acceptance alone promises nothing about termination: a reference that spells a
      collected pointer in another way closes a loop the search does not see. */
  lemma AcceptanceIsNotEnough(value: Value, fuel: nat)
    ensures Ranked(AliasedGraph()) && Resolved(AliasedGraph()) && ALIASED in AliasedGraph()
    ensures Run(AliasedGraph(), ALIASED, value, fuel).Stuck?
  {
    hide Run, Ranked, Resolved, Tokens;
    AliasIsRanked();
    AliasResolves();
    assert "/" + "/$defs/a" == "//$defs/a";
    SelfAliasNeverEnds(AliasedGraph(), ALIASED, value, fuel);
  }
}
