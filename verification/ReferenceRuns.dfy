/** Whole runs of the reference machine: how long they can be and what they never change. */
module ReferenceRuns {
  import opened Protocol
  import opened Reference

  /** Some caller, at some time and with some context and receipt, gets the move applied. */
  ghost predicate Step(a: Record, b: Record) {
    || (exists now, ctx, receipt :: ValidateTransition(a, b, a, now, ctx, receipt).Applied?)
    || (exists now, ctx :: ValidateManualRetry(a, b, a, now, ctx).Applied?)
  }

  ghost predicate Run(s: seq<Record>) {
    |s| > 0 && forall i :: 0 < i < |s| ==> Step(s[i - 1], s[i])
  }

  predicate Fresh(r: Record) {
    ValidDocument(r) && r.state.Pending? && r.attemptCount == 0
  }

  /** What a later record of a run keeps from an earlier one. */
  predicate Extends(a: Record, b: Record) {
    && b.evidence == a.evidence
    && a.attemptCount <= b.attemptCount
    && (a.lastAttemptAt.Some? ==> b.lastAttemptAt.Some? && a.lastAttemptAt.value <= b.lastAttemptAt.value)
    && (a.disposition.ManualIntervention? ==> b.disposition.ManualIntervention? && b.manualReason == a.manualReason)
    && !Terminal(a.state)
    && (b.attemptCount == a.attemptCount ==> b.lastAttemptAt == a.lastAttemptAt)
  }

  /** Two moves for every attempt still allowed, one for an attempt in flight, one to end. */
  function Potential(r: Record): int {
    2 * (r.evidence.policy.maxTotalAttempts - r.attemptCount)
    + (if r.state.Sending? then 1 else 0)
    + (if Terminal(r.state) then 0 else 1)
  }

  lemma StepFacts(a: Record, b: Record)
    requires Step(a, b)
    ensures ValidDocument(a) && ValidDocument(b)
    ensures Extends(a, b)
    ensures Potential(b) < Potential(a)
    ensures b.attemptCount == a.attemptCount + (if b.state.Sending? then 1 else 0)
  {
    if now, ctx, receipt :| ValidateTransition(a, b, a, now, ctx, receipt).Applied? {
      assert EdgeError(a, b, now, receipt, ctx.partitions[a.evidence.reconciliationId]).None?;
    }
  }

  /** Every run from a fresh record is bounded, and an earlier record's history is never
      rewritten: evidence is constant, attempts and their times only grow, manual
      intervention is permanent, and a terminal record has no successor. */
  lemma {:induction false} RunsAreBounded(s: seq<Record>)
    requires Run(s) && Fresh(s[0])
    ensures |s| - 1 <= 2 * s[0].evidence.policy.maxTotalAttempts + 1
    ensures forall i, j :: 0 <= i < j < |s| ==> Extends(s[i], s[j])
    ensures forall i :: 0 <= i < |s| ==> s[i].attemptCount == Sends(s[..i + 1])
  {
    RunIsDescent(s);
    DescentExtends(s, 0, |s| - 1);
    DescentBoundsLength(s);
    forall i, j | 0 <= i < j < |s| ensures Extends(s[i], s[j]) {
      DescentExtends(s, i, j);
    }
    forall i | 0 <= i < |s| ensures s[i].attemptCount == Sends(s[..i + 1]) {
      AttemptsCountSends(s, i);
    }
  }

  /** How many records of a run are sends. */
  function Sends(s: seq<Record>): nat {
    if s == [] then 0 else Sends(s[..|s| - 1]) + (if s[|s| - 1].state.Sending? then 1 else 0)
  }

  /** What `StepFacts` says of neighbours, without the transitions themselves. */
  predicate Descends(a: Record, b: Record) {
    && a.attemptCount <= a.evidence.policy.maxTotalAttempts
    && b.attemptCount <= b.evidence.policy.maxTotalAttempts
    && Extends(a, b)
    && Potential(b) < Potential(a)
    && b.attemptCount == a.attemptCount + (if b.state.Sending? then 1 else 0)
  }

  predicate Descent(s: seq<Record>) {
    |s| > 0 && forall i :: 0 < i < |s| ==> Descends(s[i - 1], s[i])
  }

  lemma RunIsDescent(s: seq<Record>)
    requires Run(s)
    ensures Descent(s)
  {
    forall i | 0 < i < |s| ensures Descends(s[i - 1], s[i]) {
      StepFacts(s[i - 1], s[i]);
    }
  }

  lemma {:induction false} DescentBoundsLength(s: seq<Record>)
    requires Descent(s) && s[0].attemptCount <= s[0].evidence.policy.maxTotalAttempts
    ensures 0 <= Potential(s[|s| - 1]) <= Potential(s[0]) - (|s| - 1)
  {
    if |s| > 1 {
      var init := s[..|s| - 1];
      assert forall i :: 0 < i < |init| ==> Descends(s[i - 1], s[i]);
      DescentBoundsLength(init);
    }
  }

  lemma {:induction false} DescentExtends(s: seq<Record>, i: int, j: int)
    requires Descent(s) && 0 <= i <= j < |s|
    ensures i < j ==> Extends(s[i], s[j])
    decreases j
  {
    if i < j {
      assert Descends(s[j - 1], s[j]);
      DescentExtends(s, i, j - 1);
    }
  }

  lemma {:induction false} AttemptsCountSends(s: seq<Record>, i: int)
    requires Descent(s) && Fresh(s[0]) && 0 <= i < |s|
    ensures s[i].attemptCount == Sends(s[..i + 1])
    decreases i
  {
    assert s[..i + 1][..i] == s[..i];
    if i == 0 {
      assert Sends(s[..0]) == 0;
    } else {
      AttemptsCountSends(s, i - 1);
      assert Descends(s[i - 1], s[i]);
    }
  }

  // ----- The bound is attained -----

  predicate Exhausted(p: Policy, k: int) {
    k >= p.maxAttempts
  }

  /** The pending record after `k` attempts at the time it was observed, each lost in a restart. */
  function PendingAfter(e: Evidence, k: nat): Record {
    var last := if k == 0 then None else Some(e.observedAt);
    if Exhausted(e.policy, k) then
      Record(e, Pending, k, ManualIntervention, Some(ATTEMPT_LIMIT_REACHED), last, None, None, None, None, None)
    else
      Record(e, Pending, k, Automatic, None, last, None, None, None, None, None)
  }

  function SendingAfter(e: Evidence, k: nat): Record {
    PendingAfter(e, k).(state := Sending, attemptCount := k + 1, lastAttemptAt := Some(e.observedAt))
  }

  function DiscardedAfter(e: Evidence, k: nat): Record {
    PendingAfter(e, k).(state := Discarded, discardedAt := Some(e.observedAt),
                        discard := Some(DiscardReason(AuthenticatedUser, OPERATOR_REQUEST)))
  }

  function LongRun(e: Evidence, k: nat): seq<Record> {
    if k == 0 then [PendingAfter(e, 0)]
    else LongRun(e, k - 1) + [SendingAfter(e, k - 1), PendingAfter(e, k)]
  }

  predicate UsablePolicy(e: Evidence) {
    && PolicyInRange(e.policy)
    && e.policy.baseDelaySeconds <= e.policy.maxDelaySeconds
    && e.policy.maxAttempts <= e.policy.maxTotalAttempts
    && 0 <= e.batchSequence <= 2_147_483_647
  }

  lemma LongRunSteps(e: Evidence, k: nat)
    requires UsablePolicy(e) && k < e.policy.maxTotalAttempts
    ensures Step(PendingAfter(e, k), SendingAfter(e, k))
    ensures Step(SendingAfter(e, k), PendingAfter(e, k + 1))
  {
    var ctx := TrustedContext(map[e.reconciliationId := Partition("t", "s")], "t", "s", false);
    var pending, sending, requeued := PendingAfter(e, k), SendingAfter(e, k), PendingAfter(e, k + 1);
    assert Exhausted(e.policy, k) ==> ValidateManualRetry(pending, sending, pending, e.observedAt, ctx).Applied?;
    assert !Exhausted(e.policy, k) ==> ValidateTransition(pending, sending, pending, e.observedAt, ctx, None).Applied?;
    assert ValidateTransition(sending, requeued, sending, e.observedAt, ctx, None).Applied?;
  }

  lemma {:induction false} LongRunIsRun(e: Evidence, k: nat)
    requires UsablePolicy(e) && k <= e.policy.maxTotalAttempts
    ensures |LongRun(e, k)| == 2 * k + 1
    ensures LongRun(e, k)[0] == PendingAfter(e, 0) && LongRun(e, k)[2 * k] == PendingAfter(e, k)
    ensures Run(LongRun(e, k))
  {
    if k > 0 {
      LongRunIsRun(e, k - 1);
      LongRunSteps(e, k - 1);
      var init, s := LongRun(e, k - 1), LongRun(e, k);
      forall i | 0 < i < |s| ensures Step(s[i - 1], s[i]) {
        if i < |init| { assert Step(init[i - 1], init[i]); }
      }
    }
  }

  const OPERATOR_REQUEST: string := "operator_request"

  lemma OperatorRequestIsSafe()
    ensures SafeReason(OPERATOR_REQUEST) && |OPERATOR_REQUEST| <= MAX_REASON
  {
  }

  lemma LongRunEnds(e: Evidence, k: nat)
    requires UsablePolicy(e) && k == e.policy.maxTotalAttempts
    ensures Step(PendingAfter(e, k), DiscardedAfter(e, k))
  {
    hide SafeReason, OPERATOR_REQUEST;
    OperatorRequestIsSafe();
    var ctx := TrustedContext(map[e.reconciliationId := Partition("t", "s")], "t", "s", false);
    var pending := PendingAfter(e, k);
    assert ValidateTransition(pending, DiscardedAfter(e, k), pending, e.observedAt, ctx, None).Applied?;
  }

  /** For every usable policy some run makes exactly `2 * maxTotalAttempts + 1` moves. */
  lemma BoundIsAttained(e: Evidence)
    requires UsablePolicy(e)
    ensures exists s: seq<Record> ::
              Run(s) && Fresh(s[0]) && s[0].evidence == e && |s| - 1 == 2 * e.policy.maxTotalAttempts + 1
  {
    var k := e.policy.maxTotalAttempts;
    LongRunIsRun(e, k);
    LongRunEnds(e, k);
    var s := LongRun(e, k) + [DiscardedAfter(e, k)];
    hide Step, DiscardedAfter;
    forall i | 0 < i < |s| ensures Step(s[i - 1], s[i]) {
      if i < |s| - 1 { assert Step(LongRun(e, k)[i - 1], LongRun(e, k)[i]); }
    }
    assert Run(s) && Fresh(s[0]);
  }
}
