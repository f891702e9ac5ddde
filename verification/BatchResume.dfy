/** The reference's selection of what may be sent next from one ordered batch. */
module BatchResume {
  import opened Protocol
  import opened Reference
  import opened ReferenceRules

  datatype BatchCheckpoint = BatchCheckpoint(batchId: BatchId, expectedNext: int, completed: map<int, RecordId>)

  datatype Resumed =
    | Selected(records: seq<Record>)
    | BatchInvalid | BatchLimitExceeded | CheckpointRequired | CheckpointMismatch
    | RecordRefused(code: Code)

  function Seq(r: Record): int { r.evidence.batchSequence }

  /** The first record that is invalid or outside the caller's partition. */
  function FirstRefusal(records: seq<Record>, ctx: TrustedContext): (e: Option<Code>) {
    if records == [] then None
    else
      var r := records[0];
      if DocumentError(r).Some? then DocumentError(r)
      else if PartitionError(r, ctx).Some? then PartitionError(r, ctx)
      else if !OwnerMatches(r, ctx) then Some(SubjectContextMismatch)
      else FirstRefusal(records[1..], ctx)
  }

  predicate CheckpointWellFormed(cp: BatchCheckpoint) {
    0 <= cp.expectedNext && forall s :: s in cp.completed ==> 0 <= s < cp.expectedNext
  }

  /** One batch, no identifier twice, sequences contiguous in input order. */
  predicate OneBatch(records: seq<Record>, cp: BatchCheckpoint) {
    && (forall i :: 0 <= i < |records| ==> records[i].evidence.batchId == cp.batchId)
    && (forall i, j :: 0 <= i < j < |records| ==>
          records[i].evidence.reconciliationId != records[j].evidence.reconciliationId)
    && (forall i :: 0 <= i < |records| ==> Seq(records[i]) == Seq(records[0]) + i)
  }

  /** A selected record or the end of the selection. */
  predicate Sendable(r: Record, now: Instant) {
    && !r.disposition.ManualIntervention? && !r.state.Sending?
    && !(r.state.RetryWait? && r.nextAttemptAt.Some? && now < r.nextAttemptAt.value)
  }

  predicate CompletedInPlace(r: Record, cp: BatchCheckpoint) {
    && r.state.Acknowledged? && Seq(r) < cp.expectedNext
    && Seq(r) in cp.completed && cp.completed[Seq(r)] == r.evidence.reconciliationId
  }

  /** The selection loop from record `i` on. */
  function SelectFrom(records: seq<Record>, i: nat, active: bool, selected: seq<Record>, now: Instant, limit: int,
                      cp: BatchCheckpoint): (r: Resumed)
    requires i <= |records|
    ensures r.Selected? || r.CheckpointMismatch?
    decreases |records| - i
  {
    if i == |records| then Selected(selected)
    else
      var r := records[i];
      if Terminal(r.state) then
        if active || !CompletedInPlace(r, cp) then CheckpointMismatch
        else SelectFrom(records, i + 1, active, selected, now, limit, cp)
      else if !active && Seq(r) != cp.expectedNext then CheckpointMismatch
      else if !Sendable(r, now) then Selected(selected)
      else if |selected| + 1 == limit then Selected(selected + [r])
      else SelectFrom(records, i + 1, true, selected + [r], now, limit, cp)
  }

  function Resume(records: seq<Record>, now: Instant, limit: int, ctx: TrustedContext,
                  cp: Option<BatchCheckpoint>): (r: Resumed)
  {
    if limit < 1 then BatchInvalid
    else if |records| > limit then BatchLimitExceeded
    else if cp.None? then CheckpointRequired
    else if !CheckpointWellFormed(cp.value) then CheckpointMismatch
    else if records == [] then Selected([])
    else if FirstRefusal(records, ctx).Some? then RecordRefused(FirstRefusal(records, ctx).value)
    else if !OneBatch(records, cp.value) then BatchInvalid
    else SelectFrom(records, 0, false, [], now, limit, cp.value)
  }

  method OrderedBatchResume(records: seq<Record>, now: Instant, limit: int, ctx: TrustedContext,
                            cp: Option<BatchCheckpoint>) returns (r: Resumed)
    ensures r == Resume(records, now, limit, ctx, cp)
    ensures forall s :: r == Selected(s) <==> Askable(records, limit, ctx, cp) && MaximalRun(records, s, now, cp.value)
  {
    forall s ensures Resume(records, now, limit, ctx, cp) == Selected(s) <==>
                     Askable(records, limit, ctx, cp) && MaximalRun(records, s, now, cp.value)
    {
      ResumeExactly(records, s, now, limit, ctx, cp);
    }
    hide Askable, MaximalRun;
    if limit < 1 { return BatchInvalid; }
    if |records| > limit { return BatchLimitExceeded; }
    if cp.None? { return CheckpointRequired; }
    if !CheckpointWellFormed(cp.value) { return CheckpointMismatch; }
    if records == [] { return Selected([]); }
    if FirstRefusal(records, ctx).Some? { return RecordRefused(FirstRefusal(records, ctx).value); }
    if !OneBatch(records, cp.value) { return BatchInvalid; }
    var selected, active, i := [], false, 0;
    while i < |records|
      invariant 0 <= i <= |records|
      invariant SelectFrom(records, 0, false, [], now, limit, cp.value) ==
                SelectFrom(records, i, active, selected, now, limit, cp.value)
    {
      var rec := records[i];
      if Terminal(rec.state) {
        if active || !CompletedInPlace(rec, cp.value) { return CheckpointMismatch; }
      } else {
        if !active && Seq(rec) != cp.value.expectedNext { return CheckpointMismatch; }
        active := true;
        if !Sendable(rec, now) { break; }
        selected := selected + [rec];
        if |selected| == limit { break; }
      }
      i := i + 1;
    }
    return Selected(selected);
  }

  // ----- What is selected -----

  /** `s` is a run of consecutive due records that starts at the checkpoint, and everything
      before its end that is not in it was completed in place. */
  ghost predicate IsRun(records: seq<Record>, s: seq<Record>, now: Instant, cp: BatchCheckpoint) {
    && (forall i :: 0 <= i < |s| ==> Seq(s[i]) == cp.expectedNext + i)
    && (forall i :: 0 <= i < |s| ==> s[i] in records && Sendable(s[i], now) && !Terminal(s[i].state))
    && (forall r :: r in records && Seq(r) < cp.expectedNext + |s| && r !in s ==> CompletedInPlace(r, cp))
  }

  /** The run cannot go on: the next record, if there is one, is unfinished and must wait. */
  ghost predicate Stops(records: seq<Record>, s: seq<Record>, now: Instant, cp: BatchCheckpoint) {
    forall r :: r in records && Seq(r) == cp.expectedNext + |s| ==> !Terminal(r.state) && !Sendable(r, now)
  }

  /** The records leave no gap after the checkpoint. */
  predicate Starts(records: seq<Record>, cp: BatchCheckpoint) {
    records != [] ==> Seq(records[0]) <= cp.expectedNext
  }

  ghost predicate MaximalRun(records: seq<Record>, s: seq<Record>, now: Instant, cp: BatchCheckpoint) {
    Starts(records, cp) && IsRun(records, s, now, cp) && Stops(records, s, now, cp)
  }

  /** The arguments make sense: within the limit, a sound checkpoint, and one batch of the
      caller's own valid records. */
  ghost predicate Askable(records: seq<Record>, limit: int, ctx: TrustedContext, cp: Option<BatchCheckpoint>) {
    && limit >= 1 && |records| <= limit && cp.Some? && CheckpointWellFormed(cp.value)
    && (forall r :: r in records ==> ValidDocument(r) && IsOwner(r, ctx))
    && OneBatch(records, cp.value)
  }

  lemma {:induction false} RefusalExactly(records: seq<Record>, ctx: TrustedContext)
    ensures FirstRefusal(records, ctx).None? <==> forall r :: r in records ==> ValidDocument(r) && IsOwner(r, ctx)
  {
    hide DocumentError;
    if records != [] {
      RefusalExactly(records[1..], ctx);
      assert records[0] in records && forall r :: r in records[1..] ==> r in records;
      forall r | r in records ensures r == records[0] || r in records[1..] { InTail(records, r); }
    }
  }

  lemma InTail(records: seq<Record>, r: Record)
    requires r in records
    ensures r == records[0] || r in records[1..]
  {
    var i :| 0 <= i < |records| && records[i] == r;
    assert i > 0 ==> records[1..][i - 1] == r;
  }

  /** The loop's state after `i` records: `lo` finished ones, then the selected ones. */
  ghost predicate Reached(records: seq<Record>, lo: nat, i: nat, now: Instant, cp: BatchCheckpoint) {
    && lo <= i <= |records|
    && (forall k :: 0 <= k < lo ==> CompletedInPlace(records[k], cp))
    && (forall k :: lo <= k < i ==> Sendable(records[k], now) && !Terminal(records[k].state))
    && (lo < i ==> Seq(records[lo]) == cp.expectedNext)
  }

  lemma {:induction false} SelectionIsMaximal(records: seq<Record>, lo: nat, i: nat, now: Instant, limit: int,
                                              cp: BatchCheckpoint)
    requires OneBatch(records, cp) && Reached(records, lo, i, now, cp) && |records| <= limit
    requires SelectFrom(records, i, lo < i, records[lo..i], now, limit, cp).Selected?
    ensures MaximalRun(records, SelectFrom(records, i, lo < i, records[lo..i], now, limit, cp).records, now, cp)
    decreases |records| - i
  {
    hide OneBatch, MaximalRun, Sendable, CompletedInPlace;
    var sofar := records[lo..i];
    if i < |records| {
      var r := records[i];
      if Terminal(r.state) {
        assert records[i + 1..i + 1] == sofar;
        SelectionIsMaximal(records, i + 1, i + 1, now, limit, cp);
      } else if Sendable(r, now) {
        assert sofar + [r] == records[lo..i + 1];
        if |sofar| + 1 == limit { SliceIsMaximal(records, lo, i + 1, now, cp); }
        else { SelectionIsMaximal(records, lo, i + 1, now, limit, cp); }
      } else {
        SliceIsMaximal(records, lo, i, now, cp);
      }
    } else {
      SliceIsMaximal(records, lo, i, now, cp);
    }
  }

  lemma SliceIsMaximal(records: seq<Record>, lo: nat, hi: nat, now: Instant, cp: BatchCheckpoint)
    requires OneBatch(records, cp) && Reached(records, lo, hi, now, cp)
    requires lo < |records| ==> Seq(records[lo]) == cp.expectedNext
    requires hi < |records| ==> !Terminal(records[hi].state) && !Sendable(records[hi], now)
    ensures MaximalRun(records, records[lo..hi], now, cp)
  {
    hide Sendable;
    var s := records[lo..hi];
    forall k | 0 <= k < |s| ensures Seq(s[k]) == cp.expectedNext + k { assert s[k] == records[lo + k]; }
    assert forall k :: lo <= k < hi ==> records[k] == s[k - lo];
    forall r | r in records && Seq(r) == cp.expectedNext + |s| ensures !Terminal(r.state) && !Sendable(r, now) {
      var k :| 0 <= k < |records| && records[k] == r;
      assert lo < |records| ==> k == hi;
    }
  }

  /** A run is a slice of the records, at the checkpoint. */
  lemma RunIsSlice(records: seq<Record>, s: seq<Record>, now: Instant, cp: BatchCheckpoint)
    requires OneBatch(records, cp) && Starts(records, cp) && records != [] && IsRun(records, s, now, cp)
    ensures var lo := cp.expectedNext - Seq(records[0]);
            s != [] ==> lo + |s| <= |records| && s == records[lo..lo + |s|]
  {
    hide Sendable, CompletedInPlace, Terminal;
    var lo := cp.expectedNext - Seq(records[0]);
    forall k | 0 <= k < |s| ensures lo + k < |records| && s[k] == records[lo + k] {
      var i :| 0 <= i < |records| && records[i] == s[k];
      assert i == lo + k;
    }
    if s != [] {
      var last := s[|s| - 1];
      assert lo + (|s| - 1) < |records|;
      assert s == records[lo..lo + |s|];
    }
  }

  /** What a maximal run says of the record at `i`. */
  lemma AtPosition(records: seq<Record>, s: seq<Record>, i: nat, now: Instant, cp: BatchCheckpoint)
    requires OneBatch(records, cp) && i < |records| && MaximalRun(records, s, now, cp)
    ensures var start, r := cp.expectedNext - Seq(records[0]), records[i];
            && (i < start ==> CompletedInPlace(r, cp))
            && (start <= i < start + |s| ==> Sendable(r, now) && !Terminal(r.state))
            && (i == start + |s| ==> !Sendable(r, now) && !Terminal(r.state))
            && (i >= start ==> (Seq(r) == cp.expectedNext <==> i == start))
  {
    hide Sendable, CompletedInPlace;
    var start, r := cp.expectedNext - Seq(records[0]), records[i];
    assert r in records && Seq(r) == Seq(records[0]) + i;
    if i < start {
      forall k | 0 <= k < |s| ensures s[k] != r { assert Seq(s[k]) == cp.expectedNext + k; }
    } else if i < start + |s| {
      RunIsSlice(records, s, now, cp);
      assert s[i - start] == r;
    }
  }

  /** Where a maximal run lies, if it has any records. */
  lemma RunPlace(records: seq<Record>, s: seq<Record>, now: Instant, cp: BatchCheckpoint)
    requires OneBatch(records, cp) && records != [] && MaximalRun(records, s, now, cp)
    ensures var start := cp.expectedNext - Seq(records[0]);
            start >= 0 && (s != [] ==> start + |s| <= |records| && s == records[start..start + |s|])
  {
    RunIsSlice(records, s, now, cp);
  }

  lemma {:induction false} MaximalIsSelected(records: seq<Record>, s: seq<Record>, lo: nat, i: nat, now: Instant,
                                             limit: int, cp: BatchCheckpoint)
    requires OneBatch(records, cp) && records != [] && |records| <= limit && MaximalRun(records, s, now, cp)
    requires lo <= i <= |records| && lo == Least(i, cp.expectedNext - Seq(records[0]))
    requires i <= cp.expectedNext - Seq(records[0]) + |s|
    ensures SelectFrom(records, i, lo < i, records[lo..i], now, limit, cp) == Selected(s)
    decreases |records| - i
  {
    hide Sendable, CompletedInPlace, OneBatch, MaximalRun;
    var start := cp.expectedNext - Seq(records[0]);
    RunPlace(records, s, now, cp);
    if i < |records| {
      var r := records[i];
      AtPosition(records, s, i, now, cp);
      if i < start {
        CompletedIsTerminal(r, cp);
        assert records[i + 1..i + 1] == records[lo..i] == [];
        MaximalIsSelected(records, s, i + 1, i + 1, now, limit, cp);
      } else if i < start + |s| {
        assert records[lo..i] + [r] == records[lo..i + 1];
        if |records[lo..i]| + 1 != limit { MaximalIsSelected(records, s, lo, i + 1, now, limit, cp); }
      }
    }
  }

  function Least(a: int, b: int): int { if a <= b then a else b }

  lemma CompletedIsTerminal(r: Record, cp: BatchCheckpoint)
    requires CompletedInPlace(r, cp)
    ensures Terminal(r.state) && Seq(r) < cp.expectedNext
  {
  }

  /** Exactly the maximal run of due records at the checkpoint is selected, and only if the
      arguments make sense: no shorter run, no other, and nothing past a record that must wait. */
  lemma ResumeExactly(records: seq<Record>, s: seq<Record>, now: Instant, limit: int, ctx: TrustedContext,
                      cp: Option<BatchCheckpoint>)
    ensures Resume(records, now, limit, ctx, cp) == Selected(s) <==>
            Askable(records, limit, ctx, cp) && MaximalRun(records, s, now, cp.value)
  {
    hide SelectFrom, OneBatch, MaximalRun, IsOwner, ValidDocument, FirstRefusal;
    RefusalExactly(records, ctx);
    if cp.Some? {
      if records == [] {
        NothingToSelect(s, now, cp.value);
      } else if OneBatch(records, cp.value) && |records| <= limit {
        BothWays(records, s, now, limit, cp.value);
      }
    }
  }

  lemma NothingToSelect(s: seq<Record>, now: Instant, cp: BatchCheckpoint)
    ensures OneBatch([], cp) && (MaximalRun([], s, now, cp) <==> s == [])
  {
    if s != [] { assert s[0] !in []; }
  }

  lemma BothWays(records: seq<Record>, s: seq<Record>, now: Instant, limit: int, cp: BatchCheckpoint)
    requires OneBatch(records, cp) && records != [] && |records| <= limit
    ensures SelectFrom(records, 0, false, [], now, limit, cp) == Selected(s) <==> MaximalRun(records, s, now, cp)
  {
    hide SelectFrom, OneBatch, IsRun, Stops;
    assert records[0..0] == [];
    if SelectFrom(records, 0, false, [], now, limit, cp) == Selected(s) {
      SelectionIsMaximal(records, 0, 0, now, limit, cp);
    }
    if MaximalRun(records, s, now, cp) { MaximalIsSelected(records, s, 0, 0, now, limit, cp); }
  }

  /** A selection is a run that starts at the checkpoint. */
  lemma ResumeIsContiguous(records: seq<Record>, now: Instant, limit: int, ctx: TrustedContext,
                           cp: Option<BatchCheckpoint>)
    requires Resume(records, now, limit, ctx, cp).Selected?
    ensures cp.Some? && IsRun(records, Resume(records, now, limit, ctx, cp).records, now, cp.value)
  {
    hide Resume;
    ResumeExactly(records, Resume(records, now, limit, ctx, cp).records, now, limit, ctx, cp);
  }

  /** Every refusal has the cause its name says; a mismatch with a sound checkpoint means that no
      maximal run starts there. */
  lemma ResumeRefusals(records: seq<Record>, now: Instant, limit: int, ctx: TrustedContext,
                       cp: Option<BatchCheckpoint>)
    ensures match Resume(records, now, limit, ctx, cp)
            case Selected(_) => true
            case BatchLimitExceeded => |records| > limit
            case CheckpointRequired => cp.None?
            case RecordRefused(_) => exists r :: r in records && !(ValidDocument(r) && IsOwner(r, ctx))
            case BatchInvalid => limit < 1 || (cp.Some? && !OneBatch(records, cp.value))
            case CheckpointMismatch =>
              cp.Some? && (CheckpointWellFormed(cp.value) ==> forall s :: !MaximalRun(records, s, now, cp.value))
  {
    hide SelectFrom, OneBatch, MaximalRun, IsOwner, ValidDocument, FirstRefusal;
    RefusalExactly(records, ctx);
    if cp.Some? && OneBatch(records, cp.value) && records != [] && |records| <= limit {
      forall s ensures SelectFrom(records, 0, false, [], now, limit, cp.value) == Selected(s) <==>
                       MaximalRun(records, s, now, cp.value)
      {
        BothWays(records, s, now, limit, cp.value);
      }
    }
  }
}
