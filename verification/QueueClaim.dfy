/** Choosing what to send next: the scan over an owner's records in batch order and what it finds. */
module QueueClaim {
  import opened Protocol
  import opened QueueRecord
  import opened QueueDisk
  import opened QueueInvariant
  import opened QueueFence

  datatype Choice = Chosen(envelope: Envelope) | ClockBehind | NoneReady | NoneLeft

  /** An item that keeps the rest of its batch waiting. */
  predicate Blocks(e: Envelope, now: Instant) {
    || e.hold.Some?
    || e.record.state.Sending?
    || (e.record.state.RetryWait? && e.record.nextAttemptAt.Some? && now < e.record.nextAttemptAt.value)
    || (e.record.state.Pending? && !e.record.disposition.Automatic?)
  }

  predicate Claimable(e: Envelope, now: Instant) {
    && !Blocks(e, now)
    && (e.record.state.RetryWait? || e.record.state.Pending?)
    && e.record.attemptCount < e.record.evidence.policy.maxAttempts
  }

  predicate ClockOk(e: Envelope, now: Instant) {
    e.record.lastAttemptAt.Some? ==> e.record.lastAttemptAt.value <= now
  }

  /** The loop of `claim`, from item `i` on. */
  function Scan(items: seq<Envelope>, i: nat, blocked: set<BatchId>, found: bool, now: Instant): (r: Choice)
    requires i <= |items|
    decreases |items| - i
  {
    if i == |items| then (if found then NoneReady else NoneLeft)
    else
      var e := items[i];
      if e.hold.Some? then Scan(items, i + 1, blocked + {Batch(e)}, true, now)
      else if Batch(e) in blocked then Scan(items, i + 1, blocked, true, now)
      else if Blocks(e, now) then Scan(items, i + 1, blocked + {Batch(e)}, true, now)
      else if !Claimable(e, now) then Scan(items, i + 1, blocked, found, now)
      else if !ClockOk(e, now) then ClockBehind
      else Chosen(e)
  }

  /** `claim`'s selection loop. */
  method SelectClaim(items: seq<Envelope>, now: Instant) returns (r: Choice)
    ensures r == Scan(items, 0, {}, false, now)
  {
    var found, blocked, i := false, {}, 0;
    while i < |items|
      invariant 0 <= i <= |items|
      invariant Scan(items, 0, {}, false, now) == Scan(items, i, blocked, found, now)
    {
      var e := items[i];
      if e.hold.Some? {
        found, blocked := true, blocked + {Batch(e)};
      } else if Batch(e) in blocked {
        found := true;
      } else if e.record.state.Sending? {
        found, blocked := true, blocked + {Batch(e)};
      } else if e.record.state.RetryWait? && e.record.nextAttemptAt.Some? && now < e.record.nextAttemptAt.value {
        found, blocked := true, blocked + {Batch(e)};
      } else if e.record.state.Pending? && !e.record.disposition.Automatic? {
        found, blocked := true, blocked + {Batch(e)};
      } else if !e.record.state.RetryWait? && !e.record.state.Pending? {
      } else if e.record.attemptCount >= e.record.evidence.policy.maxAttempts {
      } else if e.record.lastAttemptAt.Some? && now < e.record.lastAttemptAt.value {
        return ClockBehind;
      } else {
        return Chosen(e);
      }
      i := i + 1;
    }
    if found { return NoneReady; }
    return NoneLeft;
  }

  // ----- What the scan finds -----

  /** Finished, with nobody waiting on it. */
  predicate Quiet(e: Envelope) {
    e.hold.None? && Terminal(e.record.state)
  }

  /** The unacknowledged record its batch expects next. */
  predicate IsHead(d: Disk, e: Envelope) {
    Batch(e) in d.checkpoints && !e.record.state.Acknowledged? && Sequence(e) == d.checkpoints[Batch(e)].expectedNext
  }

  predicate Ready(d: Disk, e: Envelope, now: Instant) {
    IsHead(d, e) && Claimable(e, now)
  }

  lemma OneOfThree(e: Envelope, now: Instant)
    requires RecordValid(e.record)
    ensures Blocks(e, now) || Claimable(e, now) || Quiet(e)
  {
  }

  /** Nothing in the batch of a ready head blocks it. */
  lemma NothingBlocksHead(c: Config, d: Disk, e: Envelope, g: Envelope, now: Instant)
    requires Id(e) in d.records && d.records[Id(e)] == e && Id(g) in d.records && d.records[Id(g)] == g
    requires RecordOk(c, d, Id(e)) && RecordOk(c, d, Id(g)) && PairOk(e, g)
    requires Ready(d, e, now) && Batch(g) == Batch(e)
    ensures !Blocks(g, now)
  {
  }

  /** A claimable record all of whose batch predecessors are finished is the head. */
  lemma UnblockedIsHead(c: Config, d: Disk, b: Binding, items: seq<Envelope>, i: nat, now: Instant)
    requires RecordsOk(c, d) && PairsOk(d) && Gapless(d)
    requires CheckpointsOk(c, d) && ListsBound(d, b, items) && i < |items|
    requires Claimable(items[i], now)
    requires forall k :: 0 <= k < i && Batch(items[k]) == Batch(items[i]) ==> Quiet(items[k])
    ensures IsHead(d, items[i])
  {
    var e := items[i];
    assert e in items && RecordOk(c, d, Id(e)) && CheckpointOk(c, d, Batch(e));
    var next := d.checkpoints[Batch(e)].expectedNext;
    if next < Sequence(e) { WaitingBehind(c, d, b, items, i, next, now); }
  }

  lemma WaitingBehind(c: Config, d: Disk, b: Binding, items: seq<Envelope>, i: nat, next: int, now: Instant)
    requires RecordsOk(c, d) && PairsOk(d) && Gapless(d) && ListsBound(d, b, items) && i < |items|
    requires Batch(items[i]) in d.checkpoints && d.checkpoints[Batch(items[i])].expectedNext == next
    requires 0 <= next < Sequence(items[i])
    ensures exists k :: 0 <= k < i && Batch(items[k]) == Batch(items[i]) && !Quiet(items[k])
  {
    var e := items[i];
    assert e in items && FilledBelow(d, d.records[Id(e)]);
    assert Occupied(d, Batch(e), next);
    var id :| id in d.records && At(d.records[id], Batch(e), next);
    var g := d.records[id];
    assert PairOk(g, d.records[Id(e)]) && RecordOk(c, d, id);
    var k :| 0 <= k < |items| && items[k] == g;
    assert k < i by { EarlierFirst(items, k, i); }
    assert !Quiet(items[k]);
  }

  lemma EarlierFirst(items: seq<Envelope>, k: int, i: int)
    requires InOrder(items) && 0 <= k < |items| && 0 <= i < |items|
    requires Batch(items[k]) == Batch(items[i]) && Sequence(items[k]) < Sequence(items[i])
    ensures k < i
  {
  }

  /** What the scan knows once it has passed the first `i` items. */
  ghost predicate Passed(items: seq<Envelope>, i: nat, blocked: set<BatchId>, found: bool, now: Instant) {
    && i <= |items|
    && (forall b :: b in blocked ==> exists k :: 0 <= k < i && Batch(items[k]) == b && Blocks(items[k], now))
    && (forall k :: 0 <= k < i && (Blocks(items[k], now) || Claimable(items[k], now)) ==> Batch(items[k]) in blocked)
    && (found <==> exists k :: 0 <= k < i && !Quiet(items[k]))
  }

  /** `e` is the first of the items that is ready. */
  ghost predicate FirstReady(d: Disk, items: seq<Envelope>, now: Instant, e: Envelope) {
    exists k :: 0 <= k < |items| && items[k] == e && Ready(d, e, now) && NoneReadyBefore(d, items, now, k)
  }

  ghost predicate NoneReadyBefore(d: Disk, items: seq<Envelope>, now: Instant, k: nat)
    requires k <= |items|
  {
    forall j :: 0 <= j < k ==> !Ready(d, items[j], now)
  }

  /** The verdict of a scan against the directory. */
  ghost predicate ScanSound(d: Disk, items: seq<Envelope>, now: Instant, r: Choice) {
    match r
    case Chosen(e) => FirstReady(d, items, now, e) && ClockOk(e, now)
    case ClockBehind => exists e :: FirstReady(d, items, now, e) && !ClockOk(e, now)
    case NoneReady => (forall e :: e in items ==> !Ready(d, e, now)) && exists e :: e in items && !Quiet(e)
    case NoneLeft => forall e :: e in items ==> Quiet(e)
  }

  lemma PassOne(items: seq<Envelope>, i: nat, blocked: set<BatchId>, found: bool, now: Instant)
    requires Passed(items, i, blocked, found, now) && i < |items| && RecordValid(items[i].record)
    ensures Blocks(items[i], now) ==> Passed(items, i + 1, blocked + {Batch(items[i])}, true, now)
    ensures Batch(items[i]) in blocked ==> Passed(items, i + 1, blocked, true, now) || Quiet(items[i])
    ensures Quiet(items[i]) ==> Passed(items, i + 1, blocked, found, now)
  {
    hide RecordValid;
    var e := items[i];
    assert Quiet(e) ==> !Blocks(e, now) && !Claimable(e, now);
    assert Blocks(e, now) ==> !Quiet(e);
  }

  /** Nothing the scan has passed was ready. */
  lemma NonePassedIsReady(c: Config, d: Disk, items: seq<Envelope>, i: nat, blocked: set<BatchId>, found: bool,
                          now: Instant)
    requires RecordsOk(c, d) && PairsOk(d)
    requires forall e :: e in items ==> Id(e) in d.records && d.records[Id(e)] == e
    requires Passed(items, i, blocked, found, now)
    ensures NoneReadyBefore(d, items, now, i)
  {
    forall j | 0 <= j < i ensures !Ready(d, items[j], now) {
      var e := items[j];
      if Batch(e) in blocked {
        var k :| 0 <= k < i && Batch(items[k]) == Batch(e) && Blocks(items[k], now);
        var g := items[k];
        assert e in items && g in items && RecordOk(c, d, Id(e)) && RecordOk(c, d, Id(g));
        assert PairOk(d.records[Id(e)], d.records[Id(g)]);
        BlockedNotReady(c, d, e, g, now);
      }
    }
  }

  lemma BlockedNotReady(c: Config, d: Disk, e: Envelope, g: Envelope, now: Instant)
    requires Id(e) in d.records && d.records[Id(e)] == e && Id(g) in d.records && d.records[Id(g)] == g
    requires RecordOk(c, d, Id(e)) && RecordOk(c, d, Id(g)) && PairOk(e, g)
    requires Blocks(g, now) && Batch(g) == Batch(e)
    ensures !Ready(d, e, now)
  {
    if Ready(d, e, now) { NothingBlocksHead(c, d, e, g, now); }
  }

  lemma {:induction false} ScanFrom(c: Config, d: Disk, b: Binding, items: seq<Envelope>, i: nat,
                                    blocked: set<BatchId>, found: bool, now: Instant)
    requires RecordsOk(c, d) && PairsOk(d) && Gapless(d) && CheckpointsOk(c, d) && ListsBound(d, b, items)
    requires i <= |items| && Passed(items, i, blocked, found, now)
    ensures ScanSound(d, items, now, Scan(items, i, blocked, found, now))
    decreases |items| - i
  {
    hide RecordsOk, PairsOk, Gapless, CheckpointsOk, Blocks, Claimable, Passed, Ready, Quiet;
    NonePassedIsReady(c, d, items, i, blocked, found, now);
    if i == |items| {
      ScanEnds(d, items, blocked, found, now);
    } else {
      var e := items[i];
      ItemValid(c, d, b, items, i);
      PassOne(items, i, blocked, found, now);
      OneOfThree(e, now);
      HeldBlocks(e, now);
      if Blocks(e, now) {
        ScanFrom(c, d, b, items, i + 1, blocked + {Batch(e)}, true, now);
        BlockedTwice(blocked, Batch(e));
      } else if Batch(e) in blocked {
        PassInBlocked(items, i, blocked, found, now);
        ScanFrom(c, d, b, items, i + 1, blocked, true, now);
      } else if Claimable(e, now) {
        UnblockedIsQuiet(c, d, b, items, i, blocked, found, now);
        UnblockedIsHead(c, d, b, items, i, now);
        ReadyHead(d, e, now);
        assert FirstReady(d, items, now, e);
      } else {
        ScanFrom(c, d, b, items, i + 1, blocked, found, now);
      }
    }
  }

  lemma HeldBlocks(e: Envelope, now: Instant)
    ensures e.hold.Some? ==> Blocks(e, now)
  {
  }

  lemma ReadyHead(d: Disk, e: Envelope, now: Instant)
    requires IsHead(d, e) && Claimable(e, now)
    ensures Ready(d, e, now)
  {
  }

  lemma BlockedTwice(blocked: set<BatchId>, b: BatchId)
    ensures b in blocked ==> blocked + {b} == blocked
  {
  }

  lemma ItemValid(c: Config, d: Disk, b: Binding, items: seq<Envelope>, i: nat)
    requires RecordsOk(c, d) && ListsBound(d, b, items) && i < |items|
    ensures RecordValid(items[i].record)
  {
    assert items[i] in items && RecordOk(c, d, Id(items[i]));
  }

  /** In a blocked batch an item is waiting, or it is finished and a blocking item already counted. */
  lemma PassInBlocked(items: seq<Envelope>, i: nat, blocked: set<BatchId>, found: bool, now: Instant)
    requires Passed(items, i, blocked, found, now) && i < |items| && Batch(items[i]) in blocked
    ensures Passed(items, i + 1, blocked, true, now)
  {
    var k :| 0 <= k < i && Batch(items[k]) == Batch(items[i]) && Blocks(items[k], now);
    assert !Quiet(items[k]);
  }

  lemma UnblockedIsQuiet(c: Config, d: Disk, b: Binding, items: seq<Envelope>, i: nat, blocked: set<BatchId>,
                         found: bool, now: Instant)
    requires RecordsOk(c, d) && ListsBound(d, b, items)
    requires Passed(items, i, blocked, found, now) && i < |items| && Batch(items[i]) !in blocked
    ensures forall k :: 0 <= k < i && Batch(items[k]) == Batch(items[i]) ==> Quiet(items[k])
  {
    forall k | 0 <= k < i && Batch(items[k]) == Batch(items[i]) ensures Quiet(items[k]) {
      ItemValid(c, d, b, items, k);
      OneOfThree(items[k], now);
    }
  }

  lemma ScanEnds(d: Disk, items: seq<Envelope>, blocked: set<BatchId>, found: bool, now: Instant)
    requires Passed(items, |items|, blocked, found, now)
    ensures NoneReadyBefore(d, items, now, |items|) ==> forall e :: e in items ==> !Ready(d, e, now)
    ensures found ==> exists e :: e in items && !Quiet(e)
    ensures !found ==> forall e :: e in items ==> Quiet(e)
  {
    if found {
      var k :| 0 <= k < |items| && !Quiet(items[k]);
      assert items[k] in items;
    }
  }

  /** Claim completeness: over an owner's records the scan chooses the first ready batch head
      whenever one exists, reports nothing left exactly when every record is finished, and refuses only
      for a clock behind the head's last attempt. */
  lemma ClaimIsComplete(c: Config, d: Disk, b: Binding, items: seq<Envelope>, now: Instant)
    requires Consistent(c, d) && ListsBound(d, b, items)
    ensures ScanSound(d, items, now, Scan(items, 0, {}, false, now))
    ensures (forall e :: e in items && Ready(d, e, now) ==> ClockOk(e, now)) ==>
              (Scan(items, 0, {}, false, now).Chosen? <==> exists e :: e in items && Ready(d, e, now))
    ensures forall e :: Scan(items, 0, {}, false, now) == Chosen(e) <==>
                          FirstReady(d, items, now, e) && ClockOk(e, now)
    ensures Scan(items, 0, {}, false, now).ClockBehind? <==>
              exists e :: FirstReady(d, items, now, e) && !ClockOk(e, now)
    ensures Scan(items, 0, {}, false, now).NoneLeft? <==> forall e :: e in items ==> Quiet(e)
  {
    hide RecordsOk, PairsOk, Gapless, CheckpointsOk, DonesOk, Blocks, Claimable, FirstReady, Ready, Quiet;
    NothingPassed(items, now);
    ScanFrom(c, d, b, items, 0, {}, false, now);
    QuietIsNotReady(d, items, now);
    forall e, g | FirstReady(d, items, now, e) && FirstReady(d, items, now, g) ensures e == g {
      OneFirstReady(d, items, now, e, g);
    }
    forall e | FirstReady(d, items, now, e) ensures e in items && Ready(d, e, now) { FirstIsReady(d, items, now, e); }
  }

  lemma NothingPassed(items: seq<Envelope>, now: Instant)
    ensures Passed(items, 0, {}, false, now)
  {
  }

  lemma FirstIsReady(d: Disk, items: seq<Envelope>, now: Instant, e: Envelope)
    requires FirstReady(d, items, now, e)
    ensures e in items && Ready(d, e, now)
  {
  }

  lemma OneFirstReady(d: Disk, items: seq<Envelope>, now: Instant, e: Envelope, g: Envelope)
    requires FirstReady(d, items, now, e) && FirstReady(d, items, now, g)
    ensures e == g
  {
    hide Ready;
    var i :| 0 <= i < |items| && items[i] == e && Ready(d, e, now) && NoneReadyBefore(d, items, now, i);
    var j :| 0 <= j < |items| && items[j] == g && Ready(d, g, now) && NoneReadyBefore(d, items, now, j);
    assert i <= j && j <= i;
  }

  lemma QuietIsNotReady(d: Disk, items: seq<Envelope>, now: Instant)
    ensures forall e :: e in items && Quiet(e) ==> !Ready(d, e, now)
  {
  }
}
