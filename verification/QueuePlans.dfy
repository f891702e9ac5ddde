/** What each operation decides to write, as a function of the settled directory, and why each
    decision keeps the invariant and is a move of the reference machine. */
module QueuePlans {
  import opened Protocol
  import opened Reference
  import opened QueueRecord
  import opened QueueDisk
  import opened QueueJournal
  import opened QueueInvariant
  import opened QueueReplay
  import opened QueueFence
  import opened QueueClaim
  import Rules = ReferenceRules

  // ----- Arguments -----

  predicate Alphanumeric(ch: char) { 'A' <= ch <= 'Z' || 'a' <= ch <= 'z' || '0' <= ch <= '9' }

  predicate BindingPart(s: string) {
    && 1 <= |s| <= 128 && Alphanumeric(s[0])
    && forall i :: 1 <= i < |s| ==> Alphanumeric(s[i]) || s[i] in ['.', '_', '~', '-']
  }

  predicate ValidBinding(b: Binding) { BindingPart(b.tenant) && BindingPart(b.subject) }

  /** A receipt as the uploader hands it over; only the uploader can seal one. */
  datatype VerifiedReceipt = VerifiedReceipt(sealed: bool, receipt: Receipt, verifiedAt: Instant)

  /** The caller's record, or why it cannot have it. */
  function Owned(c: Config, d: Disk, b: Binding, id: RecordId): (r: Result<Envelope>) {
    var e := ReadRecord(c, d, id);
    if e.Ok? && e.value.owner != b then Err(NotFound) else e
  }

  // ----- Operations that rewrite one record -----

  function ClaimPlan(c: Config, d: Disk, items: seq<Envelope>, b: Binding, now: Instant): (r: Result<Envelope>) {
    if !ValidBinding(b) || now == ZERO_TIME then Err(UnsafeRecord)
    else if GroupsError(c, d, items, 0).Some? then Err(GroupsError(c, d, items, 0).value)
    else match Scan(items, 0, {}, false, now)
      case Chosen(e) => Ok(e.(record := Sent(e.record, now)))
      case ClockBehind => Err(UnsafeRecord)
      case NoneReady => Err(NotReady)
      case NoneLeft => Err(NotFound)
  }

  /** The loop of `recover` over the owner's records, in whatever order they are listed. */
  function FirstSending(items: seq<Envelope>, i: nat, now: Instant): (r: Result<Envelope>)
    requires i <= |items|
    decreases |items| - i
  {
    if i == |items| then Err(NotFound)
    else
      var e := items[i];
      if !e.record.state.Sending? then FirstSending(items, i + 1, now)
      else if e.record.lastAttemptAt.None? || now < e.record.lastAttemptAt.value then Err(UnsafeRecord)
      else Ok(e.(record := Requeued(e.record)))
  }

  function RecoverPlan(items: seq<Envelope>, b: Binding, now: Instant): (r: Result<Envelope>) {
    if !ValidBinding(b) || now == ZERO_TIME then Err(UnsafeRecord) else FirstSending(items, 0, now)
  }

  function HoldPlan(c: Config, d: Disk, b: Binding, id: RecordId, class_: HoldClass): (r: Result<Envelope>) {
    var e := Owned(c, d, b, id);
    if e.Err? then e
    else if !e.value.record.state.Sending? then Err(Conflict)
    else Ok(e.value.(record := Requeued(e.value.record), hold := Some(class_)))
  }

  function FailPlan(c: Config, d: Disk, b: Binding, id: RecordId, now: Instant,
                    minimumDelay: int): (r: Result<Envelope>) {
    if !ValidBinding(b) then Err(UnsafeRecord)
    else
      var e := Owned(c, d, b, id);
      if e.Err? then e
      else
        var r := e.value.record;
        if !r.state.Sending? then Err(Conflict)
        else if now == ZERO_TIME || now < r.lastAttemptAt.value then Err(UnsafeRecord)
        else if r.attemptCount >= r.evidence.policy.maxAttempts then Ok(e.value.(record := Requeued(r)))
        else
          var delay := FailDelay(r, c.jitter, minimumDelay);
          if delay.None? then Err(UnsafeRecord) else Ok(e.value.(record := Waiting(r, now + delay.value)))
  }

  function DiscardPlan(c: Config, d: Disk, b: Binding, id: RecordId, now: Instant, authorized: bool,
                       authority: Authority, reason: string): (r: Result<Envelope>) {
    if !authorized then Err(Unauthorized)
    else if !ValidBinding(b) then Err(UnsafeRecord)
    else
      var e := Owned(c, d, b, id);
      if e.Err? then e
      else
        var r := e.value.record;
        if !r.state.Pending? || !SafeReason(reason) then Err(Refused)
        else if !AllReadable(c, d) then Err(Corrupt)
        else if !LastOfBatch(d, e.value) then Err(Conflict)
        else if now == ZERO_TIME || now < r.evidence.observedAt || !ClockOk(e.value, now) then Err(Refused)
        else Ok(e.value.(record := Dropped(r, now, authority, reason)))
  }

  function ManualRetryPlan(c: Config, d: Disk, b: Binding, id: RecordId, now: Instant,
                           authorized: bool): (r: Result<Envelope>) {
    if !authorized then Err(Unauthorized)
    else
      var e := Owned(c, d, b, id);
      if e.Err? then e
      else
        var r := e.value.record;
        if !r.state.Pending? || (!r.disposition.ManualIntervention? && e.value.hold.None?) then Err(Refused)
        else if r.attemptCount >= r.evidence.policy.maxTotalAttempts then Err(AttemptLimit)
        else if now == ZERO_TIME || !ClockOk(e.value, now) then Err(UnsafeRecord)
        else Ok(e.value.(record := Sent(r, now), hold := None))
  }

  // ----- The decisions are edits the invariant allows -----

  /** `e` may replace a record of the settled directory, once it is known to be storable. */
  predicate Edits(d: Disk, e: Envelope) {
    var edits :=
      && Replaces(d, e) && HoldOk(e)
      && !d.records[Id(e)].record.state.Acknowledged? && !e.record.state.Acknowledged?
      && Batch(e) in d.checkpoints
      && (e.record.attemptCount > 0 ==> Sequence(e) == d.checkpoints[Batch(e)].expectedNext)
      && (e.record.state.Discarded? ==> LastOfBatch(d, e));
    edits
  }

  /** What `writeRecord` lets through. */
  predicate Storable(c: Config, e: Envelope) {
    SoundRecord(c, e) && EnvelopeFits(c, e)
  }

  /** A plan that edits a record the way the reference machine lets its owner move it. */
  ghost predicate Sanctioned(c: Config, d: Disk, plan: Result<Envelope>, b: Binding, now: Instant, retention: bool) {
    plan.Ok? ==>
      var e := plan.value;
      && Edits(d, e) && e.owner == b
      && (RecordValid(e.record) ==> Refines(d.records[Id(e)].record, e.record, now, b, retention, None))
  }

  /** `e` is `was` in flight once more, since `now` and no longer held. */
  predicate IsSentAt(e: Envelope, was: Envelope, now: Instant) {
    && e.record.state.Sending? && e.hold.None?
    && e.record.attemptCount == was.record.attemptCount + 1 && e.record.lastAttemptAt == Some(now)
  }

  predicate Owns(d: Disk, b: Binding, id: RecordId) { id in d.records && d.records[id].owner == b }

  lemma ReadOfOwned(c: Config, d: Disk, b: Binding, id: RecordId)
    requires RecordsOk(c, d)
    ensures Owned(c, d, b, id).Ok? <==> id in d.records && d.records[id].owner == b
    ensures Owned(c, d, b, id).Err? ==> Owned(c, d, b, id) == Err(NotFound)
    ensures Owned(c, d, b, id).Ok? ==> Owned(c, d, b, id).value == d.records[id] && RecordOk(c, d, id)
  {
    if id in d.records { assert RecordOk(c, d, id); }
  }

  /** The ready head of the owner's that comes first, by batch. */
  ghost predicate NextUp(d: Disk, b: Binding, id: RecordId, now: Instant) {
    && Owns(d, b, id) && Ready(d, d.records[id], now)
    && forall other :: Owns(d, b, other) && Ready(d, d.records[other], now) ==>
         Batch(d.records[id]) <= Batch(d.records[other])
  }

  /** Of the listed records the first ready one is the owner's next. */
  lemma FirstIsNextUp(d: Disk, b: Binding, items: seq<Envelope>, now: Instant, e: Envelope)
    requires PairsOk(d) && ListsBound(d, b, items)
    ensures FirstReady(d, items, now, e) <==> e in items && NextUp(d, b, Id(e), now)
  {
    hide Ready;
    if FirstReady(d, items, now, e) {
      var k :| 0 <= k < |items| && items[k] == e && Ready(d, e, now) && NoneReadyBefore(d, items, now, k);
      assert e in items;
      forall other | Owns(d, b, other) && Ready(d, d.records[other], now)
        ensures Batch(d.records[Id(e)]) <= Batch(d.records[other])
      {
        var j :| 0 <= j < |items| && items[j] == d.records[other];
        assert k <= j;
      }
    }
    if e in items && NextUp(d, b, Id(e), now) {
      var k :| 0 <= k < |items| && items[k] == e;
      forall j | 0 <= j < k ensures !Ready(d, items[j], now) { EarlierIsNotReady(d, b, items, now, j, k); }
      assert NoneReadyBefore(d, items, now, k);
    }
  }

  lemma EarlierIsNotReady(d: Disk, b: Binding, items: seq<Envelope>, now: Instant, j: nat, k: nat)
    requires PairsOk(d) && ListsBound(d, b, items) && j < k < |items| && NextUp(d, b, Id(items[k]), now)
    ensures !Ready(d, items[j], now)
  {
    var e, g := items[k], items[j];
    assert e in items && g in items && PairOk(d.records[Id(e)], d.records[Id(g)]);
    if Ready(d, g, now) { assert Owns(d, b, Id(g)); }
  }

  /** A claim sends the owner's next record, exactly if there is one, the arguments are valid and
      the clock is not behind its last attempt. */
  lemma ClaimIsSanctioned(c: Config, d: Disk, items: seq<Envelope>, b: Binding, now: Instant)
    requires Consistent(c, d) && ListsBound(d, b, items)
    ensures Sanctioned(c, d, ClaimPlan(c, d, items, b, now), b, now, false)
    ensures var plan := ClaimPlan(c, d, items, b, now);
            && (plan.Ok? <==>
                  && ValidBinding(b) && now != ZERO_TIME
                  && exists id :: NextUp(d, b, id, now) && ClockOk(d.records[id], now))
            && (plan.Ok? ==>
                  && NextUp(d, b, Id(plan.value), now) && ClockOk(d.records[Id(plan.value)], now)
                  && var was := d.records[Id(plan.value)];
                  plan.value == was.(record := Rules.SentBy(was.record, now)) && IsSentAt(plan.value, was, now))
  {
    hide RecordsOk, PairsOk, Gapless, CheckpointsOk, DonesOk, Refines, Edits, Scan, GroupsError, ListsBound, Ready,
         FirstReady, NextUp, ClockOk, ValidBinding;
    ClaimIsComplete(c, d, b, items, now);
    WholeBatches(d, items);
    BatchesPass(c, d, items);
    NextIsListed(c, d, b, items, now);
    var plan := ClaimPlan(c, d, items, b, now);
    if plan.Ok? {
      var e := Scan(items, 0, {}, false, now).envelope;
      FirstIsReady(d, items, now, e);
      ListedRecord(c, d, b, items, e);
      ReadyHasNoHold(d, e, now);
      HeadEdits(c, d, e, now);
      ClockMeans(e, now);
      if RecordValid(Sent(e.record, now)) { SendRefines(e.record, now, b); }
    }
  }

  lemma ClockMeans(e: Envelope, now: Instant)
    ensures ClockOk(e, now) <==> (e.record.lastAttemptAt.Some? ==> e.record.lastAttemptAt.value <= now)
  {
  }

  lemma ReadyHasNoHold(d: Disk, e: Envelope, now: Instant)
    requires Ready(d, e, now)
    ensures e.hold.None?
  {
  }

  /** The scan's first ready record and the owner's next record are the same. */
  lemma NextIsListed(c: Config, d: Disk, b: Binding, items: seq<Envelope>, now: Instant)
    requires RecordsOk(c, d) && PairsOk(d) && ListsBound(d, b, items)
    ensures forall e :: FirstReady(d, items, now, e) ==>
              Id(e) in d.records && d.records[Id(e)] == e && NextUp(d, b, Id(e), now)
    ensures forall id :: NextUp(d, b, id, now) ==> id in d.records && FirstReady(d, items, now, d.records[id])
  {
    hide Ready, PairsOk, FirstReady;
    forall e | FirstReady(d, items, now, e)
      ensures Id(e) in d.records && d.records[Id(e)] == e && NextUp(d, b, Id(e), now)
    {
      FirstIsNextUp(d, b, items, now, e);
    }
    forall id | NextUp(d, b, id, now) ensures id in d.records && FirstReady(d, items, now, d.records[id]) {
      RecordOkOf(c, d, id);
      FirstIsNextUp(d, b, items, now, d.records[id]);
    }
  }

  /** With valid arguments a claim is refused exactly because nothing is left, because something
      is and nothing is ready, or because the clock is behind the last attempt of the next record. */
  lemma ClaimRefusals(c: Config, d: Disk, items: seq<Envelope>, b: Binding, now: Instant)
    requires Consistent(c, d) && ListsBound(d, b, items) && ValidBinding(b) && now != ZERO_TIME
    ensures var plan := ClaimPlan(c, d, items, b, now);
            && (plan.Err? ==> plan.error.NotFound? || plan.error.NotReady? || plan.error.UnsafeRecord?)
            && (plan == Err(NotFound) <==>
                  forall id :: id in d.records && d.records[id].owner == b ==> Quiet(d.records[id]))
            && (plan == Err(NotReady) <==>
                  && (forall id :: id in d.records && d.records[id].owner == b ==> !Ready(d, d.records[id], now))
                  && exists id :: id in d.records && d.records[id].owner == b && !Quiet(d.records[id]))
            && (plan == Err(UnsafeRecord) <==>
                  exists id :: NextUp(d, b, id, now) && !ClockOk(d.records[id], now))
  {
    hide RecordsOk, PairsOk, Gapless, CheckpointsOk, DonesOk, Scan, GroupsError, ValidBinding, Ready, Quiet, ClockOk,
         FirstReady, NextUp;
    WholeBatches(d, items);
    BatchesPass(c, d, items);
    ClaimIsComplete(c, d, b, items, now);
    NextIsListed(c, d, b, items, now);
    forall e | FirstReady(d, items, now, e) ensures e in items && Ready(d, e, now) { FirstIsReady(d, items, now, e); }
  }

  lemma ListedRecord(c: Config, d: Disk, b: Binding, items: seq<Envelope>, e: Envelope)
    requires RecordsOk(c, d) && ListsBound(d, b, items) && e in items
    ensures Id(e) in d.records && d.records[Id(e)] == e && e.owner == b
    ensures RecordOk(c, d, Id(e)) && RecordValid(e.record)
  {
    assert RecordOk(c, d, Id(e));
  }

  lemma HeadEdits(c: Config, d: Disk, e: Envelope, now: Instant)
    requires Id(e) in d.records && d.records[Id(e)] == e && RecordOk(c, d, Id(e)) && Ready(d, e, now)
    ensures Edits(d, e.(record := Sent(e.record, now))) && ClaimableAt(e.record, now)
  {
  }

  lemma RequeueEdits(c: Config, d: Disk, e: Envelope, hold: Option<HoldClass>)
    requires Id(e) in d.records && d.records[Id(e)] == e && RecordOk(c, d, Id(e)) && e.record.state.Sending?
    ensures Edits(d, e.(record := Requeued(e.record), hold := hold)) && RecordValid(e.record)
  {
  }

  /** A record in flight put back: pending, with its attempts, and for a person once the automatic
      ones are used up. */
  function PutBack(r: Record): Record {
    if Rules.AttemptsLeft(r) then r.(state := Pending)
    else r.(state := Pending, disposition := ManualIntervention, manualReason := Some(ATTEMPT_LIMIT_REACHED))
  }

  lemma HoldIsSanctioned(c: Config, d: Disk, b: Binding, id: RecordId, class_: HoldClass, now: Instant)
    requires Consistent(c, d)
    ensures var plan := HoldPlan(c, d, b, id, class_);
            && (plan.Ok? <==> Owns(d, b, id) && d.records[id].record.state.Sending?)
            && (plan.Ok? ==>
                  && Edits(d, plan.value) && plan.value.owner == b && plan.value.hold == Some(class_)
                  && plan.value.record == PutBack(d.records[id].record))
            && (plan.Ok? && d.records[id].record.lastAttemptAt.value <= now ==>
                  Sanctioned(c, d, plan, b, now, false))
            && (plan == Err(NotFound) <==> !Owns(d, b, id))
            && (plan == Err(Conflict) <==> Owns(d, b, id) && !d.records[id].record.state.Sending?)
  {
    hide PairsOk, Gapless, CheckpointsOk, DonesOk, Edits, Refines;
    ReadOfOwned(c, d, b, id);
    if HoldPlan(c, d, b, id, class_).Ok? {
      RequeueEdits(c, d, d.records[id], Some(class_));
      if d.records[id].record.lastAttemptAt.value <= now { RequeueRefines(d.records[id].record, now, b); }
    }
  }

  /** Another automatic attempt is allowed. */
  predicate Retryable(r: Record) { 1 <= r.attemptCount < r.evidence.policy.maxAttempts }

  lemma FlyingIsAttempted(c: Config, d: Disk, id: RecordId)
    requires RecordsOk(c, d) && id in d.records && d.records[id].record.state.Sending?
    ensures RecordValid(d.records[id].record) && d.records[id].record.attemptCount >= 1
    ensures d.records[id].record.lastAttemptAt.Some?
  {
    assert RecordOk(c, d, id);
  }

  /** A retryable failure is decided exactly for the owner's record in flight, with a clock not
      behind and a jitter within its window; the record then waits exactly that long or, out of
      automatic attempts, is handed to a person. */
  lemma FailIsSanctioned(c: Config, d: Disk, b: Binding, id: RecordId, now: Instant, minimumDelay: int)
    requires Consistent(c, d)
    ensures Sanctioned(c, d, FailPlan(c, d, b, id, now, minimumDelay), b, now, false)
    ensures var plan := FailPlan(c, d, b, id, now, minimumDelay);
            && (plan.Ok? <==>
                  && ValidBinding(b) && Owns(d, b, id) && d.records[id].record.state.Sending?
                  && now != ZERO_TIME && ClockOk(d.records[id], now)
                  && (Retryable(d.records[id].record) ==> JitterFits(d.records[id].record, c.jitter)))
            && (plan.Ok? ==>
                  && var was, e := d.records[id].record, plan.value;
                  && e.hold == d.records[id].hold
                  && e.record == if Retryable(was) then
                                   was.(state := RetryWait,
                                        nextAttemptAt := Some(now + WaitOf(was, c.jitter, minimumDelay)))
                                 else PutBack(was))
            && (plan == Err(NotFound) ==> !Owns(d, b, id))
            && (plan == Err(Conflict) ==> Owns(d, b, id) && !d.records[id].record.state.Sending?)
            && (plan.Err? ==> plan.error.NotFound? || plan.error.Conflict? || plan.error.UnsafeRecord?)
  {
    hide RecordsOk, PairsOk, Gapless, CheckpointsOk, DonesOk, Edits, Refines, FailDelay, ValidBinding, JitterFits,
         Jittered;
    ReadOfOwned(c, d, b, id);
    if Owns(d, b, id) && d.records[id].record.state.Sending? {
      FlyingIsAttempted(c, d, id);
      FailDelayExactly(d.records[id].record, c.jitter, minimumDelay);
    }
    if FailPlan(c, d, b, id, now, minimumDelay).Ok? {
      var r := d.records[id].record;
      RequeueEdits(c, d, d.records[id], d.records[id].hold);
      if r.attemptCount >= r.evidence.policy.maxAttempts { RequeueRefines(r, now, b); }
      else {
        WaitRefines(r, now, b, c.jitter, minimumDelay);
        WaitEdits(c, d, d.records[id], now + FailDelay(r, c.jitter, minimumDelay).value);
      }
    }
  }

  lemma WaitEdits(c: Config, d: Disk, e: Envelope, next: Instant)
    requires Id(e) in d.records && d.records[Id(e)] == e && RecordOk(c, d, Id(e)) && e.record.state.Sending?
    ensures Edits(d, e.(record := Waiting(e.record, next)))
  {
  }

  lemma DiscardIsSanctioned(c: Config, d: Disk, b: Binding, id: RecordId, now: Instant, authorized: bool,
                            authority: Authority, reason: string)
    requires Consistent(c, d)
    ensures Sanctioned(c, d, DiscardPlan(c, d, b, id, now, authorized, authority, reason), b, now,
                       authority.OrganizationRetentionPolicy?)
    ensures var plan := DiscardPlan(c, d, b, id, now, authorized, authority, reason);
            && (plan.Ok? <==>
                  && authorized && ValidBinding(b) && Owns(d, b, id) && d.records[id].record.state.Pending?
                  && SafeReason(reason) && LastOfBatch(d, d.records[id]) && now != ZERO_TIME
                  && d.records[id].record.evidence.observedAt <= now && ClockOk(d.records[id], now))
            && (plan.Ok? ==>
                  && plan.value == d.records[id].(record := d.records[id].record.(
                       state := Discarded, discardedAt := Some(now), discard := Some(DiscardReason(authority, reason))))
                  && (RecordValid(plan.value.record) <==> |reason| <= MAX_REASON))
            && (plan == Err(Unauthorized) <==> !authorized)
            && (plan == Err(UnsafeRecord) <==> authorized && !ValidBinding(b))
            && (plan == Err(NotFound) <==> authorized && ValidBinding(b) && !Owns(d, b, id))
            && (plan == Err(Conflict) ==> Owns(d, b, id) && !LastOfBatch(d, d.records[id]))
            && (plan == Err(Refused) ==>
                  && Owns(d, b, id)
                  && var e := d.records[id];
                  || !e.record.state.Pending? || !SafeReason(reason) || now == ZERO_TIME
                  || now < e.record.evidence.observedAt || !ClockOk(e, now))
  {
    hide RecordsOk, PairsOk, Gapless, CheckpointsOk, DonesOk, Edits, Refines, SafeReason, ValidBinding, AllReadable,
         LastOfBatch;
    ReadOfOwned(c, d, b, id);
    ReadableOf(c, d);
    if DiscardPlan(c, d, b, id, now, authorized, authority, reason).Ok? {
      DropRefines(d.records[id].record, now, b, authority, reason);
      DropEdits(c, d, d.records[id], now, authority, reason);
    }
  }

  lemma DropEdits(c: Config, d: Disk, e: Envelope, now: Instant, authority: Authority, reason: string)
    requires Id(e) in d.records && d.records[Id(e)] == e && RecordOk(c, d, Id(e)) && e.record.state.Pending?
    requires LastOfBatch(d, e)
    ensures Edits(d, e.(record := Dropped(e.record, now, authority, reason)))
  {
  }

  /** Only a record at the head of its batch can be held or out of automatic attempts, so a
      manual retry never overtakes anything either. */
  lemma ManualRetryIsSanctioned(c: Config, d: Disk, b: Binding, id: RecordId, now: Instant, authorized: bool)
    requires Consistent(c, d)
    ensures Sanctioned(c, d, ManualRetryPlan(c, d, b, id, now, authorized), b, now, false)
    ensures var plan := ManualRetryPlan(c, d, b, id, now, authorized);
            && (plan.Ok? <==>
                  && authorized && Owns(d, b, id) && d.records[id].record.state.Pending?
                  && (d.records[id].record.disposition.ManualIntervention? || d.records[id].hold.Some?)
                  && d.records[id].record.attemptCount < d.records[id].record.evidence.policy.maxTotalAttempts
                  && now != ZERO_TIME && ClockOk(d.records[id], now))
            && (plan.Ok? ==>
                  && plan.value == d.records[id].(record := Rules.SentBy(d.records[id].record, now), hold := None)
                  && IsSentAt(plan.value, d.records[id], now))
            && (plan == Err(Unauthorized) <==> !authorized)
            && (plan == Err(NotFound) <==> authorized && !Owns(d, b, id))
            && (plan == Err(AttemptLimit) ==>
                  Owns(d, b, id)
                  && d.records[id].record.attemptCount >= d.records[id].record.evidence.policy.maxTotalAttempts)
            && (plan == Err(UnsafeRecord) ==> Owns(d, b, id) && (now == ZERO_TIME || !ClockOk(d.records[id], now)))
            && (plan == Err(Refused) <==>
                  && authorized && Owns(d, b, id)
                  && var e := d.records[id];
                  !e.record.state.Pending? || (e.record.disposition.Automatic? && e.hold.None?))
  {
    hide RecordsOk, PairsOk, Gapless, CheckpointsOk, DonesOk, Edits, Refines;
    ReadOfOwned(c, d, b, id);
    if ManualRetryPlan(c, d, b, id, now, authorized).Ok? {
      var e := d.records[id];
      ManualRetryEdits(c, d, e, now);
      if RecordValid(Sent(e.record, now)) { ManualRetryRefines(e.record, now, b); }
    }
  }

  lemma ManualRetryEdits(c: Config, d: Disk, e: Envelope, now: Instant)
    requires Id(e) in d.records && d.records[Id(e)] == e && RecordOk(c, d, Id(e)) && e.record.state.Pending?
    requires e.record.disposition.ManualIntervention? || e.hold.Some?
    ensures Edits(d, e.(record := Sent(e.record, now), hold := None)) && RecordValid(e.record)
  {
  }

  /** Every record of an owner (or of anybody) once, in any order. */
  ghost predicate Enumerates(d: Disk, b: Option<Binding>, items: seq<Envelope>) {
    && (forall id :: id in d.records && (b.Some? ==> d.records[id].owner == b.value) ==> d.records[id] in items)
    && (forall e :: e in items ==> Id(e) in d.records && d.records[Id(e)] == e && (b.Some? ==> e.owner == b.value))
    && (forall i, j :: 0 <= i < j < |items| ==> Id(items[i]) != Id(items[j]))
  }

  lemma {:induction false} FirstSendingFound(items: seq<Envelope>, i: nat, now: Instant)
    requires i <= |items|
    ensures FirstSending(items, i, now).Ok? ==>
              exists k :: i <= k < |items| && items[k].record.state.Sending?
                          && items[k].record.lastAttemptAt.Some? && items[k].record.lastAttemptAt.value <= now
                          && FirstSending(items, i, now).value == items[k].(record := Requeued(items[k].record))
    ensures FirstSending(items, i, now) == Err(NotFound) <==>
              forall k :: i <= k < |items| ==> !items[k].record.state.Sending?
    ensures FirstSending(items, i, now) == Err(UnsafeRecord) ==>
              exists k :: i <= k < |items| && items[k].record.state.Sending?
                          && (items[k].record.lastAttemptAt.None? || now < items[k].record.lastAttemptAt.value)
    ensures FirstSending(items, i, now).Err? ==>
              FirstSending(items, i, now).error.NotFound? || FirstSending(items, i, now).error.UnsafeRecord?
    decreases |items| - i
  {
    if i < |items| && !items[i].record.state.Sending? { FirstSendingFound(items, i + 1, now); }
  }

  lemma RecoverIsSanctioned(c: Config, d: Disk, items: seq<Envelope>, b: Binding, now: Instant)
    requires Consistent(c, d) && Enumerates(d, Some(b), items)
    ensures Sanctioned(c, d, RecoverPlan(items, b, now), b, now, false)
    ensures RecoverPlan(items, b, now).Ok? ==>
              && var e := RecoverPlan(items, b, now).value;
              && Owns(d, b, Id(e)) && d.records[Id(e)].record.state.Sending? && ClockOk(d.records[Id(e)], now)
              && e == d.records[Id(e)].(record := PutBack(d.records[Id(e)].record))
    ensures RecoverPlan(items, b, now) == Err(UnsafeRecord) ==>
              || !ValidBinding(b) || now == ZERO_TIME
              || exists id :: Owns(d, b, id) && d.records[id].record.state.Sending? && !ClockOk(d.records[id], now)
    ensures RecoverPlan(items, b, now).Err? ==>
              RecoverPlan(items, b, now).error.NotFound? || RecoverPlan(items, b, now).error.UnsafeRecord?
    ensures ValidBinding(b) && now != ZERO_TIME ==>
              (RecoverPlan(items, b, now) == Err(NotFound) <==>
               forall id :: id in d.records && d.records[id].owner == b ==> !d.records[id].record.state.Sending?)
  {
    hide RecordsOk, PairsOk, Gapless, CheckpointsOk, DonesOk, Edits, Refines, ValidBinding, FirstSending;
    FirstSendingFound(items, 0, now);
    if RecoverPlan(items, b, now).Ok? {
      var k :| 0 <= k < |items| && items[k].record.state.Sending?
               && items[k].record.lastAttemptAt.Some? && items[k].record.lastAttemptAt.value <= now
               && FirstSending(items, 0, now).value == items[k].(record := Requeued(items[k].record));
      var e := items[k];
      assert e in items;
      RecordOkOf(c, d, Id(e));
      RequeueEdits(c, d, e, e.hold);
      RequeueRefines(e.record, now, b);
    }
    if FirstSending(items, 0, now) == Err(UnsafeRecord) {
      var k :| 0 <= k < |items| && items[k].record.state.Sending?
               && (items[k].record.lastAttemptAt.None? || now < items[k].record.lastAttemptAt.value);
      assert items[k] in items;
      FlyingIsAttempted(c, d, Id(items[k]));
      assert Owns(d, b, Id(items[k])) && !ClockOk(d.records[Id(items[k])], now);
    }
    NobodySending(d, b, items);
  }

  lemma NobodySending(d: Disk, b: Binding, items: seq<Envelope>)
    requires Enumerates(d, Some(b), items)
    ensures (forall k :: 0 <= k < |items| ==> !items[k].record.state.Sending?) <==>
            forall id :: id in d.records && d.records[id].owner == b ==> !d.records[id].record.state.Sending?
  {
    forall k | 0 <= k < |items| ensures items[k] in items {}
  }

  lemma RecordOkOf(c: Config, d: Disk, id: RecordId)
    requires RecordsOk(c, d) && id in d.records
    ensures RecordOk(c, d, id)
  {
  }
}
