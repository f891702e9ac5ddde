/** What the guard's queue does to one record: its validation, its edits and its retry
    delay, and why each edit is a move of the reference machine. */
module QueueRecord {
  import opened Protocol
  import opened Reference
  import Rules = ReferenceRules

  datatype Binding = Binding(tenant: string, subject: string)

  /** `validateRecord` without its size limit. */
  predicate RecordValid(r: Record) {
    var p := r.evidence.policy;
    var valid :=
      && SchemaValid(r)
      && 1 <= p.maxAttempts <= 100 && p.maxAttempts <= p.maxTotalAttempts <= 100
      && 1 <= p.baseDelaySeconds <= 3600 && p.baseDelaySeconds <= p.maxDelaySeconds <= 86400
      && 0 <= r.attemptCount <= p.maxTotalAttempts
      && (r.lastAttemptAt.Some? ==> r.evidence.observedAt <= r.lastAttemptAt.value)
      && (r.attemptCount == 0 <==> r.lastAttemptAt.None?)
      && (r.disposition.Automatic? ==> r.attemptCount <= p.maxAttempts)
      && (r.disposition.ManualIntervention? ==> p.maxAttempts <= r.attemptCount)
      && (r.state.Pending? && r.disposition.Automatic? ==> r.attemptCount < p.maxAttempts)
      && (r.state.RetryWait? ==> r.attemptCount < p.maxAttempts)
      && (r.nextAttemptAt.Some? ==> r.lastAttemptAt.Some? && r.lastAttemptAt.value < r.nextAttemptAt.value)
      && (r.acknowledgedAt.Some? ==> r.lastAttemptAt.Some? && r.lastAttemptAt.value <= r.acknowledgedAt.value)
      && (r.discardedAt.Some? ==> r.evidence.observedAt <= r.discardedAt.value)
      && (r.state.Acknowledged? ==>
            && r.acknowledgement.value.reconciliationId == r.evidence.reconciliationId
            && r.acknowledgement.value.evidenceHash == r.evidence
            && r.acknowledgement.value.acknowledgedAt == r.acknowledgedAt.value);
    valid
  }

  // ----- Edits -----

  function Sent(r: Record, now: Instant): Record {
    r.(state := Sending, attemptCount := r.attemptCount + 1, lastAttemptAt := Some(now), nextAttemptAt := None)
  }

  /** Back to pending, for a person to look at once the automatic attempts are used up. */
  function Requeued(r: Record): Record {
    if r.attemptCount >= r.evidence.policy.maxAttempts then
      r.(state := Pending, disposition := ManualIntervention, manualReason := Some(ATTEMPT_LIMIT_REACHED))
    else r.(state := Pending)
  }

  /** The requeue of `recoverAllSending`, whose condition also looks at the disposition. */
  function RequeuedAtOpen(r: Record): Record {
    if r.disposition.ManualIntervention? || r.attemptCount >= r.evidence.policy.maxAttempts then
      r.(state := Pending, disposition := ManualIntervention, manualReason := Some(ATTEMPT_LIMIT_REACHED))
    else r.(state := Pending)
  }

  function Waiting(r: Record, next: Instant): Record {
    r.(state := RetryWait, nextAttemptAt := Some(next))
  }

  function Acked(r: Record, ack: Acknowledgement): Record {
    r.(state := Acknowledged, acknowledgedAt := Some(ack.acknowledgedAt), acknowledgement := Some(ack))
  }

  function Dropped(r: Record, now: Instant, authority: Authority, reason: string): Record {
    r.(state := Discarded, discardedAt := Some(now), nextAttemptAt := None,
       discard := Some(DiscardReason(authority, reason)))
  }

  // ----- Retry delay -----

  const INT64_LIMIT: int := 0x8000_0000_0000_0000

  /** A float beyond the int64 range converts to the smallest int64. */
  function ToInt64(x: nat): int {
    if x < INT64_LIMIT then x else -INT64_LIMIT
  }

  /** Exponential backoff in nanoseconds; the float product is exact, its conversion is not. */
  function Backoff(r: Record): int
    requires r.attemptCount >= 1 && r.evidence.policy.baseDelaySeconds >= 0
  {
    var maximum := r.evidence.policy.maxDelaySeconds * SECOND;
    var delay := ToInt64(r.evidence.policy.baseDelaySeconds * SECOND * Pow2(Min(r.attemptCount - 1, 62)));
    if delay > maximum || delay < 0 then maximum else delay
  }

  function RetryDelay(r: Record, jitter: int -> int): Option<int>
    requires r.evidence.policy.baseDelaySeconds >= 0
  {
    if r.attemptCount < 1 then None
    else
      var delay := Backoff(r);
      var extra := jitter(delay);
      if extra < 0 || extra > r.evidence.policy.maxDelaySeconds * SECOND - delay then None
      else Some(delay + extra)
  }

  /** The delay `fail` uses: a server's Retry-After raises it, up to the policy's maximum. */
  function FailDelay(r: Record, jitter: int -> int, minimumDelay: int): Option<int>
    requires r.evidence.policy.baseDelaySeconds >= 0
  {
    var delay := RetryDelay(r, jitter);
    if delay.None? then None
    else
      var least := Min(minimumDelay, r.evidence.policy.maxDelaySeconds * SECOND);
      Some(if least > delay.value then least else delay.value)
  }

  lemma {:induction false} Pow2Grows(m: nat, n: nat)
    requires m <= n
    ensures 0 < Pow2(m) <= Pow2(n)
  {
    if n > m { Pow2Grows(m, n - 1); } else if m > 0 { Pow2Grows(m - 1, m - 1); }
  }

  lemma Pow2At17()
    ensures Pow2(17) == 131072
  {
    assert Pow2(5) == 32;
    assert Pow2(10) == 1024;
    assert Pow2(15) == 32768;
  }

  lemma ScaledBounds(base: int, n: int)
    requires 1 <= base <= 3600 && n >= 0
    ensures n <= base * n <= 3600 * n
    ensures base * SECOND * n == base * n * SECOND
  {
    assert (base - 1) * n >= 0 && (3600 - base) * n >= 0;
  }

  /** From the seventeenth doubling on, any base exceeds the longest delay a policy may set. */
  lemma ProductSize(base: int, k: nat)
    requires 1 <= base <= 3600
    ensures base * SECOND * Pow2(k) == base * Pow2(k) * SECOND
    ensures k >= 17 ==> base * Pow2(k) >= 131072
    ensures k < 17 ==> 0 <= base * Pow2(k) <= 3600 * 131072
  {
    Pow2At17();
    ScaledBounds(base, Pow2(k));
    if k >= 17 { Pow2Grows(17, k); } else { Pow2Grows(k, 17); }
  }

  /** The guard's backoff equals the reference's: the different exponent caps and the wrapped
      float conversion only show where both are already cut off at the maximum. */
  lemma BackoffAgrees(r: Record)
    requires RecordValid(r) && r.attemptCount >= 1
    ensures Backoff(r) == RetryDelaySeconds(r.attemptCount, r.evidence.policy) * SECOND
  {
    var base, n := r.evidence.policy.baseDelaySeconds, r.attemptCount - 1;
    ProductSize(base, Min(n, 62));
    ProductSize(base, Min(n, 63));
  }

  /** The delay a policy allows at most, in nanoseconds. */
  function Longest(r: Record): int { r.evidence.policy.maxDelaySeconds * SECOND }

  /** The exact backoff and the jitter on it, in nanoseconds. */
  function Jittered(r: Record, jitter: int -> int): int
    requires r.attemptCount >= 1
  {
    Rules.Backoff(r) * SECOND + jitter(Rules.Backoff(r) * SECOND)
  }

  /** Jitter only ever lengthens the delay, and never past the maximum. */
  predicate JitterFits(r: Record, jitter: int -> int)
    requires r.attemptCount >= 1
  {
    Rules.Backoff(r) * SECOND <= Jittered(r, jitter) <= Longest(r)
  }

  /** How long a failed attempt waits: the jittered backoff, or the server's Retry-After within
      the policy's maximum if that is longer. */
  function WaitOf(r: Record, jitter: int -> int, minimumDelay: int): int
    requires r.attemptCount >= 1
  {
    var asked := Min(minimumDelay, Longest(r));
    if asked > Jittered(r, jitter) then asked else Jittered(r, jitter)
  }

  /** The delay is the jittered backoff or, if that is longer, what the server asked for, which
      counts up to the maximum; there is none exactly if the jitter leaves its window. */
  lemma FailDelayExactly(r: Record, jitter: int -> int, minimumDelay: int)
    requires RecordValid(r) && r.attemptCount >= 1
    ensures FailDelay(r, jitter, minimumDelay) ==
            if !JitterFits(r, jitter) then None
            else Some(WaitOf(r, jitter, minimumDelay))
  {
    BackoffAgrees(r);
    Rules.CapNeverShows(r);
  }

  lemma FailDelayBounds(r: Record, jitter: int -> int, minimumDelay: int)
    requires RecordValid(r) && r.attemptCount >= 1 && FailDelay(r, jitter, minimumDelay).Some?
    ensures RetryDelaySeconds(r.attemptCount, r.evidence.policy) * SECOND
            <= FailDelay(r, jitter, minimumDelay).value
            <= r.evidence.policy.maxDelaySeconds * SECOND
  {
    BackoffAgrees(r);
  }

  // ----- Refinement -----

  /** The trusted context of the store partition a record is filed under. */
  function ContextOf(r: Record, b: Binding, retention: bool): TrustedContext {
    TrustedContext(map[r.evidence.reconciliationId := Partition(b.tenant, b.subject)], b.tenant, b.subject, retention)
  }

  /** `b` with its retry time put at the reference's exact deadline. */
  function OnSchedule(a: Record, b: Record, now: Instant): Record {
    if a.state.Sending? && b.state.RetryWait? && ValidRetryInput(a.attemptCount, a.evidence.policy) then
      b.(nextAttemptAt := Some(now + RetryDelaySeconds(a.attemptCount, a.evidence.policy) * SECOND))
    else b
  }

  /** The retry time lies between the exact backoff and the policy's maximum. */
  predicate RetryInWindow(a: Record, b: Record, now: Instant) {
    a.state.Sending? && b.state.RetryWait? && ValidRetryInput(a.attemptCount, a.evidence.policy) ==>
      && b.nextAttemptAt.Some?
      && now + RetryDelaySeconds(a.attemptCount, a.evidence.policy) * SECOND
         <= b.nextAttemptAt.value
         <= now + a.evidence.policy.maxDelaySeconds * SECOND
  }

  /** The reference machine applies the move at `now`, up to where in the window a retry falls. */
  predicate Refines(a: Record, b: Record, now: Instant, owner: Binding, retention: bool, receipt: Option<Receipt>) {
    var ctx := ContextOf(a, owner, retention);
    && (a.lastAttemptAt.Some? ==> a.lastAttemptAt.value <= now)
    && RetryInWindow(a, b, now)
    && ( || ValidateTransition(a, OnSchedule(a, b, now), a, now, ctx, receipt).Applied?
         || ValidateManualRetry(a, b, a, now, ctx).Applied?)
  }

  lemma ValidatorsAgree(r: Record)
    ensures RecordValid(r) <==> ValidDocument(r)
  {
  }

  predicate SameSide(x: Instant, y: Instant, x': Instant, y': Instant) {
    (x < y <==> x' < y') && (x == y <==> x' == y')
  }

  predicate SamePair(x: Option<Instant>, y: Option<Instant>, x': Option<Instant>, y': Option<Instant>) {
    && (x.Some? <==> x'.Some?) && (y.Some? <==> y'.Some?)
    && (x.Some? && y.Some? ==> SameSide(x.value, y.value, x'.value, y'.value))
  }

  function Untimed(e: Evidence): Evidence { e.(observedAt := ZERO_TIME) }

  /** One record read at two resolutions of its times, with every pair of times that is compared
      in the same order at both. */
  predicate SameOrder(a: Record, b: Record) {
    var same :=
      && Untimed(a.evidence) == Untimed(b.evidence)
      && a.state == b.state && a.attemptCount == b.attemptCount && a.disposition == b.disposition
      && a.manualReason == b.manualReason && a.discard == b.discard
      && (a.acknowledgement.Some? <==> b.acknowledgement.Some?)
      && SamePair(Some(a.evidence.observedAt), a.lastAttemptAt, Some(b.evidence.observedAt), b.lastAttemptAt)
      && SamePair(Some(a.evidence.observedAt), a.discardedAt, Some(b.evidence.observedAt), b.discardedAt)
      && SamePair(a.lastAttemptAt, a.nextAttemptAt, b.lastAttemptAt, b.nextAttemptAt)
      && SamePair(a.lastAttemptAt, a.acknowledgedAt, b.lastAttemptAt, b.acknowledgedAt)
      && (a.acknowledgement.Some? ==>
            && var x, y := a.acknowledgement.value, b.acknowledgement.value;
            && x.reconciliationId == y.reconciliationId
            && (x.evidenceHash == a.evidence <==> y.evidenceHash == b.evidence)
            && SamePair(a.acknowledgedAt, Some(x.acknowledgedAt), b.acknowledgedAt, Some(y.acknowledgedAt)));
    same
  }

  /** The reference on exact times and the guard on nanoseconds agree as long as no pair of
      compared times changes its order. */
  lemma OnlyOrderMatters(exact: Record, kept: Record)
    requires SameOrder(exact, kept)
    ensures ValidDocument(exact) <==> RecordValid(kept)
  {
    ValidatorsAgree(exact);
    assert FieldsOfState(exact) <==> FieldsOfState(kept);
  }

  predicate ClaimableAt(r: Record, now: Instant) {
    || (r.state.Pending? && r.disposition.Automatic?)
    || (r.state.RetryWait? && r.nextAttemptAt.Some? && r.nextAttemptAt.value <= now)
  }

  lemma SendRefines(r: Record, now: Instant, b: Binding)
    requires RecordValid(r) && RecordValid(Sent(r, now)) && ClaimableAt(r, now)
    requires r.lastAttemptAt.Some? ==> r.lastAttemptAt.value <= now
    ensures Refines(r, Sent(r, now), now, b, false, None)
  {
    ValidatorsAgree(r);
    ValidatorsAgree(Sent(r, now));
  }

  /** A manual retry of an exhausted record, or of a held one with attempts left. */
  lemma ManualRetryRefines(r: Record, now: Instant, b: Binding)
    requires RecordValid(r) && RecordValid(Sent(r, now)) && r.state.Pending?
    requires r.attemptCount < r.evidence.policy.maxTotalAttempts
    requires r.lastAttemptAt.Some? ==> r.lastAttemptAt.value <= now
    ensures Refines(r, Sent(r, now), now, b, false, None)
  {
    ValidatorsAgree(r);
    ValidatorsAgree(Sent(r, now));
    if r.disposition.Automatic? { SendRefines(r, now, b); }
  }

  lemma RequeueRefines(r: Record, now: Instant, b: Binding)
    requires RecordValid(r) && r.state.Sending? && r.lastAttemptAt.value <= now
    ensures RequeuedAtOpen(r) == Requeued(r) && RecordValid(Requeued(r))
    ensures Refines(r, Requeued(r), now, b, false, None)
  {
    ValidatorsAgree(r);
    ValidatorsAgree(Requeued(r));
  }

  lemma WaitRefines(r: Record, now: Instant, b: Binding, jitter: int -> int, minimumDelay: int)
    requires RecordValid(r) && r.state.Sending? && r.lastAttemptAt.value <= now
    requires r.attemptCount < r.evidence.policy.maxAttempts
    requires FailDelay(r, jitter, minimumDelay).Some?
    ensures RecordValid(Waiting(r, now + FailDelay(r, jitter, minimumDelay).value))
    ensures Refines(r, Waiting(r, now + FailDelay(r, jitter, minimumDelay).value), now, b, false, None)
  {
    var w := Waiting(r, now + FailDelay(r, jitter, minimumDelay).value);
    FailDelayBounds(r, jitter, minimumDelay);
    ExactDelayIsPositive(r);
    ValidatorsAgree(r);
    ValidatorsAgree(w);
    ValidatorsAgree(OnSchedule(r, w, now));
    assert RetryError(r, OnSchedule(r, w, now), now).None?;
  }

  lemma ExactDelayIsPositive(r: Record)
    requires RecordValid(r) && r.attemptCount >= 1
    ensures RetryDelaySeconds(r.attemptCount, r.evidence.policy) >= 1
  {
    Pow2Grows(0, Min(r.attemptCount - 1, 63));
    assert r.evidence.policy.baseDelaySeconds * Pow2(Min(r.attemptCount - 1, 63)) >= 1;
  }

  lemma AckRefines(r: Record, b: Binding, receipt: Receipt, verifiedAt: Instant)
    requires RecordValid(r) && r.state.Sending? && RecordValid(Acked(r, receipt.ack))
    requires receipt.tenant == b.tenant && receipt.clientId == r.evidence.clientId
    requires receipt.ack.acknowledgedAt <= verifiedAt
    ensures Refines(r, Acked(r, receipt.ack), verifiedAt, b, false, Some(receipt))
  {
    ValidatorsAgree(r);
    ValidatorsAgree(Acked(r, receipt.ack));
  }

  lemma DropRefines(r: Record, now: Instant, b: Binding, authority: Authority, reason: string)
    requires RecordValid(r) && r.state.Pending?
    requires r.evidence.observedAt <= now && (r.lastAttemptAt.Some? ==> r.lastAttemptAt.value <= now)
    ensures RecordValid(Dropped(r, now, authority, reason)) <==> SafeReason(reason) && |reason| <= MAX_REASON
    ensures RecordValid(Dropped(r, now, authority, reason)) ==>
              Refines(r, Dropped(r, now, authority, reason), now, b, authority.OrganizationRetentionPolicy?, None)
  {
    hide SafeReason;
    ValidatorsAgree(r);
    ValidatorsAgree(Dropped(r, now, authority, reason));
  }
}
