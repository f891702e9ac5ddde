/** What the reference machine allows, edge by edge, said without its checks: which record may
    follow which, who may ask for it, and when. */
module ReferenceRules {
  import opened Protocol
  import opened Reference

  // ----- Callers -----

  /** The caller works in the partition the record is filed under. */
  predicate InPartition(r: Record, ctx: TrustedContext) {
    var id := r.evidence.reconciliationId;
    id in ctx.partitions && ctx.partitions[id].tenant == ctx.tenant
  }

  predicate IsOwner(r: Record, ctx: TrustedContext) {
    InPartition(r, ctx) && ctx.partitions[r.evidence.reconciliationId].owner == ctx.subject
  }

  predicate HasAuthority(r: Record, ctx: TrustedContext, authority: Authority) {
    InPartition(r, ctx) && if authority.AuthenticatedUser? then IsOwner(r, ctx) else ctx.retentionAuthority
  }

  // ----- Moves -----

  /** No clock runs backwards past the last attempt. */
  predicate NotBefore(r: Record, now: Instant) { r.lastAttemptAt.Some? ==> r.lastAttemptAt.value <= now }

  predicate AttemptsLeft(r: Record) { r.attemptCount < r.evidence.policy.maxAttempts }

  /** The delay doubles with every attempt, without any cap on the exponent, up to the maximum. */
  function Backoff(r: Record): int
    requires r.attemptCount >= 1
  {
    Min(r.evidence.policy.baseDelaySeconds * Pow2(r.attemptCount - 1), r.evidence.policy.maxDelaySeconds)
  }

  function SentBy(r: Record, now: Instant): Record {
    r.(state := Sending, attemptCount := r.attemptCount + 1, lastAttemptAt := Some(now), nextAttemptAt := None)
  }

  /** An automatic send: due, with attempts left, on the owner's behalf. */
  predicate Sends(a: Record, b: Record, now: Instant, ctx: TrustedContext) {
    && IsOwner(a, ctx) && (a.state.Pending? || a.state.RetryWait?) && a.disposition.Automatic? && AttemptsLeft(a)
    && NotBefore(a, now) && (a.state.RetryWait? ==> a.nextAttemptAt.Some? && a.nextAttemptAt.value <= now)
    && b == SentBy(a, now)
  }

  /** A failed attempt waits for exactly the backoff. */
  predicate Waits(a: Record, b: Record, now: Instant, ctx: TrustedContext) {
    && IsOwner(a, ctx) && a.state.Sending? && a.attemptCount >= 1 && AttemptsLeft(a) && NotBefore(a, now)
    && b == a.(state := RetryWait, nextAttemptAt := Some(now + Backoff(a) * SECOND))
  }

  /** An interrupted attempt goes back, to a person once the automatic attempts are used up. */
  predicate GoesBack(a: Record, b: Record, now: Instant, ctx: TrustedContext) {
    && IsOwner(a, ctx) && a.state.Sending? && NotBefore(a, now)
    && b == (if AttemptsLeft(a) then a.(state := Pending)
             else a.(state := Pending, disposition := ManualIntervention, manualReason := Some(ATTEMPT_LIMIT_REACHED)))
  }

  /** The server's receipt for this tenant and client, issued no later than now, is stored as it is. */
  predicate Acknowledges(a: Record, b: Record, now: Instant, ctx: TrustedContext, receipt: Option<Receipt>) {
    && IsOwner(a, ctx) && a.state.Sending? && receipt.Some?
    && receipt.value.tenant == ctx.tenant && receipt.value.clientId == a.evidence.clientId
    && receipt.value.ack.acknowledgedAt <= now
    && b == a.(state := Acknowledged, acknowledgement := Some(receipt.value.ack),
               acknowledgedAt := Some(receipt.value.ack.acknowledgedAt))
  }

  /** A pending record is given up by the authority the discard names, at a time that has come. */
  predicate Discards(a: Record, b: Record, now: Instant, ctx: TrustedContext) {
    && a.state.Pending? && b.discard.Some? && b.discardedAt.Some?
    && HasAuthority(a, ctx, b.discard.value.authorityType)
    && NotBefore(a, b.discardedAt.value) && b.discardedAt.value <= now
    && b == a.(state := Discarded, discard := b.discard, discardedAt := b.discardedAt)
  }

  predicate Allowed(a: Record, b: Record, now: Instant, ctx: TrustedContext, receipt: Option<Receipt>) {
    || Sends(a, b, now, ctx) || Waits(a, b, now, ctx) || GoesBack(a, b, now, ctx)
    || Acknowledges(a, b, now, ctx, receipt) || Discards(a, b, now, ctx)
  }

  /** A person, the owner or the retention authority, spends one of the attempts left beyond the
      automatic ones. */
  predicate RetriesByHand(a: Record, b: Record, now: Instant, ctx: TrustedContext) {
    && InPartition(a, ctx) && (IsOwner(a, ctx) || ctx.retentionAuthority)
    && a.state.Pending? && a.disposition.ManualIntervention?
    && a.attemptCount < a.evidence.policy.maxTotalAttempts && NotBefore(a, now)
    && b == SentBy(a, now)
  }

  // ----- The capped exponent -----

  lemma {:induction false} Pow2Monotone(m: nat, n: nat)
    requires m <= n
    ensures 1 <= Pow2(m) <= Pow2(n)
    decreases n
  {
    if m < n { Pow2Monotone(m, n - 1); } else if n > 0 { Pow2Monotone(n - 1, n - 1); }
  }

  lemma Pow2At63()
    ensures Pow2(63) >= 86400
  {
    Pow2Monotone(17, 63);
    assert Pow2(5) == 32 && Pow2(10) == 1024 && Pow2(15) == 32768;
  }

  /** Capping the exponent at 63 never shows: the delay is at its maximum long before. */
  lemma CapNeverShows(r: Record)
    requires ValidRetryInput(r.attemptCount, r.evidence.policy)
    ensures RetryDelaySeconds(r.attemptCount, r.evidence.policy) == Backoff(r)
  {
    var base, n := r.evidence.policy.baseDelaySeconds, r.attemptCount - 1;
    if n > 63 {
      Pow2At63();
      Pow2Monotone(63, n);
      Scales(base, Pow2(63));
      Scales(base, Pow2(n));
    }
  }

  lemma Scales(base: int, p: int)
    requires base >= 1 && p >= 0
    ensures base * p >= p
  {
    assert (base - 1) * p >= 0;
  }

  // ----- Exactly these moves -----

  lemma SendExactly(a: Record, b: Record, now: Instant, ctx: TrustedContext)
    requires ValidDocument(a) && ValidDocument(b) && a.evidence == b.evidence && IsOwner(a, ctx)
    requires (a.state.Pending? || a.state.RetryWait?) && b.state.Sending?
    ensures SendError(a, b, now).None? <==> Sends(a, b, now, ctx)
  {
  }

  lemma RetryExactly(a: Record, b: Record, now: Instant, ctx: TrustedContext)
    requires ValidDocument(a) && ValidDocument(b) && a.evidence == b.evidence && IsOwner(a, ctx)
    requires a.state.Sending? && b.state.RetryWait?
    ensures RetryError(a, b, now).None? <==> Waits(a, b, now, ctx)
  {
    CapNeverShows(a);
  }

  lemma BackExactly(a: Record, b: Record, now: Instant, ctx: TrustedContext, receipt: Option<Receipt>, p: Partition)
    requires ValidDocument(a) && ValidDocument(b) && a.evidence == b.evidence && IsOwner(a, ctx)
    requires a.state.Sending? && b.state.Pending?
    ensures EdgeError(a, b, now, receipt, p).None? <==> GoesBack(a, b, now, ctx)
  {
  }

  lemma AcknowledgementExactly(a: Record, b: Record, now: Instant, ctx: TrustedContext, receipt: Option<Receipt>)
    requires ValidDocument(a) && ValidDocument(b) && a.evidence == b.evidence && IsOwner(a, ctx)
    requires a.state.Sending? && b.state.Acknowledged?
    ensures AcknowledgementError(a, b, now, receipt, ctx.partitions[a.evidence.reconciliationId]).None? <==>
            Acknowledges(a, b, now, ctx, receipt)
  {
  }

  lemma DiscardExactly(a: Record, b: Record, now: Instant, ctx: TrustedContext)
    requires ValidDocument(a) && ValidDocument(b) && a.evidence == b.evidence
    requires a.state.Pending? && b.state.Discarded? && HasAuthority(a, ctx, b.discard.value.authorityType)
    ensures DiscardError(a, b, now).None? <==> Discards(a, b, now, ctx)
  {
  }

  /** A transition is applied exactly if both records are valid, the one that was read is still
      the current one, and the move is allowed. */
  lemma AppliedExactly(a: Record, b: Record, expected: Record, now: Instant, ctx: TrustedContext,
                       receipt: Option<Receipt>)
    ensures ValidateTransition(a, b, expected, now, ctx, receipt).Applied? <==>
            ValidDocument(a) && ValidDocument(b) && expected == a && Allowed(a, b, now, ctx, receipt)
  {
    hide SchemaValid, RetryDelaySeconds, Backoff;
    if ValidDocument(a) && ValidDocument(b) && a.evidence == b.evidence {
      match (a.state, b.state)
      case (Pending, Sending) => if IsOwner(a, ctx) { SendExactly(a, b, now, ctx); }
      case (RetryWait, Sending) => if IsOwner(a, ctx) { SendExactly(a, b, now, ctx); }
      case (Sending, RetryWait) => if IsOwner(a, ctx) { RetryExactly(a, b, now, ctx); }
      case (Sending, Pending) =>
        if IsOwner(a, ctx) { BackExactly(a, b, now, ctx, receipt, ctx.partitions[a.evidence.reconciliationId]); }
      case (Sending, Acknowledged) => if IsOwner(a, ctx) { AcknowledgementExactly(a, b, now, ctx, receipt); }
      case (Pending, Discarded) => DiscardedFields(b);
        if HasAuthority(a, ctx, b.discard.value.authorityType) { DiscardExactly(a, b, now, ctx); }
      case (_, _) =>
    }
  }

  lemma DiscardedFields(r: Record)
    requires ValidDocument(r) && r.state.Discarded?
    ensures r.discard.Some? && r.discardedAt.Some?
  {
  }

  /** Presenting the current record again is no move, for whoever may look at it. */
  lemma IdempotentExactly(a: Record, b: Record, expected: Record, now: Instant, ctx: TrustedContext,
                          receipt: Option<Receipt>)
    ensures ValidateTransition(a, b, expected, now, ctx, receipt).Idempotent? <==>
            && ValidDocument(a) && expected == a && b == a
            && (if a.state.Discarded? then a.discard.Some? && HasAuthority(a, ctx, a.discard.value.authorityType)
                else IsOwner(a, ctx))
  {
    if ValidDocument(a) && a.state.Discarded? { DiscardedFields(a); }
  }

  /** A retry by hand is applied exactly if both records are valid, the one that was read is still
      the current one, and a person may spend the attempt. */
  lemma ManualRetryExactly(a: Record, b: Record, expected: Record, now: Instant, ctx: TrustedContext)
    ensures ValidateManualRetry(a, b, expected, now, ctx).Applied? <==>
            ValidDocument(a) && ValidDocument(b) && expected == a && RetriesByHand(a, b, now, ctx)
    ensures !ValidateManualRetry(a, b, expected, now, ctx).Idempotent?
  {
  }

  // ----- Honest refusals -----

  predicate Holds(at: Option<Instant>, condition: Instant -> bool) { at.Some? && condition(at.value) }

  /** What a refusal with this code says about the records and the caller. */
  predicate Cause(code: Code, a: Record, b: Record, expected: Record, now: Instant, ctx: TrustedContext,
                  receipt: Option<Receipt>)
  {
    match code
    case RecordContextMismatch => a.evidence.reconciliationId !in ctx.partitions
    case TenantContextMismatch => a.evidence.reconciliationId in ctx.partitions && !InPartition(a, ctx)
    case SubjectContextMismatch => InPartition(a, ctx) && !IsOwner(a, ctx)
    case DiscardAuthorizationRequired =>
      var d := if a.state.Discarded? then a.discard else b.discard;
      d.Some? && InPartition(a, ctx) && !HasAuthority(a, ctx, d.value.authorityType)
    case ConcurrentTransition => expected != a
    case TerminalState => Terminal(a.state) && b != a
    case ManualRetryRequired => a.disposition.ManualIntervention? && b.state.Sending?
    case AttemptLimitReached => !AttemptsLeft(a) && b.state.Sending?
    case RetryNotDue => a.state.RetryWait? && Holds(a.nextAttemptAt, t => now < t)
    case RetryScheduleInvalid =>
      a.attemptCount >= 1 && Holds(b.nextAttemptAt, t => t != now + Backoff(a) * SECOND)
    case ServerAcknowledgementRequired => b.state.Acknowledged? && receipt.None?
    case ReceiptContextMismatch =>
      receipt.Some? && (receipt.value.tenant != ctx.tenant || receipt.value.clientId != a.evidence.clientId)
    case DiscardAuthorizationInvalid => Holds(b.discardedAt, t => now < t)
    case ManualRetryAuthorizationRequired => false
    case _ => a != b || !ValidDocument(a)
  }

  lemma DocumentCodes(r: Record)
    ensures DocumentError(r).Some? ==>
              DocumentError(r).value in
                {SchemaInvalid, RetryPolicyInvalid, AttemptLimitExceeded, AutomaticAttemptLimitExceeded,
                 ManualStateInvalid, ManualInterventionRequired, AttemptStateInvalid, TimestampOrderInvalid,
                 AcknowledgementInvalid}
  {
  }

  lemma EdgeRefusals(a: Record, b: Record, now: Instant, ctx: TrustedContext, receipt: Option<Receipt>)
    requires ValidDocument(a) && ValidDocument(b) && a != b && InPartition(a, ctx)
    ensures var e := EdgeError(a, b, now, receipt, ctx.partitions[a.evidence.reconciliationId]);
            e.Some? ==> Cause(e.value, a, b, a, now, ctx, receipt)
  {
    hide Backoff, RetryDelaySeconds;
    if a.state.Sending? && b.state.RetryWait? { CapNeverShows(a); }
  }

  /** A refusal always has the cause its code names. */
  lemma RefusalsAreHonest(a: Record, b: Record, expected: Record, now: Instant, ctx: TrustedContext,
                          receipt: Option<Receipt>)
    ensures var v := ValidateTransition(a, b, expected, now, ctx, receipt);
            v.Rejected? ==> Cause(v.code, a, b, expected, now, ctx, receipt)
  {
    hide DocumentError, EdgeError, Backoff;
    DocumentCodes(a);
    DocumentCodes(b);
    if ValidDocument(a) && a.state.Discarded? { DiscardedFields(a); }
    if ValidDocument(b) && b.state.Discarded? { DiscardedFields(b); }
    if ValidDocument(a) && ValidDocument(b) && a != b && InPartition(a, ctx) {
      EdgeRefusals(a, b, now, ctx, receipt);
    }
  }
}
