/** The reference state machine of protocol version 1: which record documents are valid and
    which single transitions a durable store may persist. */
module Reference {
  import opened Protocol

  datatype Code =
    | SchemaInvalid | RetryPolicyInvalid | AttemptLimitExceeded | AutomaticAttemptLimitExceeded
    | ManualStateInvalid | ManualInterventionRequired | AttemptStateInvalid | TimestampOrderInvalid
    | AcknowledgementInvalid | RecordContextMismatch | TenantContextMismatch | SubjectContextMismatch
    | DiscardAuthorizationRequired | ConcurrentTransition | TerminalState | TransitionInvalid
    | TransitionHistoryInvalid | ManualRetryRequired | AttemptLimitReached | RetryNotDue
    | RetryScheduleInvalid | ServerAcknowledgementRequired | ReceiptContextMismatch
    | DiscardAuthorizationInvalid | ManualRetryAuthorizationRequired

  datatype Verdict = Applied | Idempotent | Rejected(code: Code)

  datatype Partition = Partition(tenant: string, owner: string)

  datatype TrustedContext = TrustedContext(
    partitions: map<RecordId, Partition>,
    tenant: string,
    subject: string,
    retentionAuthority: bool)

  datatype Receipt = Receipt(ack: Acknowledgement, tenant: string, clientId: string)

  // ----- Documents -----

  /** The first rule a document breaks, in the order the rules are tried. */
  function DocumentError(r: Record): (e: Option<Code>) {
    var p := r.evidence.policy;
    if !SchemaValid(r) then Some(SchemaInvalid)
    else if p.baseDelaySeconds > p.maxDelaySeconds || p.maxTotalAttempts < p.maxAttempts then Some(RetryPolicyInvalid)
    else if r.attemptCount > p.maxTotalAttempts then Some(AttemptLimitExceeded)
    else if r.disposition.Automatic? && r.attemptCount > p.maxAttempts then Some(AutomaticAttemptLimitExceeded)
    else if r.disposition.ManualIntervention? && r.attemptCount < p.maxAttempts then Some(ManualStateInvalid)
    else if r.disposition.Automatic? && r.state.Pending? && r.attemptCount >= p.maxAttempts then
      Some(ManualInterventionRequired)
    else if r.state.RetryWait? && r.attemptCount >= p.maxAttempts then Some(ManualInterventionRequired)
    else if (r.attemptCount == 0) == r.lastAttemptAt.Some? then Some(AttemptStateInvalid)
    else if r.lastAttemptAt.Some? && r.lastAttemptAt.value < r.evidence.observedAt then Some(TimestampOrderInvalid)
    else if r.nextAttemptAt.Some? && r.lastAttemptAt.Some? && r.nextAttemptAt.value <= r.lastAttemptAt.value then
      Some(TimestampOrderInvalid)
    else if r.acknowledgedAt.Some? && r.lastAttemptAt.Some? && r.acknowledgedAt.value < r.lastAttemptAt.value then
      Some(TimestampOrderInvalid)
    else if r.discardedAt.Some? && r.discardedAt.value < r.evidence.observedAt then Some(TimestampOrderInvalid)
    else if r.state.Acknowledged? &&
            ( || r.acknowledgement.value.reconciliationId != r.evidence.reconciliationId
              || r.acknowledgement.value.evidenceHash != r.evidence
              || r.acknowledgement.value.acknowledgedAt != r.acknowledgedAt.value) then
      Some(AcknowledgementInvalid)
    else None
  }

  predicate ValidDocument(r: Record) {
    DocumentError(r).None?
  }

  // ----- Trusted context -----

  function PartitionError(r: Record, ctx: TrustedContext): (e: Option<Code>) {
    if r.evidence.reconciliationId !in ctx.partitions then Some(RecordContextMismatch)
    else if ctx.tenant != ctx.partitions[r.evidence.reconciliationId].tenant then Some(TenantContextMismatch)
    else None
  }

  predicate OwnerMatches(r: Record, ctx: TrustedContext)
    requires PartitionError(r, ctx).None?
  {
    ctx.subject == ctx.partitions[r.evidence.reconciliationId].owner
  }

  predicate MayDiscard(r: Record, ctx: TrustedContext, authority: Authority)
    requires PartitionError(r, ctx).None?
  {
    match authority
    case AuthenticatedUser => OwnerMatches(r, ctx)
    case OrganizationRetentionPolicy => ctx.retentionAuthority
  }

  // ----- Backoff -----

  function Pow2(n: nat): nat {
    if n == 0 then 1 else 2 * Pow2(n - 1)
  }

  function Min(a: int, b: int): int {
    if a <= b then a else b
  }

  predicate ValidRetryInput(attemptCount: int, p: Policy) {
    && 1 <= attemptCount <= p.maxTotalAttempts
    && 1 <= p.baseDelaySeconds <= 3600
    && p.baseDelaySeconds <= p.maxDelaySeconds <= 86400
    && 1 <= p.maxAttempts <= 100
    && p.maxAttempts <= p.maxTotalAttempts <= 100
  }

  /** Bounded exponential backoff after a failed attempt, in seconds. */
  function RetryDelaySeconds(attemptCount: int, p: Policy): (delay: int)
    requires ValidRetryInput(attemptCount, p)
  {
    Min(p.baseDelaySeconds * Pow2(Min(attemptCount - 1, 63)), p.maxDelaySeconds)
  }

  // ----- Transitions -----

  predicate SameHistory(current: Record, proposed: Record) {
    && proposed.attemptCount == current.attemptCount
    && proposed.lastAttemptAt == current.lastAttemptAt
    && proposed.disposition == current.disposition
    && proposed.manualReason == current.manualReason
  }

  function SendError(current: Record, proposed: Record, now: Instant): (e: Option<Code>)
    requires ValidDocument(current) && ValidDocument(proposed) && proposed.state.Sending?
  {
    if !current.disposition.Automatic? then Some(ManualRetryRequired)
    else if current.attemptCount >= current.evidence.policy.maxAttempts then Some(AttemptLimitReached)
    else if current.lastAttemptAt.Some? && now < current.lastAttemptAt.value then Some(TimestampOrderInvalid)
    else if current.state.RetryWait? && now < current.nextAttemptAt.value then Some(RetryNotDue)
    else if proposed.attemptCount != current.attemptCount + 1 then Some(TransitionInvalid)
    else if !proposed.disposition.Automatic? || proposed.manualReason.Some? then Some(TransitionHistoryInvalid)
    else if proposed.lastAttemptAt != Some(now) then Some(TransitionInvalid)
    else None
  }

  function RetryError(current: Record, proposed: Record, now: Instant): (e: Option<Code>)
    requires ValidDocument(current) && ValidDocument(proposed) && current.state.Sending? && proposed.state.RetryWait?
  {
    if current.attemptCount >= current.evidence.policy.maxAttempts then Some(ManualInterventionRequired)
    else if now < current.lastAttemptAt.value then Some(TimestampOrderInvalid)
    else if !SameHistory(current, proposed) then Some(TransitionHistoryInvalid)
    else if proposed.nextAttemptAt.value !=
            now + RetryDelaySeconds(current.attemptCount, current.evidence.policy) * SECOND then
      Some(RetryScheduleInvalid)
    else None
  }

  function AcknowledgementError(current: Record, proposed: Record, now: Instant, receipt: Option<Receipt>,
                                partition: Partition): (e: Option<Code>)
    requires ValidDocument(current) && ValidDocument(proposed) && current.state.Sending? && proposed.state.Acknowledged?
  {
    if receipt.None? then Some(ServerAcknowledgementRequired)
    else if proposed.acknowledgement.value != receipt.value.ack then Some(AcknowledgementInvalid)
    else if receipt.value.tenant != partition.tenant || receipt.value.clientId != current.evidence.clientId then
      Some(ReceiptContextMismatch)
    else if !SameHistory(current, proposed) then Some(TransitionHistoryInvalid)
    else
      var ack := proposed.acknowledgement.value;
      if || ack.reconciliationId != current.evidence.reconciliationId
         || ack.evidenceHash != current.evidence
         || proposed.acknowledgedAt.value != ack.acknowledgedAt
         || now < proposed.acknowledgedAt.value then Some(AcknowledgementInvalid)
      else None
  }

  function DiscardError(current: Record, proposed: Record, now: Instant): (e: Option<Code>)
    requires ValidDocument(current) && ValidDocument(proposed) && proposed.state.Discarded?
  {
    if !SameHistory(current, proposed) then Some(TransitionHistoryInvalid)
    else if current.lastAttemptAt.Some? && proposed.discardedAt.value < current.lastAttemptAt.value then
      Some(TimestampOrderInvalid)
    else if now < proposed.discardedAt.value then Some(DiscardAuthorizationInvalid)
    else None
  }

  function ExhaustionError(current: Record, proposed: Record, now: Instant): (e: Option<Code>)
    requires ValidDocument(current) && ValidDocument(proposed) && current.state.Sending?
  {
    if current.attemptCount < current.evidence.policy.maxAttempts then Some(TransitionInvalid)
    else if || proposed.attemptCount != current.attemptCount
            || proposed.lastAttemptAt != current.lastAttemptAt
            || !proposed.disposition.ManualIntervention?
            || proposed.manualReason != Some(ATTEMPT_LIMIT_REACHED) then Some(TransitionHistoryInvalid)
    else if now < current.lastAttemptAt.value then Some(TimestampOrderInvalid)
    else None
  }

  /** The rule of the edge `current.state -> proposed.state`, if the graph has that edge. */
  function EdgeError(current: Record, proposed: Record, now: Instant, receipt: Option<Receipt>,
                     partition: Partition): (e: Option<Code>)
    requires ValidDocument(current) && ValidDocument(proposed)
  {
    match (current.state, proposed.state)
    case (Pending, Sending) => SendError(current, proposed, now)
    case (RetryWait, Sending) => SendError(current, proposed, now)
    case (Sending, RetryWait) => RetryError(current, proposed, now)
    case (Sending, Pending) =>
      if proposed.disposition.ManualIntervention? then ExhaustionError(current, proposed, now)
      else if now < current.lastAttemptAt.value then Some(TimestampOrderInvalid)
      else if !SameHistory(current, proposed) then Some(TransitionHistoryInvalid)
      else None
    case (Sending, Acknowledged) => AcknowledgementError(current, proposed, now, receipt, partition)
    case (Pending, Discarded) => DiscardError(current, proposed, now)
    case (_, _) => Some(TransitionInvalid)
  }

  /** One compare-and-swap transition; `expected` is the revision the caller read. */
  function ValidateTransition(current: Record, proposed: Record, expected: Record, now: Instant,
                              ctx: TrustedContext, receipt: Option<Receipt>): (v: Verdict)
  {
    if DocumentError(current).Some? then Rejected(DocumentError(current).value)
    else if PartitionError(current, ctx).Some? then Rejected(PartitionError(current, ctx).value)
    else if Terminal(current.state) then
      if current.state.Discarded? && !MayDiscard(current, ctx, current.discard.value.authorityType) then
        Rejected(DiscardAuthorizationRequired)
      else if current.state.Acknowledged? && !OwnerMatches(current, ctx) then Rejected(SubjectContextMismatch)
      else if expected != current then Rejected(ConcurrentTransition)
      else if current == proposed then Idempotent
      else Rejected(TerminalState)
    else if DocumentError(proposed).Some? then Rejected(DocumentError(proposed).value)
    else if current.state.Pending? && proposed.state.Discarded? &&
            !MayDiscard(current, ctx, proposed.discard.value.authorityType) then
      Rejected(DiscardAuthorizationRequired)
    else if !(current.state.Pending? && proposed.state.Discarded?) && !OwnerMatches(current, ctx) then
      Rejected(SubjectContextMismatch)
    else if expected != current then Rejected(ConcurrentTransition)
    else if current == proposed then Idempotent
    else if current.evidence != proposed.evidence then Rejected(TransitionInvalid)
    else
      var e := EdgeError(current, proposed, now, receipt, ctx.partitions[current.evidence.reconciliationId]);
      if e.Some? then Rejected(e.value) else Applied
  }

  /** An explicit authenticated retry of a record whose automatic attempts are used up. */
  function ValidateManualRetry(current: Record, proposed: Record, expected: Record, now: Instant,
                               ctx: TrustedContext): (v: Verdict)
  {
    if DocumentError(current).Some? then Rejected(DocumentError(current).value)
    else if PartitionError(current, ctx).Some? then Rejected(PartitionError(current, ctx).value)
    else if !OwnerMatches(current, ctx) && !ctx.retentionAuthority then Rejected(ManualRetryAuthorizationRequired)
    else if expected != current then Rejected(ConcurrentTransition)
    else if !current.state.Pending? || !current.disposition.ManualIntervention? then Rejected(ManualRetryRequired)
    else if current.attemptCount >= current.evidence.policy.maxTotalAttempts then Rejected(AttemptLimitReached)
    else if DocumentError(proposed).Some? then Rejected(DocumentError(proposed).value)
    else if current.evidence != proposed.evidence then Rejected(TransitionInvalid)
    else if || !proposed.state.Sending?
            || !proposed.disposition.ManualIntervention?
            || proposed.manualReason != current.manualReason
            || proposed.attemptCount != current.attemptCount + 1
            || proposed.lastAttemptAt != Some(now) then Rejected(TransitionHistoryInvalid)
    else if current.lastAttemptAt.Some? && now < current.lastAttemptAt.value then Rejected(TimestampOrderInvalid)
    else Applied
  }

  datatype Recovery = Recovered(record: Record) | NotRecovered(code: Code)

  /** Restart recovery edits a copy of a sending record and then validates its own edit. */
  method RecoverAfterRestart(current: Record, expected: Record, now: Instant, ctx: TrustedContext)
    returns (r: Recovery)
    ensures r.Recovered? <==>
            && ValidDocument(current) && PartitionError(current, ctx).None? && OwnerMatches(current, ctx)
            && expected == current && current.state.Sending? && current.lastAttemptAt.value <= now
    ensures r.Recovered? ==>
              && ValidateTransition(current, r.record, expected, now, ctx, None).Applied?
              && r.record.state.Pending?
              && r.record.attemptCount == current.attemptCount
              && (r.record.disposition.ManualIntervention? <==>
                  current.attemptCount >= current.evidence.policy.maxAttempts)
  {
    if DocumentError(current).Some? { return NotRecovered(DocumentError(current).value); }
    if PartitionError(current, ctx).Some? { return NotRecovered(PartitionError(current, ctx).value); }
    if !OwnerMatches(current, ctx) { return NotRecovered(SubjectContextMismatch); }
    if expected != current { return NotRecovered(ConcurrentTransition); }
    if !current.state.Sending? { return NotRecovered(TransitionInvalid); }
    var proposed := current.(state := Pending);
    if current.disposition.ManualIntervention? || current.attemptCount >= current.evidence.policy.maxAttempts {
      proposed := proposed.(disposition := ManualIntervention, manualReason := Some(ATTEMPT_LIMIT_REACHED));
    }
    var verdict := ValidateTransition(current, proposed, expected, now, ctx, None);
    if verdict.Rejected? { return NotRecovered(verdict.code); }
    return Recovered(proposed);
  }
}
