/** Reconciliation records as the wire schema, the reference state machine and the
    guard's queue share them.

    A digest is modelled by the content it digests (hashes are injective), so the evidence
    hash of a record is its immutable evidence.  An instant is a number of nanoseconds
    since year one in UTC, the epoch whose value Go calls the zero time: it is what the guard
    keeps of a timestamp, and all of one with at most nine fraction digits. */
module Protocol {

  datatype Option<+T> = None | Some(value: T)

  type Instant = int
  const SECOND: int := 1_000_000_000
  const ZERO_TIME: Instant := 0

  type RecordId = nat
  type BatchId = nat

  datatype State = Pending | Sending | RetryWait | Acknowledged | Discarded

  datatype Disposition = Automatic | ManualIntervention

  datatype Policy = Policy(maxAttempts: int, maxTotalAttempts: int, baseDelaySeconds: int, maxDelaySeconds: int)

  /** The fields covered by the evidence hash; `body` stands for those no rule inspects. */
  datatype Evidence = Evidence(
    reconciliationId: RecordId,
    clientId: string,
    observedAt: Instant,
    batchId: BatchId,
    batchSequence: int,
    policy: Policy,
    body: string)

  datatype Acknowledgement = Acknowledgement(
    receiptId: string,
    reconciliationId: RecordId,
    evidenceHash: Evidence,
    acknowledgedAt: Instant)

  datatype Authority = AuthenticatedUser | OrganizationRetentionPolicy

  datatype DiscardReason = DiscardReason(authorityType: Authority, reasonCode: string)

  const ATTEMPT_LIMIT_REACHED: string := "attempt_limit_reached"

  datatype Record = Record(
    evidence: Evidence,
    state: State,
    attemptCount: int,
    disposition: Disposition,
    manualReason: Option<string>,
    lastAttemptAt: Option<Instant>,
    nextAttemptAt: Option<Instant>,
    acknowledgedAt: Option<Instant>,
    acknowledgement: Option<Acknowledgement>,
    discardedAt: Option<Instant>,
    discard: Option<DiscardReason>)

  predicate Terminal(state: State) {
    state.Acknowledged? || state.Discarded?
  }

  predicate LowerOrDigit(ch: char) { 'a' <= ch <= 'z' || '0' <= ch <= '9' }

  /** Lower-case words joined by single underscores, starting with a letter. */
  predicate SafeReason(s: string) {
    && |s| > 0 && 'a' <= s[0] <= 'z' && LowerOrDigit(s[|s| - 1])
    && (forall i :: 0 <= i < |s| ==> LowerOrDigit(s[i]) || s[i] == '_')
    && (forall i :: 0 < i < |s| && s[i] == '_' ==> LowerOrDigit(s[i - 1]))
  }

  const MAX_REASON: int := 128

  /** The reconciliation schema: numeric ranges and which fields each state carries. */
  predicate SchemaValid(r: Record) {
    var valid :=
      && 0 <= r.evidence.batchSequence <= 2_147_483_647
      && PolicyInRange(r.evidence.policy)
      && 0 <= r.attemptCount <= 100
      && (r.disposition.ManualIntervention? <==> r.manualReason.Some?)
      && (r.manualReason.Some? ==> r.manualReason.value == ATTEMPT_LIMIT_REACHED)
      && (r.discard.Some? ==> SafeReason(r.discard.value.reasonCode) && |r.discard.value.reasonCode| <= MAX_REASON)
      && FieldsOfState(r);
    valid
  }

  predicate PolicyInRange(p: Policy) {
    && 1 <= p.maxAttempts <= 100
    && 1 <= p.maxTotalAttempts <= 100
    && 1 <= p.baseDelaySeconds <= 3600
    && 1 <= p.maxDelaySeconds <= 86400
  }

  predicate FieldsOfState(r: Record) {
    match r.state
    case Pending =>
      r.nextAttemptAt.None? && Unacknowledged(r) && Undiscarded(r)
    case Sending =>
      r.lastAttemptAt.Some? && r.attemptCount >= 1 && r.nextAttemptAt.None? && Unacknowledged(r) && Undiscarded(r)
    case RetryWait =>
      && r.lastAttemptAt.Some? && r.nextAttemptAt.Some? && r.attemptCount >= 1
      && r.disposition.Automatic? && Unacknowledged(r) && Undiscarded(r)
    case Acknowledged =>
      && r.lastAttemptAt.Some? && r.acknowledgedAt.Some? && r.acknowledgement.Some?
      && r.attemptCount >= 1 && r.nextAttemptAt.None? && Undiscarded(r)
    case Discarded =>
      r.discardedAt.Some? && r.discard.Some? && r.nextAttemptAt.None? && Unacknowledged(r)
  }

  predicate Unacknowledged(r: Record) {
    r.acknowledgedAt.None? && r.acknowledgement.None?
  }

  predicate Undiscarded(r: Record) {
    r.discardedAt.None? && r.discard.None?
  }
}
