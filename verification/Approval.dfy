/** Approval records and the compare-and-swap that resolves them.

    The revision a resolver presents is the document it read: the digest of a document is
    modelled by the document. */
module Approval {
  import opened Protocol
  import T = Timestamp

  datatype Status = Open | Approved | Denied | Expired | Cancelled

  /** A timestamp as written and as parsed. */
  datatype Time = Time(spelling: string, stamp: T.Stamp)

  /** What a transition may never change. */
  datatype Creation = Creation(
    schemaVersion: string,
    approvalId: string,
    actionId: string,
    correlationId: string,
    scopeHash: string,
    requestedAt: Time,
    expiresAt: Time,
    requesterRef: string,
    decisionId: string,
    auditRef: string,
    extensions: Option<string>)

  datatype Document = Document(
    creation: Creation,
    status: Status,
    reviewerRef: Option<string>,
    decidedAt: Option<Time>,
    auditRef: Option<string>,
    decisionId: Option<string>,
    reasonCode: Option<string>,
    idempotencyKey: Option<string>)

  datatype Code = SchemaInvalid | ExpiryOrder | ApprovalExpired | IdempotencyConflict | InvalidDecision

  datatype Verdict = Applied | Idempotent | Rejected(code: Code)

  // ----- Documents -----

  /** The schema's conditions: a pending record carries no resolution, any other carries all of
      it, and a reviewer exactly if somebody approved or denied. */
  predicate StructureValid(d: Document) {
    && T.Valid(d.creation.requestedAt.stamp) && T.Valid(d.creation.expiresAt.stamp)
    && (d.decidedAt.Some? ==> T.Valid(d.decidedAt.value.stamp))
    && (if d.status.Open? then
          && d.reviewerRef.None? && d.decidedAt.None? && d.auditRef.None?
          && d.decisionId.None? && d.reasonCode.None? && d.idempotencyKey.None?
        else
          && d.decidedAt.Some? && d.auditRef.Some? && d.decisionId.Some? && d.reasonCode.Some?
          && d.idempotencyKey.Some?)
    && (d.status.Approved? || d.status.Denied? <==> d.reviewerRef.Some?)
  }

  predicate Earlier(a: Time, b: Time) { T.Order(a.stamp, b.stamp) < 0 }

  function DocumentError(d: Document): (e: Option<Code>) {
    if !StructureValid(d) then Some(SchemaInvalid)
    else if !Earlier(d.creation.requestedAt, d.creation.expiresAt) then Some(ExpiryOrder)
    else if d.decidedAt.None? then None
    else if d.status.Expired? then
      if Earlier(d.decidedAt.value, d.creation.expiresAt) then Some(ExpiryOrder) else None
    else if Earlier(d.decidedAt.value, d.creation.requestedAt) || !Earlier(d.decidedAt.value, d.creation.expiresAt) then
      Some(ApprovalExpired)
    else None
  }

  // ----- Transitions -----

  predicate SameTerminal(a: Document, b: Document) {
    && a.status == b.status && a.decisionId == b.decisionId && a.reasonCode == b.reasonCode
    && a.idempotencyKey == b.idempotencyKey && a.reviewerRef == b.reviewerRef
  }

  function Transition(current: Document, proposed: Document, expected: Document, now: T.Stamp): (v: Verdict) {
    if DocumentError(current).Some? then Rejected(DocumentError(current).value)
    else if !StructureValid(proposed) then Rejected(SchemaInvalid)
    else if current.creation != proposed.creation then Rejected(IdempotencyConflict)
    else if expected != current then Rejected(IdempotencyConflict)
    else if !current.status.Open? then
      if SameTerminal(current, proposed) then Idempotent else Rejected(IdempotencyConflict)
    else if DocumentError(proposed).Some? then Rejected(DocumentError(proposed).value)
    else if current == proposed then Idempotent
    else if proposed.status.Open? then Rejected(IdempotencyConflict)
    else if !T.Valid(now) then Rejected(SchemaInvalid)
    else if T.Order(proposed.decidedAt.value.stamp, now) > 0 then Rejected(InvalidDecision)
    else if proposed.status.Expired? then
      if T.Order(now, proposed.creation.expiresAt.stamp) < 0 then Rejected(InvalidDecision) else Applied
    else if T.Order(now, proposed.creation.expiresAt.stamp) >= 0 then Rejected(ApprovalExpired)
    else Applied
  }

  // ----- Any number of resolvers against one stored record -----

  /** A resolver's call: what it proposes, the revision it read at some earlier time, its clock. */
  datatype Attempt = Attempt(proposed: Document, expected: Document, now: T.Stamp)

  function Try(record: Document, a: Attempt): Verdict {
    Transition(record, a.proposed, a.expected, a.now)
  }

  /** The stored record after the attempts, in the order the store serialised them. */
  function After(record: Document, attempts: seq<Attempt>): Document
    decreases |attempts|
  {
    if attempts == [] then record
    else After(if Try(record, attempts[0]).Applied? then attempts[0].proposed else record, attempts[1..])
  }

  function Wins(record: Document, attempts: seq<Attempt>): nat
    decreases |attempts|
  {
    if attempts == [] then 0
    else if Try(record, attempts[0]).Applied? then 1 + Wins(attempts[0].proposed, attempts[1..])
    else Wins(record, attempts[1..])
  }

  /** A decision made in time, or an expiry recorded after the deadline. */
  ghost predicate Timely(d: Document, now: T.Stamp) {
    && StructureValid(d) && T.Valid(now) && d.decidedAt.Some?
    && var requested, decided, deadline :=
         T.Instant(d.creation.requestedAt.stamp), T.Instant(d.decidedAt.value.stamp),
         T.Instant(d.creation.expiresAt.stamp);
       && decided <= T.Instant(now)
       && (if d.status.Expired? then deadline <= decided else requested <= decided && T.Instant(now) < deadline)
  }

  lemma AppliedIsTimely(current: Document, proposed: Document, expected: Document, now: T.Stamp)
    requires Transition(current, proposed, expected, now).Applied?
    ensures current.status.Open? && !proposed.status.Open?
    ensures proposed.creation == current.creation && expected == current
    ensures DocumentError(proposed).None? && Timely(proposed, now)
  {
    var c, decided := proposed.creation, proposed.decidedAt.value.stamp;
    T.OrderIsExact(c.requestedAt.stamp, c.expiresAt.stamp);
    T.OrderIsExact(decided, now);
    T.OrderIsExact(decided, c.expiresAt.stamp);
    T.OrderIsExact(decided, c.requestedAt.stamp);
    T.OrderIsExact(now, c.expiresAt.stamp);
  }

  lemma {:induction false} ResolvedStays(record: Document, attempts: seq<Attempt>)
    requires !record.status.Open?
    ensures After(record, attempts) == record && Wins(record, attempts) == 0
    decreases |attempts|
  {
    if attempts != [] {
      if Try(record, attempts[0]).Applied? {
        AppliedIsTimely(record, attempts[0].proposed, attempts[0].expected, attempts[0].now);
      }
      ResolvedStays(record, attempts[1..]);
    }
  }

  /** Whatever the resolvers do and in whatever order, at most one wins; it wins against the
      record everybody started from, decides in time, and changes nothing immutable. */
  lemma {:induction false} AtMostOneWins(record: Document, attempts: seq<Attempt>)
    ensures Wins(record, attempts) <= 1
    ensures Wins(record, attempts) == 0 ==> After(record, attempts) == record
    ensures Wins(record, attempts) == 1 ==>
              exists i :: 0 <= i < |attempts| && Decides(record, attempts[i])
                          && After(record, attempts) == attempts[i].proposed
    ensures After(record, attempts).creation == record.creation
    decreases |attempts|
  {
    if attempts != [] {
      var a := attempts[0];
      if Try(record, a).Applied? {
        AppliedIsTimely(record, a.proposed, a.expected, a.now);
        ResolvedStays(a.proposed, attempts[1..]);
        assert Decides(record, attempts[0]);
      } else {
        AtMostOneWins(record, attempts[1..]);
        if Wins(record, attempts) == 1 {
          var i :| 0 <= i < |attempts[1..]| && Decides(record, attempts[1..][i])
                   && After(record, attempts[1..]) == attempts[1..][i].proposed;
          assert attempts[i + 1] == attempts[1..][i];
        }
      }
    }
  }

  /** A winning attempt: it read the pending record and resolved it in time. */
  ghost predicate Decides(record: Document, a: Attempt) {
    record.status.Open? && a.expected == record && Try(record, a).Applied? && Timely(a.proposed, a.now)
  }

  /** The other direction: a valid, timely resolution of the record it read is applied. */
  lemma TimelyIsApplied(current: Document, proposed: Document, now: T.Stamp)
    requires DocumentError(current).None? && current.status.Open?
    requires StructureValid(proposed) && !proposed.status.Open? && proposed.creation == current.creation
    ensures Transition(current, proposed, current, now).Applied? <==> Timely(proposed, now)
  {
    var c, decided := proposed.creation, proposed.decidedAt.value.stamp;
    T.OrderIsExact(c.requestedAt.stamp, c.expiresAt.stamp);
    T.OrderIsExact(decided, c.expiresAt.stamp);
    T.OrderIsExact(decided, c.requestedAt.stamp);
    if T.Valid(now) {
      T.OrderIsExact(decided, now);
      T.OrderIsExact(now, c.expiresAt.stamp);
    }
  }

  // ----- The verdict, whole -----

  /** A record whose times are in order: resolved before its deadline, or expired after it. */
  ghost predicate Coherent(d: Document) {
    && StructureValid(d)
    && var requested, deadline := T.Instant(d.creation.requestedAt.stamp), T.Instant(d.creation.expiresAt.stamp);
    && requested < deadline
    && (d.decidedAt.Some? ==>
          var decided := T.Instant(d.decidedAt.value.stamp);
          if d.status.Expired? then deadline <= decided else requested <= decided < deadline)
  }

  lemma CoherentExactly(d: Document)
    ensures DocumentError(d).None? <==> Coherent(d)
  {
    if StructureValid(d) {
      T.OrderIsExact(d.creation.requestedAt.stamp, d.creation.expiresAt.stamp);
      if d.decidedAt.Some? {
        T.OrderIsExact(d.decidedAt.value.stamp, d.creation.expiresAt.stamp);
        T.OrderIsExact(d.decidedAt.value.stamp, d.creation.requestedAt.stamp);
      }
    }
  }

  /** The same resolution once more, with its time and its audit reference perhaps regenerated. */
  predicate Repeats(current: Document, proposed: Document) {
    proposed.(decidedAt := current.decidedAt, auditRef := current.auditRef) == current
  }

  /** The caller read the current record, and presents a record of the same creation. */
  ghost predicate Considered(current: Document, proposed: Document, expected: Document) {
    Coherent(current) && StructureValid(proposed) && proposed.creation == current.creation && expected == current
  }

  /** Applied exactly if the pending record that was read is resolved in time; idempotent exactly if
      the pending record is presented unchanged or its resolution is repeated; refused otherwise. */
  lemma VerdictExactly(current: Document, proposed: Document, expected: Document, now: T.Stamp)
    ensures var v := Transition(current, proposed, expected, now);
            && (v.Applied? <==>
                  && Considered(current, proposed, expected)
                  && current.status.Open? && !proposed.status.Open? && Timely(proposed, now))
            && (v.Idempotent? <==>
                  && Considered(current, proposed, expected)
                  && if current.status.Open? then proposed == current else Repeats(current, proposed))
  {
    hide StructureValid, Timely, Coherent, Earlier;
    CoherentExactly(current);
    CoherentExactly(proposed);
    if Transition(current, proposed, expected, now).Applied? {
      AppliedIsTimely(current, proposed, expected, now);
      ResolvedParts(proposed);
    }
    if DocumentError(current).None? && StructureValid(proposed) && proposed.creation == current.creation {
      if current.status.Open? && !proposed.status.Open? { TimelyIsApplied(current, proposed, now); }
    }
  }

  lemma ResolvedParts(d: Document)
    requires DocumentError(d).None?
    ensures StructureValid(d)
  {
  }
}
