/** Exactly when an enqueue is admitted and a receipt accepted, in terms of the directory alone. */
module QueueDecisions {
  import opened Protocol
  import opened QueueRecord
  import opened QueueDisk
  import opened QueueJournal
  import opened QueueInvariant
  import opened QueueCommit
  import opened QueueReplay
  import opened QueueFence
  import opened QueueCapacity
  import opened QueueLimits
  import opened QueuePlans
  import opened QueueOperations

  // ----- The next sequence of a batch -----

  function BatchIds(d: Disk, b: BatchId): set<RecordId> {
    set id | id in d.records && SameBatch(d.records[id], b)
  }

  lemma BelowIsPart(d: Disk, b: BatchId, s: int)
    ensures Below(d, b, s) <= BatchIds(d, b) && |Below(d, b, s)| <= |BatchIds(d, b)|
  {
    Within(Below(d, b, s), BatchIds(d, b));
  }

  /** A batch of `n` records has the sequences below `n`. */
  lemma {:induction false} FirstSequences(d: Disk, b: BatchId, t: nat)
    requires PairsOk(d) && Filed(d) && Gapless(d) && t <= |BatchIds(d, b)|
    ensures forall u :: 0 <= u < t ==> Occupied(d, b, u)
    decreases t
  {
    if t > 0 {
      FirstSequences(d, b, t - 1);
      CountBelow(d, b, t - 1);
      BelowIsPart(d, b, t - 1);
      assert exists id :: id in BatchIds(d, b) && id !in Below(d, b, t - 1) by {
        if BatchIds(d, b) <= Below(d, b, t - 1) { Within(BatchIds(d, b), Below(d, b, t - 1)); }
      }
      var id :| id in BatchIds(d, b) && id !in Below(d, b, t - 1);
      assert FilledBelow(d, d.records[id]);
      if Sequence(d.records[id]) == t - 1 { assert At(d.records[id], b, t - 1); }
    }
  }

  /** and no other. */
  lemma NoLaterSequence(d: Disk, b: BatchId, id: RecordId)
    requires PairsOk(d) && Filed(d) && Gapless(d) && id in BatchIds(d, b)
    ensures 0 <= Sequence(d.records[id]) < |BatchIds(d, b)|
  {
    var s := Sequence(d.records[id]);
    assert FilledBelow(d, d.records[id]);
    forall u | 0 <= u < s + 1 ensures Occupied(d, b, u) { if u == s { assert At(d.records[id], b, s); } }
    CountBelow(d, b, s + 1);
    BelowIsPart(d, b, s + 1);
  }

  lemma ExpectedIsWithin(c: Config, d: Disk, b: BatchId)
    requires RecordsOk(c, d) && PairsOk(d) && CheckpointsOk(c, d)
    ensures 0 <= ExpectedNext(d, b) <= |BatchIds(d, b)|
    ensures b !in d.checkpoints ==> BatchIds(d, b) == {}
  {
    ConsistentFiled(c, d);
    if b in d.checkpoints {
      assert CheckpointOk(c, d, b);
      CountBelow(d, b, d.checkpoints[b].expectedNext);
      BelowIsPart(d, b, d.checkpoints[b].expectedNext);
    } else {
      forall id | id in d.records ensures Batch(d.records[id]) in d.checkpoints { assert RecordOk(c, d, id); }
      assert BatchIds(d, b) == {};
    }
  }

  /** The sequence a batch accepts next is the number of records it has. */
  lemma NextIsCount(c: Config, d: Disk, b: BatchId, s: int)
    requires RecordsOk(c, d) && PairsOk(d) && Gapless(d) && CheckpointsOk(c, d)
    ensures NextSequence(d, b, ExpectedNext(d, b), s) <==> s == |BatchIds(d, b)|
  {
    hide RecordsOk, PairsOk, Gapless, CheckpointsOk, Filed;
    var n := |BatchIds(d, b)|;
    ConsistentFiled(c, d);
    ExpectedIsWithin(c, d, b);
    FirstSequences(d, b, n);
    forall id | id in d.records && SameBatch(d.records[id], b) ensures Sequence(d.records[id]) < n {
      assert id in BatchIds(d, b);
      NoLaterSequence(d, b, id);
    }
    if 0 < n { LastOccupied(d, b, n - 1); }
  }

  lemma LastOccupied(d: Disk, b: BatchId, s: int)
    requires Occupied(d, b, s)
    ensures exists id :: id in d.records && SameBatch(d.records[id], b) && Sequence(d.records[id]) == s
  {
    var id :| id in d.records && At(d.records[id], b, s);
    assert SameBatch(d.records[id], b) && Sequence(d.records[id]) == s;
  }

  // ----- Enqueue -----

  function Newcomer(b: Binding, r: Record): Envelope { Envelope(b, r.evidence, r, None) }

  /** A record that may be handed in: never attempted, valid and small enough. */
  predicate Presentable(c: Config, b: Binding, r: Record) {
    ValidBinding(b) && r.state.Pending? && r.attemptCount == 0 && RecordValid(r) && c.recordBytes(r) <= c.maxRecordBytes
  }

  /** It is the next of its batch, which is this owner's and goes on. */
  predicate InTurn(d: Disk, b: Binding, r: Record) {
    && r.evidence.batchSequence == |BatchIds(d, r.evidence.batchId)|
    && forall id :: id in BatchIds(d, r.evidence.batchId) ==>
         d.records[id].owner == b && !d.records[id].record.state.Discarded?
  }

  /** There is a place for it, and the reserve of the directory that holds it is within the limit. */
  ghost predicate Affords(c: Config, d: Disk, e: Envelope) {
    && EnvelopeFits(c, e) && |d.records| < c.maxRecords
    && Reserved(c, Commit(d, EnqueueJournal(d, e), 3)) <= c.maxBytes
  }

  lemma TurnIsSequence(c: Config, d: Disk, b: Binding, r: Record)
    requires RecordsOk(c, d) && PairsOk(d) && Gapless(d) && CheckpointsOk(c, d)
    requires r.evidence.reconciliationId !in d.records
    ensures InTurn(d, b, r) <==> SequenceError(c, d, Newcomer(b, r)).None?
    ensures SequenceError(c, d, Newcomer(b, r)).Some? ==> SequenceError(c, d, Newcomer(b, r)) == Some(Conflict)
  {
    hide RecordsOk, PairsOk, Gapless, NextSequence, AllReadable, RecordValid;
    var e := Newcomer(b, r);
    NextIsCount(c, d, Batch(e), Sequence(e));
    ExpectedIsWithin(c, d, Batch(e));
    ReadableOf(c, d);
    TurnAdmits(c, d, b, r);
    assert Batch(e) in d.checkpoints ==> CheckpointOk(c, d, Batch(e));
  }

  lemma TurnAdmits(c: Config, d: Disk, b: Binding, r: Record)
    requires RecordsOk(c, d) && PairsOk(d) && Gapless(d)
    requires r.evidence.reconciliationId !in d.records
    ensures InTurn(d, b, r) ==> BatchAdmits(d, Newcomer(b, r))
    ensures BatchAdmits(d, Newcomer(b, r)) && r.evidence.batchSequence == |BatchIds(d, r.evidence.batchId)| ==>
              InTurn(d, b, r)
  {
    hide RecordsOk, PairsOk, Gapless, Filed;
    ConsistentFiled(c, d);
    var batch := r.evidence.batchId;
    if InTurn(d, b, r) {
      forall id | id in d.records && SameBatch(d.records[id], batch)
        ensures Sequence(d.records[id]) != r.evidence.batchSequence
      {
        assert id in BatchIds(d, batch);
        NoLaterSequence(d, batch, id);
      }
    }
  }

  lemma AffordsIsAdmission(c: Config, d: Disk, b: Binding, r: Record)
    requires Limits(c) && Consistent(c, d) && Presentable(c, b, r)
    requires r.evidence.reconciliationId !in d.records && SequenceError(c, d, Newcomer(b, r)).None?
    ensures var e := Newcomer(b, r);
            var required := Required(c, d, EnqueueJournal(d, e));
            Affords(c, d, e) <==>
            && EnvelopeFits(c, e) && |d.records| < c.maxRecords
            && required <= c.maxBytes && Reserved(c, d) <= c.maxBytes - required
  {
    hide RecordsOk, PairsOk, Gapless, CheckpointsOk, DonesOk, Reserved, Required, Commit, SequenceError, RecordValid;
    var e := Newcomer(b, r);
    if EnvelopeFits(c, e) && |d.records| < c.maxRecords {
      EnqueueJournalIsLegal(c, d, e);
      EnqueueReserve(c, d, EnqueueJournal(d, e));
      ReserveIsPositive(c, d);
    }
  }

  lemma ReserveIsPositive(c: Config, d: Disk)
    requires RecordsOk(c, d) && c.maxRecordBytes >= 0
    ensures Reserved(c, d) >= 0
  {
    hide Reserved, Overhead, Used, Unacked;
    ConsistentFits(c, d);
    UsedBound(c, d);
    Positive(|d.records|, c.maxRecordBytes);
    Positive(|Unacked(d)|, MAX_TRANSACTION_BYTES);
  }

  lemma Positive(n: nat, k: int)
    requires k >= 0
    ensures n * k >= 0
  {
  }

  /** The decision on an enqueue, whole. */
  lemma EnqueueExactly(c: Config, d: Disk, b: Binding, r: Record)
    requires Limits(c) && Consistent(c, d)
    ensures var a, id, e := EnqueuePlan(c, d, b, r), r.evidence.reconciliationId, Newcomer(b, r);
            && (a.Write? <==> Presentable(c, b, r) && id !in d.records && InTurn(d, b, r) && Affords(c, d, e))
            && (a.Write? ==> a.journal == EnqueueJournal(d, e) && LegalEnqueue(c, d, a.journal))
            && (a.Nothing? <==> Presentable(c, b, r) && Owns(d, b, id) && d.records[id].record.evidence == r.evidence)
            && (a == Refuse(UnsafeRecord) <==> !Presentable(c, b, r))
            && (a == Refuse(NotFound) <==> Presentable(c, b, r) && id in d.records && d.records[id].owner != b)
            && (a == Refuse(Conflict) <==>
                  && Presentable(c, b, r)
                  && if id in d.records then d.records[id].owner == b && d.records[id].record.evidence != r.evidence
                     else !InTurn(d, b, r))
            && (a == Refuse(QueueFull) <==>
                  Presentable(c, b, r) && id !in d.records && InTurn(d, b, r) && !Affords(c, d, e))
            && !a.Confirm?
  {
    hide RecordsOk, PairsOk, Gapless, CheckpointsOk, DonesOk, Reserved, Required, SequenceError, Affords, InTurn,
         RecordValid, ValidBinding, LegalEnqueue;
    var id := r.evidence.reconciliationId;
    if id in d.records {
      StoredIsReadable(c, d, id);
    } else if Presentable(c, b, r) {
      TurnIsSequence(c, d, b, r);
      if SequenceError(c, d, Newcomer(b, r)).None? {
        AffordsIsAdmission(c, d, b, r);
        var a := EnqueuePlan(c, d, b, r);
        if a.Write? { EnqueueJournalIsLegal(c, d, Newcomer(b, r)); }
      }
    }
  }

  /** On a solvent directory a record that is presentable, new, in turn and affordable is stored with
      its checkpoint, unless the operation is interrupted or the journal itself is oversized. */
  lemma AdmittedIsStored(c: Config, d: Disk, f: Fault, d': Disk, b: Binding, record: Record, r: Status)
    requires Limits(c) && Solvent(c, d) && f.after >= 7
    requires Commits(c, d, f, d', EnqueuePlan(c, Replay(c, d), b, record), r)
    requires var m, e := Replay(c, d), Newcomer(b, record);
             && Presentable(c, b, record) && Id(e) !in m.records && InTurn(m, b, record) && Affords(c, m, e)
             && c.journalBytes(EnqueueJournal(m, e)) <= MAX_TRANSACTION_BYTES
    ensures var m, e := Replay(c, d), Newcomer(b, record);
            r.Done? && d' == Commit(m, EnqueueJournal(m, e), 3) && Id(e) in d'.records && d'.records[Id(e)] == e
  {
    hide Solvent, Funded, Recoverable, Replay, Consistent, EnqueuePlan, Presentable, InTurn, Affords, Fits, Replayed,
         RoomForCommit, Limits;
    SolventMeansFunded(c, d);
    EnqueueExactly(c, Replay(c, d), b, record);
    EnqueueIsFunded(c, Replay(c, d), b, record);
  }

  lemma StoredIsReadable(c: Config, d: Disk, id: RecordId)
    requires RecordsOk(c, d) && id in d.records
    ensures ReadRecord(c, d, id) == Ok(d.records[id]) && d.records[id].evidenceHash == d.records[id].record.evidence
  {
    assert RecordOk(c, d, id);
  }

  // ----- Acknowledge -----

  /** A receipt only the uploader can make, for this tenant and client, verified at a known time
      and not before it was issued. */
  predicate Proves(v: VerifiedReceipt, b: Binding, r: Record) {
    && v.sealed && v.receipt.tenant == b.tenant && v.receipt.clientId == r.evidence.clientId
    && v.verifiedAt != ZERO_TIME && v.receipt.ack.acknowledgedAt <= v.verifiedAt
  }

  /** It acknowledges this record, after the attempt it answers. */
  predicate Answers(v: VerifiedReceipt, id: RecordId, r: Record) {
    && v.receipt.ack.reconciliationId == id && v.receipt.ack.evidenceHash == r.evidence
    && r.lastAttemptAt.Some? && r.lastAttemptAt.value <= v.receipt.ack.acknowledgedAt
  }

  /** The record as the receipt leaves it. */
  function AckedBy(r: Record, v: VerifiedReceipt): Record {
    r.(state := Acknowledged, acknowledgement := Some(v.receipt.ack),
       acknowledgedAt := Some(v.receipt.ack.acknowledgedAt))
  }

  predicate Acceptable(c: Config, d: Disk, b: Binding, id: RecordId, v: VerifiedReceipt) {
    && Owns(d, b, id)
    && var r := d.records[id].record;
    && r.state.Sending? && Proves(v, b, r) && Answers(v, id, r) && c.recordBytes(AckedBy(r, v)) <= c.maxRecordBytes
  }

  predicate Repeated(d: Disk, b: Binding, id: RecordId, v: VerifiedReceipt) {
    && Owns(d, b, id)
    && var r := d.records[id].record;
    && r.state.Acknowledged? && r.acknowledgement == Some(v.receipt.ack) && Proves(v, b, r)
  }

  lemma AnsweredIsValid(r: Record, id: RecordId, v: VerifiedReceipt)
    requires RecordValid(r) && r.state.Sending? && r.evidence.reconciliationId == id && Answers(v, id, r)
    ensures RecordValid(AckedBy(r, v)) && AckedBy(r, v) == Acked(r, v.receipt.ack)
  {
  }

  /** The decision on a receipt, whole: committed exactly if it is acceptable, confirmed exactly if
      it is the one already stored. */
  lemma AckExactly(c: Config, d: Disk, b: Binding, id: RecordId, v: VerifiedReceipt)
    requires Consistent(c, d)
    ensures var a := AckPlan(c, d, b, id, v);
            && (a.Write? <==> Acceptable(c, d, b, id, v))
            && (a.Write? ==>
                  && var e := d.records[id].(record := AckedBy(d.records[id].record, v));
                  && Batch(e) in d.checkpoints && a.journal == AckJournal(d.records[id], d.checkpoints[Batch(e)], e)
                  && Id(e) == id && LegalAck(c, d, a.journal))
            && (a.Confirm? <==> Repeated(d, b, id, v))
            && (a.Confirm? ==> a.envelope == d.records[id])
            && (a == Refuse(NotFound) <==> v.sealed && !Owns(d, b, id))
            && (a == Refuse(Conflict) <==>
                  v.sealed && Owns(d, b, id) && d.records[id].record.state.Acknowledged? && !Repeated(d, b, id, v))
            && (a == Refuse(UnsafeRecord) <==>
                  && Owns(d, b, id)
                  && var r := d.records[id].record;
                  && r.state.Sending? && Proves(v, b, r) && Answers(v, id, r)
                  && c.recordBytes(AckedBy(r, v)) > c.maxRecordBytes)
            && (a.Refuse? ==> a.error in {NotFound, Conflict, UnsafeRecord, Refused})
            && !a.Nothing?
  {
    hide RecordsOk, PairsOk, Gapless, CheckpointsOk, DonesOk, RecordValid, LegalAck;
    ReadOfOwned(c, d, b, id);
    AckIsLawful(c, d, b, id, v);
    if Owns(d, b, id) && d.records[id].record.state.Sending? {
      FlyingIsHead(c, d, id);
      if Answers(v, id, d.records[id].record) { AnsweredIsValid(d.records[id].record, id, v); }
    }
    if Owns(d, b, id) { StoredIsReadable(c, d, id); }
  }

  lemma FlyingIsHead(c: Config, d: Disk, id: RecordId)
    requires RecordsOk(c, d) && CheckpointsOk(c, d) && id in d.records && d.records[id].record.state.Sending?
    ensures var e := d.records[id];
            && Id(e) == id && RecordValid(e.record) && e.record.lastAttemptAt.Some?
            && Batch(e) in d.checkpoints && Sequence(e) == d.checkpoints[Batch(e)].expectedNext
            && ReadCheckpoint(c, d, Batch(e)) == Ok(d.checkpoints[Batch(e)])
  {
    assert RecordOk(c, d, id);
    assert CheckpointOk(c, d, Batch(d.records[id]));
  }

  /** On a solvent directory an acceptable receipt whose new files can be read back is stored,
      unless the operation is interrupted. */
  lemma AcceptableIsStored(c: Config, d: Disk, f: Fault, d': Disk, b: Binding, id: RecordId, v: VerifiedReceipt,
                           r: Status, framing: nat, entry: nat)
    requires Limits(c) && Encodes(c, framing, entry) && Solvent(c, d) && f.after >= 7
    requires Commits(c, d, f, d', AckPlan(c, Replay(c, d), b, id, v), r)
    requires Acceptable(c, Replay(c, d), b, id, v)
    ensures Owns(Replay(c, d), b, id)
    ensures var was := Replay(c, d).records[id];
            var now := was.(record := AckedBy(was.record, v));
            var cp := Replay(c, d).checkpoints;
            && Batch(was) in cp
            && (r.Done? <==> EnvelopeFits(c, now) && CheckpointFits(c, Advanced(cp[Batch(was)], now)))
            && (r.Done? ==> id in d'.records && d'.records[id] == now
                            && d'.checkpoints == cp[Batch(was) := Advanced(cp[Batch(was)], now)])
  {
    hide Solvent, Funded, Recoverable, Replay, Consistent, AckPlan, Acceptable, Commits, AckedBy, Encodes, Limits;
    SolventMeansFunded(c, d);
    AckExactly(c, Replay(c, d), b, id, v);
    AckAlwaysCommits(c, d, f, d', b, id, v, r, framing, entry);
    AcceptableIsOwned(c, Replay(c, d), b, id, v);
  }

  lemma AcceptableIsOwned(c: Config, d: Disk, b: Binding, id: RecordId, v: VerifiedReceipt)
    requires Acceptable(c, d, b, id, v)
    ensures Owns(d, b, id)
  {
  }
}
