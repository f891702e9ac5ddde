/** What holds of the queue directory between operations, and why each kind of write keeps it. */
module QueueInvariant {
  import opened Protocol
  import opened QueueDisk
  import opened QueueJournal

  predicate At(e: Envelope, b: BatchId, s: int) {
    Batch(e) == b && Sequence(e) == s
  }

  predicate Occupied(d: Disk, b: BatchId, s: int) {
    exists id :: id in d.records && At(d.records[id], b, s)
  }

  /** A hold marks a record that was sent and is neither in flight nor acknowledged. */
  predicate HoldOk(e: Envelope) {
    e.hold.Some? ==> e.record.attemptCount > 0 && (e.record.state.Pending? || e.record.state.Discarded?)
  }

  /** A record against its checkpoint: acknowledged exactly below the next expected sequence,
      and attempted but not acknowledged only at that sequence. */
  predicate PlacedOk(e: Envelope, cp: Checkpoint) {
    var placed :=
      && (e.record.state.Acknowledged? <==> Sequence(e) < cp.expectedNext)
      && (e.record.state.Acknowledged? ==> Sequence(e) in cp.completed && cp.completed[Sequence(e)] == EntryOf(e))
      && (e.record.attemptCount > 0 && !e.record.state.Acknowledged? ==> Sequence(e) == cp.expectedNext);
    placed
  }

  predicate RecordOk(c: Config, d: Disk, id: RecordId)
    requires id in d.records
  {
    var e := d.records[id];
    var ok :=
      && Readable(c, id, e) && HoldOk(e)
      && Batch(e) in d.checkpoints && PlacedOk(e, d.checkpoints[Batch(e)])
      && JournalName(EnqueueOp, id) in d.done
      && (e.record.state.Acknowledged? <==> JournalName(AckOp, id) in d.done);
    ok
  }

  /** Two records of a batch: one owner, distinct sequences, nothing after a discarded one. */
  predicate PairOk(e: Envelope, g: Envelope) {
    Batch(e) == Batch(g) ==>
      && e.owner == g.owner
      && (Sequence(e) == Sequence(g) ==> Id(e) == Id(g))
      && (e.record.state.Discarded? ==> Sequence(g) <= Sequence(e))
  }

  /** How many sequences a batch with this checkpoint has at least: it is never empty. */
  function Reach(cp: Checkpoint): int { if cp.expectedNext > 1 then cp.expectedNext else 1 }

  predicate CheckpointOk(c: Config, d: Disk, b: BatchId)
    requires b in d.checkpoints
  {
    && CheckpointReadable(c, b, d.checkpoints[b])
    && (forall s :: 0 <= s < Reach(d.checkpoints[b]) ==> Occupied(d, b, s))
  }

  predicate DoneOk(c: Config, d: Disk, n: JournalName)
    requires n in d.done
  {
    var ok :=
      n == NameOf(d.done[n]) && n.recordId in d.records && VerifyError(c, d, d.done[n]).None?;
    ok
  }

  predicate RecordsOk(c: Config, d: Disk) { forall id :: id in d.records ==> RecordOk(c, d, id) }
  predicate PairsOk(d: Disk) {
    forall i, j :: i in d.records && j in d.records ==> PairOk(d.records[i], d.records[j])
  }
  predicate Gapless(d: Disk) {
    forall id :: id in d.records ==> FilledBelow(d, d.records[id])
  }
  predicate FilledBelow(d: Disk, e: Envelope) {
    forall s :: 0 <= s < Sequence(e) ==> Occupied(d, Batch(e), s)
  }
  predicate CheckpointsOk(c: Config, d: Disk) { forall b :: b in d.checkpoints ==> CheckpointOk(c, d, b) }
  predicate DonesOk(c: Config, d: Disk) { forall n :: n in d.done ==> DoneOk(c, d, n) }

  /** The invariant of a directory with no journal in progress. */
  predicate Consistent(c: Config, d: Disk) {
    var consistent :=
      && d.pending == map[]
      && |d.records| <= c.maxRecords
      && RecordsOk(c, d) && PairsOk(d) && Gapless(d) && CheckpointsOk(c, d) && DonesOk(c, d);
    consistent
  }

  /** Head-of-line safety: whatever was attempted and not acknowledged is next in its batch,
      so a batch never has two such records and none overtakes an unacknowledged one. */
  lemma HeadOfLine(c: Config, d: Disk, i: RecordId, j: RecordId)
    requires Consistent(c, d) && i in d.records && j in d.records && Batch(d.records[i]) == Batch(d.records[j])
    requires d.records[i].record.attemptCount > 0 && !d.records[i].record.state.Acknowledged?
    ensures Sequence(d.records[i]) == d.checkpoints[Batch(d.records[i])].expectedNext
    ensures Sequence(d.records[j]) < Sequence(d.records[i]) ==> d.records[j].record.state.Acknowledged?
    ensures Sequence(d.records[j]) > Sequence(d.records[i]) ==> d.records[j].record.attemptCount == 0
    ensures d.records[j].record.attemptCount > 0 && !d.records[j].record.state.Acknowledged? ==> i == j
  {
    assert RecordOk(c, d, i) && RecordOk(c, d, j) && PairOk(d.records[i], d.records[j]);
  }

  // ----- Rewriting one record -----

  function WithRecord(d: Disk, e: Envelope): Disk {
    d.(records := d.records[Id(e) := e])
  }

  /** `e` replaces the record of the same evidence and owner. */
  predicate Replaces(d: Disk, e: Envelope) {
    && Id(e) in d.records
    && var was := d.records[Id(e)];
       e.record.evidence == was.record.evidence && e.owner == was.owner && e.evidenceHash == was.evidenceHash
  }

  predicate LastOfBatch(d: Disk, e: Envelope) {
    forall j :: j in d.records && SameBatch(d.records[j], Batch(e)) ==> Sequence(d.records[j]) <= Sequence(e)
  }

  /** `e` may replace a record without touching the checkpoint. */
  predicate MayRewrite(c: Config, d: Disk, e: Envelope) {
    var may :=
      && Replaces(d, e)
      && Readable(c, Id(e), e) && HoldOk(e)
      && !d.records[Id(e)].record.state.Acknowledged? && !e.record.state.Acknowledged?
      && Batch(e) in d.checkpoints
      && (e.record.attemptCount > 0 ==> Sequence(e) == d.checkpoints[Batch(e)].expectedNext)
      && (e.record.state.Discarded? ==> LastOfBatch(d, e));
    may
  }

  lemma OccupiedAfterRewrite(d: Disk, e: Envelope, b: BatchId, s: int)
    requires Replaces(d, e) && Occupied(d, b, s)
    ensures Occupied(WithRecord(d, e), b, s)
  {
    var id :| id in d.records && At(d.records[id], b, s);
    assert At(WithRecord(d, e).records[id], b, s);
  }

  lemma RewriteRecord(c: Config, d: Disk, e: Envelope, id: RecordId)
    requires MayRewrite(c, d, e) && id in d.records && RecordOk(c, d, Id(e)) && RecordOk(c, d, id)
    ensures RecordOk(c, WithRecord(d, e), id)
  {
  }

  lemma RewritePair(d: Disk, e: Envelope, i: RecordId, j: RecordId)
    requires Replaces(d, e) && (e.record.state.Discarded? ==> LastOfBatch(d, e))
    requires i in d.records && j in d.records && PairOk(d.records[i], d.records[j])
    ensures PairOk(WithRecord(d, e).records[i], WithRecord(d, e).records[j])
  {
    assert SameBatch(d.records[j], Batch(e)) <==> Batch(d.records[j]) == Batch(e);
  }

  lemma RewriteFilled(d: Disk, e: Envelope, g: Envelope)
    requires Replaces(d, e) && FilledBelow(d, g)
    ensures FilledBelow(WithRecord(d, e), g)
  {
    forall s | 0 <= s < Sequence(g) ensures Occupied(WithRecord(d, e), Batch(g), s) {
      OccupiedAfterRewrite(d, e, Batch(g), s);
    }
  }

  lemma RewriteCheckpoint(c: Config, d: Disk, e: Envelope, b: BatchId)
    requires Replaces(d, e) && b in d.checkpoints && CheckpointOk(c, d, b)
    ensures CheckpointOk(c, WithRecord(d, e), b)
  {
    forall s | 0 <= s < Reach(d.checkpoints[b]) ensures Occupied(WithRecord(d, e), b, s) {
      OccupiedAfterRewrite(d, e, b, s);
    }
  }

  lemma RewriteDone(c: Config, d: Disk, e: Envelope, n: JournalName)
    requires MayRewrite(c, d, e) && n in d.done && DoneOk(c, d, n) && RecordOk(c, d, Id(e))
    ensures DoneOk(c, WithRecord(d, e), n)
  {
  }

  lemma RewriteRecords(c: Config, d: Disk, e: Envelope)
    requires MayRewrite(c, d, e) && RecordsOk(c, d)
    ensures RecordsOk(c, WithRecord(d, e))
  {
    forall id | id in d.records ensures RecordOk(c, WithRecord(d, e), id) { RewriteRecord(c, d, e, id); }
  }

  lemma RewritePlaces(c: Config, d: Disk, e: Envelope)
    requires Replaces(d, e) && (e.record.state.Discarded? ==> LastOfBatch(d, e))
    requires PairsOk(d) && Gapless(d) && CheckpointsOk(c, d)
    ensures PairsOk(WithRecord(d, e)) && Gapless(WithRecord(d, e)) && CheckpointsOk(c, WithRecord(d, e))
  {
    var d' := WithRecord(d, e);
    forall i, j | i in d.records && j in d.records ensures PairOk(d'.records[i], d'.records[j]) {
      RewritePair(d, e, i, j);
    }
    forall id | id in d.records ensures FilledBelow(d', d'.records[id]) { RewriteFilled(d, e, d.records[id]); }
    forall b | b in d.checkpoints ensures CheckpointOk(c, d', b) { RewriteCheckpoint(c, d, e, b); }
  }

  lemma RewriteDones(c: Config, d: Disk, e: Envelope)
    requires MayRewrite(c, d, e) && DonesOk(c, d) && RecordOk(c, d, Id(e))
    ensures DonesOk(c, WithRecord(d, e))
  {
    forall n | n in d.done ensures DoneOk(c, WithRecord(d, e), n) { RewriteDone(c, d, e, n); }
  }

  /** Claims, failures, holds, discards, manual retries and restart recovery keep the invariant. */
  lemma RewriteKeeps(c: Config, d: Disk, e: Envelope)
    requires Consistent(c, d) && MayRewrite(c, d, e)
    ensures Consistent(c, WithRecord(d, e))
  {
    assert WithRecord(d, e).records.Keys == d.records.Keys;
    RewriteRecords(c, d, e);
    RewritePlaces(c, d, e);
    RewriteDones(c, d, e);
  }
}
