/** The two journalled operations, enqueue and acknowledge: which journals a consistent
    directory may carry, the directories their commit passes through, and that the last of
    those is consistent again. */
module QueueCommit {
  import opened Protocol
  import opened QueueRecord
  import opened QueueDisk
  import opened QueueJournal
  import opened QueueInvariant

  function ExpectedNext(d: Disk, b: BatchId): int {
    if b in d.checkpoints then d.checkpoints[b].expectedNext else 0
  }

  /** The journal `enqueue` writes for a record that directory `d` admits. */
  predicate LegalEnqueue(c: Config, d: Disk, j: Journal) {
    var e := j.newEnvelope;
    var legal :=
      && EnqueueShape(c, j) && WellNamed(j) && SoundRecord(c, e) && EnvelopeFits(c, e)
      && Id(e) !in d.records && |d.records| < c.maxRecords
      && BatchAdmits(d, e)
      && NextSequence(d, Batch(e), ExpectedNext(d, Batch(e)), Sequence(e))
      && j.oldCheckpoint == (if Batch(e) in d.checkpoints then Some(d.checkpoints[Batch(e)]) else None)
      && j.newCheckpoint == (if Batch(e) in d.checkpoints then d.checkpoints[Batch(e)] else EmptyCheckpoint(Batch(e)))
      && CheckpointFits(c, j.newCheckpoint);
    legal
  }

  /** The journal `ack` writes for the record in flight at the head of its batch. */
  predicate LegalAck(c: Config, d: Disk, j: Journal) {
    var e := j.newEnvelope;
    var legal :=
      && j.operation.AckOp? && WellNamed(j) && SoundRecord(c, e)
      && Id(e) in d.records && Batch(e) in d.checkpoints
      && var was := d.records[Id(e)];
      && was.record.state.Sending? && e.record.acknowledgement.Some?
      && e == was.(record := Acked(was.record, e.record.acknowledgement.value))
      && Sequence(e) == d.checkpoints[Batch(e)].expectedNext
      && j.oldRecord == Some(was)
      && j.oldCheckpoint == Some(d.checkpoints[Batch(e)])
      && j.newCheckpoint == Advanced(d.checkpoints[Batch(e)], e);
    legal
  }

  predicate Legal(c: Config, d: Disk, j: Journal) {
    if j.operation.EnqueueOp? then LegalEnqueue(c, d, j) else LegalAck(c, d, j)
  }

  /** Both new files are small enough to be read back. */
  predicate Fits(c: Config, j: Journal) {
    EnvelopeFits(c, j.newEnvelope) && CheckpointFits(c, j.newCheckpoint)
  }

  function PutEnvelope(d: Disk, j: Journal): map<RecordId, Envelope> { d.records[j.recordName := j.newEnvelope] }
  function PutPrefix(d: Disk,
                     j: Journal): map<BatchId, Checkpoint> { d.checkpoints[j.checkpointName := j.newCheckpoint] }

  /** The directory after `k` durable steps of a commit that has written its journal: an enqueue
      writes the checkpoint first, an acknowledgement the record first, and the third step
      retains the journal. */
  function Commit(d: Disk, j: Journal, k: nat): Disk {
    var first, second := k >= 1, k >= 2;
    Disk(
      if (if j.operation.EnqueueOp? then second else first) then PutEnvelope(d, j) else d.records,
      if (if j.operation.EnqueueOp? then first else second) then PutPrefix(d, j) else d.checkpoints,
      if k >= 3 then d.pending else d.pending[NameOf(j) := j],
      if k >= 3 then d.done[NameOf(j) := j] else d.done,
      d.quarantine)
  }

  // ----- Sequences count records -----

  function Below(d: Disk, b: BatchId, s: int): set<RecordId> {
    set id | id in d.records && SameBatch(d.records[id], b) && Sequence(d.records[id]) < s
  }

  /** Records are filed under their own identifier, at a sequence that exists. */
  predicate Filed(d: Disk) {
    forall id :: id in d.records ==> Id(d.records[id]) == id && Sequence(d.records[id]) >= 0
  }

  lemma ConsistentFiled(c: Config, d: Disk)
    requires RecordsOk(c, d)
    ensures Filed(d)
  {
    forall id | id in d.records ensures Id(d.records[id]) == id && Sequence(d.records[id]) >= 0 {
      assert RecordOk(c, d, id);
    }
  }

  lemma {:induction false} CountBelow(d: Disk, b: BatchId, s: nat)
    requires PairsOk(d) && Filed(d) && (forall t :: 0 <= t < s ==> Occupied(d, b, t))
    ensures |Below(d, b, s)| == s
  {
    if s == 0 {
      assert Below(d, b, 0) == {};
    } else {
      CountBelow(d, b, s - 1);
      assert Occupied(d, b, s - 1);
      var id :| id in d.records && At(d.records[id], b, s - 1);
      OneAt(d, b, s, id);
    }
  }

  lemma OneAt(d: Disk, b: BatchId, s: nat, id: RecordId)
    requires PairsOk(d) && Filed(d) && s > 0 && id in d.records && At(d.records[id], b, s - 1)
    ensures Below(d, b, s) == Below(d, b, s - 1) + {id} && id !in Below(d, b, s - 1)
  {
    forall j | j in Below(d, b, s) && j !in Below(d, b, s - 1) ensures j == id {
      assert PairOk(d.records[j], d.records[id]);
    }
  }

  /** A sequence with no gap below it stays within the record quota. */
  lemma HeadWithinQuota(c: Config, d: Disk, id: RecordId)
    requires Filed(d) && PairsOk(d) && |d.records| <= c.maxRecords
    requires id in d.records && FilledBelow(d, d.records[id])
    ensures Sequence(d.records[id]) + 1 <= c.maxRecords
  {
    var e := d.records[id];
    CountBelow(d, Batch(e), Sequence(e));
    assert id !in Below(d, Batch(e), Sequence(e));
    SubsetSize(Below(d, Batch(e), Sequence(e)) + {id}, d.records.Keys);
  }

  lemma {:induction false} SubsetSize<T>(a: set<T>, b: set<T>)
    requires a <= b
    ensures |a| <= |b|
  {
    if a != {} {
      var x :| x in a;
      SubsetSize(a - {x}, b - {x});
    }
  }

  // ----- An acknowledgement keeps the invariant -----

  lemma AckPrefix(c: Config, d: Disk, j: Journal)
    requires LegalAck(c, d, j) && PrefixComplete(c, d.checkpoints[j.checkpointName])
    requires Sequence(j.newEnvelope) + 1 <= c.maxRecords
    ensures PrefixComplete(c, j.newCheckpoint) && 1 <= j.newCheckpoint.expectedNext
    ensures AckShape(c, j) <==> Fits(c, j)
    ensures CheckpointCovers(j.newCheckpoint, d.checkpoints[j.checkpointName])
  {
  }

  /** A legal acknowledgement journal has a shape replay accepts exactly if its files fit. */
  lemma AckShapeHolds(c: Config, d: Disk, j: Journal)
    requires Consistent(c, d) && LegalAck(c, d, j)
    ensures AckShape(c, j) <==> Fits(c, j)
    ensures CheckpointReadable(c, j.checkpointName, d.checkpoints[j.checkpointName])
    ensures CheckpointCovers(j.newCheckpoint, d.checkpoints[j.checkpointName])
  {
    ConsistentFiled(c, d);
    assert FilledBelow(d, d.records[j.recordName]) && CheckpointOk(c, d, j.checkpointName);
    HeadWithinQuota(c, d, j.recordName);
    AckPrefix(c, d, j);
  }

  lemma AckRecord(c: Config, d: Disk, j: Journal, id: RecordId)
    requires LegalAck(c, d, j) && AckShape(c, j) && id in d.records
    requires RecordOk(c, d, id) && RecordOk(c, d, j.recordName)
    requires PairOk(d.records[id], d.records[j.recordName])
    requires CheckpointReadable(c, j.checkpointName, d.checkpoints[j.checkpointName])
    ensures RecordOk(c, Commit(d, j, 3), id)
  {
    var d' := Commit(d, j, 3);
    if id == j.recordName {
      assert d'.records[id] == j.newEnvelope;
    } else {
      assert d'.records[id] == d.records[id];
      assert JournalName(AckOp, id) in d'.done <==> JournalName(AckOp, id) in d.done;
    }
  }

  lemma AckCheckpoint(c: Config, d: Disk, j: Journal, b: BatchId)
    requires LegalAck(c, d, j) && AckShape(c, j) && b in d.checkpoints && CheckpointOk(c, d, b)
    ensures CheckpointOk(c, Commit(d, j, 3), b)
  {
    var d' := Commit(d, j, 3);
    assert d'.records == WithRecord(d, j.newEnvelope).records;
    forall s | 0 <= s < Reach(d'.checkpoints[b]) ensures Occupied(d', b, s) {
      if s < Reach(d.checkpoints[b]) {
        OccupiedAfterRewrite(d, j.newEnvelope, b, s);
        OccupiedByRecords(WithRecord(d, j.newEnvelope), d', b, s);
      } else {
        assert At(d'.records[j.recordName], b, s);
      }
    }
  }

  lemma OccupiedByRecords(d: Disk, d': Disk, b: BatchId, s: int)
    requires d.records == d'.records && Occupied(d, b, s)
    ensures Occupied(d', b, s)
  {
    var id :| id in d.records && At(d.records[id], b, s);
    assert id in d'.records && At(d'.records[id], b, s);
  }

  lemma AckFilled(d: Disk, d': Disk, e: Envelope, g: Envelope)
    requires Replaces(d, e) && d'.records == WithRecord(d, e).records && FilledBelow(d, g)
    ensures FilledBelow(d', g)
  {
    forall s | 0 <= s < Sequence(g) ensures Occupied(d', Batch(g), s) {
      OccupiedAfterRewrite(d, e, Batch(g), s);
      OccupiedByRecords(WithRecord(d, e), d', Batch(g), s);
    }
  }

  lemma AckDone(c: Config, d: Disk, j: Journal, n: JournalName)
    requires LegalAck(c, d, j) && AckShape(c, j) && n in d.done && DoneOk(c, d, n) && RecordOk(c, d, j.recordName)
    requires CheckpointReadable(c, j.checkpointName, d.checkpoints[j.checkpointName])
    requires CheckpointCovers(j.newCheckpoint, d.checkpoints[j.checkpointName])
    ensures DoneOk(c, Commit(d, j, 3), n)
  {
    var d' := Commit(d, j, 3);
    assert n != NameOf(j);
    assert d'.done[n] == d.done[n];
    CoversTransitive(d'.checkpoints, d, j, d.done[n]);
  }

  lemma CoversTransitive(m: map<BatchId, Checkpoint>, d: Disk, j: Journal, past: Journal)
    requires m == d.checkpoints[j.checkpointName := j.newCheckpoint] && j.checkpointName in d.checkpoints
    requires CheckpointCovers(j.newCheckpoint, d.checkpoints[j.checkpointName])
    requires past.checkpointName in d.checkpoints
    requires CheckpointCovers(d.checkpoints[past.checkpointName], past.newCheckpoint)
    ensures CheckpointCovers(m[past.checkpointName], past.newCheckpoint)
  {
  }

  lemma AckNewDone(c: Config, d: Disk, j: Journal)
    requires LegalAck(c, d, j) && AckShape(c, j)
    ensures DoneOk(c, Commit(d, j, 3), NameOf(j))
  {
  }

  lemma AckRecords(c: Config, d: Disk, j: Journal)
    requires LegalAck(c, d, j) && AckShape(c, j) && RecordsOk(c, d) && PairsOk(d)
    requires CheckpointReadable(c, j.checkpointName, d.checkpoints[j.checkpointName])
    ensures RecordsOk(c, Commit(d, j, 3))
  {
    assert Commit(d, j, 3).records.Keys == d.records.Keys;
    forall id | id in d.records ensures RecordOk(c, Commit(d, j, 3), id) { AckRecord(c, d, j, id); }
  }

  lemma AckPlaces(c: Config, d: Disk, j: Journal)
    requires LegalAck(c, d, j) && AckShape(c, j) && PairsOk(d) && Gapless(d) && CheckpointsOk(c, d)
    ensures PairsOk(Commit(d, j, 3)) && Gapless(Commit(d, j, 3)) && CheckpointsOk(c, Commit(d, j, 3))
  {
    var d' := Commit(d, j, 3);
    assert Replaces(d, j.newEnvelope) && d'.records == WithRecord(d, j.newEnvelope).records;
    forall i, k | i in d'.records && k in d'.records ensures PairOk(d'.records[i], d'.records[k]) {
      RewritePair(d, j.newEnvelope, i, k);
    }
    forall id | id in d'.records ensures FilledBelow(d', d'.records[id]) {
      AckFilled(d, d', j.newEnvelope, d.records[id]);
    }
    forall b | b in d'.checkpoints ensures CheckpointOk(c, d', b) { AckCheckpoint(c, d, j, b); }
  }

  lemma AckDones(c: Config, d: Disk, j: Journal)
    requires LegalAck(c, d, j) && AckShape(c, j) && DonesOk(c, d) && RecordOk(c, d, j.recordName)
    requires CheckpointReadable(c, j.checkpointName, d.checkpoints[j.checkpointName])
    requires CheckpointCovers(j.newCheckpoint, d.checkpoints[j.checkpointName])
    ensures DonesOk(c, Commit(d, j, 3))
  {
    forall n | n in Commit(d, j, 3).done ensures DoneOk(c, Commit(d, j, 3), n) {
      if n == NameOf(j) { AckNewDone(c, d, j); } else { AckDone(c, d, j, n); }
    }
  }

  lemma AckKeeps(c: Config, d: Disk, j: Journal)
    requires Consistent(c, d) && LegalAck(c, d, j) && Fits(c, j)
    ensures Consistent(c, Commit(d, j, 3))
  {
    hide RecordsOk, PairsOk, Gapless, CheckpointsOk, DonesOk, AckShape, CheckpointReadable, CheckpointCovers;
    AckShapeHolds(c, d, j);
    AckedRecordOk(c, d, j);
    assert Commit(d, j, 3).records.Keys == d.records.Keys;
    AckRecords(c, d, j);
    AckPlaces(c, d, j);
    AckDones(c, d, j);
  }

  lemma AckedRecordOk(c: Config, d: Disk, j: Journal)
    requires LegalAck(c, d, j) && RecordsOk(c, d)
    ensures RecordOk(c, d, j.recordName)
  {
  }

  // ----- An enqueue keeps the invariant -----

  lemma OccupiedAfterEnqueue(d: Disk, d': Disk, j: Journal, b: BatchId, s: int)
    requires j.recordName !in d.records && d'.records == d.records[j.recordName := j.newEnvelope]
    requires Occupied(d, b, s)
    ensures Occupied(d', b, s)
  {
    var id :| id in d.records && At(d.records[id], b, s);
    assert id in d'.records && At(d'.records[id], b, s);
  }

  lemma EnqueueRecord(c: Config, d: Disk, j: Journal, id: RecordId)
    requires LegalEnqueue(c, d, j) && id in d.records && RecordOk(c, d, id)
    ensures RecordOk(c, Commit(d, j, 3), id)
  {
    assert Commit(d, j, 3).records[id] == d.records[id];
  }

  lemma EnqueueNewRecord(c: Config, d: Disk, j: Journal)
    requires LegalEnqueue(c, d, j) && JournalName(AckOp, j.recordName) !in d.done
    ensures RecordOk(c, Commit(d, j, 3), j.recordName)
  {
  }

  lemma EnqueuePair(c: Config, d: Disk, j: Journal, i: RecordId)
    requires LegalEnqueue(c, d, j) && i in d.records
    ensures PairOk(d.records[i], j.newEnvelope) && PairOk(j.newEnvelope, d.records[i])
  {
    assert SameBatch(d.records[i], Batch(j.newEnvelope)) <==> Batch(d.records[i]) == Batch(j.newEnvelope);
  }

  /** The record just below a fresh sequence has no gap below it, so neither has the new one. */
  lemma EnqueueFilled(c: Config, d: Disk, j: Journal)
    requires LegalEnqueue(c, d, j) && Gapless(d) && CheckpointsOk(c, d)
    ensures FilledBelow(d, j.newEnvelope)
  {
    var b, s := Batch(j.newEnvelope), Sequence(j.newEnvelope);
    if ExpectedNext(d, b) < s {
      var id :| id in d.records && SameBatch(d.records[id], b) && Sequence(d.records[id]) == s - 1;
      assert FilledBelow(d, d.records[id]);
      assert At(d.records[id], b, s - 1);
      assert Occupied(d, b, s - 1);
    } else if b in d.checkpoints {
      assert CheckpointOk(c, d, b);
    }
  }

  lemma EnqueueDone(c: Config, d: Disk, j: Journal, n: JournalName)
    requires LegalEnqueue(c, d, j) && n in d.done && DoneOk(c, d, n)
    ensures DoneOk(c, Commit(d, j, 3), n)
  {
    assert n != NameOf(j) && Commit(d, j, 3).done[n] == d.done[n];
  }

  lemma EnqueueNewDone(c: Config, d: Disk, j: Journal)
    requires LegalEnqueue(c, d, j) && CheckpointReadable(c, j.checkpointName, j.newCheckpoint)
    ensures DoneOk(c, Commit(d, j, 3), NameOf(j))
  {
  }

  lemma EnqueueRecords(c: Config, d: Disk, j: Journal)
    requires LegalEnqueue(c, d, j) && RecordsOk(c, d) && JournalName(AckOp, j.recordName) !in d.done
    ensures RecordsOk(c, Commit(d, j, 3))
  {
    forall id | id in Commit(d, j, 3).records ensures RecordOk(c, Commit(d, j, 3), id) {
      if id == j.recordName { EnqueueNewRecord(c, d, j); } else { EnqueueRecord(c, d, j, id); }
    }
  }

  lemma EnqueuePairs(c: Config, d: Disk, j: Journal)
    requires LegalEnqueue(c, d, j) && PairsOk(d)
    ensures PairsOk(Commit(d, j, 3))
  {
    var d' := Commit(d, j, 3);
    forall i, k | i in d'.records && k in d'.records ensures PairOk(d'.records[i], d'.records[k]) {
      if i != j.recordName { EnqueuePair(c, d, j, i); }
      if k != j.recordName { EnqueuePair(c, d, j, k); }
    }
  }

  lemma EnqueueGapless(c: Config, d: Disk, j: Journal)
    requires LegalEnqueue(c, d, j) && Gapless(d) && CheckpointsOk(c, d)
    ensures Gapless(Commit(d, j, 3))
  {
    var d' := Commit(d, j, 3);
    EnqueueFilled(c, d, j);
    forall id | id in d'.records ensures FilledBelow(d', d'.records[id]) {
      var e := d'.records[id];
      assert FilledBelow(d, e);
      forall s | 0 <= s < Sequence(e) ensures Occupied(d', Batch(e), s) { OccupiedAfterEnqueue(d, d', j, Batch(e), s); }
    }
  }

  lemma EnqueueCheckpoints(c: Config, d: Disk, j: Journal)
    requires LegalEnqueue(c, d, j) && Gapless(d) && CheckpointsOk(c, d)
    ensures CheckpointsOk(c, Commit(d, j, 3))
    ensures CheckpointReadable(c, j.checkpointName, j.newCheckpoint)
  {
    var d' := Commit(d, j, 3);
    assert j.checkpointName in d.checkpoints ==> CheckpointOk(c, d, j.checkpointName);
    forall b | b in d'.checkpoints ensures CheckpointOk(c, d', b) {
      if b in d.checkpoints { EnqueueOldCheckpoint(c, d, j, b); } else { EnqueueNewCheckpoint(c, d, j); }
    }
  }

  lemma EnqueueOldCheckpoint(c: Config, d: Disk, j: Journal, b: BatchId)
    requires LegalEnqueue(c, d, j) && b in d.checkpoints && CheckpointOk(c, d, b)
    ensures CheckpointOk(c, Commit(d, j, 3), b)
  {
    var d' := Commit(d, j, 3);
    assert d'.checkpoints[b] == d.checkpoints[b];
    forall s | 0 <= s < Reach(d'.checkpoints[b]) ensures Occupied(d', b, s) { OccupiedAfterEnqueue(d, d', j, b, s); }
  }

  /** A checkpoint is created together with the first record of its batch. */
  lemma EnqueueNewCheckpoint(c: Config, d: Disk, j: Journal)
    requires LegalEnqueue(c, d, j) && Gapless(d) && CheckpointsOk(c, d) && j.checkpointName !in d.checkpoints
    ensures CheckpointOk(c, Commit(d, j, 3), j.checkpointName)
  {
    var d', b := Commit(d, j, 3), j.checkpointName;
    EnqueueFilled(c, d, j);
    if Sequence(j.newEnvelope) > 0 {
      OccupiedAfterEnqueue(d, d', j, b, 0);
    } else {
      assert At(d'.records[j.recordName], b, 0);
    }
  }

  lemma EnqueueDones(c: Config, d: Disk, j: Journal)
    requires LegalEnqueue(c, d, j) && DonesOk(c, d) && CheckpointReadable(c, j.checkpointName, j.newCheckpoint)
    ensures DonesOk(c, Commit(d, j, 3))
    ensures JournalName(AckOp, j.recordName) !in d.done && NameOf(j) !in d.done
  {
    assert forall n :: n in d.done ==> DoneOk(c, d, n);
    forall n | n in Commit(d, j, 3).done ensures DoneOk(c, Commit(d, j, 3), n) {
      if n == NameOf(j) { EnqueueNewDone(c, d, j); } else { EnqueueDone(c, d, j, n); }
    }
  }

  lemma EnqueueKeeps(c: Config, d: Disk, j: Journal)
    requires Consistent(c, d) && LegalEnqueue(c, d, j)
    ensures Consistent(c, Commit(d, j, 3))
  {
    EnqueueCheckpoints(c, d, j);
    EnqueueDones(c, d, j);
    EnqueueRecords(c, d, j);
    EnqueuePairs(c, d, j);
    EnqueueGapless(c, d, j);
  }

  lemma CommitKeeps(c: Config, d: Disk, j: Journal)
    requires Consistent(c, d) && Legal(c, d, j) && Fits(c, j)
    ensures Consistent(c, Commit(d, j, 3))
  {
    if j.operation.EnqueueOp? { EnqueueKeeps(c, d, j); } else { AckKeeps(c, d, j); }
  }

  /** A journal for an unfinished operation never meets a retained one of its own name. */
  lemma NotYetDone(c: Config, d: Disk, j: Journal)
    requires Consistent(c, d) && Legal(c, d, j)
    ensures NameOf(j) !in d.done
  {
    if j.operation.EnqueueOp? {
      assert NameOf(j) in d.done ==> DoneOk(c, d, NameOf(j));
    } else {
      assert RecordOk(c, d, j.recordName);
    }
  }
}
