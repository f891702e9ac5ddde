/** What applying a journal and reconciling checkpoints may do to any directory whatsoever, also
    one no run of the queue leads to: neither ever overwrites what it did not expect. */
module QueueCaution {
  import opened Protocol
  import opened QueueRecord
  import opened QueueDisk
  import opened QueueJournal
  import opened QueueCommit
  import opened QueueFence
  import opened QueueOperations

  // ----- Applying a journal -----

  /** The record file a journal may write: a new one, or the one in flight it was written for. */
  predicate MayWriteRecord(d: Disk, j: Journal) {
    if j.operation.EnqueueOp? then
      && j.recordName !in d.records
      && j.newEnvelope.record.state.Pending? && j.newEnvelope.record.attemptCount == 0 && j.newEnvelope.hold.None?
    else
      && j.recordName in d.records && j.oldRecord == Some(d.records[j.recordName])
      && var was, now := d.records[j.recordName], j.newEnvelope;
      && was.record.state.Sending? && now.record.state.Acknowledged?
      && now.owner == was.owner && now.evidenceHash == was.evidenceHash
      && now.record.attemptCount == was.record.attemptCount && now.record.lastAttemptAt == was.record.lastAttemptAt
  }

  /** The checkpoint file it may write: an empty one, or the one it was written for, one entry on. */
  predicate MayWriteCheckpoint(d: Disk, j: Journal) {
    if j.operation.EnqueueOp? then
      j.checkpointName !in d.checkpoints && j.newCheckpoint == EmptyCheckpoint(j.checkpointName)
    else
      && j.checkpointName in d.checkpoints && j.oldCheckpoint == Some(d.checkpoints[j.checkpointName])
      && var was, now := d.checkpoints[j.checkpointName], j.newCheckpoint;
      && now.expectedNext == was.expectedNext + 1 && |now.completed| == |was.completed| + 1
      && forall s :: s in was.completed ==> s in now.completed && now.completed[s] == was.completed[s]
  }

  predicate HasRecordOf(d: Disk, j: Journal) { j.recordName in d.records && d.records[j.recordName] == j.newEnvelope }

  predicate HasCheckpointOf(d: Disk, j: Journal) {
    j.checkpointName in d.checkpoints && d.checkpoints[j.checkpointName] == j.newCheckpoint
  }

  predicate RecordsKept(d: Disk, j: Journal, d': Disk) {
    d'.records == d.records || (MayWriteRecord(d, j) && d'.records == PutEnvelope(d, j))
  }

  predicate CheckpointsKept(d: Disk, j: Journal, d': Disk) {
    d'.checkpoints == d.checkpoints || (MayWriteCheckpoint(d, j) && d'.checkpoints == PutPrefix(d, j))
  }

  /** The files are written in the journal's order: an enqueue's checkpoint and an acknowledgement's
      record first. */
  predicate InJournalOrder(d: Disk, j: Journal, d': Disk) {
    if j.operation.EnqueueOp? then d'.records != d.records ==> HasCheckpointOf(d', j)
    else d'.checkpoints != d.checkpoints ==> HasRecordOf(d', j)
  }

  /** The batch takes the record: all of one owner, none discarded, no other of its sequence, and
      unless it is already there it comes next. */
  ghost predicate Welcome(c: Config, d: Disk, j: Journal) {
    && AllReadable(c, d) && BatchAdmits(d, j.newEnvelope)
    && (j.recordName !in d.records ==>
          NextSequence(d, j.checkpointName, ExpectedNext(d, j.checkpointName), Sequence(j.newEnvelope)))
  }

  lemma AuthorizedIsWelcome(c: Config, d: Disk, j: Journal)
    requires AuthorityError(c, d, j).None?
    ensures Welcome(c, d, j)
  {
  }

  /** The journal is where it was, or both its files are written and it is retained under its own
      name, over no other. */
  predicate JournalKept(d: Disk, n: JournalName, d': Disk)
    requires n in d.pending
  {
    var j := d.pending[n];
    || (d'.pending == d.pending && d'.done == d.done)
    || (&& HasRecordOf(d', j) && HasCheckpointOf(d', j) && NameOf(j) !in d.done
        && d'.pending == d.pending - {n} && d'.done == d.done[NameOf(j) := j])
  }

  ghost predicate Cautious(c: Config, d: Disk, n: JournalName, s: Step)
    requires n in d.pending
  {
    var j := d.pending[n];
    && (j.operation.EnqueueOp? && s.disk != d ==> Welcome(c, d, j))
    && RecordsKept(d, j, s.disk) && CheckpointsKept(d, j, s.disk) && InJournalOrder(d, j, s.disk)
    && JournalKept(d, n, s.disk) && s.disk.quarantine == d.quarantine
    && (s.result.Done? ==> HasRecordOf(s.disk, j) && HasCheckpointOf(s.disk, j) && n !in s.disk.pending)
  }

  lemma AckIsCautious(c: Config, d: Disk, f: Fault, n: JournalName)
    requires n in d.pending && d.pending[n].operation.AckOp?
    ensures Cautious(c, d, n, ApplyAck(c, d, f, n))
  {
    hide RecordValid, Room, PrefixComplete;
    var j := d.pending[n];
    var s1 := AckRecordStep(c, d, f, j);
    AckRecordIsCautious(c, d, f, j);
    if s1.result.Done? {
      AckCheckpointIsCautious(c, d, s1.disk, s1.fault, j);
      var s2 := AckCheckpointStep(c, s1.disk, s1.fault, j, d.records[j.recordName]);
    }
  }

  lemma AckRecordIsCautious(c: Config, d: Disk, f: Fault, j: Journal)
    requires j.operation.AckOp?
    ensures var s := AckRecordStep(c, d, f, j);
            && s.disk == d.(records := s.disk.records) && RecordsKept(d, j, s.disk)
            && (s.result.Done? ==> HasRecordOf(s.disk, j) && j.recordName in d.records && WellNamed(j))
  {
    hide RecordValid, Room, PrefixComplete;
  }

  lemma AckCheckpointIsCautious(c: Config, d: Disk, d1: Disk, f: Fault, j: Journal)
    requires j.operation.AckOp? && d1 == d.(records := d1.records) && j.recordName in d.records && WellNamed(j)
    ensures var s := AckCheckpointStep(c, d1, f, j, d.records[j.recordName]);
            && s.disk == d1.(checkpoints := s.disk.checkpoints) && CheckpointsKept(d, j, s.disk)
            && (s.result.Done? ==> HasCheckpointOf(s.disk, j))
  {
    hide Room, PrefixComplete;
  }

  lemma EnqueueIsCautious(c: Config, d: Disk, f: Fault, n: JournalName)
    requires n in d.pending && d.pending[n].operation.EnqueueOp?
    ensures Cautious(c, d, n, ApplyEnqueue(c, d, f, n))
  {
    hide RecordValid, Room, PrefixComplete, AuthorityError, Welcome;
    var j := d.pending[n];
    var s1 := EnqueueCheckpointStep(c, d, f, j);
    EnqueueCheckpointIsCautious(c, d, f, j);
    if s1.result.Done? { EnqueueRecordIsCautious(c, d, s1.disk, s1.fault, j); }
  }

  lemma EnqueueCheckpointIsCautious(c: Config, d: Disk, f: Fault, j: Journal)
    requires j.operation.EnqueueOp?
    ensures var s := EnqueueCheckpointStep(c, d, f, j);
            && s.disk == d.(checkpoints := s.disk.checkpoints) && CheckpointsKept(d, j, s.disk)
            && (s.disk != d ==> Welcome(c, d, j))
            && (s.result.Done? ==> HasCheckpointOf(s.disk, j) && EnqueueShape(c, j) && WellNamed(j) && Welcome(c, d, j))
  {
    hide RecordValid, Room, PrefixComplete, AuthorityError, Welcome;
    if AuthorityError(c, d, j).None? { AuthorizedIsWelcome(c, d, j); }
  }

  lemma EnqueueRecordIsCautious(c: Config, d: Disk, d1: Disk, f: Fault, j: Journal)
    requires j.operation.EnqueueOp? && d1 == d.(checkpoints := d1.checkpoints) && EnqueueShape(c, j) && WellNamed(j)
    ensures var s := EnqueueRecordStep(c, d1, f, j);
            && s.disk == d1.(records := s.disk.records) && RecordsKept(d, j, s.disk)
            && (s.result.Done? ==> HasRecordOf(s.disk, j))
  {
    hide RecordValid, Room, PrefixComplete;
  }

  /** On any directory: a journal writes only the two files it names, only over the contents it was
      written for, in its order, and is retained only with both in place. */
  lemma ApplyIsCautious(c: Config, d: Disk, f: Fault, n: JournalName)
    requires n in d.pending
    ensures Cautious(c, d, n, Apply(c, d, f, n))
  {
    hide ApplyAck, ApplyEnqueue, Cautious;
    if d.pending[n].operation.EnqueueOp? { EnqueueIsCautious(c, d, f, n); } else { AckIsCautious(c, d, f, n); }
  }

  // ----- Reconciling checkpoints -----

  /** The checkpoint of the record's batch says it is acknowledged. */
  predicate Recorded(d: Disk, e: Envelope) {
    && Batch(e) in d.checkpoints
    && var cp := d.checkpoints[Batch(e)];
    && Sequence(e) < cp.expectedNext && Sequence(e) in cp.completed && cp.completed[Sequence(e)] == EntryOf(e)
  }

  /** Nothing but checkpoints differs, and they have only grown. */
  ghost predicate OnlyGrew(d: Disk, d': Disk) {
    && d' == d.(checkpoints := d'.checkpoints) && d'.checkpoints.Keys == d.checkpoints.Keys
    && forall b :: b in d.checkpoints ==> CheckpointCovers(d'.checkpoints[b], d.checkpoints[b])
  }

  /** Whatever was added is the entry of one of the acknowledged records. */
  ghost predicate OnlyAdded(d: Disk, d': Disk, items: seq<Envelope>) {
    forall b, s :: b in d.checkpoints && b in d'.checkpoints && NewEntry(d.checkpoints[b], d'.checkpoints[b], s) ==>
      Justified(items, b, s, d'.checkpoints[b].completed[s])
  }

  predicate NewEntry(was: Checkpoint, now: Checkpoint, s: int) { s in now.completed && s !in was.completed }

  predicate Justified(items: seq<Envelope>, b: BatchId, s: int, entry: Entry) {
    exists i :: 0 <= i < |items| && Batch(items[i]) == b && Sequence(items[i]) == s
                && items[i].record.state.Acknowledged? && EntryOf(items[i]) == entry
  }

  lemma AdvanceGrows(c: Config, d: Disk, e: Envelope)
    requires Batch(e) in d.checkpoints && CheckpointReadable(c, Batch(e), d.checkpoints[Batch(e)])
    requires Sequence(e) == d.checkpoints[Batch(e)].expectedNext && e.record.state.Acknowledged?
    ensures var cp := Advanced(d.checkpoints[Batch(e)], e);
            var d' := d.(checkpoints := d.checkpoints[cp.batchId := cp]);
            OnlyGrew(d, d') && Recorded(d', e) && OnlyAdded(d, d', [e])
  {
    var cp := Advanced(d.checkpoints[Batch(e)], e);
    var d' := d.(checkpoints := d.checkpoints[cp.batchId := cp]);
    assert d'.checkpoints.Keys == d.checkpoints.Keys;
    assert Justified([e], Batch(e), Sequence(e), EntryOf(e)) by { assert [e][0] == e; }
  }

  lemma ReconcileOneHeals(c: Config, d: Disk, f: Fault, e: Envelope)
    ensures var s := ReconcileOne(c, d, f, e);
            && OnlyGrew(d, s.disk) && OnlyAdded(d, s.disk, [e])
            && (s.result.Done? && e.record.state.Acknowledged? ==> Recorded(s.disk, e))
  {
    hide Room, Advanced, OnlyGrew, OnlyAdded, Recorded;
    Unchanged(d, [e]);
    var cp := ReadCheckpoint(c, d, Batch(e));
    if e.record.state.Acknowledged? && cp.Ok? {
      if Sequence(e) == cp.value.expectedNext { AdvanceGrows(c, d, e); }
      RecordedMeans(d, e);
    }
  }

  lemma RecordedMeans(d: Disk, e: Envelope)
    requires Batch(e) in d.checkpoints
    ensures var cp := d.checkpoints[Batch(e)];
            Recorded(d, e) <==>
            Sequence(e) < cp.expectedNext && Sequence(e) in cp.completed && cp.completed[Sequence(e)] == EntryOf(e)
  {
  }

  lemma Unchanged(d: Disk, items: seq<Envelope>)
    ensures OnlyGrew(d, d) && OnlyAdded(d, d, items)
  {
  }

  lemma GrewTwice(d: Disk, d1: Disk, d2: Disk, e: Envelope, items: seq<Envelope>)
    requires items != [] && items[0] == e
    requires OnlyGrew(d, d1) && OnlyAdded(d, d1, [e]) && OnlyGrew(d1, d2) && OnlyAdded(d1, d2, items[1..])
    ensures OnlyGrew(d, d2) && OnlyAdded(d, d2, items)
  {
    forall b | b in d.checkpoints ensures CheckpointCovers(d2.checkpoints[b], d.checkpoints[b]) {
      assert CheckpointCovers(d1.checkpoints[b], d.checkpoints[b]);
      assert CheckpointCovers(d2.checkpoints[b], d1.checkpoints[b]);
    }
    forall b, s | b in d.checkpoints && b in d2.checkpoints && NewEntry(d.checkpoints[b], d2.checkpoints[b], s)
      ensures Justified(items, b, s, d2.checkpoints[b].completed[s])
    {
      AddedTwice(d, d1, d2, e, items, b, s);
    }
  }

  lemma AddedTwice(d: Disk, d1: Disk, d2: Disk, e: Envelope, items: seq<Envelope>, b: BatchId, s: int)
    requires items != [] && items[0] == e
    requires OnlyGrew(d, d1) && OnlyAdded(d, d1, [e]) && OnlyGrew(d1, d2) && OnlyAdded(d1, d2, items[1..])
    requires b in d.checkpoints && b in d2.checkpoints && NewEntry(d.checkpoints[b], d2.checkpoints[b], s)
    ensures Justified(items, b, s, d2.checkpoints[b].completed[s])
  {
    assert b in d1.checkpoints && CheckpointCovers(d2.checkpoints[b], d1.checkpoints[b]);
    var entry := d2.checkpoints[b].completed[s];
    if s in d1.checkpoints[b].completed {
      assert NewEntry(d.checkpoints[b], d1.checkpoints[b], s);
      assert Justified([e], b, s, entry);
      var i :| 0 <= i < |[e]| && Batch([e][i]) == b && Sequence([e][i]) == s
               && [e][i].record.state.Acknowledged? && EntryOf([e][i]) == entry;
      assert items[0] == [e][i];
    } else {
      assert NewEntry(d1.checkpoints[b], d2.checkpoints[b], s);
      assert Justified(items[1..], b, s, entry);
      var i :| 0 <= i < |items[1..]| && Batch(items[1..][i]) == b && Sequence(items[1..][i]) == s
               && items[1..][i].record.state.Acknowledged? && EntryOf(items[1..][i]) == entry;
      assert items[i + 1] == items[1..][i];
    }
  }

  lemma StaysRecorded(d: Disk, d': Disk, e: Envelope)
    requires Recorded(d, e) && OnlyGrew(d, d')
    ensures Recorded(d', e)
  {
    assert CheckpointCovers(d'.checkpoints[Batch(e)], d.checkpoints[Batch(e)]);
  }

  /** On any directory: reconciliation only adds to checkpoints, only entries of acknowledged
      records it was given, and when it returns every one of those is in its checkpoint. */
  lemma {:induction false} ReconcileHeals(c: Config, d: Disk, f: Fault, items: seq<Envelope>)
    ensures var s := Reconcile(c, d, f, items);
            && OnlyGrew(d, s.disk) && OnlyAdded(d, s.disk, items)
            && (s.result.Done? ==>
                  forall i :: 0 <= i < |items| && items[i].record.state.Acknowledged? ==> Recorded(s.disk, items[i]))
    decreases |items|
  {
    hide ReconcileOne, OnlyGrew, OnlyAdded, Recorded;
    Unchanged(d, items);
    if items != [] {
      var e := items[0];
      var s1 := ReconcileOne(c, d, f, e);
      ReconcileOneHeals(c, d, f, e);
      Unchanged(s1.disk, items[1..]);
      GrewTwice(d, s1.disk, s1.disk, e, items);
      if s1.result.Done? {
        ReconcileHeals(c, s1.disk, s1.fault, items[1..]);
        var s2 := Reconcile(c, s1.disk, s1.fault, items[1..]);
        GrewTwice(d, s1.disk, s2.disk, e, items);
        if s2.result.Done? {
          if e.record.state.Acknowledged? { StaysRecorded(s1.disk, s2.disk, e); }
          forall i | 0 <= i < |items| && items[i].record.state.Acknowledged? ensures Recorded(s2.disk, items[i]) {
            assert i > 0 ==> items[i] == items[1..][i - 1];
          }
        }
      }
    }
  }

  /** The same for one acknowledged record whose receipt is presented again. */
  lemma ConfirmHeals(c: Config, d: Disk, f: Fault, e: Envelope)
    requires e.record.state.Acknowledged?
    ensures var s := ConfirmEntry(c, d, f, e);
            OnlyGrew(d, s.disk) && OnlyAdded(d, s.disk, [e]) && (s.result.Done? ==> Recorded(s.disk, e))
  {
    hide Room, Advanced, OnlyGrew, OnlyAdded, Recorded;
    Unchanged(d, [e]);
    var cp := ReadCheckpoint(c, d, Batch(e));
    if cp.Ok? {
      if Sequence(e) == cp.value.expectedNext { AdvanceGrows(c, d, e); }
      RecordedMeans(d, e);
    }
  }

  // ----- Retained journals -----

  /** A retained journal is sound in itself, */
  predicate SoundJournal(c: Config, j: Journal) {
    && WellNamed(j) && SoundRecord(c, j.newEnvelope) && EnvelopeFits(c, j.newEnvelope)
    && if j.operation.AckOp? then AckShape(c, j) && j.oldRecord.Some? && j.oldCheckpoint.Some? else EnqueueShape(c, j)
  }

  /** and the directory still shows its effect: the checkpoint has reached its own, and the record
      is there with its evidence and owner (acknowledged as the journal says, for an
      acknowledgement), or is gone and completed. */
  predicate StillInEffect(c: Config, d: Disk, j: Journal) {
    && j.checkpointName in d.checkpoints
    && var cp := d.checkpoints[j.checkpointName];
    && CheckpointReadable(c, j.checkpointName, cp) && CheckpointCovers(cp, j.newCheckpoint)
    && if j.recordName in d.records then
         && var e := d.records[j.recordName];
         && Readable(c, j.recordName, e) && e.owner == j.newEnvelope.owner
         && e.evidenceHash == j.newEnvelope.evidenceHash && e.record.evidence == j.newEnvelope.record.evidence
         && (j.operation.AckOp? ==> e == j.newEnvelope)
       else
         var s := Sequence(j.newEnvelope);
         s in cp.completed && cp.completed[s] == EntryOf(j.newEnvelope)
  }

  /** On any directory: a retained journal passes exactly if it is sound and still in effect. */
  lemma VerifyExactly(c: Config, d: Disk, j: Journal)
    ensures VerifyError(c, d, j).None? <==> SoundJournal(c, j) && StillInEffect(c, d, j)
    ensures VerifyError(c, d, j) == Some(Corrupt) <==> !SoundJournal(c, j)
    ensures VerifyError(c, d, j) == Some(Conflict) <==> SoundJournal(c, j) && !StillInEffect(c, d, j)
  {
  }
}
