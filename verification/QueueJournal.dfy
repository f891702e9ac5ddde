/** Applying, retaining and verifying write-ahead journals, on any directory whatsoever. */
module QueueJournal {
  import opened Protocol
  import opened QueueRecord
  import opened QueueDisk

  // ----- Shapes -----

  predicate EnvelopeFits(c: Config, e: Envelope) {
    c.envelopeBytes(e) <= c.maxRecordBytes
  }

  predicate CheckpointFits(c: Config, cp: Checkpoint) {
    c.checkpointBytes(cp) <= c.maxRecordBytes
  }

  /** The journal names the files its contents belong in. */
  predicate WellNamed(j: Journal) {
    var named :=
      && Id(j.newEnvelope) == j.recordName
      && j.newCheckpoint.batchId == j.checkpointName
      && Batch(j.newEnvelope) == j.newCheckpoint.batchId;
    named
  }

  predicate SoundRecord(c: Config, e: Envelope) {
    var sound :=
      && RecordValid(e.record) && c.recordBytes(e.record) <= c.maxRecordBytes
      && e.evidenceHash == e.record.evidence;
    sound
  }

  /** `validateTransactionShape`. */
  predicate AckShape(c: Config, j: Journal) {
    var sound :=
      && j.operation.AckOp?
      && 1 <= j.newCheckpoint.expectedNext
      && PrefixComplete(c, j.newCheckpoint)
      && EnvelopeFits(c, j.newEnvelope)
      && CheckpointFits(c, j.newCheckpoint);
    sound
  }

  predicate EnqueueShape(c: Config, j: Journal) {
    var sound :=
      && j.operation.EnqueueOp?
      && j.newEnvelope.record.state.Pending? && j.newEnvelope.record.attemptCount == 0
      && j.newEnvelope.hold.None?
      && PrefixComplete(c, j.newCheckpoint);
    sound
  }

  // ----- Acknowledgement -----

  /** The current record may become the journal's: same evidence, owner and attempt, and
      either still in flight or already rewritten. */
  predicate AckMatches(current: Envelope, next: Envelope) {
    var matches :=
      && current.evidenceHash == next.evidenceHash
      && current.owner == next.owner
      && current.record.attemptCount == next.record.attemptCount
      && current.record.lastAttemptAt.Some? && next.record.lastAttemptAt == current.record.lastAttemptAt
      && next.record.state.Acknowledged?
      && (current.record.state.Sending? || current == next);
    matches
  }

  predicate CheckpointExtends(current: Checkpoint, next: Checkpoint, e: Envelope) {
    var extends_ :=
      && next.expectedNext == current.expectedNext + 1
      && (forall s :: s in current.completed ==> s in next.completed && next.completed[s] == current.completed[s])
      && |next.completed| == |current.completed| + 1
      && Sequence(e) in next.completed && next.completed[Sequence(e)] == EntryOf(e);
    extends_
  }

  ghost function AckRecordStep(c: Config, d: Disk, f: Fault, j: Journal): (s: Step) {
    if || !AckShape(c, j) || !WellNamed(j) || j.oldRecord.None? || j.oldCheckpoint.None?
       || !SoundRecord(c, j.newEnvelope) then
      Step(d, f, Failed(Corrupt))
    else
      var current := ReadRecord(c, d, j.recordName);
      if current.Err? then Step(d, f, Failed(current.error))
      else if !AckMatches(current.value, j.newEnvelope) then Step(d, f, Failed(Corrupt))
      else if current.value == j.newEnvelope then Step(d, f, Done)
      else if Some(current.value) != j.oldRecord then Step(d, f, Failed(Conflict))
      else PutRecord(c, d, f, j.newEnvelope)
  }

  /** `e` is the record as read before the record step. */
  ghost function AckCheckpointStep(c: Config, d: Disk, f: Fault, j: Journal, e: Envelope): (s: Step) {
    var current := ReadCheckpoint(c, d, j.checkpointName);
    if current.Err? then Step(d, f, Failed(current.error))
    else if current.value == j.newCheckpoint then Step(d, f, Done)
    else if !CheckpointExtends(current.value, j.newCheckpoint, e) then Step(d, f, Failed(Corrupt))
    else if Some(current.value) != j.oldCheckpoint then Step(d, f, Failed(Conflict))
    else PutCheckpoint(c, d, f, j.newCheckpoint)
  }

  ghost function ApplyAck(c: Config, d: Disk, f: Fault, n: JournalName): (s: Step)
    requires n in d.pending
  {
    var j := d.pending[n];
    var s1 := AckRecordStep(c, d, f, j);
    if s1.result.Failed? then s1
    else
      var s2 := AckCheckpointStep(c, s1.disk, s1.fault, j, d.records[j.recordName]);
      if s2.result.Failed? then s2 else Retain(s2.disk, s2.fault, n)
  }

  // ----- Enqueue -----

  predicate SameBatch(e: Envelope, b: BatchId) {
    Batch(e) == b
  }

  /** `s` is the sequence the batch accepts next: past the checkpoint and past every record. */
  predicate NextSequence(d: Disk, b: BatchId, expected: int, s: int) {
    var next :=
      && expected <= s
      && (forall id :: id in d.records && SameBatch(d.records[id], b) ==> Sequence(d.records[id]) < s)
      && (expected < s ==>
            exists id :: id in d.records && SameBatch(d.records[id], b) && Sequence(d.records[id]) == s - 1);
    next
  }

  /** No other owner, no discarded record and no second holder of the candidate's sequence. */
  predicate BatchAdmits(d: Disk, e: Envelope) {
    forall id :: id in d.records && SameBatch(d.records[id], Batch(e)) ==>
      && d.records[id].owner == e.owner
      && !d.records[id].record.state.Discarded?
      && (if id == Id(e) then d.records[id] == e else Sequence(d.records[id]) != Sequence(e))
  }

  /** `validateEnqueueTransactionAuthority`. */
  function AuthorityError(c: Config, d: Disk, j: Journal): (e: Option<Error>) {
    var cp := ReadCheckpoint(c, d, j.checkpointName);
    if cp.Err? && !cp.error.NotFound? then Some(cp.error)
    else if cp.Ok? && !( || (j.oldCheckpoint.None? && cp.value == j.newCheckpoint && cp.value.expectedNext == 0)
                         || (j.oldCheckpoint.Some? && j.oldCheckpoint.value == cp.value)) then Some(Conflict)
    else if cp.Ok? && cp.value != j.newCheckpoint then Some(Conflict)
    else if cp.Err? && (j.oldCheckpoint.Some? || j.newCheckpoint != EmptyCheckpoint(j.checkpointName)) then
      Some(Conflict)
    else if !AllReadable(c, d) then Some(Corrupt)
    else if !BatchAdmits(d, j.newEnvelope) then Some(Conflict)
    else if && j.recordName !in d.records
            && !NextSequence(d, j.checkpointName, if cp.Ok? then cp.value.expectedNext else 0,
                             Sequence(j.newEnvelope)) then
      Some(Conflict)
    else None
  }

  ghost function EnqueueCheckpointStep(c: Config, d: Disk, f: Fault, j: Journal): (s: Step) {
    if !EnqueueShape(c, j) || !WellNamed(j) || !SoundRecord(c, j.newEnvelope) then Step(d, f, Failed(Corrupt))
    else if AuthorityError(c, d, j).Some? then Step(d, f, Failed(AuthorityError(c, d, j).value))
    else if !CheckpointFits(c, j.newCheckpoint) then Step(d, f, Failed(Corrupt))
    else
      var current := ReadCheckpoint(c, d, j.checkpointName);
      if current.Ok? then
        if current.value != j.newCheckpoint || (j.oldCheckpoint.Some? && j.oldCheckpoint.value != current.value) then
          Step(d, f, Failed(Conflict))
        else Step(d, f, Done)
      else if !current.error.NotFound? then Step(d, f, Failed(current.error))
      else if j.oldCheckpoint.Some? || j.newCheckpoint != EmptyCheckpoint(j.checkpointName) then
        Step(d, f, Failed(Corrupt))
      else PutCheckpoint(c, d, f, j.newCheckpoint)
  }

  ghost function EnqueueRecordStep(c: Config, d: Disk, f: Fault, j: Journal): (s: Step) {
    if !EnvelopeFits(c, j.newEnvelope) then Step(d, f, Failed(Corrupt))
    else
      var current := ReadRecord(c, d, j.recordName);
      if current.Ok? then
        if current.value != j.newEnvelope then Step(d, f, Failed(Conflict)) else Step(d, f, Done)
      else if !current.error.NotFound? then Step(d, f, Failed(current.error))
      else PutRecord(c, d, f, j.newEnvelope)
  }

  ghost function ApplyEnqueue(c: Config, d: Disk, f: Fault, n: JournalName): (s: Step)
    requires n in d.pending
  {
    var j := d.pending[n];
    var s1 := EnqueueCheckpointStep(c, d, f, j);
    if s1.result.Failed? then s1
    else
      var s2 := EnqueueRecordStep(c, s1.disk, s1.fault, j);
      if s2.result.Failed? then s2 else Retain(s2.disk, s2.fault, n)
  }

  ghost function Apply(c: Config, d: Disk, f: Fault, n: JournalName): (s: Step)
    requires n in d.pending
  {
    if d.pending[n].operation.EnqueueOp? then ApplyEnqueue(c, d, f, n) else ApplyAck(c, d, f, n)
  }

  // ----- Retained journals -----

  /** The checkpoint has reached at least the journal's and agrees with it. */
  predicate CheckpointCovers(current: Checkpoint, past: Checkpoint) {
    && past.expectedNext <= current.expectedNext
    && (forall s :: s in past.completed ==> s in current.completed && current.completed[s] == past.completed[s])
  }

  /** `verifyAppliedTransaction`. */
  function VerifyError(c: Config, d: Disk, j: Journal): (e: Option<Error>) {
    if !WellNamed(j) then Some(Corrupt)
    else if j.operation.AckOp? && (!AckShape(c, j) || j.oldRecord.None? || j.oldCheckpoint.None?) then Some(Corrupt)
    else if j.operation.EnqueueOp? && !EnqueueShape(c, j) then Some(Corrupt)
    else if !SoundRecord(c, j.newEnvelope) || !EnvelopeFits(c, j.newEnvelope) then Some(Corrupt)
    else
      var record, cp := ReadRecord(c, d, j.recordName), ReadCheckpoint(c, d, j.checkpointName);
      if record.Err? && record.error.Corrupt? then Some(Conflict)
      else if cp.Err? || !CheckpointCovers(cp.value, j.newCheckpoint) then Some(Conflict)
      else if record.Err? then
        if && Sequence(j.newEnvelope) in cp.value.completed
           && cp.value.completed[Sequence(j.newEnvelope)] == EntryOf(j.newEnvelope)
        then None else Some(Conflict)
      else if || record.value.evidenceHash != j.newEnvelope.evidenceHash
              || record.value.owner != j.newEnvelope.owner
              || record.value.record.evidence != j.newEnvelope.record.evidence then Some(Conflict)
      else if j.operation.AckOp? && record.value != j.newEnvelope then Some(Conflict)
      else None
  }

  // ----- Replay -----

  datatype Listed = PendingFile(name: JournalName) | DoneFile(name: JournalName)

  /** A directory listing: every journal once, in whatever order the file system returns. */
  ghost predicate IsListing(d: Disk, names: seq<Listed>) {
    && (forall n :: n in d.pending <==> PendingFile(n) in names)
    && (forall n :: n in d.done <==> DoneFile(n) in names)
    && (forall i, j :: 0 <= i < j < |names| ==> names[i] != names[j])
  }

  /** `recoverTransactions` over the rest of a listing. */
  ghost function Recover(c: Config, d: Disk, f: Fault, names: seq<Listed>): (s: Step)
    decreases |names|
  {
    if names == [] then Step(d, f, Done)
    else
      var s := RecoverOne(c, d, f, names[0]);
      if s.result.Failed? then s else Recover(c, s.disk, s.fault, names[1..])
  }

  ghost function RecoverOne(c: Config, d: Disk, f: Fault, file: Listed): (s: Step) {
    match file
    case DoneFile(n) =>
      if n !in d.done then Step(d, f, Failed(Corrupt))
      else if VerifyError(c, d, d.done[n]).Some? then
        var q := QuarantineDone(d, f, n);
        if q.result.Failed? then q else Step(q.disk, q.fault, Failed(Corrupt))
      else if n != NameOf(d.done[n]) then Step(d, f, Failed(Corrupt))
      else Step(d, f, Done)
    case PendingFile(n) =>
      if n !in d.pending then Step(d, f, Failed(Corrupt))
      else
        var s := Apply(c, d, f, n);
        if s.result.Failed? && (s.result.error.Corrupt? || s.result.error.Conflict?) && n in s.disk.pending then
          QuarantinePending(s.disk, s.fault, n)
        else s
  }
}
