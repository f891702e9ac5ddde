/** The queue directory: record files, batch checkpoints, pending and retained journals, and
    what reading and durably writing them does.

    A file is its decoded content, a name hashed from an identifier is the identifier, and a
    file digest is the file's content. */
module QueueDisk {
  import opened Protocol
  import opened QueueRecord

  datatype Error =
    | NotFound | NotReady | Conflict | Corrupt | UnsafeRecord | QueueFull
    | Refused | Unauthorized | AttemptLimit | Interrupted

  datatype Result<+T> = Ok(value: T) | Err(error: Error)

  datatype Status = Done | Failed(error: Error)

  datatype HoldClass = HeldRejected | HeldConflict | HeldAuthentication

  datatype Envelope = Envelope(owner: Binding, evidenceHash: Evidence, record: Record, hold: Option<HoldClass>)

  datatype Entry = Entry(id: RecordId, evidenceHash: Evidence)

  datatype Checkpoint = Checkpoint(batchId: BatchId, expectedNext: int, completed: map<int, Entry>)

  datatype Operation = EnqueueOp | AckOp

  datatype JournalName = JournalName(operation: Operation, recordId: RecordId)

  /** A write-ahead journal; the old contents stand for the old digests. */
  datatype Journal = Journal(
    operation: Operation,
    recordName: RecordId,
    checkpointName: BatchId,
    oldRecord: Option<Envelope>,
    oldCheckpoint: Option<Checkpoint>,
    newEnvelope: Envelope,
    newCheckpoint: Checkpoint)

  datatype Disk = Disk(
    records: map<RecordId, Envelope>,
    checkpoints: map<BatchId, Checkpoint>,
    pending: map<JournalName, Journal>,
    done: map<JournalName, Journal>,
    quarantine: seq<Journal>)

  /** Limits, and the encoded sizes the limits are compared with. */
  datatype Config = Config(
    maxRecords: int,
    maxBytes: int,
    maxRecordBytes: int,
    recordBytes: Record -> nat,
    envelopeBytes: Envelope -> nat,
    checkpointBytes: Checkpoint -> nat,
    journalBytes: Journal -> nat,
    jitter: int -> int)

  const MAX_RECORD_BYTES_DEFAULT: int := 65_536
  const MAX_TRANSACTION_BYTES: int := 2 * MAX_RECORD_BYTES_DEFAULT + 32 * 1024
  const MAX_QUARANTINED: int := 32

  function Id(e: Envelope): RecordId { e.record.evidence.reconciliationId }
  function Batch(e: Envelope): BatchId { e.record.evidence.batchId }
  function Sequence(e: Envelope): int { e.record.evidence.batchSequence }

  function NameOf(j: Journal): JournalName { JournalName(j.operation, j.recordName) }
  function EntryOf(e: Envelope): Entry { Entry(Id(e), e.evidenceHash) }
  function EmptyCheckpoint(b: BatchId): Checkpoint { Checkpoint(b, 0, map[]) }

  /** The checkpoint after the record that was expected next is acknowledged. */
  function Advanced(cp: Checkpoint, e: Envelope): Checkpoint {
    Checkpoint(cp.batchId, cp.expectedNext + 1, cp.completed[Sequence(e) := EntryOf(e)])
  }

  // ----- Reading -----

  /** What `read` accepts from the file named after `id`. */
  predicate Readable(c: Config, id: RecordId, e: Envelope) {
    var readable :=
      && c.envelopeBytes(e) <= c.maxRecordBytes
      && Id(e) == id
      && RecordValid(e.record) && c.recordBytes(e.record) <= c.maxRecordBytes
      && e.evidenceHash == e.record.evidence;
    readable
  }

  /** The prefix map holds exactly the sequences below the next expected one. */
  predicate PrefixComplete(c: Config, cp: Checkpoint) {
    var complete :=
      && 0 <= cp.expectedNext <= c.maxRecords
      && (forall s :: 0 <= s < cp.expectedNext ==> s in cp.completed)
      && (forall s :: s in cp.completed ==> 0 <= s < cp.expectedNext);
    complete
  }

  predicate CheckpointReadable(c: Config, b: BatchId, cp: Checkpoint) {
    var readable :=
      && c.checkpointBytes(cp) <= c.maxRecordBytes
      && cp.batchId == b
      && PrefixComplete(c, cp);
    readable
  }

  function ReadRecord(c: Config, d: Disk, id: RecordId): (r: Result<Envelope>) {
    if id !in d.records then Err(NotFound)
    else if !Readable(c, id, d.records[id]) then Err(Corrupt)
    else Ok(d.records[id])
  }

  function ReadCheckpoint(c: Config, d: Disk, b: BatchId): (r: Result<Checkpoint>) {
    if b !in d.checkpoints then Err(NotFound)
    else if !CheckpointReadable(c, b, d.checkpoints[b]) then Err(Corrupt)
    else Ok(d.checkpoints[b])
  }

  predicate AllReadable(c: Config, d: Disk) {
    forall id :: id in d.records ==> Readable(c, id, d.records[id])
  }

  predicate AllCheckpointsReadable(c: Config, d: Disk) {
    forall b :: b in d.checkpoints ==> CheckpointReadable(c, b, d.checkpoints[b])
  }

  // ----- Bytes in use -----

  ghost function Sum<K, V>(m: map<K, V>, f: V -> nat): nat {
    if m == map[] then 0 else var k :| k in m; f(m[k]) + Sum(m - {k}, f)
  }

  function SumSeq<V>(s: seq<V>, f: V -> nat): nat {
    if s == [] then 0 else SumSeq(s[..|s| - 1], f) + f(s[|s| - 1])
  }

  lemma {:induction false} SumWithout<K, V>(m: map<K, V>, f: V -> nat, k: K)
    requires k in m
    ensures Sum(m, f) == f(m[k]) + Sum(m - {k}, f)
    decreases |m|
  {
    var p :| p in m && Sum(m, f) == f(m[p]) + Sum(m - {p}, f);
    if p != k {
      SumWithout(m - {p}, f, k);
      SumWithout(m - {k}, f, p);
      assert m - {p} - {k} == m - {k} - {p};
    }
  }

  lemma SumPut<K, V>(m: map<K, V>, f: V -> nat, k: K, v: V)
    ensures Sum(m[k := v], f) == Sum(m, f) - (if k in m then f(m[k]) else 0) + f(v)
  {
    SumWithout(m[k := v], f, k);
    assert m[k := v] - {k} == m - {k};
    if k in m { SumWithout(m, f, k); } else { assert m - {k} == m; }
  }

  lemma SizeWithout<K, V>(m: map<K, V>, k: K)
    requires k in m
    ensures |m - {k}| == |m| - 1
  {
    assert (m - {k}).Keys == m.Keys - {k};
  }

  lemma OneMore(n: int, limit: int)
    ensures (n + 1) * limit == n * limit + limit
  {
  }

  ghost function Used(c: Config, d: Disk): nat {
    Sum(d.records, c.envelopeBytes) + Sum(d.checkpoints, c.checkpointBytes)
    + Sum(d.pending, c.journalBytes) + Sum(d.done, c.journalBytes) + SumSeq(d.quarantine, c.journalBytes)
  }

  ghost predicate Room(c: Config, d: Disk, bytes: nat) {
    Used(c, d) + bytes <= c.maxBytes
  }

  // ----- Durable steps -----

  /** The environment: `after` further durable steps succeed, the next one fails, and it takes
      effect all the same if `effective`.  A crash is a failure nothing runs after. */
  datatype Fault = Fault(after: nat, effective: bool)

  datatype Step = Step(disk: Disk, fault: Fault, result: Status)

  function Durable(d: Disk, d': Disk, f: Fault): (s: Step) {
    if f.after == 0 then Step(if f.effective then d' else d, f, Failed(Interrupted))
    else Step(d', f.(after := f.after - 1), Done)
  }

  ghost function PutRecord(c: Config, d: Disk, f: Fault, e: Envelope): (s: Step) {
    if !Room(c, d, c.envelopeBytes(e)) then Step(d, f, Failed(QueueFull))
    else Durable(d, d.(records := d.records[Id(e) := e]), f)
  }

  ghost function PutCheckpoint(c: Config, d: Disk, f: Fault, cp: Checkpoint): (s: Step) {
    if !Room(c, d, c.checkpointBytes(cp)) then Step(d, f, Failed(QueueFull))
    else Durable(d, d.(checkpoints := d.checkpoints[cp.batchId := cp]), f)
  }

  ghost function CreateJournal(c: Config, d: Disk, f: Fault, j: Journal): (s: Step) {
    if !Room(c, d, c.journalBytes(j)) then Step(d, f, Failed(QueueFull))
    else if NameOf(j) in d.pending then Step(d, f, Failed(Conflict))
    else Durable(d, d.(pending := d.pending[NameOf(j) := j]), f)
  }

  /** `finishTransaction`: the journal is renamed, never over a retained one. */
  function Retain(d: Disk, f: Fault, n: JournalName): (s: Step)
    requires n in d.pending
  {
    var j := d.pending[n];
    if NameOf(j) in d.done then Step(d, f, Failed(Conflict))
    else Durable(d, d.(pending := d.pending - {n}, done := d.done[NameOf(j) := j]), f)
  }

  function QuarantinePending(d: Disk, f: Fault, n: JournalName): (s: Step)
    requires n in d.pending
  {
    Durable(d, d.(pending := d.pending - {n}, quarantine := d.quarantine + [d.pending[n]]), f)
  }

  function QuarantineDone(d: Disk, f: Fault, n: JournalName): (s: Step)
    requires n in d.done
  {
    Durable(d, d.(done := d.done - {n}, quarantine := d.quarantine + [d.done[n]]), f)
  }
}
