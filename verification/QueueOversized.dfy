/** Where the queue's main promise ends: the reserve pays for every acknowledgement, but a
    checkpoint grows with its batch, and one too large to be read back is never stored. */
module QueueOversized {
  import opened Protocol
  import opened Reference
  import opened QueueRecord
  import opened QueueDisk
  import opened QueueJournal
  import opened QueueInvariant
  import opened QueueCommit
  import opened QueueReplay
  import opened QueueFence
  import opened QueueCapacity
  import opened QueueLimits
  import opened QueuePlans
  import opened QueueOperations

  /** A receipt whose new files do not fit, with room for its journal: the commit fails, the next
      replay sets the journal aside, and nothing else has changed, so the same receipt will be
      planned, refused and set aside again. */
  lemma OversizedReceipt(c: Config, d: Disk, f: Fault, b: Binding, id: RecordId, v: VerifiedReceipt)
    requires Consistent(c, d) && f.after >= 1
    requires AckPlan(c, d, b, id, v).Write?
    requires var j := AckPlan(c, d, b, id, v).journal;
             !Fits(c, j) && c.journalBytes(j) <= MAX_TRANSACTION_BYTES && Room(c, d, c.journalBytes(j))
    ensures var j := AckPlan(c, d, b, id, v).journal;
            var s := CommitJournal(c, d, f, j);
            var later := Replay(c, s.disk);
            && s.result == Failed(Corrupt)
            && later == d.(quarantine := d.quarantine + [j]) && Consistent(c, later)
            && id in later.records && later.records[id].record.state.Sending?
            && AckPlan(c, later, b, id, v) == Write(j)
  {
    hide Consistent, LegalAck, LegalEnqueue, Apply, Room, AckPlan, Fits, Replay, Recoverable;
    var j := AckPlan(c, d, b, id, v).journal;
    AckIsLawful(c, d, b, id, v);
    PlannedInFlight(c, d, b, id, v);
    CreateIsFirstStage(c, d, f, j);
    ApplyRefuses(c, d, j, CreateJournal(c, d, f, j).fault);
    ConsistentPending(c, d);
    ReplayOfCommit(c, d, j, 0);
    QuarantineKeeps(c, d, d.quarantine + [j]);
    SamePlan(c, d, d.(quarantine := d.quarantine + [j]), b, id, v);
  }

  lemma PlannedInFlight(c: Config, d: Disk, b: Binding, id: RecordId, v: VerifiedReceipt)
    requires AckPlan(c, d, b, id, v).Write?
    ensures AckPlan(c, d, b, id, v).journal.operation.AckOp?
    ensures id in d.records && d.records[id].record.state.Sending?
  {
  }

  lemma SamePlan(c: Config, d: Disk, d': Disk, b: Binding, id: RecordId, v: VerifiedReceipt)
    requires d'.records == d.records && d'.checkpoints == d.checkpoints
    ensures AckPlan(c, d', b, id, v) == AckPlan(c, d, b, id, v)
  {
  }

  // ----- Such a receipt exists -----

  /** Records of 512 bytes, checkpoints of 128 bytes and 200 more for each entry, and the
      smallest limit a queue may be opened with. */
  function Tight(): Config {
    Config(5, 0x4000_0000, 1024, _ => 512, _ => 512,
           (cp: Checkpoint) => 128 + 200 * (if cp.expectedNext > 0 then cp.expectedNext else 0),
           _ => 2000, _ => 0)
  }

  const OWNER: Binding := Binding("tenant", "subject")

  function EvidenceAt(i: nat): Evidence { Evidence(i, "client", 1, 0, i, Policy(1, 1, 1, 1), "") }

  function FreshAt(i: nat): Record {
    Record(EvidenceAt(i), Pending, 0, Automatic, None, None, None, None, None, None, None)
  }

  function ReceiptAt(i: nat): VerifiedReceipt {
    VerifiedReceipt(true, Receipt(Acknowledgement("receipt", i, EvidenceAt(i), 3), "tenant", "client"), 4)
  }

  function Filing(r: Record): Envelope { Envelope(OWNER, r.evidence, r, None) }
  function WaitingAt(i: nat): Envelope { Filing(FreshAt(i)) }
  function FlyingAt(i: nat): Envelope { Filing(Sent(FreshAt(i), 2)) }
  function FinishedAt(i: nat): Envelope { Filing(Acked(FlyingAt(i).record, ReceiptAt(i).receipt.ack)) }

  lemma ExamplesAreSound(i: nat)
    requires i <= 4
    ensures SoundRecord(Tight(), WaitingAt(i)) && SoundRecord(Tight(), FlyingAt(i))
    ensures SoundRecord(Tight(), FinishedAt(i))
  {
  }

  /** `n` records of one batch, all acknowledged, and possibly one more, `last`. */
  predicate Shape(d: Disk, n: nat, last: Option<Envelope>) {
    && d.quarantine == []
    && |d.records| == n + (if last.Some? then 1 else 0)
    && (last.Some? ==> n in d.records && d.records[n] == last.value && 0 in d.checkpoints)
    && (forall id :: id in d.records ==>
          id <= n && d.records[id] == (if id < n || last.None? then FinishedAt(id) else last.value))
    && (last.None? ==> n !in d.records)
    && ExpectedNext(d, 0) == n
  }

  predicate Progress(d: Disk, n: nat, last: Option<Envelope>) { Consistent(Tight(), d) && Shape(d, n, last) }

  lemma Begun(d: Disk, d': Disk, n: nat, e: Envelope)
    requires Shape(d, n, None) && d'.quarantine == [] && d'.records == d.records[n := e]
    requires 0 in d'.checkpoints && d'.checkpoints[0].expectedNext == n
    ensures Shape(d', n, Some(e))
  {
    hide FinishedAt;
    KeyAdded(d.records, n, e);
  }

  lemma Ended(d: Disk, d': Disk, n: nat, e: Envelope)
    requires Shape(d, n, Some(e)) && d'.quarantine == [] && d'.records == d.records[n := FinishedAt(n)]
    requires ExpectedNext(d', 0) == n + 1
    ensures Shape(d', n + 1, None)
  {
    hide FinishedAt;
    assert d'.records.Keys == d.records.Keys;
  }

  lemma Admits(d: Disk, n: nat)
    requires CheckpointsOk(Tight(), d) && Shape(d, n, None) && n <= 4
    ensures LegalEnqueue(Tight(), d, EnqueueJournal(d, WaitingAt(n)))
  {
    hide RecordValid, SoundRecord;
    ExamplesAreSound(n);
    assert 0 in d.checkpoints ==> CheckpointOk(Tight(), d, 0);
  }

  lemma EnqueueBegins(d: Disk, n: nat)
    requires Shape(d, n, None)
    ensures Shape(Commit(d, EnqueueJournal(d, WaitingAt(n)), 3), n, Some(WaitingAt(n)))
  {
    hide Shape;
    assert d.quarantine == [] && ExpectedNext(d, 0) == n by { ShapeFacts(d, n, None); }
    Begun(d, Commit(d, EnqueueJournal(d, WaitingAt(n)), 3), n, WaitingAt(n));
  }

  lemma ShapeFacts(d: Disk, n: nat, last: Option<Envelope>)
    requires Shape(d, n, last)
    ensures d.quarantine == [] && ExpectedNext(d, 0) == n
  {
  }

  lemma ConsistentCheckpoints(d: Disk)
    requires Consistent(Tight(), d)
    ensures CheckpointsOk(Tight(), d)
  {
  }

  lemma Accepts(d: Disk, n: nat) returns (d': Disk)
    requires Progress(d, n, None) && n <= 4
    ensures Progress(d', n, Some(WaitingAt(n)))
  {
    hide Consistent, Shape, Commit, LegalEnqueue;
    assert CheckpointsOk(Tight(), d) by { ConsistentCheckpoints(d); }
    var j := EnqueueJournal(d, WaitingAt(n));
    Admits(d, n);
    EnqueueKeeps(Tight(), d, j);
    d' := Commit(d, j, 3);
    EnqueueBegins(d, n);
  }

  lemma Sends(d: Disk, n: nat) returns (d': Disk)
    requires Progress(d, n, Some(WaitingAt(n))) && n <= 4
    ensures Progress(d', n, Some(FlyingAt(n)))
  {
    hide RecordsOk, PairsOk, Gapless, CheckpointsOk, DonesOk, RecordValid;
    ExamplesAreSound(n);
    d' := WithRecord(d, FlyingAt(n));
    RewriteKeeps(Tight(), d, FlyingAt(n));
    assert d'.records.Keys == d.records.Keys;
  }

  lemma PlansAck(d: Disk, n: nat) returns (j: Journal)
    requires Progress(d, n, Some(FlyingAt(n))) && n <= 4
    ensures AckPlan(Tight(), d, OWNER, n, ReceiptAt(n)) == Write(j)
    ensures j.operation.AckOp? && j.recordName == n && j.checkpointName == 0
    ensures j.newEnvelope == FinishedAt(n) && j.newCheckpoint.expectedNext == n + 1
  {
    hide RecordsOk, PairsOk, Gapless, DonesOk, RecordValid;
    ExamplesAreSound(n);
    assert CheckpointOk(Tight(), d, 0);
    j := AckJournal(FlyingAt(n), d.checkpoints[0], FinishedAt(n));
  }

  lemma Finishes(d: Disk, n: nat) returns (d': Disk)
    requires Progress(d, n, Some(FlyingAt(n))) && n <= 3
    ensures Progress(d', n + 1, None)
  {
    hide Consistent, Shape, AckPlan, LegalAck, FinishedAt, FlyingAt;
    ShapeFacts(d, n, Some(FlyingAt(n)));
    var j := PlansAck(d, n);
    AckIsLawful(Tight(), d, OWNER, n, ReceiptAt(n));
    SmallEnough(n);
    AckKeeps(Tight(), d, j);
    d' := Commit(d, j, 3);
    Ended(d, d', n, FlyingAt(n));
  }

  lemma SmallEnough(n: nat)
    ensures EnvelopeFits(Tight(), FinishedAt(n))
    ensures forall cp: Checkpoint :: cp.expectedNext == n + 1 ==> (CheckpointFits(Tight(), cp) <==> n <= 3)
  {
  }

  lemma Begins() returns (d: Disk)
    ensures Progress(d, 0, None)
  {
    d := Disk(map[], map[], map[], map[], []);
  }

  lemma {:induction false} Reaches(n: nat) returns (d: Disk)
    requires n <= 4
    ensures Progress(d, n, None)
  {
    hide Progress;
    if n == 0 {
      d := Begins();
    } else {
      d := Reaches(n - 1);
      d := Accepts(d, n - 1);
      d := Sends(d, n - 1);
      d := Finishes(d, n - 1);
    }
  }

  lemma CheckpointsAreSmall(d: Disk)
    requires CheckpointsOk(Tight(), d)
    ensures Sum(d.checkpoints, Tight().checkpointBytes) <= |d.checkpoints| * 1024
  {
    var c := Tight();
    forall b | b in d.checkpoints ensures c.checkpointBytes(d.checkpoints[b]) <= 1024 { assert CheckpointOk(c, d, b); }
    SumBound(d.checkpoints, c.checkpointBytes, 1024);
  }

  lemma TightOverhead(d: Disk)
    requires Consistent(Tight(), d) && d.quarantine == []
    ensures |d.records| <= 5 && |Unacked(d)| <= 5 && Overhead(Tight(), d) <= 5 * 1024 + 10 * 2000
  {
    hide RecordsOk, PairsOk, Gapless, CheckpointsOk, DonesOk;
    SettledCounts(Tight(), d);
    CheckpointsAreSmall(d);
    SumBound(d.done, Tight().journalBytes, 2000);
    assert |d.done| * 2000 <= 10 * 2000 && |d.checkpoints| * 1024 <= 5 * 1024;
    Within(Unacked(d), d.records.Keys);
  }

  lemma TightIsFunded(d: Disk)
    requires Consistent(Tight(), d) && d.quarantine == []
    ensures Funded(Tight(), d) && Room(Tight(), d, 2000)
  {
    hide RecordsOk, PairsOk, Gapless, CheckpointsOk, DonesOk, Reserved, Used, Overhead, Unacked;
    TightOverhead(d);
    ConsistentFits(Tight(), d);
    UsedBound(Tight(), d);
  }

  /** A funded directory within every limit, reached from the empty one by enqueueing, claiming and
      acknowledging a batch in order, whose last record can be sent and never acknowledged. */
  lemma SomeReceiptIsNeverStored(f: Fault) returns (d: Disk)
    requires f.after >= 1
    ensures var c := Tight();
            && Limits(c) && Encodes(c, 2000, 200) && Consistent(c, d) && Funded(c, d)
            && var a := AckPlan(c, d, OWNER, 4, ReceiptAt(4));
            && a.Write? && !Fits(c, a.journal)
            && var s := CommitJournal(c, d, f, a.journal);
            && s.result == Failed(Corrupt)
            && Replay(c, s.disk) == d.(quarantine := d.quarantine + [a.journal])
            && 4 in d.records && d.records[4].record.state.Sending?
  {
    hide Consistent, CommitJournal, Room, AckPlan, Funded, Replay, FlyingAt, WaitingAt, FinishedAt;
    d := Reaches(4);
    d := Accepts(d, 4);
    d := Sends(d, 4);
    var j := PlansAck(d, 4);
    SmallEnough(4);
    TightIsFunded(d);
    OversizedReceipt(Tight(), d, f, OWNER, 4, ReceiptAt(4));
  }
}
