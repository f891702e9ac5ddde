/** Committing a journal, and the byte reserve that guarantees an admitted record can always
    be driven to its acknowledgement. */
module QueueCapacity {
  import opened Protocol
  import opened QueueDisk
  import opened QueueJournal
  import opened QueueInvariant
  import opened QueueCommit
  import opened QueueReplay
  import opened QueueFence

  /** `commitEnqueueTransaction` and `commitBatchTransaction`. */
  ghost function CommitJournal(c: Config, d: Disk, f: Fault, j: Journal): (s: Step) {
    if c.journalBytes(j) > MAX_TRANSACTION_BYTES then Step(d, f, Failed(QueueFull))
    else
      var s := CreateJournal(c, d, f, j);
      if s.result.Failed? then s else Apply(c, s.disk, s.fault, NameOf(j))
  }

  /** A commit can be finished: its journal may be written and its files have room. */
  ghost predicate RoomForCommit(c: Config, d: Disk, j: Journal) {
    && c.journalBytes(j) <= MAX_TRANSACTION_BYTES
    && Room(c, d, c.journalBytes(j))
    && RoomToCommit(c, d, j)
  }

  /** Crash atomicity of a commit on directory `d`: wherever it stops, the directory is
      recoverable and means either what it meant before or what the journal says; it succeeds
      only with the latter, and fails only if interrupted, out of room, or too large to read back. */
  ghost predicate Atomic(c: Config, d: Disk, f: Fault, j: Journal, s: Step) {
    && Recoverable(c, s.disk)
    && (s.disk == d || Replay(c, s.disk) == Replayed(c, d, j))
    && (s.result.Done? ==> s.disk == Commit(d, j, 3) && Fits(c, j))
    && (s.result.Failed? ==>
          || (s.result.error.Interrupted? && f.after < 4)
          || (s.result.error.QueueFull? && !RoomForCommit(c, d, j))
          || (s.result.error.Corrupt? && !Fits(c, j)))
  }

  lemma StageIsRecoverable(c: Config, d: Disk, j: Journal, k: nat)
    requires Consistent(c, d) && Legal(c, d, j) && k <= 3 && (k > 0 ==> Fits(c, j))
    ensures Recoverable(c, Commit(d, j, k)) && Replay(c, Commit(d, j, k)) == Replayed(c, d, j)
  {
    hide LegalEnqueue, LegalAck, Commit, Fits;
    if k == 3 {
      CommitKeeps(c, d, j);
      ReplayOfSettled(c, Commit(d, j, 3));
    } else {
      ReplayOfCommit(c, d, j, k);
      assert MidCommit(c, Commit(d, j, k), d, j, k);
    }
  }

  lemma AppliesAtomically(c: Config, d: Disk, f: Fault, j: Journal)
    requires Consistent(c, d) && Legal(c, d, j)
    ensures NameOf(j) in Commit(d, j, 0).pending
    ensures var s := Apply(c, Commit(d, j, 0), f, NameOf(j));
            && Recoverable(c, s.disk) && Replay(c, s.disk) == Replayed(c, d, j)
            && (s.result.Done? ==> s.disk == Commit(d, j, 3) && Fits(c, j))
            && (s.result.Failed? ==>
                  || (s.result.error.Interrupted? && f.after < 3)
                  || (s.result.error.QueueFull? && !RoomToCommit(c, d, j))
                  || (s.result.error.Corrupt? && !Fits(c, j)))
  {
    hide LegalEnqueue, LegalAck, Apply, RoomToCommit, Consistent, Recoverable, Replay, Replayed, Fits;
    if Fits(c, j) {
      ApplySettles(c, d, j, 0, f);
      var s := Apply(c, Commit(d, j, 0), f, NameOf(j));
      var k :| 0 <= k <= 3 && s.disk == Commit(d, j, k);
      StageIsRecoverable(c, d, j, k);
    } else {
      SettingOf(c, d, j);
      ApplyRefuses(c, d, j, f);
      StageIsRecoverable(c, d, j, 0);
    }
  }

  lemma CreateIsFirstStage(c: Config, d: Disk, f: Fault, j: Journal)
    requires Consistent(c, d)
    ensures CreateJournal(c, d, f, j) == if !Room(c, d, c.journalBytes(j)) then Step(d, f, Failed(QueueFull))
                                         else Durable(d, Commit(d, j, 0), f)
  {
  }

  lemma CommitIsAtomic(c: Config, d: Disk, f: Fault, j: Journal)
    requires Consistent(c, d) && Legal(c, d, j)
    ensures Atomic(c, d, f, j, CommitJournal(c, d, f, j))
  {
    hide LegalEnqueue, LegalAck, Apply, RoomToCommit, Consistent, Recoverable, Replay, Replayed, Fits, Commit,
         CreateJournal, Room;
    ConsistentIsRecoverable(c, d);
    CreateIsFirstStage(c, d, f, j);
    StageIsRecoverable(c, d, j, 0);
    AppliesAtomically(c, d, CreateJournal(c, d, f, j).fault, j);
  }

  // ----- The reserve -----

  lemma {:induction false} SumBound<K, V>(m: map<K, V>, f: V -> nat, limit: nat)
    requires forall k :: k in m ==> f(m[k]) <= limit
    ensures Sum(m, f) <= |m| * limit
    decreases |m|
  {
    if m != map[] {
      var k :| k in m;
      SumWithout(m, f, k);
      SizeWithout(m, k);
      SumBound(m - {k}, f, limit);
      OneMore(|m| - 1, limit);
    }
  }

  /** Everything but the records. */
  ghost function Overhead(c: Config, d: Disk): nat {
    Sum(d.checkpoints, c.checkpointBytes) + Sum(d.pending, c.journalBytes)
    + Sum(d.done, c.journalBytes) + SumSeq(d.quarantine, c.journalBytes)
  }

  predicate RecordsFit(c: Config, d: Disk) {
    c.maxRecordBytes >= 0 && forall id :: id in d.records ==> EnvelopeFits(c, d.records[id])
  }

  lemma ConsistentFits(c: Config, d: Disk)
    requires RecordsOk(c, d) && c.maxRecordBytes >= 0
    ensures RecordsFit(c, d)
  {
    forall id | id in d.records ensures EnvelopeFits(c, d.records[id]) { assert RecordOk(c, d, id); }
  }

  lemma UsedBound(c: Config, d: Disk)
    requires RecordsFit(c, d)
    ensures Used(c, d) <= |d.records| * c.maxRecordBytes + Overhead(c, d)
    ensures Reserved(c, d) == |d.records| * c.maxRecordBytes + Overhead(c, d)
                              + |Unacked(d)| * MAX_TRANSACTION_BYTES + c.maxRecordBytes
  {
    forall id | id in d.records ensures c.envelopeBytes(d.records[id]) <= c.maxRecordBytes {
      assert EnvelopeFits(c, d.records[id]);
    }
    SumBound(d.records, c.envelopeBytes, c.maxRecordBytes);
  }

  /** A rewrite of one record leaves the reserve as it is, and the reserve leaves room for it. */
  lemma RewriteFunded(c: Config, d: Disk, e: Envelope)
    requires RecordsFit(c, d) && Id(e) in d.records && EnvelopeFits(c, e) && Reserved(c, d) <= c.maxBytes
    ensures Room(c, d, c.envelopeBytes(e))
    ensures Reserved(c, WithRecord(d, e)) == Reserved(c, d)
  {
    var d' := WithRecord(d, e);
    assert d'.records.Keys == d.records.Keys;
    assert Unacked(d') == Unacked(d);
    UsedBound(c, d);
    assert RecordsFit(c, d') by {
      forall id | id in d'.records ensures EnvelopeFits(c, d'.records[id]) { assert EnvelopeFits(c, d.records[id]); }
    }
    UsedBound(c, d');
  }

  /** Encoded sizes add up as JSON documents do: a journal holds its two files and little else,
      and one more prefix entry, together with that rest, stays within the journal's slack. */
  predicate SizesAddUp(c: Config, d: Disk, j: Journal, framing: nat, entry: nat) {
    && c.journalBytes(j) <= c.envelopeBytes(j.newEnvelope) + c.checkpointBytes(j.newCheckpoint) + framing
    && (j.oldCheckpoint.Some? && j.operation.AckOp? ==>
          c.checkpointBytes(j.newCheckpoint) <= c.checkpointBytes(j.oldCheckpoint.value) + entry)
    && framing + entry <= 32 * 1024
    && 0 <= c.maxRecordBytes <= MAX_RECORD_BYTES_DEFAULT
  }

  function Replaced(c: Config, d: Disk, b: BatchId): nat {
    if b in d.checkpoints then c.checkpointBytes(d.checkpoints[b]) else 0
  }

  lemma CommitOverhead(c: Config, d: Disk, j: Journal)
    requires d.pending == map[] && NameOf(j) !in d.done
    ensures var before, journal, prefix := Overhead(c, d), c.journalBytes(j),
                                           c.checkpointBytes(j.newCheckpoint) - Replaced(c, d, j.checkpointName);
            && Overhead(c, Commit(d, j, 0)) == before + journal
            && Overhead(c, Commit(d, j, 1)) == before + journal + (if j.operation.AckOp? then 0 else prefix)
            && Overhead(c, Commit(d, j, 3)) == before + journal + prefix
  {
    SumPut(d.pending, c.journalBytes, NameOf(j), j);
    SumPut(d.done, c.journalBytes, NameOf(j), j);
    SumPut(d.checkpoints, c.checkpointBytes, j.checkpointName, j.newCheckpoint);
  }

  /** An acknowledgement that fits is never short of room, and does not raise the reserve: the
      journal it writes was paid for when its record was admitted. */
  lemma AckFunded(c: Config, d: Disk, j: Journal, framing: nat, entry: nat)
    requires Consistent(c, d) && LegalAck(c, d, j) && Fits(c, j) && SizesAddUp(c, d, j, framing, entry)
    requires Reserved(c, d) <= c.maxBytes
    ensures RoomForCommit(c, d, j)
    ensures Reserved(c, Commit(d, j, 3)) <= Reserved(c, d)
  {
    hide LegalAck, Consistent, Commit, Unacked, Used, Reserved, Overhead, RecordsFit;
    AckBooks(c, d, j);
    CommitOverhead(c, d, j);
    CommitFits(c, d, j);
    UsedBound(c, d);
    UsedBound(c, Commit(d, j, 0));
    UsedBound(c, Commit(d, j, 1));
    UsedBound(c, Commit(d, j, 3));
    AckBudget(|d.records| * c.maxRecordBytes + Overhead(c, d), |Unacked(d)|, c.maxRecordBytes, c.journalBytes(j),
              c.envelopeBytes(j.newEnvelope), c.checkpointBytes(j.oldCheckpoint.value),
              c.checkpointBytes(j.newCheckpoint),
              framing, entry);
  }

  /** The sums behind `AckFunded`: `held` bytes are in use at most, `owed` journals are reserved. */
  lemma AckBudget(held: int, owed: int, limit: int, journal: int, record: int, before: int, after: int, framing: int,
                  entry: int)
    requires owed >= 1 && 0 <= limit <= MAX_RECORD_BYTES_DEFAULT && record <= limit && after <= limit
    requires journal <= record + after + framing && after <= before + entry
    requires framing + entry <= 32 * 1024 && 0 <= framing && 0 <= entry
    ensures journal <= MAX_TRANSACTION_BYTES
    ensures held + journal + limit <= held + owed * MAX_TRANSACTION_BYTES + limit
    ensures held + journal + after - before + (owed - 1) * MAX_TRANSACTION_BYTES <= held + owed * MAX_TRANSACTION_BYTES
  {
  }

  lemma AckBooks(c: Config, d: Disk, j: Journal)
    requires Consistent(c, d) && LegalAck(c, d, j)
    ensures d.pending == map[] && NameOf(j) !in d.done && j.operation.AckOp? && j.oldCheckpoint.Some?
    ensures Replaced(c, d, j.checkpointName) == c.checkpointBytes(j.oldCheckpoint.value)
    ensures forall k :: 0 <= k <= 3 ==> |Commit(d, j, k).records| == |d.records|
    ensures |Unacked(d)| >= 1 && |Unacked(Commit(d, j, 3))| == |Unacked(d)| - 1
  {
    NotYetDone(c, d, j);
    AckRecordCounts(c, d, j);
  }

  lemma AckRecordCounts(c: Config, d: Disk, j: Journal)
    requires LegalAck(c, d, j) && NameOf(j) !in d.done
    ensures forall k :: 0 <= k <= 3 ==> |Commit(d, j, k).records| == |d.records|
    ensures |Unacked(d)| >= 1 && |Unacked(Commit(d, j, 3))| == |Unacked(d)| - 1
  {
    forall k | 0 <= k <= 3 ensures |Commit(d, j, k).records| == |d.records| {
      assert Commit(d, j, k).records.Keys == d.records.Keys;
    }
    assert j.recordName in Unacked(d);
    assert Unacked(Commit(d, j, 3)) == Unacked(d) - {j.recordName};
  }

  lemma FitsAtStage(c: Config, d: Disk, j: Journal, k: nat)
    requires RecordsFit(c, d) && EnvelopeFits(c, j.newEnvelope)
    ensures RecordsFit(c, Commit(d, j, k))
  {
    forall id | id in Commit(d, j, k).records ensures EnvelopeFits(c, Commit(d, j, k).records[id]) {
      assert id in d.records ==> EnvelopeFits(c, d.records[id]);
    }
  }

  lemma CommitFits(c: Config, d: Disk, j: Journal)
    requires Consistent(c, d) && Fits(c, j) && c.maxRecordBytes >= 0
    ensures RecordsFit(c, d) && RecordsFit(c, Commit(d, j, 0))
    ensures RecordsFit(c, Commit(d, j, 1)) && RecordsFit(c, Commit(d, j, 3))
  {
    hide RecordsFit, Commit, RecordsOk;
    ConsistentFits(c, d);
    FitsAtStage(c, d, j, 0);
    FitsAtStage(c, d, j, 1);
    FitsAtStage(c, d, j, 3);
  }

  /** What `enqueue` adds to the reserve, and compares with what is left. */
  function Required(c: Config, d: Disk, j: Journal): int {
    c.maxRecordBytes + c.journalBytes(j) + MAX_TRANSACTION_BYTES
    + (if j.checkpointName in d.checkpoints then 0 else c.checkpointBytes(j.newCheckpoint))
  }

  /** An admitted enqueue is never short of room, and raises the reserve by exactly what
      admission compared with the limit. */
  lemma EnqueueFunded(c: Config, d: Disk, j: Journal)
    requires Consistent(c, d) && LegalEnqueue(c, d, j) && c.maxRecordBytes >= 0
    requires c.journalBytes(j) <= MAX_TRANSACTION_BYTES
    requires Reserved(c, d) + Required(c, d, j) <= c.maxBytes
    ensures RoomForCommit(c, d, j)
    ensures Reserved(c, Commit(d, j, 3)) == Reserved(c, d) + Required(c, d, j)
  {
    hide LegalEnqueue, Consistent, Commit, Unacked, Used, Reserved, Overhead, RecordsFit;
    EnqueueReserve(c, d, j);
    EnqueueBooks(c, d, j);
    CommitOverhead(c, d, j);
    CommitFits(c, d, j);
    UsedBound(c, d);
    UsedBound(c, Commit(d, j, 0));
    UsedBound(c, Commit(d, j, 1));
  }

  lemma EnqueueReserve(c: Config, d: Disk, j: Journal)
    requires Consistent(c, d) && LegalEnqueue(c, d, j) && c.maxRecordBytes >= 0
    ensures Reserved(c, Commit(d, j, 3)) == Reserved(c, d) + Required(c, d, j)
  {
    hide LegalEnqueue, Consistent, Commit, Unacked, Used, Reserved, Overhead, RecordsFit;
    EnqueueBooks(c, d, j);
    CommitOverhead(c, d, j);
    CommitFits(c, d, j);
    UsedBound(c, d);
    UsedBound(c, Commit(d, j, 3));
    OneMore(|d.records|, c.maxRecordBytes);
  }

  lemma EnqueueBooks(c: Config, d: Disk, j: Journal)
    requires Consistent(c, d) && LegalEnqueue(c, d, j)
    ensures d.pending == map[] && NameOf(j) !in d.done && j.operation.EnqueueOp? && Fits(c, j)
    ensures j.checkpointName in d.checkpoints ==> Replaced(c, d, j.checkpointName) == c.checkpointBytes(j.newCheckpoint)
    ensures |Commit(d, j, 0).records| == |d.records| && |Commit(d, j, 1).records| == |d.records|
    ensures |Commit(d, j, 3).records| == |d.records| + 1
    ensures |Unacked(Commit(d, j, 3))| == |Unacked(d)| + 1
  {
    NotYetDone(c, d, j);
    NoAckYet(c, d, j.recordName);
    EnqueueRecordCounts(c, d, j);
  }

  lemma EnqueueRecordCounts(c: Config, d: Disk, j: Journal)
    requires LegalEnqueue(c, d, j) && JournalName(AckOp, j.recordName) !in d.done
    ensures |Commit(d, j, 3).records| == |d.records| + 1
    ensures |Unacked(Commit(d, j, 3))| == |Unacked(d)| + 1
  {
    NewRecordCounts(d, j);
  }

  lemma NewRecordCounts(d: Disk, j: Journal)
    requires j.operation.EnqueueOp? && j.recordName !in d.records && JournalName(AckOp, j.recordName) !in d.done
    ensures |Commit(d, j, 3).records| == |d.records| + 1
    ensures |Unacked(Commit(d, j, 3))| == |Unacked(d)| + 1
  {
    KeyAdded(d.records, j.recordName, j.newEnvelope);
    var before, after := Unacked(d), Unacked(Commit(d, j, 3));
    forall id ensures id in after <==> id in before + {j.recordName} { UnackedAfter(d, j, id); }
    assert after == before + {j.recordName};
  }

  lemma UnackedAfter(d: Disk, j: Journal, id: RecordId)
    requires j.operation.EnqueueOp? && JournalName(AckOp, j.recordName) !in d.done
    ensures id in Unacked(Commit(d, j, 3)) <==> id == j.recordName || id in Unacked(d)
  {
    assert JournalName(AckOp, id) in Commit(d, j, 3).done <==> JournalName(AckOp, id) in d.done;
  }

  lemma KeyAdded<K, V>(m: map<K, V>, k: K, v: V)
    requires k !in m
    ensures |m[k := v]| == |m| + 1
  {
    assert m[k := v].Keys == m.Keys + {k};
  }

  lemma NoAckYet(c: Config, d: Disk, id: RecordId)
    requires DonesOk(c, d) && id !in d.records
    ensures JournalName(AckOp, id) !in d.done
  {
    assert JournalName(AckOp, id) in d.done ==> DoneOk(c, d, JournalName(AckOp, id));
  }

  // ----- The reserve over a run -----

  ghost predicate Funded(c: Config, d: Disk) {
    |d.quarantine| <= MAX_QUARANTINED && Reserved(c, d) <= c.maxBytes
  }

  /** Everything the directory has promised is paid for, also in the middle of a commit. */
  ghost predicate Solvent(c: Config, d: Disk) {
    || (Consistent(c, d) && Funded(c, d))
    || exists base, j, k ::
         MidCommit(c, d, base, j, k) && RoomToCommit(c, base, j) && Funded(c, Replayed(c, base, j))
  }

  lemma SolventIsRecoverable(c: Config, d: Disk)
    requires Solvent(c, d)
    ensures Recoverable(c, d)
  {
    hide MidCommit, RoomToCommit, Funded;
    if !Consistent(c, d) {
      var base, j, k :| MidCommit(c, d, base, j, k) && RoomToCommit(c, base, j) && Funded(c, Replayed(c, base, j));
      assert MidCommit(c, d, base, j, k);
    }
  }

  lemma SolventMidCommit(c: Config, d: Disk, base: Disk, j: Journal, k: nat)
    requires MidCommit(c, d, base, j, k) && RoomToCommit(c, base, j) && Funded(c, Replayed(c, base, j))
    ensures Solvent(c, d)
  {
  }

  lemma RecoverMidStaysSolvent(c: Config, d: Disk, base: Disk, j: Journal, k: nat, f: Fault, names: seq<Listed>)
    requires MidCommit(c, d, base, j, k) && RoomToCommit(c, base, j) && Funded(c, Replayed(c, base, j))
    requires IsListing(d, names)
    ensures Solvent(c, Recover(c, d, f, names).disk)
    ensures Recover(c, d, f, names).result.Failed? ==> Recover(c, d, f, names).result.error.Interrupted?
  {
    hide LegalEnqueue, LegalAck, Recover, RoomToCommit, Commit, Fits, Funded, Replayed;
    MidListing(c, base, j, k, names);
    RecoverMid(c, base, j, k, f, names);
    ReplayedConsistent(c, base, j);
    var s := Recover(c, d, f, names);
    if s.disk != Replayed(c, base, j) {
      var k' :| MidCommit(c, s.disk, base, j, k');
      SolventMidCommit(c, s.disk, base, j, k');
    }
  }

  /** Replay of a solvent directory is never short of room, and the directory stays solvent. */
  lemma RecoverStaysSolvent(c: Config, d: Disk, f: Fault, names: seq<Listed>)
    requires Solvent(c, d) && IsListing(d, names)
    ensures Solvent(c, Recover(c, d, f, names).disk)
    ensures Recover(c, d, f, names).result.Failed? ==> Recover(c, d, f, names).result.error.Interrupted?
  {
    hide Recover, MidCommit, RoomToCommit, Funded, Consistent, Replayed;
    if Consistent(c, d) && Funded(c, d) {
      ConsistentIsRecoverable(c, d);
      RecoverKeepsMeaning(c, d, f, names);
    } else {
      var base, j, k :| MidCommit(c, d, base, j, k) && RoomToCommit(c, base, j) && Funded(c, Replayed(c, base, j));
      RecoverMidStaysSolvent(c, d, base, j, k, f, names);
    }
  }

  lemma SettledSolventIsFunded(c: Config, d: Disk)
    requires Solvent(c, d) && Consistent(c, d)
    ensures Funded(c, d)
  {
    MidCommitHasJournal(c, d);
  }

  lemma MidCommitHasJournal(c: Config, d: Disk)
    ensures (exists base, j, k :: MidCommit(c, d, base, j, k)) ==> d.pending != map[]
  {
    forall base, j, k | MidCommit(c, d, base, j, k) ensures d.pending != map[] { assert NameOf(j) in d.pending; }
  }

  /** The fence of a solvent directory fails only if interrupted. */
  lemma FenceStaysSolvent(c: Config, d: Disk, f: Fault, names: seq<Listed>, items: seq<Envelope>)
    requires Solvent(c, d) && IsListing(d, names)
    requires Settle(c, d, f, names).result.Done? ==> Lists(Settle(c, d, f, names).disk, items)
    ensures Solvent(c, Fence(c, d, f, names, items).disk)
    ensures Fence(c, d, f, names, items).result.Failed? ==> Fence(c, d, f, names, items).result.error.Interrupted?
  {
    hide Recover, Replay, Recoverable, Consistent, Solvent, Reserved, Lists, AllReadable, AllCheckpointsReadable,
         Reconcile, GroupsError;
    SolventIsRecoverable(c, d);
    RecoverStaysSolvent(c, d, f, names);
    RecoverKeepsMeaning(c, d, f, names);
    var s := Recover(c, d, f, names);
    if s.result.Done? {
      SettledSolventIsFunded(c, s.disk);
      ConsistentValidates(c, s.disk);
      SettledPasses(c, s.disk, s.fault, items);
    }
  }
}
