/** Crashes and replay.  A commit interrupted after any durable step, with or without that
    step's effect, is finished by the next replay; a journal whose files could not be read
    back is set aside instead, leaving the directory as it was. */
module QueueReplay {
  import opened Protocol
  import opened QueueDisk
  import opened QueueJournal
  import opened QueueInvariant
  import opened QueueCommit

  /** Directory `d` is `k` steps into the commit of journal `j` on the consistent directory `base`. */
  predicate MidCommit(c: Config, d: Disk, base: Disk, j: Journal, k: nat) {
    var mid :=
      && Consistent(c, base) && Legal(c, base, j)
      && k <= 2 && (k > 0 ==> Fits(c, j))
      && d == Commit(base, j, k);
    mid
  }

  /** The invariant of the directory at every instant, crashes included. */
  ghost predicate Recoverable(c: Config, d: Disk) {
    Consistent(c, d) || exists base, j, k :: MidCommit(c, d, base, j, k)
  }

  /** Where replay takes the commit of `j` on `base`. */
  function Replayed(c: Config, base: Disk, j: Journal): Disk {
    if Fits(c, j) then Commit(base, j, 3) else base.(quarantine := base.quarantine + [j])
  }

  /** Where replay takes any directory: what the directory says once its journal is settled. */
  ghost function Replay(c: Config, d: Disk): Disk {
    if d.pending == map[] then d
    else
      var n :| n in d.pending;
      var j := d.pending[n];
      if Fits(c, j) then
        Disk(PutEnvelope(d, j), PutPrefix(d, j), d.pending - {n}, d.done[NameOf(j) := j], d.quarantine)
      else d.(pending := d.pending - {n}, quarantine := d.quarantine + [j])
  }

  lemma ReplayOfCommit(c: Config, base: Disk, j: Journal, k: nat)
    requires base.pending == map[] && k <= 2 && (k > 0 ==> Fits(c, j))
    ensures Replay(c, Commit(base, j, k)) == Replayed(c, base, j)
  {
    var d := Commit(base, j, k);
    assert d.pending == map[NameOf(j) := j];
    assert d.pending - {NameOf(j)} == map[];
    assert NameOf(j) in d.pending;
    assert PutEnvelope(d, j) == PutEnvelope(base, j);
    assert PutPrefix(d, j) == PutPrefix(base, j);
  }

  /** Settling is settled: what replay reaches is consistent and a second replay changes nothing. */
  lemma ReplayIsConsistent(c: Config, d: Disk)
    requires Recoverable(c, d)
    ensures Consistent(c, Replay(c, d)) && Replay(c, Replay(c, d)) == Replay(c, d)
  {
    if !Consistent(c, d) {
      var base, j, k :| MidCommit(c, d, base, j, k);
      ReplayOfCommit(c, base, j, k);
      if Fits(c, j) { CommitKeeps(c, base, j); } else { QuarantineKeeps(c, base, base.quarantine + [j]); }
    }
  }

  predicate SameFiles(d: Disk, d': Disk) {
    d.records == d'.records && d.checkpoints == d'.checkpoints && d.done == d'.done
  }

  lemma FilesKeepRecords(c: Config, d: Disk, d': Disk)
    requires SameFiles(d, d') && RecordsOk(c, d) && DonesOk(c, d)
    ensures RecordsOk(c, d') && DonesOk(c, d')
  {
    forall id | id in d'.records ensures RecordOk(c, d', id) { RecordSame(c, d, d', id); }
    forall n | n in d'.done ensures DoneOk(c, d', n) { DoneSame(c, d, d', n); }
  }

  lemma RecordSame(c: Config, d: Disk, d': Disk, id: RecordId)
    requires SameFiles(d, d') && id in d.records && RecordOk(c, d, id)
    ensures RecordOk(c, d', id)
  {
  }

  lemma DoneSame(c: Config, d: Disk, d': Disk, n: JournalName)
    requires SameFiles(d, d') && n in d.done && DoneOk(c, d, n)
    ensures DoneOk(c, d', n)
  {
    VerifySame(c, d, d', d.done[n]);
  }

  lemma FilesKeepPlaces(c: Config, d: Disk, d': Disk)
    requires SameFiles(d, d') && Gapless(d) && CheckpointsOk(c, d)
    ensures Gapless(d') && CheckpointsOk(c, d')
  {
    forall id | id in d'.records ensures FilledBelow(d', d'.records[id]) { FilledSame(d, d', d.records[id]); }
    forall b | b in d'.checkpoints ensures CheckpointOk(c, d', b) { CheckpointSame(c, d, d', b); }
  }

  lemma QuarantineKeeps(c: Config, d: Disk, q: seq<Journal>)
    requires Consistent(c, d)
    ensures Consistent(c, d.(quarantine := q))
  {
    FilesKeepRecords(c, d, d.(quarantine := q));
    FilesKeepPlaces(c, d, d.(quarantine := q));
  }

  lemma FilledSame(d: Disk, d': Disk, e: Envelope)
    requires d.records == d'.records && FilledBelow(d, e)
    ensures FilledBelow(d', e)
  {
    forall s | 0 <= s < Sequence(e) ensures Occupied(d', Batch(e), s) { OccupiedByRecords(d, d', Batch(e), s); }
  }

  lemma CheckpointSame(c: Config, d: Disk, d': Disk, b: BatchId)
    requires d.records == d'.records && d.checkpoints == d'.checkpoints && b in d.checkpoints && CheckpointOk(c, d, b)
    ensures CheckpointOk(c, d', b)
  {
    forall s | 0 <= s < Reach(d.checkpoints[b]) ensures Occupied(d', b, s) { OccupiedByRecords(d, d', b, s); }
  }

  // ----- Applying from the middle of a commit -----

  function Max(a: nat, b: nat): nat { if a >= b then a else b }

  /** A step that succeeds goes from one directory to the other and uses up at most one durable
      step; a step that fails leaves one of the two. */
  predicate Moves(s: Step, from: Disk, to: Disk, f: Fault, full: bool) {
    var moves :=
      && (s.result.Done? ==> s.disk == to && f.after <= s.fault.after + 1)
      && (s.result.Failed? ==>
            && (s.disk == from || s.disk == to)
            && ((s.result.error.Interrupted? && f.after == 0) || (s.result.error.QueueFull? && full)));
    moves
  }

  predicate EnqueueSetting(c: Config, base: Disk, j: Journal) {
    var setting :=
      && LegalEnqueue(c, base, j) && base.pending == map[] && NameOf(j) !in base.done
      && AllReadable(c, base)
      && (j.checkpointName in base.checkpoints ==>
            CheckpointReadable(c, j.checkpointName, base.checkpoints[j.checkpointName]))
      && CheckpointReadable(c, j.checkpointName, j.newCheckpoint);
    setting
  }

  lemma EnqueueAuthority(c: Config, base: Disk, j: Journal, k: nat)
    requires EnqueueSetting(c, base, j) && k <= 2
    ensures AuthorityError(c, Commit(base, j, k), j).None?
  {
    var d, e := Commit(base, j, k), j.newEnvelope;
    assert Readable(c, j.recordName, e);
    assert AllReadable(c, d) by {
      forall id | id in d.records ensures Readable(c, id, d.records[id]) {
        if id in base.records && id != j.recordName { assert Readable(c, id, base.records[id]); }
      }
    }
    assert BatchAdmits(d, e);
    if k < 2 {
      assert d.records == base.records;
      NextSequenceSame(base, d, Batch(e), ExpectedNext(base, Batch(e)), Sequence(e));
    }
  }

  lemma NextSequenceSame(d: Disk, d': Disk, b: BatchId, expected: int, s: int)
    requires d.records == d'.records && NextSequence(d, b, expected, s)
    ensures NextSequence(d', b, expected, s)
  {
    if expected < s {
      var id :| id in d.records && SameBatch(d.records[id], b) && Sequence(d.records[id]) == s - 1;
      assert id in d'.records && SameBatch(d'.records[id], b) && Sequence(d'.records[id]) == s - 1;
    }
  }

  lemma EnqueueFirst(c: Config, base: Disk, j: Journal, k: nat, f: Fault)
    requires EnqueueSetting(c, base, j) && k <= 2
    ensures Moves(EnqueueCheckpointStep(c, Commit(base, j, k), f, j),
                  Commit(base, j, k), Commit(base, j, Max(k, 1)), f,
                  k == 0 && !Room(c, Commit(base, j, 0), c.checkpointBytes(j.newCheckpoint)))
  {
    EnqueueAuthority(c, base, j, k);
    var d := Commit(base, j, k);
    if j.checkpointName in base.checkpoints {
      assert PutPrefix(base, j) == base.checkpoints;
    } else if k == 0 {
      assert d.checkpoints[j.newCheckpoint.batchId := j.newCheckpoint] == PutPrefix(base, j);
    }
  }

  lemma EnqueueSecond(c: Config, base: Disk, j: Journal, k: nat, f: Fault)
    requires EnqueueSetting(c, base, j) && 1 <= k <= 2
    ensures Moves(EnqueueRecordStep(c, Commit(base, j, k), f, j),
                  Commit(base, j, k), Commit(base, j, 2), f,
                  k == 1 && !Room(c, Commit(base, j, 1), c.envelopeBytes(j.newEnvelope)))
  {
    assert Readable(c, j.recordName, j.newEnvelope);
  }

  lemma RetainLast(base: Disk, j: Journal, f: Fault)
    requires base.pending == map[] && NameOf(j) !in base.done
    ensures NameOf(j) in Commit(base, j, 2).pending
    ensures Retain(Commit(base, j, 2), f, NameOf(j)) == Durable(Commit(base, j, 2), Commit(base, j, 3), f)
  {
    assert map[NameOf(j) := j] - {NameOf(j)} == map[];
  }

  /** There is room for both files, each at the moment it is written. */
  ghost predicate RoomToCommit(c: Config, base: Disk, j: Journal) {
    if j.operation.EnqueueOp? then
      && Room(c, Commit(base, j, 0), c.checkpointBytes(j.newCheckpoint))
      && Room(c, Commit(base, j, 1), c.envelopeBytes(j.newEnvelope))
    else
      && Room(c, Commit(base, j, 0), c.envelopeBytes(j.newEnvelope))
      && Room(c, Commit(base, j, 1), c.checkpointBytes(j.newCheckpoint))
  }

  /** What applying a journal from the middle of its commit can come to. */
  ghost predicate Settles(c: Config, s: Step, base: Disk, j: Journal, f: Fault) {
    && (s.result.Done? ==> s.disk == Commit(base, j, 3) && f.after <= s.fault.after + 3)
    && (s.result.Failed? ==>
          && ((s.result.error.Interrupted? && f.after < 3) || (s.result.error.QueueFull? && !RoomToCommit(c, base, j)))
          && exists k' :: 0 <= k' <= 3 && s.disk == Commit(base, j, k'))
  }

  lemma ApplyEnqueueSettles(c: Config, base: Disk, j: Journal, k: nat, f: Fault)
    requires EnqueueSetting(c, base, j) && k <= 2
    ensures NameOf(j) in Commit(base, j, k).pending
    ensures Settles(c, ApplyEnqueue(c, Commit(base, j, k), f, NameOf(j)), base, j, f)
  {
    var d := Commit(base, j, k);
    EnqueueFirst(c, base, j, k, f);
    var s1 := EnqueueCheckpointStep(c, d, f, j);
    if s1.result.Done? {
      EnqueueSecond(c, base, j, Max(k, 1), s1.fault);
      RetainLast(base, j, EnqueueRecordStep(c, s1.disk, s1.fault, j).fault);
    }
  }

  // ----- The same for an acknowledgement -----

  predicate AckSetting(c: Config, base: Disk, j: Journal) {
    var setting :=
      && LegalAck(c, base, j) && base.pending == map[] && NameOf(j) !in base.done
      && Readable(c, j.recordName, base.records[j.recordName])
      && CheckpointReadable(c, j.checkpointName, base.checkpoints[j.checkpointName])
      && CheckpointCovers(j.newCheckpoint, base.checkpoints[j.checkpointName])
      && AckShape(c, j);
    setting
  }

  lemma AckFirst(c: Config, base: Disk, j: Journal, k: nat, f: Fault)
    requires AckSetting(c, base, j) && k <= 2
    ensures Moves(AckRecordStep(c, Commit(base, j, k), f, j),
                  Commit(base, j, k), Commit(base, j, Max(k, 1)), f,
                  k == 0 && !Room(c, Commit(base, j, 0), c.envelopeBytes(j.newEnvelope)))
  {
    assert Readable(c, j.recordName, j.newEnvelope);
  }

  lemma PrefixGrowsByOne(m: map<int, Entry>, s: int, e: Entry)
    requires s !in m
    ensures |m[s := e]| == |m| + 1
  {
    assert m[s := e].Keys == m.Keys + {s};
  }

  lemma AckSecond(c: Config, base: Disk, j: Journal, k: nat, f: Fault, e: Envelope)
    requires AckSetting(c, base, j) && 1 <= k <= 2
    requires e == base.records[j.recordName] || e == j.newEnvelope
    ensures Moves(AckCheckpointStep(c, Commit(base, j, k), f, j, e),
                  Commit(base, j, k), Commit(base, j, 2), f,
                  k == 1 && !Room(c, Commit(base, j, 1), c.checkpointBytes(j.newCheckpoint)))
  {
    PrefixGrowsByOne(base.checkpoints[j.checkpointName].completed, Sequence(e), EntryOf(e));
    assert k == 1 ==> CheckpointExtends(base.checkpoints[j.checkpointName], j.newCheckpoint, e);
  }

  lemma ApplyAckSettles(c: Config, base: Disk, j: Journal, k: nat, f: Fault)
    requires AckSetting(c, base, j) && k <= 2
    ensures NameOf(j) in Commit(base, j, k).pending
    ensures Settles(c, ApplyAck(c, Commit(base, j, k), f, NameOf(j)), base, j, f)
  {
    var d := Commit(base, j, k);
    AckFirst(c, base, j, k, f);
    var s1 := AckRecordStep(c, d, f, j);
    if s1.result.Done? {
      AckSecond(c, base, j, Max(k, 1), s1.fault, d.records[j.recordName]);
      RetainLast(base, j, AckCheckpointStep(c, s1.disk, s1.fault, j, d.records[j.recordName]).fault);
    }
  }

  // ----- Replaying a whole listing -----

  lemma SettingOf(c: Config, base: Disk, j: Journal)
    requires Consistent(c, base) && Legal(c, base, j)
    ensures base.pending == map[]
    ensures j.operation.EnqueueOp? ==> EnqueueSetting(c, base, j) && Fits(c, j)
    ensures j.operation.AckOp? && Fits(c, j) ==> AckSetting(c, base, j)
  {
    NotYetDone(c, base, j);
    if j.operation.EnqueueOp? {
      ReadableOf(c, base);
      EnqueueCheckpoints(c, base, j);
      assert j.checkpointName in base.checkpoints ==> CheckpointOk(c, base, j.checkpointName);
    } else {
      AckShapeHolds(c, base, j);
      assert RecordOk(c, base, j.recordName);
    }
  }

  lemma ReadableOf(c: Config, d: Disk)
    requires RecordsOk(c, d)
    ensures AllReadable(c, d)
  {
    forall id | id in d.records ensures Readable(c, id, d.records[id]) { assert RecordOk(c, d, id); }
  }

  /** Applying the journal of an interrupted commit finishes it, or stops at one of its stages. */
  lemma ApplySettles(c: Config, base: Disk, j: Journal, k: nat, f: Fault)
    requires Consistent(c, base) && Legal(c, base, j) && Fits(c, j) && k <= 2
    ensures NameOf(j) in Commit(base, j, k).pending
    ensures Settles(c, Apply(c, Commit(base, j, k), f, NameOf(j)), base, j, f)
  {
    hide Consistent, LegalEnqueue, LegalAck, ApplyEnqueue, ApplyAck, EnqueueSetting, AckSetting, Fits;
    SettingOf(c, base, j);
    if j.operation.EnqueueOp? { ApplyEnqueueSettles(c, base, j, k, f); } else { ApplyAckSettles(c, base, j, k, f); }
  }

  /** An acknowledgement journal whose files are too large to read back is refused outright. */
  lemma ApplyRefuses(c: Config, base: Disk, j: Journal, f: Fault)
    requires Consistent(c, base) && LegalAck(c, base, j) && !Fits(c, j)
    ensures NameOf(j) in Commit(base, j, 0).pending
    ensures Apply(c, Commit(base, j, 0), f, NameOf(j)) == Step(Commit(base, j, 0), f, Failed(Corrupt))
  {
    AckShapeHolds(c, base, j);
  }

  /** Retained journals still verify in the middle of a commit. */
  lemma DoneMidEnqueue(c: Config, base: Disk, j: Journal, k: nat, n: JournalName)
    requires EnqueueSetting(c, base, j) && k <= 2 && n in base.done && DoneOk(c, base, n)
    ensures VerifyError(c, Commit(base, j, k), base.done[n]).None?
  {
    var d := Commit(base, j, k);
    assert n.recordId != j.recordName && d.records[n.recordId] == base.records[n.recordId];
    assert forall b :: b in base.checkpoints ==> d.checkpoints[b] == base.checkpoints[b];
  }

  lemma DoneMidAck(c: Config, base: Disk, j: Journal, k: nat, n: JournalName)
    requires AckSetting(c, base, j) && k <= 2 && n in base.done && DoneOk(c, base, n)
    ensures VerifyError(c, Commit(base, j, k), base.done[n]).None?
  {
    var d := Commit(base, j, k);
    if k == 2 { CoversTransitive(d.checkpoints, base, j, base.done[n]); }
  }

  lemma VerifySame(c: Config, d: Disk, d': Disk, past: Journal)
    requires d.records == d'.records && d.checkpoints == d'.checkpoints
    ensures VerifyError(c, d', past) == VerifyError(c, d, past)
  {
  }

  lemma DoneMidVerifies(c: Config, base: Disk, j: Journal, k: nat, n: JournalName)
    requires Consistent(c, base) && Legal(c, base, j) && k <= 2 && (k > 0 ==> Fits(c, j))
    requires n in base.done && DoneOk(c, base, n)
    ensures VerifyError(c, Commit(base, j, k), base.done[n]).None?
  {
    hide Consistent, LegalEnqueue, LegalAck, VerifyError, EnqueueSetting, AckSetting;
    SettingOf(c, base, j);
    if j.operation.EnqueueOp? { DoneMidEnqueue(c, base, j, k, n); }
    else if k > 0 { DoneMidAck(c, base, j, k, n); }
    else { VerifySame(c, base, Commit(base, j, 0), base.done[n]); }
  }

  lemma DoneMid(c: Config, base: Disk, j: Journal, k: nat, f: Fault, n: JournalName)
    requires Consistent(c, base) && Legal(c, base, j) && k <= 2 && (k > 0 ==> Fits(c, j)) && n in base.done
    ensures RecoverOne(c, Commit(base, j, k), f, DoneFile(n)) == Step(Commit(base, j, k), f, Done)
  {
    hide LegalEnqueue, LegalAck, VerifyError;
    assert DoneOk(c, base, n);
    DoneMidVerifies(c, base, j, k, n);
  }

  lemma {:induction false} RecoverSettled(c: Config, d: Disk, f: Fault, names: seq<Listed>)
    requires Consistent(c, d) && (forall x :: x in names ==> x.DoneFile? && x.name in d.done)
    ensures Recover(c, d, f, names) == Step(d, f, Done)
    decreases |names|
  {
    if names != [] {
      assert names[0] in names && DoneOk(c, d, names[0].name);
      forall x | x in names[1..] ensures x.DoneFile? && x.name in d.done { assert x in names; }
      RecoverSettled(c, d, f, names[1..]);
    }
  }

  /** What `recoverTransactions` can come to on a directory in the middle of a commit. */
  ghost predicate Recovers(c: Config, s: Step, base: Disk, j: Journal, f: Fault) {
    && (s.result.Done? ==> s.disk == Replayed(c, base, j) && f.after <= s.fault.after + 3)
    && (s.result.Failed? ==>
          && ((s.result.error.Interrupted? && f.after < 3) || (s.result.error.QueueFull? && !RoomToCommit(c, base, j)))
          && (s.disk == Replayed(c, base, j) || exists k' :: MidCommit(c, s.disk, base, j, k')))
  }

  lemma RecoverPending(c: Config, base: Disk, j: Journal, k: nat, f: Fault)
    requires MidCommit(c, Commit(base, j, k), base, j, k)
    ensures Recovers(c, RecoverOne(c, Commit(base, j, k), f, PendingFile(NameOf(j))), base, j, f)
  {
    hide LegalEnqueue, LegalAck, Consistent, Apply, EnqueueSetting, AckSetting;
    var d := Commit(base, j, k);
    SettingOf(c, base, j);
    if Fits(c, j) {
      ApplySettles(c, base, j, k, f);
      var s := Apply(c, d, f, NameOf(j));
      if s.result.Failed? {
        var k' :| 0 <= k' <= 3 && s.disk == Commit(base, j, k');
        assert k' <= 2 ==> MidCommit(c, s.disk, base, j, k');
      }
    } else {
      ApplyRefuses(c, base, j, f);
      assert d.pending - {NameOf(j)} == base.pending;
      assert MidCommit(c, d, base, j, 0);
    }
  }

  lemma {:induction false} RecoverMid(c: Config, base: Disk, j: Journal, k: nat, f: Fault, names: seq<Listed>)
    requires MidCommit(c, Commit(base, j, k), base, j, k) && PendingFile(NameOf(j)) in names
    requires forall x :: x in names ==> x == PendingFile(NameOf(j)) || (x.DoneFile? && x.name in base.done)
    requires forall a, b :: 0 <= a < b < |names| ==> names[a] != names[b]
    ensures Recovers(c, Recover(c, Commit(base, j, k), f, names), base, j, f)
    decreases |names|
  {
    hide LegalEnqueue, LegalAck, Consistent, RecoverOne;
    var rest := names[1..];
    assert names[0] in names && forall x :: x in rest ==> x in names;
    if names[0] == PendingFile(NameOf(j)) {
      RecoverPending(c, base, j, k, f);
      var s := RecoverOne(c, Commit(base, j, k), f, names[0]);
      if s.result.Done? {
        ReplayedConsistent(c, base, j);
        forall x | x in rest ensures x.DoneFile? && x.name in s.disk.done { assert x in names && x != names[0]; }
        RecoverSettled(c, s.disk, s.fault, rest);
      }
    } else {
      DoneMid(c, base, j, k, f, names[0].name);
      RecoverMid(c, base, j, k, f, rest);
    }
  }

  lemma ReplayedConsistent(c: Config, base: Disk, j: Journal)
    requires Consistent(c, base) && Legal(c, base, j)
    ensures Consistent(c, Replayed(c, base, j))
  {
    if Fits(c, j) { CommitKeeps(c, base, j); } else { QuarantineKeeps(c, base, base.quarantine + [j]); }
  }

  /** What a replay that took directory `d` to `s.disk` preserved. */
  ghost predicate KeepsMeaning(c: Config, d: Disk, f: Fault, s: Step) {
    && Recoverable(c, s.disk) && Replay(c, s.disk) == Replay(c, d)
    && (s.result.Done? ==> s.disk == Replay(c, d) && Consistent(c, s.disk) && f.after <= s.fault.after + 3)
    && (s.result.Failed? ==> (s.result.error.Interrupted? && f.after < 3) || s.result.error.QueueFull?)
  }

  lemma RecoverMidKeepsMeaning(c: Config, d: Disk, base: Disk, j: Journal, k: nat, f: Fault, names: seq<Listed>)
    requires MidCommit(c, d, base, j, k) && IsListing(d, names)
    ensures KeepsMeaning(c, d, f, Recover(c, d, f, names))
  {
    hide LegalEnqueue, LegalAck, Recover, RoomToCommit, Commit, Replay, Fits;
    MidListing(c, base, j, k, names);
    RecoverMid(c, base, j, k, f, names);
    ReplayOfCommit(c, base, j, k);
    ReplayedConsistent(c, base, j);
    var s := Recover(c, d, f, names);
    if s.disk == Replayed(c, base, j) {
      ReplayOfSettled(c, s.disk);
    } else {
      var k' :| MidCommit(c, s.disk, base, j, k');
      ReplayOfCommit(c, base, j, k');
    }
  }

  lemma ReplayOfSettled(c: Config, d: Disk)
    requires Consistent(c, d)
    ensures Replay(c, d) == d
  {
  }

  lemma MidListing(c: Config, base: Disk, j: Journal, k: nat, names: seq<Listed>)
    requires base.pending == map[] && k <= 2 && IsListing(Commit(base, j, k), names)
    ensures PendingFile(NameOf(j)) in names
    ensures forall x :: x in names ==> x == PendingFile(NameOf(j)) || (x.DoneFile? && x.name in base.done)
  {
    assert NameOf(j) in Commit(base, j, k).pending;
    forall x | x in names ensures x == PendingFile(NameOf(j)) || (x.DoneFile? && x.name in base.done) {
      if x.PendingFile? { assert PendingFile(x.name) in names; } else { assert DoneFile(x.name) in names; }
    }
  }

  lemma SettledListing(d: Disk, names: seq<Listed>)
    requires d.pending == map[] && IsListing(d, names)
    ensures forall x :: x in names ==> x.DoneFile? && x.name in d.done
  {
    forall x | x in names ensures x.DoneFile? && x.name in d.done {
      assert x == PendingFile(x.name) || x == DoneFile(x.name);
    }
  }

  /** Replay, whatever interrupts it and whatever order the directory is listed in, leaves a
      recoverable directory that means the same, and when it returns it has settled it.
      On a settled directory it writes nothing. */
  lemma RecoverKeepsMeaning(c: Config, d: Disk, f: Fault, names: seq<Listed>)
    requires Recoverable(c, d) && IsListing(d, names)
    ensures KeepsMeaning(c, d, f, Recover(c, d, f, names))
    ensures Consistent(c, d) ==> Recover(c, d, f, names) == Step(d, f, Done)
  {
    hide Recover, MidCommit;
    if Consistent(c, d) {
      SettledListing(d, names);
      RecoverSettled(c, d, f, names);
    } else {
      var base, j, k :| MidCommit(c, d, base, j, k);
      RecoverMidKeepsMeaning(c, d, base, j, k, f, names);
    }
  }

  // ----- Head-of-line safety at every instant -----

  predicate InFlight(e: Envelope) {
    e.record.attemptCount > 0 && !e.record.state.Acknowledged?
  }

  /** Record `i` was attempted and not acknowledged: then it is next in its batch, everything
      before it is acknowledged, and it is the only such record of the batch. */
  predicate AtHead(d: Disk, i: RecordId, j: RecordId)
    requires i in d.records && j in d.records
  {
    var e, g := d.records[i], d.records[j];
    InFlight(e) && Batch(g) == Batch(e) ==>
      && Batch(e) in d.checkpoints && Sequence(e) == d.checkpoints[Batch(e)].expectedNext
      && (Sequence(g) < Sequence(e) ==> g.record.state.Acknowledged?)
      && (InFlight(g) ==> i == j)
  }

  lemma SettledAtHead(c: Config, d: Disk, i: RecordId, j: RecordId)
    requires Consistent(c, d) && i in d.records && j in d.records
    ensures AtHead(d, i, j)
  {
    if InFlight(d.records[i]) && Batch(d.records[i]) == Batch(d.records[j]) {
      HeadOfLine(c, d, i, j);
      assert RecordOk(c, d, i);
    }
  }

  lemma EnqueueStageAtHead(c: Config, base: Disk, j: Journal, k: nat, i: RecordId, g: RecordId)
    requires Consistent(c, base) && LegalEnqueue(c, base, j)
    requires i in Commit(base, j, k).records && g in Commit(base, j, k).records
    ensures AtHead(Commit(base, j, k), i, g)
  {
    hide Consistent;
    var d := Commit(base, j, k);
    if i in base.records {
      if g in base.records {
        SettledAtHead(c, base, i, g);
        assert d.records[i] == base.records[i] && d.records[g] == base.records[g];
      } else {
        SettledAtHead(c, base, i, i);
      }
    }
  }

  lemma AckStageAtHead(c: Config, base: Disk, j: Journal, k: nat, i: RecordId, g: RecordId)
    requires Consistent(c, base) && LegalAck(c, base, j)
    requires i in Commit(base, j, k).records && g in Commit(base, j, k).records
    ensures AtHead(Commit(base, j, k), i, g)
  {
    hide Consistent;
    SettledAtHead(c, base, i, g);
    SettledAtHead(c, base, i, j.recordName);
    AckedWasInFlight(c, base, j);
  }

  lemma AckedWasInFlight(c: Config, base: Disk, j: Journal)
    requires Consistent(c, base) && LegalAck(c, base, j)
    ensures j.recordName in base.records && InFlight(base.records[j.recordName])
  {
    assert RecordOk(c, base, j.recordName);
  }

  /** Head-of-line safety holds of the files themselves, in the middle of any commit too. */
  lemma HeadOfLineAlways(c: Config, d: Disk, i: RecordId, j: RecordId)
    requires Recoverable(c, d) && i in d.records && j in d.records
    ensures AtHead(d, i, j)
  {
    hide LegalEnqueue, LegalAck, Commit, AtHead;
    if Consistent(c, d) {
      SettledAtHead(c, d, i, j);
    } else {
      var base, journal, k :| MidCommit(c, d, base, journal, k);
      if journal.operation.EnqueueOp? { EnqueueStageAtHead(c, base, journal, k, i, j); }
      else { AckStageAtHead(c, base, journal, k, i, j); }
    }
  }
}
