/** Why the limits on the number of files never bite: every journal names a record, every
    checkpoint has a first record, and records are limited. */
module QueueLimits {
  import opened Protocol
  import opened QueueRecord
  import opened QueueDisk
  import opened QueueJournal
  import opened QueueInvariant
  import opened QueueCommit
  import opened QueueReplay

  const SPARE_ENTRIES := 67

  lemma {:induction false} TwoNamesEach(names: set<JournalName>, ids: set<RecordId>)
    requires forall n :: n in names ==> n.recordId in ids
    ensures |names| <= 2 * |ids|
    decreases |ids|
  {
    if ids == {} {
      assert names == {};
    } else {
      var id :| id in ids;
      var pair := {JournalName(EnqueueOp, id), JournalName(AckOp, id)};
      forall n | n in names - pair ensures n.recordId in ids - {id} {
        assert n == JournalName(if n.operation.EnqueueOp? then EnqueueOp else AckOp, n.recordId);
      }
      TwoNamesEach(names - pair, ids - {id});
      Within(names, (names - pair) + pair);
    }
  }

  lemma {:induction false} Within<T>(a: set<T>, b: set<T>)
    requires a <= b
    ensures |a| <= |b|
    decreases |a|
  {
    if a != {} {
      var x :| x in a;
      Within(a - {x}, b - {x});
    }
  }

  predicate HasRecord(d: Disk, ids: set<RecordId>, b: BatchId) {
    exists id :: id in ids && id in d.records && SameBatch(d.records[id], b)
  }

  lemma {:induction false} OneRecordEach(d: Disk, batches: set<BatchId>, ids: set<RecordId>)
    requires forall b :: b in batches ==> HasRecord(d, ids, b)
    ensures |batches| <= |ids|
    decreases |batches|
  {
    if batches != {} {
      var b :| b in batches;
      var id :| id in ids && id in d.records && SameBatch(d.records[id], b);
      forall x | x in batches - {b} ensures HasRecord(d, ids - {id}, x) {
        var i :| i in ids && i in d.records && SameBatch(d.records[i], x);
        assert i in ids - {id};
      }
      OneRecordEach(d, batches - {b}, ids - {id});
    }
  }

  lemma DoneNamesRecords(c: Config, d: Disk)
    requires DonesOk(c, d)
    ensures forall n :: n in d.done.Keys ==> n.recordId in d.records.Keys
  {
    forall n | n in d.done.Keys ensures n.recordId in d.records.Keys { assert DoneOk(c, d, n); }
  }

  lemma SettledCounts(c: Config, d: Disk)
    requires Consistent(c, d)
    ensures |d.done| <= 2 * |d.records| && |d.checkpoints| <= |d.records|
  {
    DoneNamesRecords(c, d);
    TwoNamesEach(d.done.Keys, d.records.Keys);
    forall b | b in d.checkpoints.Keys ensures HasRecord(d, d.records.Keys, b) {
      assert CheckpointOk(c, d, b) && Occupied(d, b, 0);
      var id :| id in d.records && At(d.records[id], b, 0);
      assert SameBatch(d.records[id], b);
    }
    OneRecordEach(d, d.checkpoints.Keys, d.records.Keys);
  }

  lemma CommitNames(d: Disk, j: Journal, k: nat)
    requires k <= 2 && d.pending == map[]
    ensures var d' := Commit(d, j, k);
            && |d'.pending| == 1 && d'.done == d.done && d'.quarantine == d.quarantine
            && |d'.records| <= |d.records| + (if j.recordName in d.records then 0 else 1)
            && |d'.checkpoints| <= |d.checkpoints| + (if j.checkpointName in d.checkpoints then 0 else 1)
  {
    assert Commit(d, j, k).pending.Keys == {NameOf(j)};
    Within(PutEnvelope(d, j).Keys, d.records.Keys + {j.recordName});
    assert j.recordName in d.records ==> PutEnvelope(d, j).Keys == d.records.Keys;
    Within(PutPrefix(d, j).Keys, d.checkpoints.Keys + {j.checkpointName});
    assert j.checkpointName in d.checkpoints ==> PutPrefix(d, j).Keys == d.checkpoints.Keys;
  }

  lemma AckCounts(c: Config, d: Disk, j: Journal)
    requires Consistent(c, d) && LegalAck(c, d, j)
    ensures |d.done| + 1 <= 2 * |d.records| && j.recordName in d.records && j.checkpointName in d.checkpoints
  {
    hide RecordsOk, PairsOk, Gapless, CheckpointsOk, DonesOk, DoneOk, SoundRecord, Acked, Advanced;
    NotYetDone(c, d, j);
    DoneNamesRecords(c, d);
    var names := d.done.Keys + {NameOf(j)};
    TwoNamesEach(names, d.records.Keys);
    assert |names| == |d.done| + 1;
  }

  lemma MidCounts(c: Config, d: Disk, base: Disk, j: Journal, k: nat)
    requires MidCommit(c, d, base, j, k)
    ensures |d.pending| + |d.done| <= 2 * c.maxRecords
    ensures |d.records| <= c.maxRecords && |d.checkpoints| <= c.maxRecords
  {
    hide LegalAck, Commit;
    SettledCounts(c, base);
    CommitNames(base, j, k);
    if j.operation.AckOp? { AckCounts(c, base, j); }
  }

  lemma SettledSizes(c: Config, d: Disk)
    requires Consistent(c, d)
    ensures |d.pending| == 0 && |d.records| <= c.maxRecords
  {
  }

  /** Neither the limit on journals (two for each record) nor, with the lock file, one temporary
      file and up to 64 files set aside, the limit on directory entries is reached, at any stage
      of any commit. */
  lemma FileLimitsNeverBite(c: Config, d: Disk)
    requires Recoverable(c, d)
    ensures |d.pending| + |d.done| <= 2 * c.maxRecords
    ensures |d.records| + |d.checkpoints| + |d.pending| + |d.done| <= 4 * c.maxRecords
    ensures |d.quarantine| + 2 < SPARE_ENTRIES ==>
              |d.records| + |d.checkpoints| + |d.pending| + |d.done| + |d.quarantine| + 2
              < 4 * c.maxRecords + SPARE_ENTRIES
  {
    hide Consistent, MidCommit;
    if Consistent(c, d) {
      SettledCounts(c, d);
      SettledSizes(c, d);
    } else {
      var base, j, k :| MidCommit(c, d, base, j, k);
      MidCounts(c, d, base, j, k);
    }
  }
}
