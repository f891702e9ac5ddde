/** The guard's durable queue: one object over one directory.

    `fault` says which coming durable step the environment will make fail; it may be anything
    at the start of an operation, so every contract below covers a crash at every point. */
module UnixQueue {
  import opened Protocol
  import opened QueueRecord
  import opened QueueDisk
  import opened QueueJournal
  import opened QueueInvariant
  import opened QueueCommit
  import opened QueueReplay
  import opened QueueFence
  import opened QueueCapacity
  import opened QueueClaim
  import opened QueuePlans
  import opened QueueOperations
  import opened QueueOpen
  import opened QueueListing

  // ----- Sizes -----

  method Total<K, V>(m: map<K, V>, f: V -> nat) returns (n: nat)
    ensures n == Sum(m, f)
  {
    var rest := m;
    n := 0;
    while rest.Keys != {}
      invariant n + Sum(rest, f) == Sum(m, f)
      decreases |rest|
    {
      var k :| k in rest;
      SumWithout(rest, f, k);
      n, rest := n + f(rest[k]), rest - {k};
    }
  }

  method TotalSeq<V>(s: seq<V>, f: V -> nat) returns (n: nat)
    ensures n == SumSeq(s, f)
  {
    n := 0;
    var i := 0;
    while i < |s|
      invariant 0 <= i <= |s| && n == SumSeq(s[..i], f)
    {
      assert s[..i + 1][..i] == s[..i];
      n, i := n + f(s[i]), i + 1;
    }
    assert s[..|s|] == s;
  }

  // ----- Batches -----

  /** `validateBatchGroup` on a nonempty group and its checkpoint. */
  method CheckGroup(cp: Checkpoint, group: seq<Envelope>) returns (sound: bool)
    requires |group| > 0
    ensures sound <==> GroupSound(cp, group)
  {
    var first := Sequence(group[0]);
    if first != 0 && first != cp.expectedNext { return false; }
    var i := 0;
    while i < |group|
      invariant 0 <= i <= |group|
      invariant forall k :: 0 <= k < i ==> group[k].owner == group[0].owner && ItemSound(cp, group[k], k == |group| - 1)
      invariant forall k :: 0 < k < i ==> Sequence(group[k]) == Sequence(group[k - 1]) + 1
      invariant forall k :: 0 <= k < i ==> Sequence(group[k]) == first + k
    {
      var e := group[i];
      if e.owner != group[0].owner { return false; }
      if i > 0 && Sequence(e) != Sequence(group[i - 1]) + 1 { return false; }
      if Sequence(e) < cp.expectedNext {
        if Sequence(e) !in cp.completed || !e.record.state.Acknowledged? || cp.completed[Sequence(e)] != EntryOf(e) {
          return false;
        }
      } else if e.record.state.Acknowledged? {
        return false;
      } else if e.record.state.Discarded? && i != |group| - 1 {
        return false;
      }
      i := i + 1;
    }
    if first <= cp.expectedNext {
      var last := cp.expectedNext - 1;
      if first <= last && (Sequence(group[|group| - 1]) < last || Sequence(group[last - first]) != last) {
        return false;
      }
    }
    return true;
  }

  /** The highest sequence among the records of a batch, -1 if it has none. */
  ghost predicate IsHighest(d: Disk, b: BatchId, highest: int) {
    && (forall id :: id in d.records && SameBatch(d.records[id], b) ==> Sequence(d.records[id]) <= highest)
    && (highest != -1 ==>
          exists id :: id in d.records && SameBatch(d.records[id], b) && Sequence(d.records[id]) == highest)
  }

  /** The sequence a batch accepts next is one past the highest, or the expected one if that is later. */
  lemma NextIsAfterHighest(d: Disk, b: BatchId, expected: int, highest: int, s: int)
    requires IsHighest(d, b, highest) && 0 <= expected
    ensures NextSequence(d, b, expected, s) <==> s == if highest >= expected then highest + 1 else expected
  {
  }

  predicate Clashes(g: Envelope, e: Envelope) {
    && Batch(g) == Batch(e)
    && ( || g.owner != e.owner
         || g.record.state.Discarded?
         || (if Id(g) == Id(e) then g != e else Sequence(g) == Sequence(e)))
  }

  lemma ReadableId(c: Config, d: Disk, id: RecordId)
    requires AllReadable(c, d) && id in d.records
    ensures Id(d.records[id]) == id
  {
    assert Readable(c, id, d.records[id]);
  }

  lemma AdmitsUnlessClash(c: Config, d: Disk, e: Envelope)
    requires AllReadable(c, d)
    ensures BatchAdmits(d, e) <==> forall id :: id in d.records ==> !Clashes(d.records[id], e)
  {
    forall id | id in d.records ensures Id(d.records[id]) == id { assert Readable(c, id, d.records[id]); }
  }

  /** What a set of record files may still grow by. */
  ghost function Headroom(c: Config, files: map<RecordId, Envelope>): int {
    |files| * c.maxRecordBytes - Sum(files, c.envelopeBytes)
  }

  lemma HeadroomStep(c: Config, files: map<RecordId, Envelope>, id: RecordId)
    requires id in files
    ensures Headroom(c, files) == Headroom(c, files - {id}) + c.maxRecordBytes - c.envelopeBytes(files[id])
  {
    SumWithout(files, c.envelopeBytes, id);
    SizeWithout(files, id);
    OneMore(|files| - 1, c.maxRecordBytes);
  }

  function Owing(files: map<RecordId, Envelope>, done: map<JournalName, Journal>): set<RecordId> {
    set id | id in files && JournalName(AckOp, id) !in done
  }

  lemma OwingStep(files: map<RecordId, Envelope>, done: map<JournalName, Journal>, id: RecordId)
    requires id in files
    ensures |Owing(files, done)| == |Owing(files - {id}, done)| + if JournalName(AckOp, id) !in done then 1 else 0
  {
    if JournalName(AckOp, id) !in done {
      assert Owing(files, done) == Owing(files - {id}, done) + {id};
    } else {
      assert Owing(files, done) == Owing(files - {id}, done);
    }
  }

  class UnixQueue {
    const config: Config
    var records: map<RecordId, Envelope>
    var checkpoints: map<BatchId, Checkpoint>
    var pending: map<JournalName, Journal>
    var done: map<JournalName, Journal>
    var quarantine: seq<Journal>
    var fault: Fault

    function Contents(): Disk
      reads this
    {
      Disk(records, checkpoints, pending, done, quarantine)
    }

    ghost function Now(r: Status): Step
      reads this
    {
      Step(Contents(), fault, r)
    }

    /** What the directory says once an interrupted commit is settled. */
    ghost function Meaning(): Disk
      reads this
    {
      Replay(config, Contents())
    }

    ghost predicate Valid()
      reads this
    {
      Limits(config) && Recoverable(config, Contents())
    }

    constructor (config: Config, fault: Fault)
      requires Limits(config)
      ensures Valid() && this.config == config && this.fault == fault
      ensures Contents() == Disk(map[], map[], map[], map[], [])
      ensures config.maxRecordBytes <= config.maxBytes ==> Solvent(config, Contents())
    {
      this.config := config;
      this.fault := fault;
      records, checkpoints, pending, done, quarantine := map[], map[], map[], map[], [];
      new;
      assert Consistent(config, Contents());
      assert Unacked(Contents()) == {};
    }

    // ----- Durable steps -----

    method Usage() returns (n: nat)
      ensures n == Used(config, Contents())
    {
      var r := Total(records, config.envelopeBytes);
      var k := Total(checkpoints, config.checkpointBytes);
      var p := Total(pending, config.journalBytes);
      var d := Total(done, config.journalBytes);
      var q := TotalSeq(quarantine, config.journalBytes);
      return r + k + p + d + q;
    }

    method Sync() returns (effective: bool, r: Status)
      modifies `fault
      ensures if old(fault).after == 0
              then effective == old(fault).effective && r == Failed(Interrupted) && fault == old(fault)
              else effective && r == Done && fault == old(fault).(after := old(fault).after - 1)
    {
      if fault.after == 0 { return fault.effective, Failed(Interrupted); }
      fault := fault.(after := fault.after - 1);
      return true, Done;
    }

    method PutRecordFile(e: Envelope) returns (r: Status)
      modifies `records, `fault
      ensures Now(r) == PutRecord(config, old(Contents()), old(fault), e)
    {
      var used := Usage();
      if used + config.envelopeBytes(e) > config.maxBytes { return Failed(QueueFull); }
      var effective;
      effective, r := Sync();
      if effective { records := records[Id(e) := e]; }
    }

    method PutCheckpointFile(cp: Checkpoint) returns (r: Status)
      modifies `checkpoints, `fault
      ensures Now(r) == PutCheckpoint(config, old(Contents()), old(fault), cp)
    {
      var used := Usage();
      if used + config.checkpointBytes(cp) > config.maxBytes { return Failed(QueueFull); }
      var effective;
      effective, r := Sync();
      if effective { checkpoints := checkpoints[cp.batchId := cp]; }
    }

    method CreateJournalFile(j: Journal) returns (r: Status)
      modifies `pending, `fault
      ensures Now(r) == CreateJournal(config, old(Contents()), old(fault), j)
    {
      var used := Usage();
      if used + config.journalBytes(j) > config.maxBytes { return Failed(QueueFull); }
      if NameOf(j) in pending { return Failed(Conflict); }
      var effective;
      effective, r := Sync();
      if effective { pending := pending[NameOf(j) := j]; }
    }

    method FinishTransaction(n: JournalName) returns (r: Status)
      requires n in pending
      modifies `pending, `done, `fault
      ensures Now(r) == Retain(old(Contents()), old(fault), n)
    {
      var j := pending[n];
      if NameOf(j) in done { return Failed(Conflict); }
      var effective;
      effective, r := Sync();
      if effective { pending, done := pending - {n}, done[NameOf(j) := j]; }
    }

    method Quarantine(file: Listed) returns (r: Status)
      requires if file.PendingFile? then file.name in pending else file.name in done
      modifies `pending, `done, `quarantine, `fault
      ensures Now(r) == if file.PendingFile? then QuarantinePending(old(Contents()), old(fault), file.name)
                        else QuarantineDone(old(Contents()), old(fault), file.name)
    {
      var effective;
      effective, r := Sync();
      if effective {
        if file.PendingFile? {
          quarantine, pending := quarantine + [pending[file.name]], pending - {file.name};
        } else {
          quarantine, done := quarantine + [done[file.name]], done - {file.name};
        }
      }
    }

    // ----- Journals -----

    /** Looks through the records of a candidate's batch. */
    method ScanBatch(e: Envelope) returns (error: Option<Error>, highest: int)
      ensures !AllReadable(config, Contents()) ==> error == Some(Corrupt)
      ensures AllReadable(config, Contents()) && !BatchAdmits(Contents(), e) ==> error == Some(Conflict)
      ensures AllReadable(config, Contents()) && BatchAdmits(Contents(), e) ==>
                error == None && IsHighest(Contents(), Batch(e), highest)
    {
      hide Readable, Clashes, BatchAdmits;
      var rest, clash := records.Keys, false;
      highest := -1;
      while rest != {}
        invariant rest <= records.Keys && highest >= -1
        invariant forall id :: id in records && id !in rest ==> Readable(config, id, records[id])
        invariant clash <==> exists id :: id in records && id !in rest && Clashes(records[id], e)
        invariant forall id :: id in records && id !in rest && SameBatch(records[id], Batch(e)) ==>
                    Sequence(records[id]) <= highest
        invariant highest == -1 ||
                  exists id :: id in records && id !in rest
                               && SameBatch(records[id], Batch(e)) && Sequence(records[id]) == highest
        decreases |rest|
      {
        var id :| id in rest;
        if !Readable(config, id, records[id]) { return Some(Corrupt), highest; }
        if Clashes(records[id], e) { clash := true; }
        if SameBatch(records[id], Batch(e)) && Sequence(records[id]) > highest { highest := Sequence(records[id]); }
        rest := rest - {id};
      }
      AdmitsUnlessClash(config, Contents(), e);
      return if clash then Some(Conflict) else None, highest;
    }

    method ValidateAuthority(j: Journal) returns (error: Option<Error>)
      requires WellNamed(j)
      ensures error == AuthorityError(config, Contents(), j)
    {
      var cp := ReadCheckpoint(config, Contents(), j.checkpointName);
      if cp.Err? && !cp.error.NotFound? { return Some(cp.error); }
      if cp.Ok? {
        var created := j.oldCheckpoint.None? && cp.value == j.newCheckpoint && cp.value.expectedNext == 0;
        var existing := j.oldCheckpoint.Some? && j.oldCheckpoint.value == cp.value;
        if (!created && !existing) || cp.value != j.newCheckpoint { return Some(Conflict); }
      } else if j.oldCheckpoint.Some? || j.newCheckpoint != EmptyCheckpoint(j.checkpointName) {
        return Some(Conflict);
      }
      var highest;
      error, highest := ScanBatch(j.newEnvelope);
      if error.Some? { return; }
      var expected := if cp.Ok? then cp.value.expectedNext else 0;
      NextIsAfterHighest(Contents(), j.checkpointName, expected, highest, Sequence(j.newEnvelope));
      if highest >= expected { expected := highest + 1; }
      if j.recordName !in records && Sequence(j.newEnvelope) != expected { return Some(Conflict); }
    }

    method EnqueueCheckpoint(j: Journal) returns (r: Status)
      modifies `checkpoints, `fault
      ensures Now(r) == EnqueueCheckpointStep(config, old(Contents()), old(fault), j)
    {
      if !EnqueueShape(config, j) || !WellNamed(j) || !SoundRecord(config, j.newEnvelope) { return Failed(Corrupt); }
      var error := ValidateAuthority(j);
      if error.Some? { return Failed(error.value); }
      if !CheckpointFits(config, j.newCheckpoint) { return Failed(Corrupt); }
      var current := ReadCheckpoint(config, Contents(), j.checkpointName);
      if current.Ok? {
        if current.value != j.newCheckpoint || (j.oldCheckpoint.Some? && j.oldCheckpoint.value != current.value) {
          return Failed(Conflict);
        }
        return Done;
      }
      if !current.error.NotFound? { return Failed(current.error); }
      if j.oldCheckpoint.Some? || j.newCheckpoint != EmptyCheckpoint(j.checkpointName) { return Failed(Corrupt); }
      r := PutCheckpointFile(j.newCheckpoint);
    }

    method EnqueueRecord(j: Journal) returns (r: Status)
      modifies `records, `fault
      ensures Now(r) == EnqueueRecordStep(config, old(Contents()), old(fault), j)
    {
      if !EnvelopeFits(config, j.newEnvelope) { return Failed(Corrupt); }
      var current := ReadRecord(config, Contents(), j.recordName);
      if current.Ok? { return if current.value != j.newEnvelope then Failed(Conflict) else Done; }
      if !current.error.NotFound? { return Failed(current.error); }
      r := PutRecordFile(j.newEnvelope);
    }

    /** Also returns the record as it was read. */
    method AckRecord(j: Journal) returns (r: Status, was: Result<Envelope>)
      modifies `records, `fault
      ensures Now(r) == AckRecordStep(config, old(Contents()), old(fault), j)
      ensures r.Done? ==> j.recordName in old(records) && was == Ok(old(records)[j.recordName])
    {
      was := ReadRecord(config, Contents(), j.recordName);
      if !AckShape(config, j) || !WellNamed(j) || j.oldRecord.None? || j.oldCheckpoint.None? {
        return Failed(Corrupt), was;
      }
      if !SoundRecord(config, j.newEnvelope) { return Failed(Corrupt), was; }
      if was.Err? { return Failed(was.error), was; }
      if !AckMatches(was.value, j.newEnvelope) { return Failed(Corrupt), was; }
      if was.value == j.newEnvelope { return Done, was; }
      if Some(was.value) != j.oldRecord { return Failed(Conflict), was; }
      r := PutRecordFile(j.newEnvelope);
    }

    method AckCheckpoint(j: Journal, e: Envelope) returns (r: Status)
      modifies `checkpoints, `fault
      ensures Now(r) == AckCheckpointStep(config, old(Contents()), old(fault), j, e)
    {
      var current := ReadCheckpoint(config, Contents(), j.checkpointName);
      if current.Err? { return Failed(current.error); }
      if current.value == j.newCheckpoint { return Done; }
      if !CheckpointExtends(current.value, j.newCheckpoint, e) { return Failed(Corrupt); }
      if Some(current.value) != j.oldCheckpoint { return Failed(Conflict); }
      r := PutCheckpointFile(j.newCheckpoint);
    }

    method ApplyTransaction(n: JournalName) returns (r: Status)
      requires n in pending
      modifies this
      ensures Now(r) == Apply(config, old(Contents()), old(fault), n)
    {
      var j := pending[n];
      if j.operation.EnqueueOp? {
        r := EnqueueCheckpoint(j);
        if r.Failed? { return; }
        r := EnqueueRecord(j);
        if r.Failed? { return; }
      } else {
        var was;
        r, was := AckRecord(j);
        if r.Failed? { return; }
        r := AckCheckpoint(j, was.value);
        if r.Failed? { return; }
      }
      r := FinishTransaction(n);
    }

    method CommitTransaction(j: Journal) returns (r: Status)
      modifies this
      ensures Now(r) == CommitJournal(config, old(Contents()), old(fault), j)
    {
      if config.journalBytes(j) > MAX_TRANSACTION_BYTES { return Failed(QueueFull); }
      r := CreateJournalFile(j);
      if r.Failed? { return; }
      r := ApplyTransaction(NameOf(j));
    }

    // ----- Listings -----

    method ListJournals() returns (names: seq<Listed>)
      ensures IsListing(Contents(), names)
    {
      names := [];
      var rest := pending.Keys;
      while rest != {}
        invariant rest <= pending.Keys
        invariant forall n :: n in pending && n !in rest <==> PendingFile(n) in names
        invariant forall x :: x in names ==> x.PendingFile?
        invariant forall i, j :: 0 <= i < j < |names| ==> names[i] != names[j]
        decreases |rest|
      {
        var n :| n in rest;
        names, rest := names + [PendingFile(n)], rest - {n};
      }
      rest := done.Keys;
      while rest != {}
        invariant rest <= done.Keys
        invariant forall n :: n in pending <==> PendingFile(n) in names
        invariant forall n :: n in done && n !in rest <==> DoneFile(n) in names
        invariant forall i, j :: 0 <= i < j < |names| ==> names[i] != names[j]
        decreases |rest|
      {
        var n :| n in rest;
        names, rest := names + [DoneFile(n)], rest - {n};
      }
    }

    method ListIds() returns (ids: seq<RecordId>)
      ensures forall id :: id in records <==> id in ids
    {
      ids := [];
      var rest := records.Keys;
      while rest != {}
        invariant rest <= records.Keys && forall id :: id in records && id !in rest <==> id in ids
        decreases |rest|
      {
        var id :| id in rest;
        ids, rest := ids + [id], rest - {id};
      }
    }

    /** `boundRecords`, or every record. */
    method Enumerate(b: Option<Binding>) returns (items: seq<Envelope>)
      requires AllReadable(config, Contents())
      ensures Enumerates(Contents(), b, items)
    {
      hide AllReadable;
      items := [];
      var rest := records.Keys;
      while rest != {}
        invariant rest <= records.Keys
        invariant forall id :: id in records && id !in rest && (b.Some? ==> records[id].owner == b.value) ==>
                    records[id] in items
        invariant forall e :: e in items ==>
                    Id(e) in records && Id(e) !in rest && records[Id(e)] == e && (b.Some? ==> e.owner == b.value)
        invariant DistinctIds(items)
        decreases |rest|
      {
        var id :| id in rest;
        ReadableId(config, Contents(), id);
        if b.None? || records[id].owner == b.value { items := items + [records[id]]; }
        rest := rest - {id};
      }
    }

    method InBatchOrder(b: Option<Binding>) returns (items: seq<Envelope>)
      requires AllReadable(config, Contents())
      ensures b.None? ==> Lists(Contents(), items)
      ensures b.Some? ==> ListsBound(Contents(), b.value, items)
    {
      var all := Enumerate(b);
      items := Sort(all);
      SortedEnumeration(Contents(), b, all, items);
    }

    // ----- The fence -----

    method RecoverListed(file: Listed) returns (r: Status)
      modifies this
      ensures Now(r) == RecoverOne(config, old(Contents()), old(fault), file)
    {
      match file
      case DoneFile(n) =>
        if n !in done { return Failed(Corrupt); }
        if VerifyError(config, Contents(), done[n]).Some? {
          r := Quarantine(file);
          if r.Done? { r := Failed(Corrupt); }
          return;
        }
        return if n != NameOf(done[n]) then Failed(Corrupt) else Done;
      case PendingFile(n) =>
        if n !in pending { return Failed(Corrupt); }
        r := ApplyTransaction(n);
        if r.Failed? && (r.error.Corrupt? || r.error.Conflict?) && n in pending { r := Quarantine(file); }
    }

    method RecoverTransactions() returns (r: Status, ghost names: seq<Listed>)
      modifies this
      ensures IsListing(old(Contents()), names)
      ensures Now(r) == Recover(config, old(Contents()), old(fault), names)
    {
      var list := ListJournals();
      names := list;
      var i := 0;
      r := Done;
      while i < |list|
        invariant 0 <= i <= |list| && r.Done?
        invariant Recover(config, old(Contents()), old(fault), list) == Recover(config, Contents(), fault, list[i..])
      {
        r := RecoverListed(list[i]);
        assert list[i..][1..] == list[i + 1..];
        if r.Failed? { return; }
        i := i + 1;
      }
    }

    method ReservedUsage() returns (n: int)
      ensures n == Reserved(config, Contents())
    {
      var used := Usage();
      var rest, growth, missing := records, 0, 0;
      while rest.Keys != {}
        invariant rest.Keys <= records.Keys
        invariant growth + Headroom(config, rest) == Headroom(config, records)
        invariant missing + |Owing(rest, done)| == |Owing(records, done)|
        decreases |rest|
      {
        var id :| id in rest;
        HeadroomStep(config, rest, id);
        OwingStep(rest, done, id);
        growth := growth + config.maxRecordBytes - config.envelopeBytes(rest[id]);
        if JournalName(AckOp, id) !in done { missing := missing + 1; }
        rest := rest - {id};
      }
      assert Owing(rest, done) == {} && Owing(records, done) == Unacked(Contents());
      return used + growth + missing * MAX_TRANSACTION_BYTES + config.maxRecordBytes;
    }

    method ValidateAll() returns (error: Option<Error>)
      ensures error == ValidationError(config, Contents())
    {
      if pending != map[] { return Some(Corrupt); }
      if !AllCheckpointsReadable(config, Contents()) || !AllReadable(config, Contents()) { return Some(Corrupt); }
      if |quarantine| > MAX_QUARANTINED { return Some(QueueFull); }
      var reserved := ReservedUsage();
      return if |records| > config.maxRecords || reserved > config.maxBytes then Some(QueueFull) else None;
    }

    method ReconcileCheckpoints(items: seq<Envelope>) returns (r: Status)
      modifies `checkpoints, `fault
      ensures Now(r) == Reconcile(config, old(Contents()), old(fault), items)
    {
      var i := 0;
      r := Done;
      while i < |items|
        invariant 0 <= i <= |items| && r.Done?
        invariant Reconcile(config, old(Contents()), old(fault), items) ==
                    Reconcile(config, Contents(), fault, items[i..])
      {
        r := ReconcileItem(items[i]);
        assert items[i..][1..] == items[i + 1..];
        if r.Failed? { return; }
        i := i + 1;
      }
    }

    method ReconcileItem(e: Envelope) returns (r: Status)
      modifies `checkpoints, `fault
      ensures Now(r) == ReconcileOne(config, old(Contents()), old(fault), e)
    {
      if !e.record.state.Acknowledged? { return Done; }
      var cp := ReadCheckpoint(config, Contents(), Batch(e));
      if cp.Err? { return Failed(cp.error); }
      if Sequence(e) < cp.value.expectedNext {
        return if Sequence(e) in cp.value.completed && cp.value.completed[Sequence(e)] == EntryOf(e) then Done
               else Failed(Corrupt);
      }
      if Sequence(e) != cp.value.expectedNext { return Failed(Corrupt); }
      if !CheckpointFits(config, Advanced(cp.value, e)) { return Failed(QueueFull); }
      r := PutCheckpointFile(Advanced(cp.value, e));
    }

    method ValidateBatchGroups(items: seq<Envelope>) returns (error: Option<Error>)
      ensures error == GroupsError(config, Contents(), items, 0)
    {
      var start := 0;
      while start < |items|
        invariant 0 <= start <= |items|
        invariant GroupsError(config, Contents(), items, 0) == GroupsError(config, Contents(), items, start)
      {
        var end := start + 1;
        while end < |items| && Batch(items[end]) == Batch(items[start])
          invariant start < end <= |items|
          invariant forall k :: start <= k < end ==> Batch(items[k]) == Batch(items[start])
          invariant GroupEnd(items, start, start + 1) == GroupEnd(items, start, end)
        {
          end := end + 1;
        }
        var cp := ReadCheckpoint(config, Contents(), Batch(items[start]));
        if cp.Err? { return Some(cp.error); }
        var sound := CheckGroup(cp.value, items[start..end]);
        if !sound { return Some(Corrupt); }
        start := end;
      }
      return None;
    }

    method SettleJournals() returns (r: Status, ghost names: seq<Listed>)
      modifies this
      ensures IsListing(old(Contents()), names)
      ensures Now(r) == Settle(config, old(Contents()), old(fault), names)
      ensures r.Done? ==> AllReadable(config, Contents())
    {
      r, names := RecoverTransactions();
      if r.Failed? { return; }
      var error := ValidateAll();
      if error.Some? { r := Failed(error.value); }
    }

    method VetBatches() returns (r: Status, ghost items: seq<Envelope>)
      requires AllReadable(config, Contents())
      modifies `checkpoints, `fault
      ensures Lists(old(Contents()), items)
      ensures Now(r) == Vet(config, old(Contents()), old(fault), items)
    {
      var list := InBatchOrder(None);
      items := list;
      r := ReconcileCheckpoints(list);
      if r.Failed? { return; }
      var error := ValidateBatchGroups(list);
      if error.Some? { r := Failed(error.value); }
    }

    /** What every operation does before it acts.  It keeps the meaning of the directory, and
        when it passes, the directory is settled, readable and within its reserve. */
    method WithLock() returns (r: Status)
      requires Valid()
      modifies this
      ensures Valid() && KeepsMeaning(config, old(Contents()), old(fault), Now(r))
      ensures Solvent(config, old(Contents())) ==> Solvent(config, Contents()) && (r.Failed? ==> r.error.Interrupted?)
      ensures r.Done? ==> AllReadable(config, Contents()) && Funded(config, Contents())
      ensures Consistent(config, old(Contents())) && Funded(config, old(Contents())) ==>
                r.Done? && Contents() == old(Contents())
    {
      ghost var names, items := [], [];
      r, names := SettleJournals();
      if r.Done? { r, items := VetBatches(); }
      FencePasses(config, old(Contents()), old(fault), names, items);
    }

    // ----- Rewriting operations -----

    method StoreRecord(e: Envelope) returns (r: Status)
      modifies `records, `fault
      ensures Now(r) == WriteRecord(config, old(Contents()), old(fault), e)
    {
      if !RecordValid(e.record) || config.recordBytes(e.record) > config.maxRecordBytes { return Failed(UnsafeRecord); }
      if e.evidenceHash != e.record.evidence { return Failed(Conflict); }
      if !EnvelopeFits(config, e) { return Failed(UnsafeRecord); }
      r := PutRecordFile(e);
    }

    method Carry(plan: Result<Envelope>) returns (r: Result<Record>)
      modifies `records, `fault
      ensures Outcome(Contents(), fault, r) == CarryOut(config, old(Contents()), old(fault), plan)
    {
      if plan.Err? { return Err(plan.error); }
      var s := StoreRecord(plan.value);
      return if s.Done? then Ok(plan.value.record) else Err(s.error);
    }

    method Get(b: Binding, id: RecordId) returns (r: Result<Record>)
      requires Valid()
      modifies this
      ensures Valid() && Meaning() == old(Meaning())
      ensures Solvent(config, old(Contents())) ==> Solvent(config, Contents())
      ensures r.Ok? ==> ValidBinding(b) && id in Meaning().records && Meaning().records[id].owner == b
                        && r.value == Meaning().records[id].record
      ensures ValidBinding(b) && Consistent(config, old(Contents())) && Funded(config, old(Contents())) ==>
                && Contents() == old(Contents())
                && (r.Ok? <==> id in records && records[id].owner == b)
                && (r.Err? ==> r.error.NotFound?)
    {
      if !ValidBinding(b) { return Err(UnsafeRecord); }
      var s := WithLock();
      if s.Failed? { return Err(s.error); }
      var e := Owned(config, Contents(), b, id);
      ReadOfOwned(config, Contents(), b, id);
      return if e.Ok? then Ok(e.value.record) else Err(e.error);
    }

    /** Claims the ready head of the first batch that has one. */
    method Claim(b: Binding, now: Instant) returns (r: Result<Record>)
      requires Valid()
      modifies this
      ensures Valid()
      ensures var m := old(Meaning());
              Rewrites(config, old(Contents()), old(fault), Contents(), ClaimPlan(config, m, Listing(m, b), b, now), r)
    {
      hide Rewrites, CarryOut, Recoverable, Replay, Solvent, Funded, Consistent, AllReadable, ListsBound,
           GroupsError, Scan, Listing;
      ghost var plan := ClaimPlan(config, Meaning(), Listing(Meaning(), b), b, now);
      if !ValidBinding(b) || now == ZERO_TIME {
        NoFence(config, Contents(), fault, plan, UnsafeRecord);
        return Err(UnsafeRecord);
      }
      var s := WithLock();
      ghost var fenced := Now(s);
      if s.Failed? {
        RefusalChangesNothing(config, old(Contents()), old(fault), fenced, plan, s.error);
        return Err(s.error);
      }
      var items := InBatchOrder(Some(b));
      ListingIs(Contents(), b, items);
      var error := ValidateBatchGroups(items);
      if error.Some? {
        RefusalChangesNothing(config, old(Contents()), old(fault), fenced, plan, error.value);
        return Err(error.value);
      }
      var choice := SelectClaim(items, now);
      var decided := match choice
        case Chosen(e) => Ok(e.(record := Sent(e.record, now)))
        case ClockBehind => Err(UnsafeRecord)
        case NoneReady => Err(NotReady)
        case NoneLeft => Err(NotFound);
      ClaimIsSanctioned(config, Contents(), items, b, now);
      PlanFinishes(config, old(Contents()), old(fault), fenced, plan);
      r := Carry(decided);
    }

    /** Puts one record in flight of the owner back to pending; which one, the listing decides. */
    method RecoverSending(b: Binding, now: Instant) returns (r: Result<Record>, ghost items: seq<Envelope>)
      requires Valid()
      modifies this
      ensures Valid() && Enumerates(old(Meaning()), Some(b), items)
      ensures Rewrites(config, old(Contents()), old(fault), Contents(), RecoverPlan(items, b, now), r)
    {
      hide Rewrites, CarryOut, Recoverable, Replay, Solvent, Funded, Consistent, AllReadable, Enumerates;
      items := SomeEnumeration(config, Contents(), b);
      if !ValidBinding(b) || now == ZERO_TIME {
        NoFence(config, Contents(), fault, RecoverPlan(items, b, now), UnsafeRecord);
        return Err(UnsafeRecord), items;
      }
      var s := WithLock();
      ghost var fenced := Now(s);
      if s.Failed? {
        RefusalChangesNothing(config, old(Contents()), old(fault), fenced, RecoverPlan(items, b, now), s.error);
        return Err(s.error), items;
      }
      var bound := Enumerate(Some(b));
      items := bound;
      var i := 0;
      while i < |bound| && !bound[i].record.state.Sending?
        invariant 0 <= i <= |bound|
        invariant FirstSending(bound, 0, now) == FirstSending(bound, i, now)
      {
        i := i + 1;
      }
      var decided := Err(NotFound);
      if i < |bound| {
        var e := bound[i];
        decided := if e.record.lastAttemptAt.None? || now < e.record.lastAttemptAt.value then Err(UnsafeRecord)
                   else Ok(e.(record := Requeued(e.record)));
      }
      RecoverIsSanctioned(config, Contents(), items, b, now);
      PlanFinishes(config, old(Contents()), old(fault), fenced, decided);
      r := Carry(decided);
    }

    /** Parks a record whose delivery was refused. */
    method Hold(b: Binding, id: RecordId, class_: HoldClass) returns (r: Result<Record>)
      requires Valid()
      modifies this
      ensures Valid()
      ensures Rewrites(config, old(Contents()), old(fault), Contents(),
                       HoldPlan(config, old(Meaning()), b, id, class_), r)
      ensures r.Ok? ==> Funded(config, Contents()) && Consistent(config, Contents())
    {
      ghost var plan := HoldPlan(config, Meaning(), b, id, class_);
      var s := WithLock();
      ghost var fenced := Now(s);
      if s.Failed? {
        RefusalChangesNothing(config, old(Contents()), old(fault), fenced, plan, s.error);
        return Err(s.error);
      }
      var decided := HoldPlan(config, Contents(), b, id, class_);
      HoldIsSanctioned(config, Contents(), b, id, class_, ZERO_TIME);
      PlanFinishes(config, old(Contents()), old(fault), fenced, decided);
      ghost var settled := Contents();
      r := Carry(decided);
      if r.Ok? { EditKeeps(config, settled, decided.value); }
    }

    method Reject(b: Binding, id: RecordId) returns (r: Result<Record>)
      requires Valid()
      modifies this
      ensures Valid()
      ensures ValidBinding(b) ==>
                Rewrites(config, old(Contents()), old(fault), Contents(),
                         HoldPlan(config, old(Meaning()), b, id, HeldRejected), r)
      ensures !ValidBinding(b) ==> r.Err?
      ensures var m, plan := old(Meaning()), HoldPlan(config, old(Meaning()), b, id, HeldRejected);
              Meaning() == m || (plan.Ok? && Meaning() == WithRecord(m, plan.value))
      ensures Solvent(config, old(Contents())) ==> Solvent(config, Contents())
    {
      hide Solvent, Funded, Consistent, AllReadable, Recoverable;
      r := Hold(b, id, HeldRejected);
      if r.Err? { return; }
      ConsistentMeans(config, Contents());
      r := Get(b, id);
    }

    /** A delivery failed: schedule the next attempt, or park the record if it may not be retried. */
    method Fail(b: Binding, id: RecordId, now: Instant, retryable: bool, minimumDelay: int) returns (r: Result<Record>)
      requires Valid()
      modifies this
      ensures Valid()
      ensures retryable ==>
                Rewrites(config, old(Contents()), old(fault), Contents(),
                         FailPlan(config, old(Meaning()), b, id, now, minimumDelay), r)
      ensures !retryable && !ValidBinding(b) ==> r.Err?
      ensures !retryable ==>
                var m, plan := old(Meaning()), HoldPlan(config, old(Meaning()), b, id, HeldRejected);
                Meaning() == m || (plan.Ok? && Meaning() == WithRecord(m, plan.value))
      ensures !retryable && ValidBinding(b) ==>
                Rewrites(config, old(Contents()), old(fault), Contents(),
                         HoldPlan(config, old(Meaning()), b, id, HeldRejected), r)
      ensures Solvent(config, old(Contents())) ==> Solvent(config, Contents())
    {
      hide Rewrites, Owned, FailDelay, CarryOut, Recoverable, Replay, Solvent, Funded, Consistent, AllReadable;
      if !retryable {
        r := Reject(b, id);
        return;
      }
      ghost var plan := FailPlan(config, Meaning(), b, id, now, minimumDelay);
      if !ValidBinding(b) {
        NoFence(config, Contents(), fault, plan, UnsafeRecord);
        return Err(UnsafeRecord);
      }
      var s := WithLock();
      ghost var fenced := Now(s);
      if s.Failed? {
        RefusalChangesNothing(config, old(Contents()), old(fault), fenced, plan, s.error);
        return Err(s.error);
      }
      var decided := FailPlan(config, Contents(), b, id, now, minimumDelay);
      FailIsSanctioned(config, Contents(), b, id, now, minimumDelay);
      PlanFinishes(config, old(Contents()), old(fault), fenced, decided);
      r := Carry(decided);
    }

    method Discard(b: Binding, id: RecordId, now: Instant, authorized: bool, authority: Authority, reason: string)
      returns (r: Result<Record>)
      requires Valid()
      modifies this
      ensures Valid()
      ensures Rewrites(config, old(Contents()), old(fault), Contents(),
                       DiscardPlan(config, old(Meaning()), b, id, now, authorized, authority, reason), r)
    {
      ghost var plan := DiscardPlan(config, Meaning(), b, id, now, authorized, authority, reason);
      if !authorized {
        NoFence(config, Contents(), fault, plan, Unauthorized);
        return Err(Unauthorized);
      }
      if !ValidBinding(b) {
        NoFence(config, Contents(), fault, plan, UnsafeRecord);
        return Err(UnsafeRecord);
      }
      var s := WithLock();
      ghost var fenced := Now(s);
      if s.Failed? {
        RefusalChangesNothing(config, old(Contents()), old(fault), fenced, plan, s.error);
        return Err(s.error);
      }
      var decided := DiscardPlan(config, Contents(), b, id, now, authorized, authority, reason);
      DiscardIsSanctioned(config, Contents(), b, id, now, authorized, authority, reason);
      PlanFinishes(config, old(Contents()), old(fault), fenced, decided);
      r := Carry(decided);
    }

    method ManualRetry(b: Binding, id: RecordId, now: Instant, authorized: bool) returns (r: Result<Record>)
      requires Valid()
      modifies this
      ensures Valid()
      ensures Rewrites(config, old(Contents()), old(fault), Contents(),
                       ManualRetryPlan(config, old(Meaning()), b, id, now, authorized), r)
    {
      ghost var plan := ManualRetryPlan(config, Meaning(), b, id, now, authorized);
      if !authorized {
        NoFence(config, Contents(), fault, plan, Unauthorized);
        return Err(Unauthorized);
      }
      var s := WithLock();
      ghost var fenced := Now(s);
      if s.Failed? {
        RefusalChangesNothing(config, old(Contents()), old(fault), fenced, plan, s.error);
        return Err(s.error);
      }
      var decided := ManualRetryPlan(config, Contents(), b, id, now, authorized);
      ManualRetryIsSanctioned(config, Contents(), b, id, now, authorized);
      PlanFinishes(config, old(Contents()), old(fault), fenced, decided);
      r := Carry(decided);
    }

    // ----- Journalled operations -----

    /** Admits a record.  A solvent directory stays solvent, and is then full only if the record's
        own reserve does not fit or its journal is oversized. */
    method Enqueue(b: Binding, record: Record) returns (r: Status)
      requires Valid()
      modifies this
      ensures Valid()
      ensures Commits(config, old(Contents()), old(fault), Contents(),
                      EnqueuePlan(config, old(Meaning()), b, record), r)
    {
      ghost var plan := EnqueuePlan(config, Meaning(), b, record);
      if !ValidBinding(b) || !record.state.Pending? || record.attemptCount != 0
         || !RecordValid(record) || config.recordBytes(record) > config.maxRecordBytes {
        NoFenceCommits(config, Contents(), fault, plan, UnsafeRecord);
        return Failed(UnsafeRecord);
      }
      r := WithLock();
      ghost var fenced := Now(r);
      if r.Failed? {
        FailedFenceCommits(config, old(Contents()), old(fault), fenced, plan, r);
        return;
      }
      EnqueueIsLawful(config, Contents(), b, record);
      ActionFinishes(config, old(Contents()), old(fault), fenced, plan);
      r := Admit(b, record);
    }

    method Admit(b: Binding, record: Record) returns (r: Status)
      requires ValidBinding(b) && record.state.Pending? && record.attemptCount == 0
      requires RecordValid(record) && config.recordBytes(record) <= config.maxRecordBytes
      modifies this
      ensures Now(r) == Perform(config, old(Contents()), old(fault), EnqueuePlan(config, old(Contents()), b, record))
    {
      var e := Envelope(b, record.evidence, record, None);
      var existing := ReadRecord(config, Contents(), Id(e));
      if existing.Ok? {
        if existing.value.owner != b { return Failed(NotFound); }
        if existing.value.evidenceHash != record.evidence { return Failed(Conflict); }
        return Done;
      }
      if !existing.error.NotFound? { return Failed(existing.error); }
      var error := ValidateEnqueueSequence(e);
      if error.Some? { return Failed(error.value); }
      var reserved := ReservedUsage();
      var j := EnqueueJournal(Contents(), e);
      var required := Required(config, Contents(), j);
      if !EnvelopeFits(config, e) || |records| >= config.maxRecords || required > config.maxBytes
         || reserved > config.maxBytes - required {
        return Failed(QueueFull);
      }
      r := CommitTransaction(j);
    }

    method ValidateEnqueueSequence(e: Envelope) returns (error: Option<Error>)
      ensures error == SequenceError(config, Contents(), e)
    {
      var cp := ReadCheckpoint(config, Contents(), Batch(e));
      if cp.Err? && !cp.error.NotFound? { return Some(cp.error); }
      if cp.Err? && Sequence(e) != 0 { return Some(Conflict); }
      var highest;
      error, highest := ScanBatch(e);
      if error.Some? { return; }
      var expected := if cp.Ok? then cp.value.expectedNext else 0;
      NextIsAfterHighest(Contents(), Batch(e), expected, highest, Sequence(e));
      if highest >= expected { expected := highest + 1; }
      if Sequence(e) != expected { return Some(Conflict); }
    }

    /** Acknowledges the record in flight, or confirms an acknowledgement already made. */
    method Ack(b: Binding, id: RecordId, v: VerifiedReceipt) returns (r: Status)
      requires Valid()
      modifies this
      ensures Valid()
      ensures Commits(config, old(Contents()), old(fault), Contents(), AckPlan(config, old(Meaning()), b, id, v), r)
      ensures AckPlan(config, old(Meaning()), b, id, v).Refuse? && r.Failed? && !r.error.Interrupted?
              && !r.error.QueueFull? ==>
                old(fault).after <= fault.after + 3
    {
      hide AckPlan, Commits, CommitJournal, ConfirmEntry, Recoverable, Replay, Solvent, Funded, Consistent, AllReadable;
      ghost var plan := AckPlan(config, Meaning(), b, id, v);
      r := WithLock();
      ghost var fenced := Now(r);
      if r.Failed? {
        FailedFenceCommits(config, old(Contents()), old(fault), fenced, plan, r);
        return;
      }
      var action := AckPlan(config, Contents(), b, id, v);
      AckIsLawful(config, Contents(), b, id, v);
      ActionFinishes(config, old(Contents()), old(fault), fenced, action);
      match action
      case Refuse(error) => return Failed(error);
      case Nothing => return Done;
      case Confirm(e) => r := EnsureCheckpointEntry(e);
      case Write(j) => r := CommitTransaction(j);
    }

    /** Acknowledges, and parks the record if the receipt is refused; with room and without an
        interruption it is parked for certain. */
    method Acknowledge(b: Binding, id: RecordId, v: VerifiedReceipt) returns (r: Status)
      requires Valid()
      modifies this
      ensures Valid()
      ensures var m := old(Meaning());
              if r.Failed? && (r.error.Refused? || r.error.Conflict?) then
                && AckPlan(config, m, b, id, v) == Refuse(r.error)
                && var plan := HoldPlan(config, m, b, id, if r.error.Conflict? then HeldConflict else HeldRejected);
                   Meaning() == m || (plan.Ok? && Meaning() == WithRecord(m, plan.value))
              else Commits(config, old(Contents()), old(fault), Contents(), AckPlan(config, m, b, id, v), r)
      ensures r.Failed? && (r.error.Refused? || r.error.Conflict?) && Solvent(config, old(Contents())) ==>
                Solvent(config, Contents())
      ensures r.Failed? && (r.error.Refused? || r.error.Conflict?) && Solvent(config, old(Contents()))
              && old(fault).after >= 7 ==>
                var m := old(Meaning());
                var plan := HoldPlan(config, m, b, id, if r.error.Conflict? then HeldConflict else HeldRejected);
                plan.Ok? && Storable(config, plan.value) ==> Meaning() == WithRecord(m, plan.value)
    {
      hide AckPlan, HoldPlan, Recoverable, Replay, Solvent, Storable, RoomForCommit, Affordable, Commit, Fits, Replayed;
      r := Ack(b, id, v);
      if r.Failed? && (r.error.Refused? || r.error.Conflict?) {
        var held := Hold(b, id, if r.error.Conflict? then HeldConflict else HeldRejected);
        if held.Ok? { ConsistentMeans(config, Contents()); }
      }
    }

    method EnsureCheckpointEntry(e: Envelope) returns (r: Status)
      modifies `checkpoints, `fault
      ensures Now(r) == ConfirmEntry(config, old(Contents()), old(fault), e)
    {
      var cp := ReadCheckpoint(config, Contents(), Batch(e));
      if cp.Err? { return Failed(cp.error); }
      if Sequence(e) < cp.value.expectedNext {
        return if Sequence(e) in cp.value.completed && cp.value.completed[Sequence(e)] == EntryOf(e) then Done
               else Failed(Conflict);
      }
      if Sequence(e) != cp.value.expectedNext { return Failed(Conflict); }
      if !CheckpointFits(config, Advanced(cp.value, e)) { return Failed(QueueFull); }
      r := PutCheckpointFile(Advanced(cp.value, e));
    }

    // ----- Opening -----

    method RequeueListed(id: RecordId) returns (r: Status)
      requires AllReadable(config, Contents())
      modifies `records, `fault
      ensures Now(r) == RequeueOne(config, old(Contents()), old(fault), id)
      ensures AllReadable(config, Contents())
    {
      var e := ReadRecord(config, Contents(), id);
      if e.Err? { return Failed(e.error); }
      if !e.value.record.state.Sending? { return Done; }
      RewriteReads(config, Contents(), e.value.(record := RequeuedAtOpen(e.value.record)));
      r := StoreRecord(e.value.(record := RequeuedAtOpen(e.value.record)));
    }

    method RecoverAllSending() returns (r: Status, ghost ids: seq<RecordId>)
      requires AllReadable(config, Contents())
      modifies `records, `fault
      ensures forall id :: id in old(records) <==> id in ids
      ensures Now(r) == RequeueFrom(config, old(Contents()), old(fault), ids)
      ensures AllReadable(config, Contents())
    {
      hide AllReadable, RequeueOne;
      var list := ListIds();
      ids := list;
      var i := 0;
      r := Done;
      while i < |list|
        invariant 0 <= i <= |list| && r.Done?
        invariant AllReadable(config, Contents())
        invariant RequeueFrom(config, old(Contents()), old(fault), list) ==
                    RequeueFrom(config, Contents(), fault, list[i..])
      {
        r := RequeueListed(list[i]);
        assert list[i..][1..] == list[i + 1..];
        if r.Failed? { return; }
        i := i + 1;
      }
    }

    /** Opens the directory: settles it and puts everything in flight back to pending. */
    method OpenQueue() returns (r: Status)
      requires Valid()
      modifies this
      ensures Valid() && Opens(config, old(Contents()), Now(r))
    {
      hide Recoverable, Settle, Vet, RequeueFrom, Opens, Replay;
      ghost var names, items, names2, ids, items2 := [], [], [], [], [];
      r, names := SettleJournals();
      if r.Done? {
        r, items := VetBatches();
        assert Now(r) == Fence(config, old(Contents()), old(fault), names, items);
        if r.Done? {
          r, names2 := SettleJournals();
          if r.Done? {
            r, ids := RecoverAllSending();
            if r.Done? { r, items2 := VetBatches(); }
          }
        }
      }
      OpenSettles(config, old(Contents()), old(fault), Listings(names, items, names2, ids, items2));
    }
  }

  /** An operation that refuses before the fence touches nothing. */
  lemma NoFence(c: Config, d: Disk, f: Fault, plan: Result<Envelope>, error: Error)
    requires Recoverable(c, d) && plan == Err(error)
    ensures Rewrites(c, d, f, d, plan, Err(error))
  {
    hide Recoverable, Replay, Solvent;
  }

  lemma NoFenceCommits(c: Config, d: Disk, f: Fault, a: Action, error: Error)
    requires Recoverable(c, d) && a == Refuse(error)
    ensures Commits(c, d, f, d, a, Failed(error))
  {
    hide Recoverable, Replay, Solvent;
  }

  lemma SomeEnumeration(c: Config, d: Disk, b: Binding) returns (items: seq<Envelope>)
    requires Recoverable(c, d)
    ensures Enumerates(Replay(c, d), Some(b), items)
  {
    hide Recoverable, Consistent, Replay;
    ReplayIsConsistent(c, d);
    items := EnumerateKeys(c, Replay(c, d), b, Replay(c, d).records.Keys);
  }

  lemma {:induction false} EnumerateKeys(c: Config, d: Disk, b: Binding,
                                         keys: set<RecordId>) returns (items: seq<Envelope>)
    requires Consistent(c, d) && keys <= d.records.Keys
    ensures DistinctIds(items)
    ensures forall id :: id in keys && d.records[id].owner == b ==> d.records[id] in items
    ensures forall e :: e in items ==> Id(e) in keys && d.records[Id(e)] == e && e.owner == b
    decreases |keys|
  {
    hide RecordsOk, PairsOk, Gapless, CheckpointsOk, DonesOk;
    items := [];
    if keys != {} {
      var id :| id in keys;
      RecordOkOf(c, d, id);
      items := EnumerateKeys(c, d, b, keys - {id});
      if d.records[id].owner == b { items := items + [d.records[id]]; }
    }
  }

  lemma FencePasses(c: Config, d: Disk, f: Fault, names: seq<Listed>, items: seq<Envelope>)
    requires Recoverable(c, d) && IsListing(d, names)
    requires Settle(c, d, f, names).result.Done? ==> Lists(Settle(c, d, f, names).disk, items)
    ensures var s := Fence(c, d, f, names, items);
            && KeepsMeaning(c, d, f, s)
            && (Solvent(c, d) ==> Solvent(c, s.disk) && (s.result.Failed? ==> s.result.error.Interrupted?))
            && (s.result.Done? ==> AllReadable(c, s.disk) && Funded(c, s.disk))
            && (Consistent(c, d) && Funded(c, d) ==> s == Step(d, f, Done))
  {
    hide Recover, Replay, Recoverable, Consistent, ValidationError, Lists, GroupsError, Solvent, Reconcile, AllReadable;
    FenceOpens(c, d, f, names, items);
    var s := Fence(c, d, f, names, items);
    if s.result.Done? {
      ConsistentValidates(c, s.disk);
      ConsistentReads(c, s.disk);
    }
    if Consistent(c, d) && Funded(c, d) {
      ConsistentValidates(c, d);
      RecoverKeepsMeaning(c, d, f, names);
      SettledPasses(c, d, f, items);
    }
  }

  lemma RewriteReads(c: Config, d: Disk, e: Envelope)
    requires AllReadable(c, d)
    ensures Storable(c, e) ==> AllReadable(c, WithRecord(d, e))
  {
  }

  lemma ConsistentReads(c: Config, d: Disk)
    requires Consistent(c, d)
    ensures AllReadable(c, d)
  {
    ReadableOf(c, d);
  }
}
