/** Opening the queue: after the fence every record that was in flight goes back to pending. */
module QueueOpen {
  import opened Protocol
  import opened QueueRecord
  import opened QueueDisk
  import opened QueueJournal
  import opened QueueInvariant
  import opened QueueReplay
  import opened QueueFence
  import opened QueueCapacity
  import opened QueuePlans
  import opened QueueOperations

  function Requeue(e: Envelope): Envelope {
    if e.record.state.Sending? then e.(record := RequeuedAtOpen(e.record)) else e
  }

  function AllRequeued(d: Disk): Disk {
    d.(records := map id | id in d.records :: Requeue(d.records[id]))
  }

  /** `recoverAllSending` over the rest of a listing. */
  ghost function RequeueFrom(c: Config, d: Disk, f: Fault, ids: seq<RecordId>): (s: Step)
    decreases |ids|
  {
    if ids == [] then Step(d, f, Done)
    else
      var s := RequeueOne(c, d, f, ids[0]);
      if s.result.Failed? then s else RequeueFrom(c, s.disk, s.fault, ids[1..])
  }

  ghost function RequeueOne(c: Config, d: Disk, f: Fault, id: RecordId): (s: Step) {
    var e := ReadRecord(c, d, id);
    if e.Err? then Step(d, f, Failed(e.error))
    else if !e.value.record.state.Sending? then Step(d, f, Done)
    else WriteRecord(c, d, f, Requeue(e.value))
  }

  /** The listings the steps of one `open` see: journals and records for the fence, journals,
      record files and records again for the rest. */
  datatype Listings = Listings(
    names: seq<Listed>,
    items: seq<Envelope>,
    names2: seq<Listed>,
    ids: seq<RecordId>,
    items2: seq<Envelope>)

  ghost function Open(c: Config, d: Disk, f: Fault, l: Listings): (s: Step) {
    var s1 := Fence(c, d, f, l.names, l.items);
    if s1.result.Failed? then s1
    else
      var s2 := Settle(c, s1.disk, s1.fault, l.names2);
      if s2.result.Failed? then s2
      else
        var s3 := RequeueFrom(c, s2.disk, s2.fault, l.ids);
        if s3.result.Failed? then s3 else Vet(c, s3.disk, s3.fault, l.items2)
  }

  /** Every listing is a listing of the directory it was taken from. */
  ghost predicate ListingsOk(c: Config, d: Disk, f: Fault, l: Listings) {
    && IsListing(d, l.names)
    && (Settle(c, d, f, l.names).result.Done? ==> Lists(Settle(c, d, f, l.names).disk, l.items))
    && var s1 := Fence(c, d, f, l.names, l.items);
       s1.result.Done? ==>
         && IsListing(s1.disk, l.names2)
         && var s2 := Settle(c, s1.disk, s1.fault, l.names2);
            s2.result.Done? ==>
              && (forall id :: id in s2.disk.records <==> id in l.ids)
              && var s3 := RequeueFrom(c, s2.disk, s2.fault, l.ids);
                 s3.result.Done? ==> Lists(s3.disk, l.items2)
  }

  // ----- Requeueing -----

  /** `d` is `m` with some of the records in flight put back. */
  predicate Partly(m: Disk, d: Disk) {
    && d == m.(records := d.records)
    && d.records.Keys == m.records.Keys
    && forall id :: id in m.records ==> d.records[id] == m.records[id] || d.records[id] == Requeue(m.records[id])
  }

  /** Reopening after an interrupted open ends where the first open would have. */
  lemma ReopenIsTheSame(m: Disk, d: Disk)
    requires Partly(m, d)
    ensures AllRequeued(d) == AllRequeued(m)
  {
  }

  lemma RequeueIsAnEdit(c: Config, d: Disk, id: RecordId)
    requires RecordsOk(c, d) && id in d.records && d.records[id].record.state.Sending?
    ensures RecordOk(c, d, id)
    ensures Edits(d, Requeue(d.records[id])) && RecordValid(Requeue(d.records[id]).record)
    ensures Requeue(d.records[id]).evidenceHash == Requeue(d.records[id]).record.evidence
    ensures Id(Requeue(d.records[id])) == id
  {
    assert RecordOk(c, d, id);
    var e := d.records[id];
    RequeueRefines(e.record, e.record.lastAttemptAt.value, e.owner);
    RequeueEdits(c, d, e, e.hold);
  }

  /** What one requeueing write, or a run of them, did to directory `d`. */
  ghost predicate Requeues(c: Config, d: Disk, s: Step) {
    && Consistent(c, s.disk) && Partly(d, s.disk)
    && (Funded(c, d) ==> Funded(c, s.disk))
    && (s.result.Failed? ==>
          || s.result.error.Interrupted?
          || (s.result.error.QueueFull? && !Funded(c, d))
          || (s.result.error.UnsafeRecord? && exists id :: id in d.records && !Storable(c, Requeue(d.records[id]))))
  }

  lemma RequeueOneKeeps(c: Config, d: Disk, f: Fault, id: RecordId)
    requires Consistent(c, d) && id in d.records
    ensures Requeues(c, d, RequeueOne(c, d, f, id))
    ensures RequeueOne(c, d, f, id).result.Done? ==>
              RequeueOne(c, d, f, id).disk == d.(records := d.records[id := Requeue(d.records[id])])
  {
    hide RecordsOk, PairsOk, Gapless, CheckpointsOk, DonesOk, Edits, Funded, RecordValid, Room;
    RecordOkOf(c, d, id);
    assert d.records == d.records[id := d.records[id]];
    var e := Requeue(d.records[id]);
    if d.records[id].record.state.Sending? {
      RequeueIsAnEdit(c, d, id);
      assert Partly(d, WithRecord(d, e));
      if Storable(c, e) { EditKeeps(c, d, e); }
    }
  }

  lemma PartlyTransitive(m: Disk, d: Disk, d': Disk)
    requires Partly(m, d) && Partly(d, d')
    ensures Partly(m, d')
  {
  }

  lemma {:induction false} RequeueKeeps(c: Config, d: Disk, f: Fault, ids: seq<RecordId>)
    requires Consistent(c, d) && (forall id :: id in ids ==> id in d.records)
    ensures var s := RequeueFrom(c, d, f, ids);
            && Requeues(c, d, s)
            && (s.result.Done? ==> forall id :: id in ids ==> s.disk.records[id] == Requeue(d.records[id]))
    decreases |ids|
  {
    hide Consistent, Funded, RequeueOne, Requeue, Storable;
    if ids != [] {
      RequeueOneKeeps(c, d, f, ids[0]);
      var s := RequeueOne(c, d, f, ids[0]);
      if s.result.Done? {
        forall id | id in ids[1..] ensures id in s.disk.records { assert id in ids; }
        RequeueKeeps(c, s.disk, s.fault, ids[1..]);
        RequeueTwice(c, d, s.disk);
        PartlyTransitive(d, s.disk, RequeueFrom(c, s.disk, s.fault, ids[1..]).disk);
      }
    }
  }

  lemma RequeueTwice(c: Config, m: Disk, d: Disk)
    requires Partly(m, d)
    ensures forall id :: id in m.records ==> Requeue(d.records[id]) == Requeue(m.records[id])
  {
  }

  /** The contract of `open` on directory `d`: it settles it and puts back everything in flight;
      stopped early, it may have put back some of it; and it fails only for a reason. */
  ghost predicate Opens(c: Config, d: Disk, s: Step) {
    var m := Replay(c, d);
    && Recoverable(c, s.disk) && Partly(m, Replay(c, s.disk))
    && (s.result.Done? ==>
          && s.disk == AllRequeued(m) && Consistent(c, s.disk)
          && forall id :: id in s.disk.records ==> !s.disk.records[id].record.state.Sending?)
    && (s.result.Failed? ==>
          || s.result.error.Interrupted?
          || (s.result.error.QueueFull? && !Solvent(c, d))
          || (s.result.error.UnsafeRecord? && exists id :: id in m.records && !Storable(c, Requeue(m.records[id]))))
    && (Solvent(c, d) ==> Solvent(c, s.disk))
  }

  lemma PartlyItself(d: Disk)
    ensures Partly(d, d)
  {
  }

  lemma FenceOpens(c: Config, d: Disk, f: Fault, names: seq<Listed>, items: seq<Envelope>)
    requires Recoverable(c, d) && IsListing(d, names)
    requires Settle(c, d, f, names).result.Done? ==> Lists(Settle(c, d, f, names).disk, items)
    ensures KeepsMeaning(c, d, f, Fence(c, d, f, names, items))
    ensures Solvent(c, d) ==>
              && Solvent(c, Fence(c, d, f, names, items).disk)
              && (Fence(c, d, f, names, items).result.Failed? ==>
                    Fence(c, d, f, names, items).result.error.Interrupted?)
    ensures Fence(c, d, f, names, items).result.Done? ==>
              ValidationError(c, Fence(c, d, f, names, items).disk).None?
  {
    hide Recover, Replay, Recoverable, Consistent, ValidationError, Lists, GroupsError, Solvent, Reconcile;
    FenceSettles(c, d, f, names, items);
    if Solvent(c, d) { FenceStaysSolvent(c, d, f, names, items); }
    RecoverKeepsMeaning(c, d, f, names);
    var s := Recover(c, d, f, names);
    if s.result.Done? && ValidationError(c, s.disk).None? { SettledPasses(c, s.disk, s.fault, items); }
  }

  /** A second settling of a directory that just passed the fence does nothing. */
  lemma SettleAgain(c: Config, d: Disk, f: Fault, names: seq<Listed>)
    requires Consistent(c, d) && ValidationError(c, d).None? && IsListing(d, names)
    ensures Settle(c, d, f, names) == Step(d, f, Done)
  {
    hide Recover, ValidationError, Consistent;
    ConsistentIsRecoverable(c, d);
    RecoverKeepsMeaning(c, d, f, names);
  }

  lemma OpenSettles(c: Config, d: Disk, f: Fault, l: Listings)
    requires Recoverable(c, d) && ListingsOk(c, d, f, l)
    ensures Opens(c, d, Open(c, d, f, l)) && Recoverable(c, Open(c, d, f, l).disk)
  {
    hide Recoverable, Replay, Consistent, Fence, Settle, RequeueFrom, Vet, ValidationError, Solvent, Funded, Lists,
         Partly, Requeue, Storable;
    FenceOpens(c, d, f, l.names, l.items);
    var s1 := Fence(c, d, f, l.names, l.items);
    PartlyItself(Replay(c, d));
    if s1.result.Done? {
      SettleAgain(c, s1.disk, s1.fault, l.names2);
      RequeueOpens(c, d, s1, l.ids, l.items2);
    }
  }

  lemma RequeueOpens(c: Config, d: Disk, s: Step, ids: seq<RecordId>, items: seq<Envelope>)
    requires Consistent(c, s.disk) && s.disk == Replay(c, d) && (Solvent(c, d) ==> Solvent(c, s.disk))
    requires forall id :: id in s.disk.records <==> id in ids
    requires RequeueFrom(c, s.disk, s.fault, ids).result.Done? ==>
               Lists(RequeueFrom(c, s.disk, s.fault, ids).disk, items)
    ensures var t := RequeueFrom(c, s.disk, s.fault, ids);
            Opens(c, d, if t.result.Failed? then t else Vet(c, t.disk, t.fault, items))
  {
    hide Consistent, RequeueFrom, Solvent, Funded, Lists, Storable, Replay, Recoverable, Reconcile, GroupsError;
    RequeueKeeps(c, s.disk, s.fault, ids);
    ConsistentMeans(c, s.disk);
    var t := RequeueFrom(c, s.disk, s.fault, ids);
    ConsistentMeans(c, t.disk);
    if t.result.Done? {
      SettledPasses(c, t.disk, t.fault, items);
      assert t.disk.records == AllRequeued(s.disk).records;
    }
  }
}
