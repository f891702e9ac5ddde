/** The checks every operation makes before it acts: settle the journals, validate every file
    and the capacity reserve, bring checkpoints up to date, and validate every batch. */
module QueueFence {
  import opened Protocol
  import opened QueueRecord
  import opened QueueDisk
  import opened QueueJournal
  import opened QueueInvariant
  import opened QueueCommit
  import opened QueueReplay

  // ----- Listings in batch order -----

  predicate Before(e: Envelope, g: Envelope) {
    if Batch(e) != Batch(g) then Batch(e) < Batch(g)
    else if Sequence(e) != Sequence(g) then Sequence(e) < Sequence(g)
    else Id(e) < Id(g)
  }

  predicate InOrder(items: seq<Envelope>) {
    forall i, j :: 0 <= i < j < |items| ==> Before(items[i], items[j])
  }

  /** The records, in batch order. */
  ghost predicate Lists(d: Disk, items: seq<Envelope>) {
    && InOrder(items)
    && (forall id :: id in d.records ==> d.records[id] in items)
    && (forall e :: e in items ==> Id(e) in d.records && d.records[Id(e)] == e)
  }

  /** The records of one owner, in batch order. */
  ghost predicate ListsBound(d: Disk, b: Binding, items: seq<Envelope>) {
    && InOrder(items)
    && (forall id :: id in d.records && d.records[id].owner == b ==> d.records[id] in items)
    && (forall e :: e in items ==> Id(e) in d.records && d.records[Id(e)] == e && e.owner == b)
  }

  /** Some of the records in batch order, each with all of its batch. */
  ghost predicate ListsBatches(d: Disk, items: seq<Envelope>) {
    && InOrder(items)
    && (forall e :: e in items ==> Id(e) in d.records && d.records[Id(e)] == e)
    && (forall e, id :: e in items && id in d.records && Batch(d.records[id]) == Batch(e) ==> d.records[id] in items)
  }

  lemma WholeBatches(d: Disk, items: seq<Envelope>)
    requires PairsOk(d)
    ensures Lists(d, items) ==> ListsBatches(d, items)
    ensures forall b :: ListsBound(d, b, items) ==> ListsBatches(d, items)
  {
    forall e, id | e in items && Id(e) in d.records && d.records[Id(e)] == e
                   && id in d.records && Batch(d.records[id]) == Batch(e)
      ensures d.records[id].owner == e.owner
    {
      assert PairOk(d.records[Id(e)], d.records[id]);
    }
  }

  // ----- Batch groups -----

  /** `[lo, hi)` holds all the items of one batch. */
  predicate IsGroup(items: seq<Envelope>, lo: int, hi: int) {
    && 0 <= lo < hi <= |items|
    && (forall i :: lo <= i < hi ==> Batch(items[i]) == Batch(items[lo]))
    && (lo > 0 ==> Batch(items[lo - 1]) != Batch(items[lo]))
    && (hi < |items| ==> Batch(items[hi]) != Batch(items[lo]))
  }

  predicate ItemSound(cp: Checkpoint, e: Envelope, last: bool) {
    if Sequence(e) < cp.expectedNext then
      && Sequence(e) in cp.completed && e.record.state.Acknowledged? && cp.completed[Sequence(e)] == EntryOf(e)
    else
      && !e.record.state.Acknowledged? && (e.record.state.Discarded? ==> last)
  }

  /** What `validateBatchGroup` accepts of a nonempty group. */
  predicate GroupSound(cp: Checkpoint, group: seq<Envelope>)
    requires |group| > 0
  {
    var first, n := Sequence(group[0]), |group|;
    && (first == 0 || first == cp.expectedNext)
    && (forall i :: 0 <= i < n ==> group[i].owner == group[0].owner)
    && (forall i :: 0 < i < n ==> Sequence(group[i]) == Sequence(group[i - 1]) + 1)
    && (forall i :: 0 <= i < n ==> ItemSound(cp, group[i], i == n - 1))
    && (first < cp.expectedNext ==> cp.expectedNext - 1 <= Sequence(group[n - 1]))
  }

  function GroupError(c: Config, d: Disk, group: seq<Envelope>): (e: Option<Error>)
    requires |group| > 0
  {
    var cp := ReadCheckpoint(c, d, Batch(group[0]));
    if cp.Err? then Some(cp.error)
    else if !GroupSound(cp.value, group) then Some(Corrupt)
    else None
  }

  /** Where the group that starts at `lo` ends, looked for from `i` on. */
  function GroupEnd(items: seq<Envelope>, lo: nat, i: nat): (hi: nat)
    requires lo < i <= |items|
    requires forall k :: lo <= k < i ==> Batch(items[k]) == Batch(items[lo])
    ensures i <= hi <= |items|
    ensures forall k :: lo <= k < hi ==> Batch(items[k]) == Batch(items[lo])
    ensures hi < |items| ==> Batch(items[hi]) != Batch(items[lo])
    decreases |items| - i
  {
    if i == |items| || Batch(items[i]) != Batch(items[lo]) then i else GroupEnd(items, lo, i + 1)
  }

  /** The first group, from `lo` on, that is not sound. */
  function GroupsError(c: Config, d: Disk, items: seq<Envelope>, lo: nat): (e: Option<Error>)
    requires lo <= |items|
    decreases |items| - lo
  {
    if lo == |items| then None
    else
      var hi := GroupEnd(items, lo, lo + 1);
      var e := GroupError(c, d, items[lo..hi]);
      if e.Some? then e else GroupsError(c, d, items, hi)
  }

  /** Every group of a listing has a checkpoint its records agree with, exactly if the walk over
      the groups finds no fault. */
  lemma {:induction false} WalkFindsFaults(c: Config, d: Disk, items: seq<Envelope>, lo: nat)
    requires lo <= |items| && (0 < lo < |items| ==> Batch(items[lo - 1]) != Batch(items[lo]))
    ensures GroupsError(c, d, items, lo).None? <==>
            forall l, h :: lo <= l && IsGroup(items, l, h) ==> GroupError(c, d, items[l..h]).None?
    decreases |items| - lo
  {
    if lo < |items| {
      var hi := GroupEnd(items, lo, lo + 1);
      WalkFindsFaults(c, d, items, hi);
      assert IsGroup(items, lo, hi);
      forall l, h | lo <= l && IsGroup(items, l, h) ensures (l == lo && h == hi) || hi <= l {
        GroupsDoNotOverlap(items, lo, hi, l, h);
      }
    }
  }

  lemma GroupsDoNotOverlap(items: seq<Envelope>, lo: int, hi: int, l: int, h: int)
    requires IsGroup(items, lo, hi) && IsGroup(items, l, h) && lo <= l
    ensures (l == lo && h == hi) || hi <= l
  {
  }

  // ----- Reconciling checkpoints -----

  /** `reconcileCheckpoints` over the rest of a listing. */
  ghost function Reconcile(c: Config, d: Disk, f: Fault, items: seq<Envelope>): (s: Step)
    decreases |items|
  {
    if items == [] then Step(d, f, Done)
    else
      var s := ReconcileOne(c, d, f, items[0]);
      if s.result.Failed? then s else Reconcile(c, s.disk, s.fault, items[1..])
  }

  ghost function ReconcileOne(c: Config, d: Disk, f: Fault, e: Envelope): (s: Step) {
    if !e.record.state.Acknowledged? then Step(d, f, Done)
    else
      var cp := ReadCheckpoint(c, d, Batch(e));
      if cp.Err? then Step(d, f, Failed(cp.error))
      else if Sequence(e) < cp.value.expectedNext then
        if Sequence(e) in cp.value.completed && cp.value.completed[Sequence(e)] == EntryOf(e) then Step(d, f, Done)
        else Step(d, f, Failed(Corrupt))
      else if Sequence(e) != cp.value.expectedNext then Step(d, f, Failed(Corrupt))
      else if !CheckpointFits(c, Advanced(cp.value, e)) then Step(d, f, Failed(QueueFull))
      else PutCheckpoint(c, d, f, Advanced(cp.value, e))
  }

  // ----- The reserve -----

  function Unacked(d: Disk): set<RecordId> {
    set id | id in d.records && JournalName(AckOp, id) !in d.done
  }

  /** Bytes in use, plus room for every record to grow to its limit, for every acknowledgement
      journal still owed, and for one record rewrite. */
  ghost function Reserved(c: Config, d: Disk): int {
    Used(c, d) + (|d.records| * c.maxRecordBytes - Sum(d.records, c.envelopeBytes))
    + |Unacked(d)| * MAX_TRANSACTION_BYTES + c.maxRecordBytes
  }

  /** `validateAll`. */
  ghost function ValidationError(c: Config, d: Disk): (e: Option<Error>) {
    if d.pending != map[] || !AllCheckpointsReadable(c, d) || !AllReadable(c, d) then Some(Corrupt)
    else if |d.quarantine| > MAX_QUARANTINED then Some(QueueFull)
    else if |d.records| > c.maxRecords || Reserved(c, d) > c.maxBytes then Some(QueueFull)
    else None
  }

  // ----- The whole fence -----

  /** Settle the journals and validate every file. */
  ghost function Settle(c: Config, d: Disk, f: Fault, names: seq<Listed>): (s: Step) {
    var s := Recover(c, d, f, names);
    if s.result.Done? && ValidationError(c, s.disk).Some? then
      Step(s.disk, s.fault, Failed(ValidationError(c, s.disk).value))
    else s
  }

  /** Bring checkpoints up to date and validate every batch. */
  ghost function Vet(c: Config, d: Disk, f: Fault, items: seq<Envelope>): (s: Step) {
    var s := Reconcile(c, d, f, items);
    if s.result.Done? && GroupsError(c, s.disk, items, 0).Some? then
      Step(s.disk, s.fault, Failed(GroupsError(c, s.disk, items, 0).value))
    else s
  }

  ghost function Fence(c: Config, d: Disk, f: Fault, names: seq<Listed>, items: seq<Envelope>): (s: Step) {
    var s := Settle(c, d, f, names);
    if s.result.Failed? then s else Vet(c, s.disk, s.fault, items)
  }

  // ----- A consistent directory passes -----

  lemma {:induction false} ReconcileWritesNothing(c: Config, d: Disk, f: Fault, items: seq<Envelope>)
    requires RecordsOk(c, d) && CheckpointsOk(c, d)
    requires forall e :: e in items ==> Id(e) in d.records && d.records[Id(e)] == e
    ensures Reconcile(c, d, f, items) == Step(d, f, Done)
    decreases |items|
  {
    if items != [] {
      var e := items[0];
      assert e in items && RecordOk(c, d, Id(e)) && CheckpointOk(c, d, Batch(e));
      ReconcileWritesNothing(c, d, f, items[1..]);
    }
  }

  lemma ConsistentValidates(c: Config, d: Disk)
    requires Consistent(c, d)
    ensures ValidationError(c, d).Some? ==> ValidationError(c, d).value.QueueFull?
    ensures ValidationError(c, d).None? <==> |d.quarantine| <= MAX_QUARANTINED && Reserved(c, d) <= c.maxBytes
  {
    hide Reserved;
    ReadableOf(c, d);
    forall b | b in d.checkpoints ensures CheckpointReadable(c, b, d.checkpoints[b]) { assert CheckpointOk(c, d, b); }
  }

  lemma BatchesAscend(items: seq<Envelope>)
    requires InOrder(items)
    ensures forall i, j :: 0 <= i <= j < |items| ==> Batch(items[i]) <= Batch(items[j])
  {
    forall i, j | 0 <= i <= j < |items| ensures Batch(items[i]) <= Batch(items[j]) {
      assert i < j ==> Before(items[i], items[j]);
    }
  }

  lemma GroupHolds(items: seq<Envelope>, lo: int, hi: int, p: int)
    requires InOrder(items) && IsGroup(items, lo, hi) && 0 <= p < |items| && Batch(items[p]) == Batch(items[lo])
    ensures lo <= p < hi
  {
    BatchesAscend(items);
  }

  lemma SequencesAscend(d: Disk, items: seq<Envelope>, lo: int, hi: int)
    requires PairsOk(d) && ListsBatches(d, items) && IsGroup(items, lo, hi)
    ensures forall i, j :: lo <= i < j < hi ==> Sequence(items[i]) < Sequence(items[j])
  {
    forall i, j | lo <= i < j < hi ensures Sequence(items[i]) < Sequence(items[j]) {
      assert items[i] in items && items[j] in items && Before(items[i], items[j]);
      assert PairOk(d.records[Id(items[i])], d.records[Id(items[j])]);
    }
  }

  lemma SequencePosition(d: Disk, items: seq<Envelope>, lo: int, hi: int, s: int) returns (p: int)
    requires ListsBatches(d, items) && IsGroup(items, lo, hi) && Occupied(d, Batch(items[lo]), s)
    ensures lo <= p < hi && Sequence(items[p]) == s
  {
    var id :| id in d.records && At(d.records[id], Batch(items[lo]), s);
    p :| 0 <= p < |items| && items[p] == d.records[id];
    GroupHolds(items, lo, hi, p);
  }

  /** Nothing of the batch lies between an item and the one before it, so they are adjacent. */
  lemma NoGap(d: Disk, items: seq<Envelope>, lo: int, hi: int, i: int, s: int)
    requires Gapless(d) && ListsBatches(d, items) && IsGroup(items, lo, hi) && lo <= i < hi && 0 <= s
    requires i > lo ==> Sequence(items[i - 1]) < s
    requires forall i, j :: lo <= i < j < hi ==> Sequence(items[i]) < Sequence(items[j])
    ensures Sequence(items[i]) <= s
  {
    var e := items[i];
    if s < Sequence(e) {
      assert e in items && FilledBelow(d, d.records[Id(e)]);
      var p := SequencePosition(d, items, lo, hi, s);
    }
  }

  /** In a gapless batch the item at offset `k` of its group has sequence `k`. */
  lemma {:induction false} PositionIsSequence(d: Disk, items: seq<Envelope>, lo: int, hi: int, i: int)
    requires Filed(d) && Gapless(d) && ListsBatches(d, items) && IsGroup(items, lo, hi) && lo <= i < hi
    requires forall i, j :: lo <= i < j < hi ==> Sequence(items[i]) < Sequence(items[j])
    ensures Sequence(items[i]) == i - lo
    decreases i - lo
  {
    assert items[i] in items;
    if i > lo { PositionIsSequence(d, items, lo, hi, i - 1); }
    NoGap(d, items, lo, hi, i, i - lo);
  }

  lemma GroupPositions(c: Config, d: Disk, items: seq<Envelope>, lo: int, hi: int)
    requires Filed(d) && PairsOk(d) && Gapless(d) && ListsBatches(d, items) && IsGroup(items, lo, hi)
    ensures forall i :: lo <= i < hi ==> Sequence(items[i]) == i - lo
  {
    SequencesAscend(d, items, lo, hi);
    forall i | lo <= i < hi ensures Sequence(items[i]) == i - lo { PositionIsSequence(d, items, lo, hi, i); }
  }

  lemma PrefixReached(d: Disk, items: seq<Envelope>, lo: int, hi: int, next: int)
    requires ListsBatches(d, items) && IsGroup(items, lo, hi) && next > 0 && Occupied(d, Batch(items[lo]), next - 1)
    requires forall i :: lo <= i < hi ==> Sequence(items[i]) == i - lo
    ensures next - 1 <= Sequence(items[hi - 1])
  {
    var p := SequencePosition(d, items, lo, hi, next - 1);
  }

  lemma ItemsAreSound(c: Config, d: Disk, items: seq<Envelope>, lo: int, hi: int)
    requires RecordsOk(c, d) && PairsOk(d) && ListsBatches(d, items) && IsGroup(items, lo, hi)
    requires Batch(items[lo]) in d.checkpoints
    requires forall k :: lo <= k < hi ==> Sequence(items[k]) == k - lo
    ensures forall k :: lo <= k < hi ==>
              items[k].owner == items[lo].owner && ItemSound(d.checkpoints[Batch(items[lo])], items[k], k == hi - 1)
  {
    hide RecordsOk, PairsOk, ListsBatches, ItemSound;
    forall k | lo <= k < hi
      ensures items[k].owner == items[lo].owner && ItemSound(d.checkpoints[Batch(items[lo])], items[k], k == hi - 1)
    {
      ItemIsSound(c, d, items, lo, hi, k);
    }
  }

  lemma GroupHasCheckpoint(c: Config, d: Disk, items: seq<Envelope>, lo: int, hi: int)
    requires RecordsOk(c, d) && CheckpointsOk(c, d) && ListsBatches(d, items) && IsGroup(items, lo, hi)
    ensures Batch(items[lo]) in d.checkpoints && CheckpointOk(c, d, Batch(items[lo]))
  {
    assert items[lo] in items && RecordOk(c, d, Id(items[lo]));
  }

  lemma GroupIsSound(c: Config, d: Disk, items: seq<Envelope>, lo: int, hi: int)
    requires RecordsOk(c, d) && PairsOk(d) && Gapless(d) && CheckpointsOk(c, d)
    requires ListsBatches(d, items) && IsGroup(items, lo, hi)
    ensures GroupError(c, d, items[lo..hi]).None?
  {
    hide RecordsOk, PairsOk, Gapless, CheckpointsOk, ItemSound, ListsBatches;
    GroupHasCheckpoint(c, d, items, lo, hi);
    ConsistentFiled(c, d);
    GroupPositions(c, d, items, lo, hi);
    ItemsAreSound(c, d, items, lo, hi);
    var cp := d.checkpoints[Batch(items[lo])];
    if cp.expectedNext > 0 { PrefixReached(d, items, lo, hi, cp.expectedNext); }
  }

  lemma ItemIsSound(c: Config, d: Disk, items: seq<Envelope>, lo: int, hi: int, i: int)
    requires RecordsOk(c, d) && PairsOk(d) && ListsBatches(d, items) && IsGroup(items, lo, hi) && lo <= i < hi
    requires Batch(items[lo]) in d.checkpoints
    requires forall k :: lo <= k < hi ==> Sequence(items[k]) == k - lo
    ensures items[i].owner == items[lo].owner
    ensures ItemSound(d.checkpoints[Batch(items[lo])], items[i], i == hi - 1)
  {
    var e, first, last := items[i], items[lo], items[hi - 1];
    assert e in items && first in items && last in items;
    assert RecordOk(c, d, Id(e));
    assert PairOk(d.records[Id(e)], d.records[Id(first)]) && PairOk(d.records[Id(e)], d.records[Id(last)]);
  }

  /** On a directory that was recoverable, the fence changes nothing but the journal it settles,
      and it fails only if interrupted or if the reserve is exceeded. */
  lemma FenceSettles(c: Config, d: Disk, f: Fault, names: seq<Listed>, items: seq<Envelope>)
    requires Recoverable(c, d) && IsListing(d, names)
    requires Settle(c, d, f, names).result.Done? ==> Lists(Settle(c, d, f, names).disk, items)
    ensures KeepsMeaning(c, d, f, Fence(c, d, f, names, items))
    ensures Recover(c, d, f, names).result.Done? && ValidationError(c, Replay(c, d)).None? ==>
              Fence(c, d, f, names, items) == Recover(c, d, f, names)
  {
    hide Recover, Replay, Recoverable, Consistent, ValidationError, Lists, GroupsError;
    RecoverKeepsMeaning(c, d, f, names);
    var s := Recover(c, d, f, names);
    if s.result.Done? {
      ReplayOfSettled(c, s.disk);
      ConsistentValidates(c, s.disk);
      if ValidationError(c, s.disk).None? { SettledPasses(c, s.disk, s.fault, items); }
      ConsistentIsRecoverable(c, s.disk);
    }
  }

  lemma ConsistentIsRecoverable(c: Config, d: Disk)
    requires Consistent(c, d)
    ensures Recoverable(c, d)
  {
  }

  /** Every batch of a consistent directory passes the walk over the groups. */
  lemma BatchesPass(c: Config, d: Disk, items: seq<Envelope>)
    requires Consistent(c, d) && ListsBatches(d, items)
    ensures GroupsError(c, d, items, 0).None?
  {
    hide RecordsOk, PairsOk, Gapless, CheckpointsOk, DonesOk, GroupError;
    forall lo, hi | 0 <= lo && IsGroup(items, lo, hi) ensures GroupError(c, d, items[lo..hi]).None? {
      GroupIsSound(c, d, items, lo, hi);
    }
    WalkFindsFaults(c, d, items, 0);
  }

  lemma SettledPasses(c: Config, d: Disk, f: Fault, items: seq<Envelope>)
    requires Consistent(c, d) && Lists(d, items)
    ensures Reconcile(c, d, f, items) == Step(d, f, Done) && GroupsError(c, d, items, 0).None?
  {
    hide RecordsOk, PairsOk, Gapless, CheckpointsOk, DonesOk, GroupsError;
    ReconcileWritesNothing(c, d, f, items);
    WholeBatches(d, items);
    BatchesPass(c, d, items);
  }
}
