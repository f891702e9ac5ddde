/** The guard's claim against the reference's ordered batch selection. */
module QueueResume {
  import opened Protocol
  import opened Reference
  import opened BatchResume
  import opened QueueRecord
  import opened QueueDisk
  import opened QueueInvariant
  import opened QueueCommit
  import opened QueueFence
  import opened QueueClaim

  function RecordsOf(items: seq<Envelope>): (r: seq<Record>) {
    seq(|items|, i requires 0 <= i < |items| => items[i].record)
  }

  /** The directory's checkpoint as the reference takes it. */
  function CheckpointOf(cp: Checkpoint): BatchCheckpoint {
    BatchCheckpoint(cp.batchId, cp.expectedNext, map s | s in cp.completed :: cp.completed[s].id)
  }

  /** The owner's authenticated view of the store. */
  function OwnerContext(d: Disk, b: Binding): TrustedContext {
    TrustedContext(map id | id in d.records :: Partition(d.records[id].owner.tenant, d.records[id].owner.subject),
                   b.tenant, b.subject, false)
  }

  /** A batch nobody has held or discarded from. */
  predicate Undisturbed(group: seq<Envelope>) {
    forall i :: 0 <= i < |group| ==> group[i].hold.None? && !group[i].record.state.Discarded?
  }

  /** A group of a consistent directory, by what the selection looks at. */
  predicate GroupShape(d: Disk, group: seq<Envelope>, cp: Checkpoint, owner: Binding) {
    && (forall i :: 0 <= i < |group| ==>
          && RecordValid(group[i].record) && Batch(group[i]) == cp.batchId && Sequence(group[i]) == i
          && group[i].owner == owner && Id(group[i]) in d.records && d.records[Id(group[i])] == group[i]
          && PlacedOk(group[i], cp))
    && 0 <= cp.expectedNext
    && (forall s :: s in cp.completed ==> 0 <= s < cp.expectedNext)
  }

  lemma {:induction false} NoRefusal(d: Disk, records: seq<Record>, ctx: TrustedContext)
    requires forall r :: r in records ==> ValidDocument(r) && PartitionError(r, ctx).None? && OwnerMatches(r, ctx)
    ensures FirstRefusal(records, ctx).None?
  {
    if records != [] {
      assert records[0] in records;
      NoRefusal(d, records[1..], ctx);
    }
  }

  lemma GroupNotRefused(d: Disk, group: seq<Envelope>, cp: Checkpoint, owner: Binding)
    requires GroupShape(d, group, cp, owner)
    ensures FirstRefusal(RecordsOf(group), OwnerContext(d, owner)).None?
  {
    var records, ctx := RecordsOf(group), OwnerContext(d, owner);
    forall r | r in records ensures ValidDocument(r) && PartitionError(r, ctx).None? && OwnerMatches(r, ctx) {
      var i :| 0 <= i < |records| && records[i] == r;
      ValidatorsAgree(group[i].record);
      assert Id(group[i]) in d.records;
    }
    NoRefusal(d, records, ctx);
  }

  lemma GroupIsOneBatch(d: Disk, group: seq<Envelope>, cp: Checkpoint, owner: Binding)
    requires GroupShape(d, group, cp, owner)
    ensures OneBatch(RecordsOf(group), CheckpointOf(cp))
  {
    forall i, j | 0 <= i < j < |group| ensures Id(group[i]) != Id(group[j]) {
      assert Sequence(group[i]) == i && Sequence(group[j]) == j && d.records[Id(group[i])] == group[i];
    }
  }

  /** Past the acknowledged prefix every record of an undisturbed batch is selected or ends the run. */
  lemma {:induction false} SelectsTail(group: seq<Envelope>, cp: Checkpoint, i: nat, selected: seq<Record>,
                                       now: Instant, limit: int)
    requires Undisturbed(group) && 0 <= cp.expectedNext < i <= |group|
    requires forall k :: 0 <= k < |group| ==> Sequence(group[k]) == k && PlacedOk(group[k], cp)
    ensures var r := SelectFrom(RecordsOf(group), i, true, selected, now, limit, CheckpointOf(cp));
            r.Selected? && selected <= r.records
    decreases |group| - i
  {
    if i < |group| {
      var r := group[i].record;
      assert !Terminal(r.state) by { assert PlacedOk(group[i], cp) && Sequence(group[i]) == i; }
      if Sendable(r, now) && |selected| + 1 != limit {
        SelectsTail(group, cp, i + 1, selected + [r], now, limit);
      }
    }
  }

  /** From inside the acknowledged prefix the run starts at the head if it is ready, else is empty. */
  lemma {:induction false} SelectsHead(group: seq<Envelope>, cp: Checkpoint, i: nat, now: Instant, limit: int)
    requires Undisturbed(group) && 0 <= i <= cp.expectedNext <= |group|
    requires forall k :: 0 <= k < |group| ==>
               Sequence(group[k]) == k && PlacedOk(group[k], cp) && RecordValid(group[k].record)
    ensures var r := SelectFrom(RecordsOf(group), i, false, [], now, limit, CheckpointOf(cp));
            && r.Selected?
            && (if cp.expectedNext < |group| && Claimable(group[cp.expectedNext], now)
                then r.records != [] && r.records[0] == group[cp.expectedNext].record
                else r.records == [])
    decreases cp.expectedNext - i
  {
    if i < cp.expectedNext {
      PrefixIsComplete(group[i], cp);
      SelectsHead(group, cp, i + 1, now, limit);
    } else if i < |group| {
      HeadSendable(group[i], cp, now);
      assert [] + [group[i].record] == [group[i].record] && RecordsOf(group)[i] == group[i].record;
      if Sendable(group[i].record, now) && limit != 1 {
        SelectsTail(group, cp, i + 1, [group[i].record], now, limit);
      }
    }
  }

  lemma PrefixIsComplete(e: Envelope, cp: Checkpoint)
    requires PlacedOk(e, cp) && Sequence(e) < cp.expectedNext
    ensures CompletedInPlace(e.record, CheckpointOf(cp))
  {
  }

  lemma HeadSendable(e: Envelope, cp: Checkpoint, now: Instant)
    requires PlacedOk(e, cp) && Sequence(e) == cp.expectedNext && RecordValid(e.record)
    requires e.hold.None? && !e.record.state.Discarded?
    ensures !Terminal(e.record.state) && (Sendable(e.record, now) <==> Claimable(e, now))
  {
  }

  lemma GroupHasShape(c: Config, d: Disk, items: seq<Envelope>, lo: int, hi: int)
    requires RecordsOk(c, d) && PairsOk(d) && Gapless(d) && CheckpointsOk(c, d)
    requires ListsBatches(d, items) && IsGroup(items, lo, hi)
    ensures Batch(items[lo]) in d.checkpoints
    ensures GroupShape(d, items[lo..hi], d.checkpoints[Batch(items[lo])], items[lo].owner)
    ensures d.checkpoints[Batch(items[lo])].expectedNext <= hi - lo
  {
    hide RecordsOk, PairsOk, Gapless, CheckpointsOk, ListsBatches, PlacedOk, RecordValid;
    GroupHasCheckpoint(c, d, items, lo, hi);
    ConsistentFiled(c, d);
    GroupPositions(c, d, items, lo, hi);
    var cp := d.checkpoints[Batch(items[lo])];
    forall k | lo <= k < hi
      ensures && RecordValid(items[k].record) && Sequence(items[k]) == k - lo && items[k].owner == items[lo].owner
              && Id(items[k]) in d.records && d.records[Id(items[k])] == items[k] && PlacedOk(items[k], cp)
    {
      ItemHasShape(c, d, items, lo, hi, k);
    }
    if cp.expectedNext > 0 { PrefixReached(d, items, lo, hi, cp.expectedNext); }
  }

  lemma ItemHasShape(c: Config, d: Disk, items: seq<Envelope>, lo: int, hi: int, k: int)
    requires RecordsOk(c, d) && PairsOk(d) && ListsBatches(d, items) && IsGroup(items, lo, hi) && lo <= k < hi
    ensures RecordValid(items[k].record) && items[k].owner == items[lo].owner
    ensures Id(items[k]) in d.records && d.records[Id(items[k])] == items[k]
    ensures Batch(items[lo]) in d.checkpoints && PlacedOk(items[k], d.checkpoints[Batch(items[lo])])
  {
    assert items[k] in items && items[lo] in items && RecordOk(c, d, Id(items[k]));
    assert PairOk(d.records[Id(items[k])], d.records[Id(items[lo])]);
  }

  /** For an undisturbed batch of a consistent directory the reference selects a run that begins
      with exactly the record the guard would claim from that batch, or nothing if there is none,
      under any limit that does not refuse the batch outright. */
  lemma ClaimIsFirstResumed(c: Config, d: Disk, items: seq<Envelope>, lo: int, hi: int, now: Instant, limit: int)
    requires Consistent(c, d) && ListsBatches(d, items) && IsGroup(items, lo, hi) && Undisturbed(items[lo..hi])
    requires hi - lo <= limit
    ensures Batch(items[lo]) in d.checkpoints
    ensures var group, cp := items[lo..hi], d.checkpoints[Batch(items[lo])];
            var r := Resume(RecordsOf(group), now, limit, OwnerContext(d, items[lo].owner), Some(CheckpointOf(cp)));
            && r.Selected?
            && (forall e :: e in group && Ready(d, e, now) ==> r.records != [] && r.records[0] == e.record)
            && ((forall e :: e in group ==> !Ready(d, e, now)) ==> r.records == [])
  {
    hide RecordsOk, PairsOk, Gapless, CheckpointsOk, DonesOk, ListsBatches, RecordValid, PlacedOk, Claimable,
         FirstRefusal, OneBatch, SelectFrom;
    GroupHasShape(c, d, items, lo, hi);
    var group, cp := items[lo..hi], d.checkpoints[Batch(items[lo])];
    GroupNotRefused(d, group, cp, items[lo].owner);
    GroupIsOneBatch(d, group, cp, items[lo].owner);
    SelectsHead(group, cp, 0, now, limit);
    ReadyIsAtHead(d, group, cp, items[lo].owner, now);
    assert CheckpointWellFormed(CheckpointOf(cp));
  }

  lemma ReadyIsAtHead(d: Disk, group: seq<Envelope>, cp: Checkpoint, owner: Binding, now: Instant)
    requires GroupShape(d, group, cp, owner) && cp.batchId in d.checkpoints && d.checkpoints[cp.batchId] == cp
    ensures forall e :: e in group && Ready(d, e, now) ==>
              cp.expectedNext < |group| && group[cp.expectedNext] == e && Claimable(e, now)
    ensures cp.expectedNext < |group| && Claimable(group[cp.expectedNext], now) ==>
              group[cp.expectedNext] in group && Ready(d, group[cp.expectedNext], now)
  {
    hide RecordValid;
    forall e | e in group && Ready(d, e, now)
      ensures cp.expectedNext < |group| && group[cp.expectedNext] == e && Claimable(e, now)
    {
      var i :| 0 <= i < |group| && group[i] == e;
      assert Sequence(group[i]) == i;
    }
  }
}
