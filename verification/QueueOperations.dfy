/** Whole operations: the fence, the decision and the write, under every interruption. */
module QueueOperations {
  import opened Protocol
  import opened QueueRecord
  import opened QueueDisk
  import opened QueueJournal
  import opened QueueInvariant
  import opened QueueCommit
  import opened QueueReplay
  import opened QueueFence
  import opened QueueCapacity
  import opened QueuePlans

  // ----- Rewriting one record -----

  ghost function WriteRecord(c: Config, d: Disk, f: Fault, e: Envelope): (s: Step) {
    if !RecordValid(e.record) || c.recordBytes(e.record) > c.maxRecordBytes then Step(d, f, Failed(UnsafeRecord))
    else if e.evidenceHash != e.record.evidence then Step(d, f, Failed(Conflict))
    else if !EnvelopeFits(c, e) then Step(d, f, Failed(UnsafeRecord))
    else PutRecord(c, d, f, e)
  }

  /** The contract of a rewriting operation that found directory `d`, left `d'` and returned `r`,
      when `plan` is its decision on what `d` means:
      it succeeds exactly with the planned edit of one record of the settled directory; failing,
      it leaves the directory's meaning alone, or, if interrupted, may have made the whole edit;
      and it fails only for a reason.  A solvent directory stays solvent and is never full. */
  ghost predicate Rewrites(c: Config, d: Disk, f: Fault, d': Disk, plan: Result<Envelope>, r: Result<Record>) {
    var m := Replay(c, d);
    && Recoverable(c, d')
    && (r.Ok? ==>
          plan.Ok? && Storable(c, plan.value) && r.value == plan.value.record && d' == WithRecord(m, plan.value))
    && (r.Err? ==>
          && (Replay(c, d') == m || (r.error.Interrupted? && plan.Ok? && Replay(c, d') == WithRecord(m, plan.value)))
          && ( || (r.error.Interrupted? && f.after < 4)
               || (r.error.QueueFull? && !Solvent(c, d))
               || plan == Err(r.error)
               || (r.error.UnsafeRecord? && plan.Ok? && !Storable(c, plan.value))))
    && (Solvent(c, d) ==> Solvent(c, d'))
  }

  lemma EditKeeps(c: Config, d: Disk, e: Envelope)
    requires Consistent(c, d) && Edits(d, e) && Storable(c, e)
    ensures Consistent(c, WithRecord(d, e))
    ensures Funded(c, d) ==> Room(c, d, c.envelopeBytes(e)) && Funded(c, WithRecord(d, e))
  {
    hide RecordsOk, PairsOk, Gapless, CheckpointsOk, DonesOk, Reserved, RecordsFit, RecordValid;
    EditMayRewrite(c, d, e);
    RewriteKeeps(c, d, e);
    if Funded(c, d) {
      ConsistentFits(c, d);
      RewriteFunded(c, d, e);
    }
  }

  lemma EditMayRewrite(c: Config, d: Disk, e: Envelope)
    requires Edits(d, e) && Storable(c, e)
    ensures MayRewrite(c, d, e) && Id(e) in d.records && c.maxRecordBytes >= 0
  {
  }

  lemma ConsistentMeans(c: Config, d: Disk)
    requires Consistent(c, d)
    ensures Replay(c, d) == d && Recoverable(c, d)
    ensures Solvent(c, d) <==> Funded(c, d)
  {
    hide RecordsOk, PairsOk, Gapless, CheckpointsOk, DonesOk, Funded, MidCommit, RoomToCommit, Replayed;
    MidCommitHasJournal(c, d);
  }

  /** After the fence: the write, and what the whole operation then amounts to. */
  lemma WriteFinishes(c: Config, d: Disk, f: Fault, s: Step, e: Envelope)
    requires KeepsMeaning(c, d, f, s) && s.result.Done? && Edits(s.disk, e)
    requires Solvent(c, d) ==> Solvent(c, s.disk)
    ensures var w := WriteRecord(c, s.disk, s.fault, e);
            Rewrites(c, d, f, w.disk, Ok(e), if w.result.Done? then Ok(e.record) else Err(w.result.error))
  {
    hide RecordValid, Edits, Solvent, Funded, Replay, Recoverable, Consistent, Room;
    ConsistentMeans(c, s.disk);
    EditKeepsHash(c, s.disk, e);
    if Storable(c, e) {
      EditKeeps(c, s.disk, e);
      ConsistentMeans(c, WithRecord(s.disk, e));
    }
  }

  lemma EditKeepsHash(c: Config, d: Disk, e: Envelope)
    requires Consistent(c, d) && Edits(d, e)
    ensures e.evidenceHash == e.record.evidence
  {
    assert RecordOk(c, d, Id(e));
  }

  datatype Outcome = Outcome(disk: Disk, fault: Fault, result: Result<Record>)

  /** Carry out a decision on the directory it was made on. */
  ghost function CarryOut(c: Config, d: Disk, f: Fault, plan: Result<Envelope>): (o: Outcome) {
    if plan.Err? then Outcome(d, f, Err(plan.error))
    else
      var s := WriteRecord(c, d, f, plan.value);
      Outcome(s.disk, s.fault, if s.result.Done? then Ok(plan.value.record) else Err(s.result.error))
  }

  lemma PlanFinishes(c: Config, d: Disk, f: Fault, s: Step, plan: Result<Envelope>)
    requires KeepsMeaning(c, d, f, s) && s.result.Done? && (plan.Ok? ==> Edits(s.disk, plan.value))
    requires Solvent(c, d) ==> Solvent(c, s.disk)
    ensures var o := CarryOut(c, s.disk, s.fault, plan);
            Recoverable(c, o.disk) && Rewrites(c, d, f, o.disk, plan, o.result)
    ensures Solvent(c, d) ==> Solvent(c, CarryOut(c, s.disk, s.fault, plan).disk)
  {
    hide KeepsMeaning, Edits, WriteRecord, Recoverable, Replay, Solvent, Storable;
    if plan.Ok? { WriteFinishes(c, d, f, s, plan.value); } else { RefusalChangesNothing(c, d, f, s, plan, plan.error); }
  }

  /** A refusal before, in or after the fence changes nothing. */
  lemma RefusalChangesNothing(c: Config, d: Disk, f: Fault, s: Step, plan: Result<Envelope>, error: Error)
    requires KeepsMeaning(c, d, f, s)
    requires Solvent(c, d) ==> Solvent(c, s.disk) && (s.result.Failed? ==> s.result.error.Interrupted?)
    requires if s.result.Failed? then s.result.error == error else plan == Err(error)
    ensures Rewrites(c, d, f, s.disk, plan, Err(error))
  {
    hide Solvent, Replay, Recoverable, Consistent;
  }

  // ----- Journalled operations -----

  datatype Action = Refuse(error: Error) | Nothing | Confirm(envelope: Envelope) | Write(journal: Journal)

  function EnqueueJournal(d: Disk, e: Envelope): Journal {
    var cp := if Batch(e) in d.checkpoints then Some(d.checkpoints[Batch(e)]) else None;
    Journal(EnqueueOp, Id(e), Batch(e), None, cp, e, if cp.Some? then cp.value else EmptyCheckpoint(Batch(e)))
  }

  function AckJournal(was: Envelope, cp: Checkpoint, e: Envelope): Journal {
    Journal(AckOp, Id(e), Batch(e), Some(was), Some(cp), e, Advanced(cp, e))
  }

  /** `validateEnqueueSequence`. */
  function SequenceError(c: Config, d: Disk, e: Envelope): (r: Option<Error>) {
    var cp := ReadCheckpoint(c, d, Batch(e));
    if cp.Err? && !cp.error.NotFound? then Some(cp.error)
    else if cp.Err? && Sequence(e) != 0 then Some(Conflict)
    else if !AllReadable(c, d) then Some(Corrupt)
    else if !BatchAdmits(d, e) then Some(Conflict)
    else if !NextSequence(d, Batch(e), if cp.Ok? then cp.value.expectedNext else 0, Sequence(e)) then Some(Conflict)
    else None
  }

  ghost function EnqueuePlan(c: Config, d: Disk, b: Binding, r: Record): (a: Action) {
    var e := Envelope(b, r.evidence, r, None);
    if !ValidBinding(b) || !r.state.Pending? || r.attemptCount != 0 then Refuse(UnsafeRecord)
    else if !RecordValid(r) || c.recordBytes(r) > c.maxRecordBytes then Refuse(UnsafeRecord)
    else
      var existing := ReadRecord(c, d, Id(e));
      if existing.Ok? then
        if existing.value.owner != b then Refuse(NotFound)
        else if existing.value.evidenceHash != r.evidence then Refuse(Conflict)
        else Nothing
      else if !existing.error.NotFound? then Refuse(existing.error)
      else if SequenceError(c, d, e).Some? then Refuse(SequenceError(c, d, e).value)
      else
        var j := EnqueueJournal(d, e);
        if || !EnvelopeFits(c, e) || |d.records| >= c.maxRecords
           || Required(c, d, j) > c.maxBytes || Reserved(c, d) > c.maxBytes - Required(c, d, j) then Refuse(QueueFull)
        else Write(j)
  }

  function AckPlan(c: Config, d: Disk, b: Binding, id: RecordId, v: VerifiedReceipt): (a: Action) {
    if !v.sealed then Refuse(Refused)
    else
      var e := Owned(c, d, b, id);
      if e.Err? then Refuse(e.error)
      else
        var r, ack := e.value.record, v.receipt.ack;
        if r.state.Acknowledged? then
          if && r.acknowledgement == Some(ack)
             && v.receipt.tenant == b.tenant && v.receipt.clientId == r.evidence.clientId
             && v.verifiedAt != ZERO_TIME && ack.acknowledgedAt <= v.verifiedAt then Confirm(e.value)
          else Refuse(Conflict)
        else if || !r.state.Sending? || v.receipt.tenant != b.tenant || v.receipt.clientId != r.evidence.clientId
                || ack.reconciliationId != id || ack.evidenceHash != e.value.evidenceHash then Refuse(Refused)
        else if || v.verifiedAt == ZERO_TIME || v.verifiedAt < ack.acknowledgedAt
                || ack.acknowledgedAt < r.lastAttemptAt.value then Refuse(Refused)
        else
          var acked := Acked(r, ack);
          if !RecordValid(acked) || c.recordBytes(acked) > c.maxRecordBytes then Refuse(UnsafeRecord)
          else
            var cp := ReadCheckpoint(c, d, Batch(e.value));
            if cp.Err? then Refuse(cp.error)
            else if Sequence(e.value) != cp.value.expectedNext then Refuse(Conflict)
            else Write(AckJournal(e.value, cp.value, e.value.(record := acked)))
  }

  /** `ensureCheckpointEntry`. */
  ghost function ConfirmEntry(c: Config, d: Disk, f: Fault, e: Envelope): (s: Step) {
    var cp := ReadCheckpoint(c, d, Batch(e));
    if cp.Err? then Step(d, f, Failed(cp.error))
    else if Sequence(e) < cp.value.expectedNext then
      if Sequence(e) in cp.value.completed && cp.value.completed[Sequence(e)] == EntryOf(e) then Step(d, f, Done)
      else Step(d, f, Failed(Conflict))
    else if Sequence(e) != cp.value.expectedNext then Step(d, f, Failed(Conflict))
    else if !CheckpointFits(c, Advanced(cp.value, e)) then Step(d, f, Failed(QueueFull))
    else PutCheckpoint(c, d, f, Advanced(cp.value, e))
  }

  ghost function Perform(c: Config, d: Disk, f: Fault, a: Action): (s: Step) {
    match a
    case Refuse(error) => Step(d, f, Failed(error))
    case Nothing => Step(d, f, Done)
    case Confirm(e) => ConfirmEntry(c, d, f, e)
    case Write(j) => CommitJournal(c, d, f, j)
  }

  /** An action a consistent directory can carry out. */
  predicate Lawful(c: Config, d: Disk, a: Action) {
    match a
    case Refuse(_) => true
    case Nothing => true
    case Confirm(e) => Id(e) in d.records && d.records[Id(e)] == e && e.record.state.Acknowledged?
    case Write(j) => Legal(c, d, j)
  }

  /** The journal is refused for its size, or there is room for all of its commit. */
  ghost predicate Affordable(c: Config, d: Disk, j: Journal) {
    || c.journalBytes(j) > MAX_TRANSACTION_BYTES
    || (RoomForCommit(c, d, j) && Funded(c, Replayed(c, d, j)))
  }

  /** The contract of a journalled operation that found `d`, left `d'` and returned `r`:
      all or nothing wherever it stops, success exactly with the journal's effect, and failure
      only for a reason.  A solvent directory stays solvent if the new files fit and have room. */
  ghost predicate Commits(c: Config, d: Disk, f: Fault, d': Disk, a: Action, r: Status) {
    var m := Replay(c, d);
    && Recoverable(c, d')
    && (r.Done? ==>
          !a.Refuse? && d' == (if a.Write? then Commit(m, a.journal, 3) else m) && (a.Write? ==> Fits(c, a.journal)))
    && (r.Failed? ==>
          && (Replay(c, d') == m || (a.Write? && Replay(c, d') == Replayed(c, m, a.journal)))
          && ( || (r.error.Interrupted? && f.after < 7)
               || (r.error.QueueFull? && !Solvent(c, d))
               || a == Refuse(r.error)
               || (r.error.QueueFull? && a.Write? && !RoomForCommit(c, m, a.journal))
               || (r.error.Corrupt? && a.Write? && !Fits(c, a.journal))))
    && (Solvent(c, d) && (a.Write? ==> Affordable(c, m, a.journal)) ==> Solvent(c, d'))
  }

  lemma ConfirmChangesNothing(c: Config, d: Disk, f: Fault, e: Envelope)
    requires Consistent(c, d) && Lawful(c, d, Confirm(e))
    ensures ConfirmEntry(c, d, f, e) == Step(d, f, Done)
  {
    assert RecordOk(c, d, Id(e)) && CheckpointOk(c, d, Batch(e));
  }

  /** A commit with room stays solvent at every stage. */
  lemma CommitStaysSolvent(c: Config, d: Disk, f: Fault, j: Journal)
    requires Consistent(c, d) && Funded(c, d) && Legal(c, d, j) && Affordable(c, d, j)
    ensures Solvent(c, CommitJournal(c, d, f, j).disk)
  {
    hide LegalEnqueue, LegalAck, Apply, Consistent, Commit, CreateJournal, Room, Funded, Fits, MidCommit, Replayed,
         RoomToCommit;
    ConsistentMeans(c, d);
    if c.journalBytes(j) <= MAX_TRANSACTION_BYTES {
      CreateIsFirstStage(c, d, f, j);
      StageIsSolvent(c, d, j, 0);
      ApplyStaysSolvent(c, d, CreateJournal(c, d, f, j).fault, j);
    }
  }

  lemma StageIsSolvent(c: Config, d: Disk, j: Journal, k: nat)
    requires Consistent(c, d) && Legal(c, d, j) && k <= 3 && (k > 0 ==> Fits(c, j))
    requires RoomToCommit(c, d, j) && Funded(c, Replayed(c, d, j))
    ensures Solvent(c, Commit(d, j, k))
  {
    hide LegalEnqueue, LegalAck, Fits, RoomToCommit, Funded, Commit;
    if k == 3 {
      CommitKeeps(c, d, j);
    } else {
      assert MidCommit(c, Commit(d, j, k), d, j, k);
      SolventMidCommit(c, Commit(d, j, k), d, j, k);
    }
  }

  lemma ApplyStaysSolvent(c: Config, d: Disk, f: Fault, j: Journal)
    requires Consistent(c, d) && Legal(c, d, j) && RoomToCommit(c, d, j) && Funded(c, Replayed(c, d, j))
    ensures NameOf(j) in Commit(d, j, 0).pending
    ensures Solvent(c, Apply(c, Commit(d, j, 0), f, NameOf(j)).disk)
  {
    hide LegalEnqueue, LegalAck, Apply, RoomToCommit, Consistent, Fits, Funded, Solvent, Replayed;
    if Fits(c, j) {
      ApplySettles(c, d, j, 0, f);
      var s := Apply(c, Commit(d, j, 0), f, NameOf(j));
      var k :| 0 <= k <= 3 && s.disk == Commit(d, j, k);
      StageIsSolvent(c, d, j, k);
    } else {
      SettingOf(c, d, j);
      ApplyRefuses(c, d, j, f);
      StageIsSolvent(c, d, j, 0);
    }
  }

  /** After the fence: the action, and what the whole operation then amounts to. */
  lemma ActionFinishes(c: Config, d: Disk, f: Fault, s: Step, a: Action)
    requires KeepsMeaning(c, d, f, s) && s.result.Done? && Lawful(c, s.disk, a)
    requires Solvent(c, d) ==> Solvent(c, s.disk)
    ensures var p := Perform(c, s.disk, s.fault, a); Recoverable(c, p.disk) && Commits(c, d, f, p.disk, a, p.result)
  {
    hide Solvent, Funded, Replay, Recoverable, Consistent, CommitJournal, ConfirmEntry, Commit, Replayed,
         RoomForCommit, Affordable, Fits, Legal;
    ConsistentMeans(c, s.disk);
    match a
    case Refuse(_) =>
    case Nothing =>
    case Confirm(e) => ConfirmChangesNothing(c, s.disk, s.fault, e);
    case Write(j) =>
      CommitIsAtomic(c, s.disk, s.fault, j);
      if Solvent(c, d) && Affordable(c, s.disk, j) {
        CommitStaysSolvent(c, s.disk, s.fault, j);
      }
  }

  lemma FailedFenceCommits(c: Config, d: Disk, f: Fault, s: Step, a: Action, r: Status)
    requires KeepsMeaning(c, d, f, s) && r.Failed?
    requires Solvent(c, d) ==> Solvent(c, s.disk) && (s.result.Failed? ==> s.result.error.Interrupted?)
    requires if s.result.Failed? then s.result == r else a == Refuse(r.error)
    ensures Commits(c, d, f, s.disk, a, r)
  {
    hide Solvent, Replay, Recoverable, Consistent, Funded, Commit, Replayed, RoomForCommit, Fits;
  }

  // ----- Enqueue -----

  /** The limits `Open` enforces, and that an empty checkpoint is smaller than the least of them. */
  ghost predicate Limits(c: Config) {
    && 0 < c.maxRecords <= 100_000
    && 0 < c.maxBytes <= 0x4000_0000
    && 1024 <= c.maxRecordBytes <= MAX_RECORD_BYTES_DEFAULT
    && forall b :: c.checkpointBytes(EmptyCheckpoint(b)) <= 1024
  }

  lemma EnqueueIsLawful(c: Config, d: Disk, b: Binding, r: Record)
    requires Limits(c) && Consistent(c, d)
    ensures var a := EnqueuePlan(c, d, b, r);
            && Lawful(c, d, a)
            && (a.Write? ==>
                  a.journal.operation.EnqueueOp? && a.journal.newEnvelope == Envelope(b, r.evidence, r, None))
            && (a.Nothing? ==> r.evidence.reconciliationId in d.records
                               && d.records[r.evidence.reconciliationId].owner == b
                               && d.records[r.evidence.reconciliationId].record.evidence == r.evidence)
  {
    hide RecordsOk, PairsOk, Gapless, DonesOk, Reserved, Required, BatchAdmits, NextSequence, AllReadable;
    var a := EnqueuePlan(c, d, b, r);
    if a.Write? { EnqueueJournalIsLegal(c, d, a.journal.newEnvelope); }
  }

  lemma EnqueueJournalIsLegal(c: Config, d: Disk, e: Envelope)
    requires Limits(c) && CheckpointsOk(c, d) && SequenceError(c, d, e).None? && SoundRecord(c, e) && EnvelopeFits(c, e)
    requires e.record.state.Pending? && e.record.attemptCount == 0 && e.hold.None?
    requires Id(e) !in d.records && |d.records| < c.maxRecords
    ensures LegalEnqueue(c, d, EnqueueJournal(d, e))
  {
    assert Batch(e) in d.checkpoints ==> CheckpointOk(c, d, Batch(e));
  }

  /** Admission pays for everything the record will need, so an admitted record always commits
      unless interrupted or its journal is oversized. */
  lemma EnqueueIsFunded(c: Config, d: Disk, b: Binding, r: Record)
    requires Limits(c) && Consistent(c, d) && Funded(c, d)
    ensures var a := EnqueuePlan(c, d, b, r);
            a.Write? ==>
              && Fits(c, a.journal) && Funded(c, Replayed(c, d, a.journal))
              && (c.journalBytes(a.journal) <= MAX_TRANSACTION_BYTES ==> RoomForCommit(c, d, a.journal))
  {
    hide RecordsOk, PairsOk, Gapless, DonesOk, CheckpointsOk, Reserved, Required, BatchAdmits, NextSequence,
         AllReadable, RoomForCommit, RoomToCommit, Consistent, LegalEnqueue;
    EnqueueIsLawful(c, d, b, r);
    var a := EnqueuePlan(c, d, b, r);
    if a.Write? {
      EnqueueBooks(c, d, a.journal);
      if c.journalBytes(a.journal) <= MAX_TRANSACTION_BYTES { EnqueueFunded(c, d, a.journal); }
      EnqueueReserve(c, d, a.journal);
    }
  }

  // ----- Acknowledge -----

  lemma AckIsLawful(c: Config, d: Disk, b: Binding, id: RecordId, v: VerifiedReceipt)
    requires Consistent(c, d)
    ensures var a := AckPlan(c, d, b, id, v);
            && Lawful(c, d, a)
            && (a.Write? ==>
                  && id in d.records && d.records[id].owner == b
                  && a.journal.newEnvelope == d.records[id].(record := Acked(d.records[id].record, v.receipt.ack))
                  && Refines(d.records[id].record, a.journal.newEnvelope.record, v.verifiedAt, b, false,
                             Some(v.receipt)))
  {
    hide RecordsOk, PairsOk, Gapless, DonesOk, CheckpointsOk, Refines;
    ReadOfOwned(c, d, b, id);
    var a := AckPlan(c, d, b, id, v);
    if a.Write? {
      var e := d.records[id];
      AckRefines(e.record, b, v.receipt, v.verifiedAt);
      AckJournalIsLegal(c, d, e, v.receipt.ack);
    }
  }

  lemma AckJournalIsLegal(c: Config, d: Disk, e: Envelope, ack: Acknowledgement)
    requires Id(e) in d.records && d.records[Id(e)] == e && RecordOk(c, d, Id(e)) && e.record.state.Sending?
    requires RecordValid(Acked(e.record, ack)) && c.recordBytes(Acked(e.record, ack)) <= c.maxRecordBytes
    requires CheckpointReadable(c, Batch(e), d.checkpoints[Batch(e)])
    requires Sequence(e) == d.checkpoints[Batch(e)].expectedNext
    ensures LegalAck(c, d, AckJournal(e, d.checkpoints[Batch(e)], e.(record := Acked(e.record, ack))))
  {
  }

  /** Sizes of encoded documents add up, with `framing` and `entry` as the two surcharges. */
  ghost predicate Encodes(c: Config, framing: nat, entry: nat) {
    && framing + entry <= 32 * 1024
    && (forall j :: c.journalBytes(j) <= c.envelopeBytes(j.newEnvelope) + c.checkpointBytes(j.newCheckpoint) + framing)
    && (forall cp, e :: c.checkpointBytes(Advanced(cp, e)) <= c.checkpointBytes(cp) + entry)
  }

  /** The acknowledgement of an admitted record whose new files fit is never short of room. */
  lemma AckIsFunded(c: Config, d: Disk, b: Binding, id: RecordId, v: VerifiedReceipt, framing: nat, entry: nat)
    requires Limits(c) && Encodes(c, framing, entry) && Consistent(c, d) && Funded(c, d)
    ensures var a := AckPlan(c, d, b, id, v);
            a.Write? && Fits(c, a.journal) ==> RoomForCommit(c, d, a.journal) && Funded(c, Replayed(c, d, a.journal))
  {
    hide RecordsOk, PairsOk, Gapless, DonesOk, CheckpointsOk, Reserved, RoomForCommit, Consistent, LegalAck, Refines,
         AckPlan, Fits;
    AckIsLawful(c, d, b, id, v);
    var a := AckPlan(c, d, b, id, v);
    if a.Write? && Fits(c, a.journal) {
      AckJournalSizes(c, d, a.journal, framing, entry);
      AckFunded(c, d, a.journal, framing, entry);
    }
  }

  lemma AckJournalSizes(c: Config, d: Disk, j: Journal, framing: nat, entry: nat)
    requires Limits(c) && Encodes(c, framing, entry) && LegalAck(c, d, j)
    ensures SizesAddUp(c, d, j, framing, entry)
  {
    assert j.newCheckpoint == Advanced(d.checkpoints[Batch(j.newEnvelope)], j.newEnvelope);
  }

  // ----- The reserve, operation by operation -----

  lemma SolventMeansFunded(c: Config, d: Disk)
    requires Solvent(c, d)
    ensures Consistent(c, Replay(c, d)) && Funded(c, Replay(c, d))
  {
    hide Consistent, Funded, RoomToCommit, Legal, Replayed, Replay, Commit;
    SolventIsRecoverable(c, d);
    ReplayIsConsistent(c, d);
    if Consistent(c, d) && Funded(c, d) { ConsistentMeans(c, d); }
    else {
      var base, j, k :| MidCommit(c, d, base, j, k) && RoomToCommit(c, base, j) && Funded(c, Replayed(c, base, j));
      ConsistentPending(c, base);
      ReplayOfCommit(c, base, j, k);
    }
  }

  lemma ConsistentPending(c: Config, d: Disk)
    requires Consistent(c, d)
    ensures d.pending == map[]
  {
  }

  /** Enqueueing into a solvent directory leaves it solvent; it is full only if the record's own
      reserve does not fit or its journal is oversized. */
  lemma EnqueueStaysSolvent(c: Config, d: Disk, f: Fault, d': Disk, b: Binding, record: Record, r: Status)
    requires Limits(c) && Solvent(c, d) && Commits(c, d, f, d', EnqueuePlan(c, Replay(c, d), b, record), r)
    ensures Solvent(c, d')
    ensures var a := EnqueuePlan(c, Replay(c, d), b, record);
            r == Failed(QueueFull) ==>
              a == Refuse(QueueFull) || (a.Write? && c.journalBytes(a.journal) > MAX_TRANSACTION_BYTES)
  {
    hide Solvent, Funded, Recoverable, Replay, Consistent, EnqueuePlan, RoomForCommit, Fits, Commit, Replayed;
    SolventMeansFunded(c, d);
    EnqueueIsFunded(c, Replay(c, d), b, record);
  }

  /** An admitted record can always be acknowledged: on a solvent directory a receipt for the
      record in flight commits, unless interrupted, exactly if the new files can be read back. */
  lemma AckAlwaysCommits(c: Config, d: Disk, f: Fault, d': Disk, b: Binding, id: RecordId, v: VerifiedReceipt,
                         r: Status,
                         framing: nat, entry: nat)
    requires Limits(c) && Encodes(c, framing, entry) && Solvent(c, d)
    requires Commits(c, d, f, d', AckPlan(c, Replay(c, d), b, id, v), r)
    requires AckPlan(c, Replay(c, d), b, id, v).Write?
    ensures var j := AckPlan(c, Replay(c, d), b, id, v).journal;
            && (Fits(c, j) ==> Solvent(c, d'))
            && (f.after >= 7 ==> (r.Done? <==> Fits(c, j)))
            && (r.Done? ==> d' == Commit(Replay(c, d), j, 3))
  {
    hide Solvent, Funded, Recoverable, Replay, Consistent, AckPlan, Fits, Commit, Replayed, RoomForCommit;
    SolventMeansFunded(c, d);
    AckIsFunded(c, Replay(c, d), b, id, v, framing, entry);
  }
}
