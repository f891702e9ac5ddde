/** The session journal: one account's session metadata and the credential store beside it,
    changed step by step under the account's lifecycle lock.

    The n-th store call is decided by the script: it works, or it fails with or without its
    effect.  A crash is a script whose later calls all fail without effect. */
module Session {
  import opened Protocol

  type SessionId = string

  datatype Operation = Login | Renewal

  /** Either `sessionId` is active, or a tombstone names what may be left; `""` is no session. */
  datatype Metadata = Metadata(
    sessionId: SessionId,
    pendingId: SessionId,
    previousId: SessionId,
    operation: Option<Operation>,
    generation: nat,
    tombstoned: bool,
    operationId: nat,
    expiresAt: Instant)

  datatype Credential = Credential(sessionId: SessionId, subject: string, tokens: string, expiresAt: Instant)

  datatype Failure =
    | NoSession | Storage | Indeterminate | ProviderFailed
    | Partial(cleanupFailed: bool, uncertain: bool)

  datatype Outcome = Success | Failure(failure: Failure)

  datatype Call = Works | Fails(effective: bool, indeterminate: bool)

  datatype Verdict = Written | Declined | Broken(indeterminate: bool)

  function Active(id: SessionId, generation: nat, expiresAt: Instant): Metadata {
    Metadata(id, "", "", None, generation, false, 0, expiresAt)
  }

  predicate SameReservation(actual: Metadata, expected: Metadata) {
    && actual.tombstoned && actual.sessionId == expected.sessionId && actual.generation == expected.generation
    && actual.operationId == expected.operationId && actual.pendingId == expected.pendingId
    && actual.previousId == expected.previousId && actual.operation == expected.operation
  }

  predicate SameActive(actual: Metadata, expected: Metadata) {
    && !actual.tombstoned && actual.sessionId == expected.sessionId && actual.generation == expected.generation
    && actual.expiresAt == expected.expiresAt
  }

  /** Is the metadata a transaction found what it expects? */
  predicate Matches(actual: Option<Metadata>, expected: Option<Metadata>) {
    if expected.None? || actual.None? then actual == expected
    else if expected.value.tombstoned then SameReservation(actual.value, expected.value)
    else SameActive(actual.value, expected.value)
  }

  /** The ids a tombstone says may still have a credential, in the order recovery deletes them. */
  function LeftBehind(m: Metadata): seq<SessionId> {
    [m.pendingId, m.previousId] + if m.pendingId == "" then [m.sessionId] else []
  }

  /** Containment: no metadata, no credential; an active session has exactly its own credential;
      a tombstone names every credential there is. */
  predicate Contained(metadata: Option<Metadata>, credentials: map<SessionId, Credential>) {
    match metadata
    case None => credentials == map[]
    case Some(m) =>
      if m.tombstoned then forall id :: id in credentials ==> id != "" && id in LeftBehind(m)
      else && m.sessionId != "" && m.pendingId == "" && m.previousId == "" && credentials.Keys == {m.sessionId}
           && credentials[m.sessionId].sessionId == m.sessionId
           && credentials[m.sessionId].expiresAt == m.expiresAt
  }

  /** The tombstone that reserves `pendingId` over the metadata found. */
  function Reservation(found: Option<Metadata>, operation: Operation, pendingId: SessionId,
                       operationId: nat): Metadata {
    if found.None? then Metadata(pendingId, pendingId, "", Some(operation), 1, true, operationId, ZERO_TIME)
    else Metadata(found.value.sessionId, pendingId, found.value.sessionId, Some(operation), found.value.generation + 1,
                  true, operationId, ZERO_TIME)
  }

  predicate Tombstoned(metadata: Option<Metadata>) {
    metadata.Some? && metadata.value.tombstoned
  }

  predicate IsActive(metadata: Option<Metadata>, id: SessionId) {
    metadata.Some? && !metadata.value.tombstoned && metadata.value.sessionId == id
  }

  /** What a login or renewal that fails may leave: everything as it was, a tombstone or nothing
      for the next recovery, or, if the last write was in doubt, the new session. */
  predicate LeavesWhole(before: Option<Metadata>, beforeCredentials: map<SessionId, Credential>,
                        metadata: Option<Metadata>, credentials: map<SessionId, Credential>, value: Credential) {
    || (metadata == before && credentials == beforeCredentials)
    || metadata.None? || Tombstoned(metadata)
    || (metadata.value.sessionId == value.sessionId && credentials == map[value.sessionId := value])
  }

  predicate Effective(call: Call) { call.Works? || call.effective }

  /** When a logout whose store calls start at `n` keeps containment: the metadata and the
      credential of the session go together, and a failed read of the metadata does not make it
      delete the metadata of a session it was not asked to end. */
  predicate LogoutIsClean(metadata: Option<Metadata>, credentials: map<SessionId, Credential>, id: SessionId,
                          script: nat -> Call, n: nat) {
    var read, drops, deletes := script(n).Works?, Effective(script(n + 2)), Effective(script(n + 3));
    match metadata
    case None => true
    case Some(m) =>
      if m.tombstoned then read || !drops || credentials.Keys == {} || (deletes && credentials.Keys == {id})
      else if m.sessionId == id then drops == deletes
      else read || !drops
  }

  /** Logging out of another session while one metadata read fails orphans the active credential. */
  lemma LogoutCanOrphan(active: SessionId, other: SessionId, expiresAt: Instant, subject: string)
    requires active != "" && other != "" && active != other
    ensures var script := (i: nat) => if i == 0 then Fails(false, false) else Works;
            var m := Some(Active(active, 1, expiresAt));
            var creds := map[active := Credential(active, subject, "", expiresAt)];
            Contained(m, creds) && !LogoutIsClean(m, creds, other, script, 0)
  {
  }

  lemma OnlyOne(ids: set<SessionId>, id: SessionId)
    ensures ids - {id} == {} <==> ids == {} || ids == {id}
  {
    if ids - {id} == {} && ids != {} {
      var x :| x in ids;
      assert x !in ids - {id};
    }
  }

  class Manager {
    const script: nat -> Call
    var calls: nat
    var metadata: Option<Metadata>
    var credentials: map<SessionId, Credential>

    predicate Valid()
      reads this
    {
      Contained(metadata, credentials)
    }

    /** The next `n` calls all work. */
    ghost predicate Calm(from: nat, n: nat) {
      forall i :: from <= i < from + n ==> script(i).Works?
    }

    constructor (script: nat -> Call)
      ensures Valid() && metadata == None && credentials == map[] && this.script == script && calls == 0
    {
      metadata, credentials, this.script, calls := None, map[], script, 0;
    }

    // ----- Store calls -----

    method Next() returns (call: Call)
      modifies `calls
      ensures call == script(old(calls)) && calls == old(calls) + 1
    {
      call := script(calls);
      calls := calls + 1;
    }

    method GetMetadata() returns (works: bool, found: Option<Metadata>)
      modifies `calls
      ensures calls == old(calls) + 1 && works == script(old(calls)).Works? && (works ==> found == metadata)
    {
      var call := Next();
      return call.Works?, if call.Works? then metadata else None;
    }

    method DeleteCredential(id: SessionId) returns (works: bool)
      modifies `calls, `credentials
      ensures calls == old(calls) + 1 && works == script(old(calls)).Works?
      ensures credentials == if Effective(script(old(calls))) then old(credentials) - {id} else old(credentials)
    {
      var call := Next();
      if call.Works? || call.effective { credentials := credentials - {id}; }
      return call.Works?;
    }

    method PutCredential(value: Credential) returns (works: bool)
      modifies `calls, `credentials
      ensures calls == old(calls) + 1 && works == script(old(calls)).Works?
      ensures credentials ==
                if Effective(script(old(calls))) then old(credentials)[value.sessionId := value] else old(credentials)
    {
      var call := Next();
      if call.Works? || call.effective { credentials := credentials[value.sessionId := value]; }
      return call.Works?;
    }

    method DeleteMetadata() returns (works: bool)
      modifies `calls, `metadata
      ensures calls == old(calls) + 1 && works == script(old(calls)).Works?
      ensures metadata == if Effective(script(old(calls))) then None else old(metadata)
    {
      var call := Next();
      if call.Works? || call.effective { metadata := None; }
      return call.Works?;
    }

    /** A metadata transaction: writes `next` if the stored metadata is still as expected. */
    method Transact(expected: Option<Metadata>, next: Metadata) returns (v: Verdict)
      modifies `calls, `metadata
      ensures calls == old(calls) + 1
      ensures metadata == old(metadata) || (metadata == Some(next) && Matches(old(metadata), expected))
      ensures v.Written? <==> script(old(calls)).Works? && Matches(old(metadata), expected)
      ensures v.Written? ==> metadata == Some(next)
    {
      var call := Next();
      if !Matches(metadata, expected) { return if call.Works? then Declined else Broken(call.indeterminate); }
      if call.Works? || call.effective { metadata := Some(next); }
      return if call.Works? then Written else Broken(call.indeterminate);
    }

    // ----- The journal -----

    /** Deletes whatever a tombstone says may be left, then the tombstone. */
    method RecoverJournal() returns (r: Outcome)
      requires Valid()
      modifies `calls, `metadata, `credentials
      ensures Valid()
      ensures metadata == None || metadata == old(metadata)
      ensures !Tombstoned(old(metadata)) ==> metadata == old(metadata) && credentials == old(credentials)
      ensures r.Success? ==> metadata == if Tombstoned(old(metadata)) then None else old(metadata)
      ensures old(calls) < calls <= old(calls) + 5
      ensures Calm(old(calls), 5) ==> r.Success?
    {
      var works, current := GetMetadata();
      if !works { return Failure(Indeterminate); }
      if current.None? || !current.value.tombstoned { return Success; }
      var ids := LeftBehind(current.value);
      var seen, failed, i := {""}, false, 0;
      while i < |ids|
        invariant 0 <= i <= |ids| && metadata == old(metadata)
        invariant credentials.Keys <= old(credentials).Keys
        invariant forall k :: 0 <= k < i ==> ids[k] in seen
        invariant !failed ==> forall id :: id in seen && id != "" ==> id !in credentials
        invariant old(calls) < calls <= old(calls) + 1 + i
        invariant Calm(old(calls), 5) ==> !failed
      {
        if ids[i] !in seen {
          seen := seen + {ids[i]};
          var deleted := DeleteCredential(ids[i]);
          if !deleted { failed := true; }
        }
        i := i + 1;
      }
      if failed { return Failure(Partial(true, true)); }
      assert credentials.Keys == {};
      var removed := DeleteMetadata();
      if !removed { return Failure(Partial(false, true)); }
      return Success;
    }

    /** Reserves `pendingId`, over the active session if there is one. */
    method BeginJournal(operation: Operation, pendingId: SessionId, operationId: nat) returns (r: Outcome,
                        journal: Metadata)
      requires Valid() && pendingId != ""
      modifies `calls, `metadata
      ensures Valid()
      ensures || metadata == old(metadata)
              || metadata == Some(Reservation(old(metadata), operation, pendingId, operationId))
      ensures r.Success? ==> !Tombstoned(old(metadata)) && metadata == Some(journal)
                             && journal == Reservation(old(metadata), operation, pendingId, operationId)
      ensures old(calls) < calls <= old(calls) + 3
      ensures Calm(old(calls), 3) && !Tombstoned(old(metadata)) ==> r.Success? && calls == old(calls) + 2
    {
      var works, current := GetMetadata();
      journal := Reservation(current, operation, pendingId, operationId);
      if !works || (current.Some? && current.value.tombstoned) { return Failure(Indeterminate), journal; }
      var v := Transact(current, journal);
      if v == Broken(true) {
        var read, actual := GetMetadata();
        if read && actual.Some? && SameReservation(actual.value, journal) { return Success, actual.value; }
      }
      return if v.Written? then Success else Failure(Indeterminate), journal;
    }

    method DeletePredecessors(journal: Metadata) returns (works: bool)
      modifies `calls, `credentials
      ensures old(calls) <= calls <= old(calls) + 1
      ensures credentials == old(credentials) || credentials == old(credentials) - {journal.previousId}
      ensures works && journal.previousId !in {"", journal.pendingId} ==>
                credentials == old(credentials) - {journal.previousId}
      ensures journal.previousId in {"", journal.pendingId} ==> works && credentials == old(credentials)
      ensures Calm(old(calls), 1) ==> works
    {
      if journal.previousId == "" || journal.previousId == journal.pendingId { return true; }
      works := DeleteCredential(journal.previousId);
    }

    method ActivateJournal(journal: Metadata, active: Metadata) returns (r: Outcome)
      requires journal.tombstoned && !active.tombstoned
      modifies `calls, `metadata
      ensures metadata == old(metadata) || (metadata == Some(active) && Matches(old(metadata), Some(journal)))
      ensures r.Success? && Matches(old(metadata), Some(journal)) ==>
                metadata.Some? && SameActive(metadata.value, active)
      ensures old(calls) < calls <= old(calls) + 2
      ensures Calm(old(calls), 1) && Matches(old(metadata), Some(journal)) ==> r.Success?
    {
      var v := Transact(Some(journal), active);
      if v == Broken(true) {
        var read, current := GetMetadata();
        if read && current.Some? && SameActive(current.value, active) { return Success; }
      }
      return if v.Written? then Success else Failure(Partial(false, true));
    }

    /** Gives a reservation up; it always reports a failure. */
    method AbortJournal(journal: Metadata, cause: Failure) returns (failure: Failure)
      requires Valid()
      modifies `calls, `metadata, `credentials
      ensures Valid() && (metadata == None || metadata == old(metadata))
      ensures !Tombstoned(old(metadata)) ==> metadata == old(metadata) && credentials == old(credentials)
      ensures failure == cause || failure.Partial?
    {
      var works, current := GetMetadata();
      if !works {
        var again, retry := GetMetadata();
        var cleanup := false;
        if again && retry.Some? && SameReservation(retry.value, journal) {
          var r := RecoverJournal();
          cleanup := r.Failure? && r.failure.Partial? && r.failure.cleanupFailed;
        }
        return Partial(cleanup, true);
      }
      if current.None? || !SameReservation(current.value, journal) { return cause; }
      var r := RecoverJournal();
      if r.Success? { return cause; }
      return if r.failure.Partial? then r.failure else Partial(false, true);
    }

    /** The journalled switch to a new session, from the reservation on. */
    method Switch(journal: Metadata, value: Credential, onFailure: Failure) returns (r: Outcome)
      requires Valid() && metadata == Some(journal) && journal.tombstoned
      requires journal.pendingId == value.sessionId != ""
      modifies `calls, `metadata, `credentials
      ensures Valid()
      ensures r.Success? ==>
                && metadata == Some(Active(value.sessionId, journal.generation, value.expiresAt))
                && credentials == map[value.sessionId := value]
      ensures metadata.None? || Tombstoned(metadata) ||
              (metadata.value.sessionId == value.sessionId && credentials == map[value.sessionId := value])
      ensures Calm(old(calls), 3) ==> r.Success?
    {
      var stored := PutCredential(value);
      if !stored {
        var failure := AbortJournal(journal, onFailure);
        return Failure(failure);
      }
      var deleted := DeletePredecessors(journal);
      if !deleted { return Failure(Partial(true, true)); }
      assert credentials.Keys == {value.sessionId};
      assert credentials == map[value.sessionId := value];
      var active := Active(value.sessionId, journal.generation, value.expiresAt);
      r := ActivateJournal(journal, active);
    }

    // ----- Operations -----

    /** Login, once the provider has issued `value`. */
    method Complete(value: Credential, operationId: nat) returns (r: Outcome)
      requires Valid() && value.sessionId != ""
      modifies `calls, `metadata, `credentials
      ensures Valid()
      ensures r.Success? ==>
                && credentials == map[value.sessionId := value]
                && var renewed := old(metadata).Some? && !old(metadata).value.tombstoned;
                   var generation := if renewed then old(metadata).value.generation + 1 else 1;
                   metadata == Some(Active(value.sessionId, generation, value.expiresAt))
      ensures LeavesWhole(old(metadata), old(credentials), metadata, credentials, value)
      ensures Calm(old(calls), 11) ==> r.Success?
    {
      r := RecoverJournal();
      if r.Failure? { return; }
      var journal;
      r, journal := BeginJournal(Login, value.sessionId, operationId);
      if r.Failure? { return; }
      r := Switch(journal, value, Storage);
    }

    /** Renewal of `sessionId`: the provider answers with `issued`, or not at all. */
    method Refresh(sessionId: SessionId, issued: Option<Credential>, newId: SessionId,
                   operationId: nat) returns (r: Outcome)
      requires Valid() && newId != "" && (issued.Some? ==> issued.value.sessionId == newId)
      modifies `calls, `metadata, `credentials
      ensures Valid()
      ensures r.Success? ==>
                && IsActive(old(metadata), sessionId)
                && issued.Some? && credentials == map[newId := issued.value]
                && metadata == Some(Active(newId, old(metadata).value.generation + 1, issued.value.expiresAt))
      ensures issued.Some? ==> LeavesWhole(old(metadata), old(credentials), metadata, credentials, issued.value)
      ensures issued.None? ==>
                (metadata == old(metadata) && credentials == old(credentials)) || metadata.None? || Tombstoned(metadata)
      ensures Calm(old(calls), 13) && IsActive(old(metadata), sessionId) && issued.Some? ==> r.Success?
    {
      r := RecoverJournal();
      if r.Failure? { return; }
      var works, current := GetMetadata();
      if !works || current.None? || current.value.tombstoned || current.value.sessionId != sessionId {
        return Failure(NoSession);
      }
      var load := Next();
      if !load.Works? { return Failure(Storage); }
      var journal;
      r, journal := BeginJournal(Renewal, newId, operationId);
      if r.Failure? { return; }
      if issued.None? {
        var failure := AbortJournal(journal, ProviderFailed);
        return Failure(failure);
      }
      r := Switch(journal, issued.value, Indeterminate);
    }

    /** Ends `sessionId`.  Metadata goes before the credential, so this is the one operation that
        can leave a credential nothing names. */
    method Logout(sessionId: SessionId, revoked: bool) returns (r: Outcome)
      requires Valid() && sessionId != ""
      modifies `calls, `metadata, `credentials
      ensures r.Success? ==> sessionId !in credentials
      ensures r.Success? && metadata.Some? ==> metadata.value.tombstoned || metadata.value.sessionId != sessionId
      ensures Valid() <==> LogoutIsClean(old(metadata), old(credentials), sessionId, script, old(calls))
    {
      var works, current := GetMetadata();
      var load := Next();
      var matching :=
        && works && current.Some?
        && sessionId in [current.value.sessionId, current.value.pendingId, current.value.previousId];
      var cleanup, uncertain := false, false;
      if matching && current.value.tombstoned {
        r := RecoverJournal();
        if r.Failure? {
          cleanup := r.failure.Partial? && r.failure.cleanupFailed;
          uncertain := true;
        }
      } else if matching || !works {
        var removed := DeleteMetadata();
        uncertain := !removed;
      }
      assert (credentials - {sessionId}).Keys == credentials.Keys - {sessionId};
      OnlyOne(credentials.Keys, sessionId);
      var deleted := DeleteCredential(sessionId);
      if cleanup || !deleted || uncertain || !revoked { return Failure(Partial(cleanup || !deleted, uncertain)); }
      return Success;
    }
  }
}
