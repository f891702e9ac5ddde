# Durable reconciliation, sessions and canonical forms

A model in Dafny of the parts of the SDK whose correctness is hardest to see from the code: the
guard's durable reconciliation queue and the reference machine it must follow, the session
journal, the schema reference check and the validator it protects, and the canonical forms the
guard and the reference have to agree on byte for byte.

## The queue

The reference machine (`Reference.dfy`) says which single transitions of a reconciliation record
are allowed; `ReferenceRules.dfy` says the same without its checks, as five kinds of moves and their
conditions, and proves the two equal. The guard keeps records, batch checkpoints and write-ahead journals as files
(`QueueDisk.dfy`) and commits an enqueue or an acknowledgement by writing a journal, then both
files, then renaming the journal (`QueueJournal.dfy`, `QueueCommit.dfy`).

Every durable step may fail, with or without its effect, and nothing need run after it: the
environment is a counter of steps that still succeed. What is proved is therefore about every
crash point. A directory is *recoverable* if it is consistent or some number of steps into a
legal commit (`QueueReplay.dfy`); the *meaning* of a directory is what replay makes of it.
Operations are stated on meanings: a decision, a function of the settled directory
(`QueuePlans.dfy`), and a contract (`Rewrites` and `Commits` in `QueueOperations.dfy`) saying that
success is exactly the decided change, failure leaves the meaning alone or, if interrupted, may
have made the whole change, and failure always has a listed reason. When each decision is made, and
with what result, is proved exactly and in terms of the directory alone (`QueuePlans.dfy`,
`QueueDecisions.dfy`). `QueueCaution.dfy` adds what applying a journal and reconciling checkpoints may
do to any directory whatsoever. The class in `UnixQueue.dfy`
does the work on mutable files, step by step and loop by loop, and every public method keeps the
directory recoverable.

Capacity is a second invariant: a directory is *solvent* if everything it has promised, the growth
of every record, every acknowledgement journal still owed and one rewrite, fits its byte limit,
also in the middle of a commit. Solvent directories are never full for anything but admission,
provided the acknowledgement's new record and checkpoint are small enough to be read back. That
proviso is a finding about the code: a checkpoint that has outgrown the per-file limit makes the
acknowledgement journal unreadable, and replay sets it aside and leaves the record in flight
(`QueueReplay.ApplyRefuses`, `QueueCapacity.CommitIsAtomic`). `QueueOversized.dfy` builds such a
directory by ordinary operations; `QueueLimits.dfy` shows that the limits on the number of files
never bite.

## The rest

* `Session.dfy` takes login, renewal, recovery and logout over two stores through a script that
  decides every store call. Containment (no metadata, no credential; an active session has exactly
  its own; a tombstone names all there are) is kept by all but logout, for which the exact
  condition is given.
* `SchemaGraph.dfy` and `SchemaValidator.dfy` connect the depth-first search for reference cycles
  to the termination of the generated validator on every value. The search follows the pointer a
  reference spells and the validator the schema it leads to; the theorem needs the two to be the
  same, and a document where they differ shows why. `SchemaMeaning.dfy` proves that the verdict is
  the one meaning the schema's keywords have when each is taken literally.
* `Decimal.dfy`, `Utf8.dfy`, `CanonicalJson.dfy`, `CanonicalOrder.dfy`, `JsonDecode.dfy` and
  `JsonEncode.dfy` show that the guard's canonical text determines the value and the value the
  text. `DecimalText.dfy`, `DecimalRange.dfy` and `ReferenceJson.dfy` give the reference's encoder,
  which renders decimals, sorts by code points and has its own limits, and prove that the two write
  the same text for every input both accept. `JsonAccept.dfy` says exactly which inputs each accepts,
  and `JsonShortest.dfy` that the canonical escapes are the shortest. `Snapshot.dfy` shows that remembering shared containers changes neither what is
  captured nor what is charged. `DotSegments.dfy` compares the two ways of removing dot segments.
* `Timestamp.dfy` and `Approval.dfy` prove the timestamp order exact and the approval
  compare-and-swap a race with one winner.

Hashes are taken to be injective, so a digest is modelled by what it digests and a file name
hashed from an identifier by the identifier. An instant is a number of nanoseconds since year one,
the value Go calls the zero time being 0. The reference's decimals are taken to be in the default
arithmetic context of 28 digits, rounding half to even, since the module sets no other. Encoded
sizes, jitter, string normalisation, the JSON parser and the provider's answers are parameters.

## Model

| member | source | states |
|---|---|---|
| `Reference.RecoverAfterRestart` | protocol/reference/reconciliation.py:754-784 | restart recovery succeeds exactly for the owner's valid record in flight, read at its current revision, with a clock not before the last attempt; its own edit is then a move the transition validator applies |
| `ReferenceRules.AppliedExactly` | protocol/reference/reconciliation.py:618-706 | a transition is applied exactly if both records are valid, the one read is still current, and the move is one of five, each said as the exact next record: the owner's due automatic send with attempts left; a wait of exactly the doubled delay up to the maximum; a return to pending, for a person once the attempts are used up; a server receipt for this tenant and client, issued by now and stored as it is; a discard by the authority it names at a time that has come |
| `ReferenceRules.IdempotentExactly` | protocol/reference/reconciliation.py:638-675 | a transition is idempotent exactly if the valid current record is presented unchanged by its owner or, if discarded, by the authority that discarded it |
| `ReferenceRules.ManualRetryExactly` | protocol/reference/reconciliation.py:709-751 | a retry by hand is applied exactly for the exhausted pending record that was read, by its owner or the retention authority, with attempts left and a clock not behind, and is exactly one more send |
| `ReferenceRules.RefusalsAreHonest` | protocol/reference/reconciliation.py:431-706 | a refusal always has the cause its code names |
| `ReferenceRules.CapNeverShows` | protocol/reference/reconciliation.py:356-394 | the cap of 63 on the exponent never changes the delay |
| `ReferenceRuns.StepFacts` | protocol/reference/reconciliation.py:431-751 | every applied transition or manual retry keeps the evidence and the attempt history, counts one attempt exactly when it sends, and lowers a potential |
| `ReferenceRuns.RunsAreBounded` | protocol/reference/reconciliation.py:618-751 | every run from a fresh record has at most 2·maxTotalAttempts+1 moves; evidence is constant, attempt times never fall back, manual intervention is permanent, terminal records have no successor, and attemptCount is the number of sends so far |
| `ReferenceRuns.BoundIsAttained` | protocol/reference/reconciliation.py:618-751 | for every usable policy some run makes exactly that many moves, so the bound is tight |
| `BatchResume.OrderedBatchResume` | protocol/reference/reconciliation.py:787-879 | the selection loop selects exactly the maximal run of due records at the checkpoint, if the arguments make sense and there is one, and returns what the recursive selection defines, errors included |
| `BatchResume.ResumeExactly` | protocol/reference/reconciliation.py:787-879 | a run is selected exactly if the limit, the checkpoint and the caller's own valid records of one batch make sense, everything before the run was completed in place, every record in it is due and unfinished, and the next record, if any, is unfinished and must wait |
| `BatchResume.ResumeRefusals` | protocol/reference/reconciliation.py:787-879 | every refusal has the cause its name says; a mismatch with a sound checkpoint means that no maximal run starts there |
| `BatchResume.ResumeIsContiguous` | protocol/reference/reconciliation.py:787-879 | whatever is selected is a run of consecutive due records starting at the checkpoint, and everything before its end that is not in it was completed in place |
| `QueueRecord.ValidatorsAgree` | guard/internal/reconcile/queue.go:244-324 | the guard accepts a record exactly if the reference accepts the document, with times in whole nanoseconds |
| `QueueRecord.OnlyOrderMatters` | guard/internal/reconcile/queue.go:244-324 | the reference on exact times and the guard on the nanoseconds it keeps of them agree on every record in which no pair of times they compare changes its order |
| `QueueRecord.BackoffAgrees` | guard/internal/reconcile/queue.go:393-409 | the guard's float backoff, with its wrapped conversion and its exponent cap of 62, equals the reference's integer backoff with cap 63 on every valid record |
| `QueueRecord.FailDelayExactly` | guard/internal/reconcile/queue_unix.go:802-815 | the delay is the exact backoff plus its jitter or, if that is longer, the server's Retry-After cut at the policy's maximum; there is none exactly if the jitter leaves its window |
| `QueueRecord.FailDelayBounds` | guard/internal/reconcile/queue_unix.go:802-815 | with any jitter and any Retry-After the delay lies between the exact backoff and the policy's maximum |
| `QueueRecord.SendRefines` | guard/internal/reconcile/queue_unix.go:620-627 | a claim is a send the reference applies |
| `QueueRecord.ManualRetryRefines` | guard/internal/reconcile/queue_unix.go:957-973 | a manual retry, of an exhausted record or of a held one, is a move the reference applies |
| `QueueRecord.RequeueRefines` | guard/internal/reconcile/queue_unix.go:738-743 | putting a record in flight back to pending is a move the reference applies, and the two spellings of that edit in the guard coincide on valid records |
| `QueueRecord.WaitRefines` | guard/internal/reconcile/queue_unix.go:801-818 | scheduling a retry yields a valid record and is a move the reference applies up to where in the window the retry falls |
| `QueueRecord.AckRefines` | guard/internal/reconcile/queue_unix.go:851-862 | an acknowledgement is a move the reference applies at the time the receipt was verified |
| `QueueRecord.DropRefines` | guard/internal/reconcile/queue_unix.go:930-937 | a discard yields a valid record exactly if its reason is safe and at most 128 characters long, and is then a move the reference applies under the discarding authority |
| `QueueInvariant.HeadOfLine` | guard/internal/reconcile/queue_unix.go:639-680 | in a settled directory whatever was attempted and not acknowledged is next in its batch, so a batch never has two such records and none overtakes an unacknowledged one |
| `QueueInvariant.RewriteKeeps` | guard/internal/reconcile/queue_unix.go:1047-1061 | rewriting one unacknowledged record keeps the whole invariant: contiguous sequences, exact prefix, one owner per batch, nothing after a discarded record, every retained journal still verifying |
| `QueueCommit.AckShapeHolds` | guard/internal/reconcile/queue_unix.go:1959-1983 | a legal acknowledgement journal has a shape replay accepts exactly if its two files are small enough to be read back |
| `QueueCommit.AckKeeps` | guard/internal/reconcile/queue_unix.go:1651-1743 | a finished acknowledgement keeps the whole invariant |
| `QueueCommit.EnqueueKeeps` | guard/internal/reconcile/queue_unix.go:1745-1817 | a finished enqueue keeps the whole invariant |
| `QueueReplay.ApplySettles` | guard/internal/reconcile/queue_unix.go:1651-1817 | applying a journal from any stage of its commit finishes it or stops at one of its stages, and fails only if interrupted or short of room |
| `QueueReplay.ApplyRefuses` | guard/internal/reconcile/queue_unix.go:1651-1660 | an acknowledgement whose files could not be read back is refused without touching anything |
| `QueueOversized.OversizedReceipt` | guard/internal/reconcile/queue_unix.go:1651-1660 | a receipt whose new files do not fit, with room for its journal, fails as corrupt; the next replay sets the journal aside and changes nothing else, so the record stays in flight and the same receipt is planned again |
| `QueueOversized.SomeReceiptIsNeverStored` | guard/internal/reconcile/queue_unix.go:824-879 | a directory within its reserve and every limit, reached from the empty one by enqueueing, claiming and acknowledging one batch in order, whose last record can be sent and never acknowledged |
| `QueueReplay.ReplayIsConsistent` | guard/internal/reconcile/queue_unix.go:1497-1560 | what replay makes of any reachable directory is consistent, and replaying again changes nothing |
| `QueueReplay.RecoverKeepsMeaning` | guard/internal/reconcile/queue_unix.go:1497-1560 | replay, whatever interrupts it and whatever order the directory lists its journals in, leaves a recoverable directory of the same meaning, settles it when it returns, and writes nothing to a settled one |
| `QueueReplay.HeadOfLineAlways` | guard/internal/reconcile/queue_unix.go:547-1003 | head-of-line safety holds of the files themselves at every instant, in the middle of any commit too |
| `QueueFence.WalkFindsFaults` | guard/internal/reconcile/queue_unix.go:682-715 | the walk over batch groups reports a fault exactly if some group has one |
| `QueueFence.ReconcileWritesNothing` | guard/internal/reconcile/queue_unix.go:499-545 | in a consistent directory checkpoint reconciliation has nothing to write |
| `QueueCaution.ReconcileHeals` | guard/internal/reconcile/queue_unix.go:499-545 | on any directory reconciliation only adds to checkpoints, only entries of acknowledged records it was given, and when it returns every one of those is in its checkpoint |
| `QueueCaution.ConfirmHeals` | guard/internal/reconcile/queue_unix.go:881-901 | the same for one acknowledged record whose receipt is presented again |
| `QueueCaution.ApplyIsCautious` | guard/internal/reconcile/queue_unix.go:1651-1817 | on any directory a journal writes only the two files it names, only over the contents it was written for (an enqueue only into a batch that takes the record), in its order, and is retained only with both in place and over no other |
| `QueueCaution.VerifyExactly` | guard/internal/reconcile/queue_unix.go:1562-1649 | on any directory a retained journal passes exactly if it is sound in itself and the record and the checkpoint still show its effect |
| `QueueFence.BatchesPass` | guard/internal/reconcile/queue_unix.go:639-680 | every batch of a consistent directory passes the group validation |
| `QueueFence.ConsistentValidates` | guard/internal/reconcile/queue_unix.go:1200-1261 | a consistent directory is refused only for its reserve or its quarantined files, and exactly then |
| `QueueFence.FenceSettles` | guard/internal/reconcile/queue_unix.go:268-279 | the fence of any reachable directory keeps its meaning and, within the reserve, does no more than settle the journal |
| `QueueCapacity.CommitIsAtomic` | guard/internal/reconcile/queue_unix.go:1412-1467 | wherever a commit stops the directory is recoverable and means either what it meant before or what the journal says; it succeeds only with the latter and fails only if interrupted, short of room, or too large to read back |
| `QueueCapacity.RewriteFunded` | guard/internal/reconcile/queue_unix.go:1165-1198 | the reserve leaves room for any rewrite that fits, and a rewrite leaves the reserve as it is |
| `QueueCapacity.AckFunded` | guard/internal/reconcile/queue_unix.go:1412-1442 | an acknowledgement that fits always has room for its journal and both files, and never raises the reserve |
| `QueueCapacity.EnqueueFunded` | guard/internal/reconcile/queue_unix.go:386-408 | an admitted enqueue always has room, and raises the reserve by exactly what admission compared with the limit |
| `QueueCapacity.RecoverStaysSolvent` | guard/internal/reconcile/queue_unix.go:1497-1560 | replay of a directory within its reserve, also from the middle of a commit, is never short of room and stays within it |
| `QueueCapacity.FenceStaysSolvent` | guard/internal/reconcile/queue_unix.go:268-279 | the fence of a directory within its reserve fails only if interrupted |
| `QueueLimits.FileLimitsNeverBite` | guard/internal/reconcile/queue_unix.go:1103-1125 | at every stage of every commit there are at most two journals for each record allowed, so replay never refuses their number, and at most four files for each record allowed, so with the lock file, a temporary file and up to 64 files set aside the directory listing never reaches its limit |
| `QueueClaim.SelectClaim` | guard/internal/reconcile/queue_unix.go:576-632 | the selection loop returns what the recursive scan defines |
| `QueueClaim.ClaimIsComplete` | guard/internal/reconcile/queue_unix.go:547-637 | over the owner's records of a settled directory the scan chooses exactly the first ready batch head whenever there is one, reports nothing left exactly if every record is finished, and refuses only for a clock behind a ready head's last attempt |
| `QueueResume.ClaimIsFirstResumed` | protocol/reference/reconciliation.py:787-879 | for a batch with no hold and no discard, and any limit that admits it, the reference's ordered selection begins with exactly the record the guard would claim from it, and is empty exactly if there is none |
| `QueuePlans.ClaimIsSanctioned` | guard/internal/reconcile/queue_unix.go:547-637 | a claim is decided exactly if the arguments are valid, the owner has a ready head and the clock is not behind that of the first batch; it is that record, sent at the given time, and a move of the reference |
| `QueuePlans.ClaimRefusals` | guard/internal/reconcile/queue_unix.go:547-637 | with valid arguments a claim is refused as nothing left exactly if every record is finished, as not ready exactly if something is left and nothing is ready, and for its clock exactly if it is behind the last attempt of the next record |
| `QueuePlans.RecoverIsSanctioned` | guard/internal/reconcile/queue_unix.go:717-750 | recovery puts back exactly a record in flight of the owner, as the reference allows, finds none exactly if there is none, and refuses only for its arguments or a clock behind such a record |
| `QueuePlans.HoldIsSanctioned` | guard/internal/reconcile/queue_unix.go:979-1003 | a hold is decided exactly for the owner's record in flight, and is exactly that record put back with its class and its attempts, a move of the reference; the refusals are exact too |
| `QueuePlans.FailIsSanctioned` | guard/internal/reconcile/queue_unix.go:780-822 | a retryable failure is decided exactly for the owner's record in flight with a valid binding, a clock not behind and, while automatic attempts are left, a jitter within its window; the record then waits exactly the delay above or is handed to a person, as the reference allows |
| `QueuePlans.DiscardIsSanctioned` | guard/internal/reconcile/queue_unix.go:903-941 | a discard is decided exactly for an authorised owner's pending record that is last in its batch, with a safe reason and a clock not behind, and is exactly that record discarded now; the decided record is valid exactly if the reason is at most 128 characters long, and is then a move of the reference |
| `QueuePlans.ManualRetryIsSanctioned` | guard/internal/reconcile/queue_unix.go:943-977 | a manual retry is decided exactly for an authorised owner's exhausted or held record with attempts left; it is exactly that record sent again and no longer held, which is the head of its batch, so nothing is overtaken, and a move of the reference |
| `QueueOperations.WriteFinishes` | guard/internal/reconcile/queue_unix.go:1047-1061 | fence and rewrite together: success exactly with the planned edit, failure with the meaning unchanged or, if interrupted, the whole edit |
| `QueueOperations.ActionFinishes` | guard/internal/reconcile/queue_unix.go:1412-1467 | fence and commit together are all or nothing wherever they stop |
| `QueueOperations.EnqueueIsLawful` | guard/internal/reconcile/queue_unix.go:355-459 | whatever enqueue decides to commit is a journal a consistent directory may carry, with exactly the record given, and it decides on nothing only if that evidence is already there |
| `QueueDecisions.EnqueueExactly` | guard/internal/reconcile/queue_unix.go:355-459 | the whole decision: committed exactly if the binding and the fresh record are valid, its identifier is new, its sequence is the number of records in its batch, which is this owner's and has nothing discarded, there is a place for it, it fits, and the reserve of the directory with it is within the limit; nothing to do exactly if this owner has this evidence; full exactly for the last three; and each other refusal exactly for its cause |
| `QueueDecisions.NextIsCount` | guard/internal/reconcile/queue_unix.go:446-456 | the sequence a batch of a consistent directory accepts next is the number of its records |
| `QueueDecisions.AdmittedIsStored` | guard/internal/reconcile/queue_unix.go:355-411 | on a directory within its reserve such a record is stored with its checkpoint, unless the operation is interrupted or the journal is oversized |
| `QueueDecisions.AckExactly` | guard/internal/reconcile/queue_unix.go:824-879 | the whole decision: committed exactly if the receipt is sealed, the owner's record is in flight, the receipt names its identifier, evidence, tenant and client and was issued between the last attempt and a known verification time, and the record fits; confirmed exactly if it is the stored one once more; and each refusal exactly for its cause |
| `QueueDecisions.AcceptableIsStored` | guard/internal/reconcile/queue_unix.go:824-879 | on a directory within its reserve such a receipt is stored, record and checkpoint together, exactly if both files can be read back, unless the operation is interrupted |
| `QueueOperations.EnqueueIsFunded` | guard/internal/reconcile/queue_unix.go:386-408 | an enqueue that passes admission fits and is paid for |
| `QueueOperations.AckIsLawful` | guard/internal/reconcile/queue_unix.go:824-879 | whatever acknowledge decides to commit is a legal journal whose record edit is a move of the reference, and a repeated receipt is only confirmed |
| `QueueOperations.AckIsFunded` | guard/internal/reconcile/queue_unix.go:824-879 | the acknowledgement of an admitted record whose files fit is paid for |
| `QueueOperations.EnqueueStaysSolvent` | guard/internal/reconcile/queue_unix.go:355-411 | enqueueing keeps the directory within its reserve, and it is then full only if the record's own reserve does not fit or its journal is oversized |
| `QueueOperations.AckAlwaysCommits` | guard/internal/reconcile/queue_unix.go:824-879 | an admitted record can always be acknowledged: uninterrupted, a receipt for the record in flight commits exactly if the new files can be read back |
| `QueueOpen.RequeueKeeps` | guard/internal/reconcile/queue_unix.go:752-778 | putting back everything in flight keeps the invariant at every step and fails only for a reason |
| `QueueOpen.ReopenIsTheSame` | guard/internal/reconcile/queue_unix.go:752-778 | reopening after an interrupted open ends where the first open would have |
| `QueueOpen.OpenSettles` | guard/internal/reconcile/queue_unix.go:94-127 | opening settles the directory and leaves nothing in flight; stopped early it has put back some of it and nothing else |
| `QueueListing.Sort` | guard/internal/reconcile/queue_unix.go:512-517 | sorting gives the same records in batch order |
| `QueueListing.SortedIsUnique` | guard/internal/reconcile/queue_unix.go:699-706 | there is one batch order of given records |
| `UnixQueue.Total` | guard/internal/reconcile/queue_unix.go:1133-1160 | the usage loop adds up every file once |
| `UnixQueue.CheckGroup` | guard/internal/reconcile/queue_unix.go:639-680 | the group loop accepts exactly the groups whose owners, sequences, prefix entries and discards agree with the checkpoint |
| `UnixQueue.NextIsAfterHighest` | guard/internal/reconcile/queue_unix.go:446-456 | the sequence a batch accepts next is one past the highest record, or the checkpoint's if that is later |
| `UnixQueue.UnixQueue.ScanBatch` | guard/internal/reconcile/queue_unix.go:430-448 | the loop over a batch finds a clash exactly if there is one, and otherwise the highest sequence |
| `UnixQueue.UnixQueue.ValidateAuthority` | guard/internal/reconcile/queue_unix.go:1823-1910 | a journal is refused exactly for the reasons its authority check lists |
| `UnixQueue.UnixQueue.ReservedUsage` | guard/internal/reconcile/queue_unix.go:1165-1198 | the loop computes the bytes in use plus every byte still promised |
| `UnixQueue.UnixQueue.ApplyTransaction` | guard/internal/reconcile/queue_unix.go:1651-1817 | the steps on the files, each of which may be the one that fails, compose to the journal's application |
| `UnixQueue.UnixQueue.CommitTransaction` | guard/internal/reconcile/queue_unix.go:1412-1467 | the journal is written first and then applied |
| `UnixQueue.UnixQueue.RecoverTransactions` | guard/internal/reconcile/queue_unix.go:1497-1560 | the loop over the listed journals is the replay |
| `UnixQueue.UnixQueue.ReconcileCheckpoints` | guard/internal/reconcile/queue_unix.go:499-545 | the loop over the sorted records is the reconciliation |
| `UnixQueue.UnixQueue.ValidateBatchGroups` | guard/internal/reconcile/queue_unix.go:682-715 | the loop finds the first group at fault |
| `UnixQueue.UnixQueue.WithLock` | guard/internal/reconcile/queue_unix.go:268-279 | the fence keeps the meaning of the directory and, when it passes, leaves it settled, readable and within its reserve |
| `UnixQueue.UnixQueue.Enqueue` | guard/internal/reconcile/queue_unix.go:355-411 | the decision above is carried out: the record is admitted with its journal's effect, or nothing changes, or an interruption leaves one of the two; it fails only for a reason |
| `UnixQueue.UnixQueue.ValidateEnqueueSequence` | guard/internal/reconcile/queue_unix.go:413-459 | an enqueue out of sequence, into another owner's batch or after a discard is refused, and nothing else is |
| `UnixQueue.UnixQueue.Get` | guard/internal/reconcile/queue_unix.go:480-497 | reading changes no meaning and returns only the owner's record |
| `UnixQueue.UnixQueue.Claim` | guard/internal/reconcile/queue_unix.go:547-637 | exactly the planned head is sent, and an interrupted claim sent it or did not |
| `UnixQueue.UnixQueue.RecoverSending` | guard/internal/reconcile/queue_unix.go:717-750 | one record in flight of the owner goes back to pending |
| `UnixQueue.UnixQueue.Hold` | guard/internal/reconcile/queue_unix.go:979-1003 | the record in flight is parked with its class |
| `UnixQueue.UnixQueue.Fail` | guard/internal/reconcile/queue_unix.go:780-822 | the record waits for its retry or, if it may not be retried, is parked and read back; a directory within its reserve stays so |
| `UnixQueue.UnixQueue.Ack` | guard/internal/reconcile/queue_unix.go:824-879 | the decision above is carried out: record and checkpoint move together or not at all |
| `UnixQueue.UnixQueue.Acknowledge` | guard/internal/reconcile/queue.go:180-197 | a refused receipt leaves the record as it was or parks it, and never acknowledges it; a directory within its reserve stays so, and there an uninterrupted refusal parks the record for certain |
| `UnixQueue.UnixQueue.Discard` | guard/internal/reconcile/queue_unix.go:903-941 | the last record of the batch is discarded by an authorised caller, or nothing changes |
| `UnixQueue.UnixQueue.ManualRetry` | guard/internal/reconcile/queue_unix.go:943-977 | the exhausted or held head is sent again, or nothing changes |
| `UnixQueue.UnixQueue.OpenQueue` | guard/internal/reconcile/queue_unix.go:94-127 | opening settles the directory and puts everything in flight back |
| `Session.Manager.RecoverJournal` | guard/internal/auth/session.go:414-452 | recovery deletes what a tombstone names and then the tombstone, keeps containment whatever fails, and touches nothing else |
| `Session.Manager.BeginJournal` | guard/internal/auth/session.go:286-336 | success means the reservation over the session found is stored, also when the store was in doubt and was read again |
| `Session.Manager.DeletePredecessors` | guard/internal/auth/session.go:338-354 | the predecessor's credential is gone unless it is the pending one |
| `Session.Manager.ActivateJournal` | guard/internal/auth/session.go:356-378 | the new session becomes active only over its own reservation |
| `Session.Manager.AbortJournal` | guard/internal/auth/session.go:380-412 | giving a reservation up keeps containment and always reports a failure |
| `Session.Manager.Complete` | guard/internal/auth/session.go:131-153 | under any store failures and any crash containment holds; success leaves exactly the new session and its credential; failure leaves the old session whole, a tombstone, nothing, or the new session whole |
| `Session.Manager.Refresh` | guard/internal/auth/session.go:225-276 | the same for a renewal, which succeeds only over the active session it names |
| `Session.Manager.Logout` | guard/internal/auth/session.go:516-567 | a successful logout leaves no credential and no active metadata of the session; containment survives exactly under the stated condition on the store calls |
| `Session.LogoutCanOrphan` | guard/internal/auth/session.go:544-552 | a concrete failing read for which logging out of one session orphans the credential of another |
| `SchemaGraph.RefGraph.Visit` | scripts/generate_protocol.py:417-429 | the search keeps its open nodes a path and its closed nodes finished, and reports only real cycles |
| `SchemaGraph.RefGraph.Validate` | scripts/generate_protocol.py:341-432 | acceptance yields a rank on all nodes that falls along every same-value edge; rejection comes with a cycle |
| `SchemaGraph.RankedHasNoCycle` | scripts/generate_protocol.py:341-432 | a ranked graph has no same-value cycle, so the search accepts exactly the graphs without one |
| `SchemaValidator.AcceptedTerminates` | scripts/generate_protocol.py:984-1112 | if the search accepts and every reference spells the collected pointer of the schema it leads to, validation of every value against every schema ends with one verdict |
| `SchemaValidator.RunTerminates` | scripts/generate_protocol.py:984-1112 | recursion deeper than the measure (value size, rank) is then never needed |
| `SchemaValidator.ReferenceLoopNeverEnds` | scripts/generate_protocol.py:990-993 | schemas whose references lead only to each other never let validation end |
| `SchemaValidator.SelfAliasNeverEnds` | scripts/generate_protocol.py:914-941 | a schema that refers to itself with an extra slash in the pointer never lets validation end, because empty keys are skipped |
| `SchemaValidator.AcceptanceIsNotEnough` | scripts/generate_protocol.py:417-432 | the search accepts the document whose only definition, `a`, refers to `#//$defs/a`, and validation against that definition never ends |
| `SchemaMeaning.AcceptedIsDecided` | scripts/generate_protocol.py:984-1112 | on a graph the search accepts, with plainly spelled references, the keywords taken literally (allOf all, anyOf some, oneOf exactly one, not none, if/then/else, required, members, names, items) have a common solution, and validation ends with its verdict on every value |
| `SchemaMeaning.MeaningIsUnique` | scripts/generate_protocol.py:984-1112 | there is only one such solution |
| `Timestamp.TimestampOrder` | protocol/reference/validate.py:148-158 | the digit loop computes the order of the instants the timestamps name |
| `Timestamp.OrderIsExact` | protocol/reference/validate.py:148-158 | the digit-by-digit comparison is the order on seconds plus fraction, for fractions of any length |
| `Timestamp.PaddedOrderIsExact` | guard/internal/decision/client.go:840-854 | so is the zero-padded string comparison |
| `Timestamp.ComparisonsAgree` | guard/internal/decision/client.go:817-854 | guard and reference order the same spellings the same way |
| `Timestamp.NanosecondsAgree` | guard/internal/reconcile/queue.go:233-242 | dropping the digits past the ninth keeps the order of two timestamps exactly if they name the same instant or different nanoseconds |
| `Timestamp.NineDigitsAreEnough` | guard/internal/reconcile/queue.go:233-242 | so it keeps the order of all timestamps of at most nine digits |
| `Timestamp.TenDigitsDiffer` | guard/internal/reconcile/queue.go:233-242 | two timestamps a tenth of a nanosecond apart that it makes equal |
| `Approval.AppliedIsTimely` | protocol/reference/validate.py:325-375 | an applied transition resolves a pending record, changes nothing immutable, and is decided in time |
| `Approval.TimelyIsApplied` | protocol/reference/validate.py:325-375 | a resolution of the pending record that was read is applied exactly if it is timely |
| `Approval.VerdictExactly` | protocol/reference/validate.py:325-375 | applied exactly if the coherent pending record that was read is resolved in time without changing its creation; idempotent exactly if the pending record is presented unchanged or a resolution is repeated, its time and audit reference perhaps regenerated |
| `Approval.AtMostOneWins` | protocol/reference/validate.py:325-375 | over any sequence of resolvers with any revisions at most one transition is applied, it resolves the original record in time, and immutable fields never change |
| `Utf8.ByteOrderIsCodePointOrder` | guard/internal/normalize/normalize.go:406 | comparing UTF-8 bytes equals comparing code points, for all strings |
| `Utf8.EncodeIsWellFormed` | guard/internal/normalize/normalize.go:406 | encoding a character gives a sequence well formed by RFC 3629 that stands for it |
| `Utf8.EncodeIsTheOnly` | guard/internal/normalize/normalize.go:406 | and the only one |
| `CanonicalOrder.KeyOrdersAgree` | protocol/reference/canonicalize.py:442-446 | guard and reference put object keys in the same order |
| `Decimal.TokenRoundTrip` | guard/internal/normalize/normalize.go:344 | reading a number token back gives the token |
| `Decimal.ReadIsSpelled` | guard/internal/normalize/normalize.go:344 | whatever the grammar accepts spells the text it was read from |
| `Decimal.NormalizePreservesValue` | guard/internal/normalize/normalize.go:346-398 | normalization preserves the exact rational value |
| `Decimal.EqualValuesOneText` | guard/internal/normalize/normalize.go:346-398 | accepted tokens of equal value have the same text |
| `Decimal.NormalizeIsFixed` | guard/internal/normalize/normalize.go:346-398 | the text is its own normal form |
| `Decimal.NumberTextIsNormal` | guard/internal/normalize/normalize.go:346-398 | the same three on texts |
| `DecimalText.PopZeros` | protocol/reference/canonicalize.py:259-263 | the loop removes exactly the trailing zeros and adjusts the exponent by their number |
| `DecimalText.RenderedIsPlain` | protocol/reference/canonicalize.py:250-283 | whatever the reference renders is the plain spelling of the normal form |
| `DecimalText.TextsAgree` | protocol/reference/canonicalize.py:250-283 | where both accept, guard and reference write the same text |
| `DecimalRange.ReferenceRange` | protocol/reference/canonicalize.py:264-279 | the reference accepts exactly zero and the numbers of at most 128 digits and an allowed exponent from 1e-308 minus 5e-337 to 1e308 plus 5e280, because it compares a magnitude rounded half to even to 28 digits |
| `DecimalRange.GuardRange` | guard/internal/normalize/normalize.go:346-382 | the guard accepts exactly zero and the numbers of at most 128 digits and an allowed exponent from 1e-308 to below 1e309, spelled with an exponent within 100000 |
| `DecimalRange.OnlyTheTopDiffers` | protocol/reference/canonicalize.py:274-279 | of the numbers the guard accepts, the reference refuses exactly those above 1e308 plus 5e280 |
| `DecimalRange.OnlyTheBottomDiffers` | protocol/reference/canonicalize.py:274-279 | of the numbers the reference accepts, the guard refuses exactly those below 1e-308 and those spelled with an exponent beyond 100000 |
| `DecimalRange.AcceptedAtTheTop` | protocol/reference/canonicalize.py:274-279 | 1.0000000000000000000000000005e308 is accepted by both |
| `DecimalRange.RefusedAboveTheTop` | protocol/reference/canonicalize.py:274-279 | 1.00000000000000000000000000051e308 is accepted by the guard and refused by the reference |
| `DecimalRange.AcceptedAtTheBottom` | protocol/reference/canonicalize.py:274-279 | 9.9999999999999999999999999995e-309 is accepted by the reference and refused by the guard |
| `DotSegments.RemoveDotSegments` | protocol/reference/canonicalize.py:615-646 | the rewriting loop terminates and computes the walk over a stack of segments, for every path |
| `DotSegments.NoDotSegmentLeft` | protocol/reference/canonicalize.py:615-646 | no dot segment is left of any path |
| `DotSegments.RemovalIsIdempotent` | protocol/reference/canonicalize.py:615-646 | removing dot segments twice is removing them once |
| `DotSegments.NormalizePath` | guard/internal/normalize/normalize.go:663-681 | the guard's loop computes its stack of segments |
| `DotSegments.GuardAgrees` | guard/internal/normalize/normalize.go:663-681 | on an absolute path guard and reference agree exactly if the last segment is not a dot segment or only the root is left |
| `DotSegments.GuardDiffers` | guard/internal/normalize/normalize.go:663-681 | for the path `/a/.` the reference gives `/a/` and the guard `/a` |
| `CanonicalJson.StringRoundTrip` | guard/internal/normalize/normalize.go:454-483 | reading an escaped string gives back the string |
| `JsonShortest.QuoteIsShortest` | guard/internal/normalize/normalize.go:454-483 | no shorter text reads back as the same string, and no other of the same length |
| `CanonicalJson.ValueRoundTrip` | protocol/reference/canonicalize.py:404-461 | reading a written value gives back the value and what followed it |
| `CanonicalJson.ParseInvertsText` | protocol/reference/canonicalize.py:404-461 | parsing inverts writing on every value |
| `CanonicalOrder.CanonKeepsMeaning` | protocol/reference/canonicalize.py:427-446 | sorting members at every level keeps the meaning |
| `CanonicalOrder.MeaningDecidesCanon` | protocol/reference/canonicalize.py:427-446 | values of the same meaning have the same canonical form |
| `CanonicalOrder.EqualTextIsEqualMeaning` | protocol/reference/canonicalize.py:404-461 | two values have the same canonical text exactly if they mean the same, whatever order their members came in |
| `JsonEncode.SortPairs` | guard/internal/normalize/normalize.go:406 | sorting the pairs gives the same pairs in the order of their keys' bytes |
| `JsonEncode.EncodeValue` | guard/internal/normalize/normalize.go:400-452 | sorting by bytes and writing to a buffer gives the canonical text, whose members are in code point order |
| `JsonDecode.DecodeIsFit` | guard/internal/normalize/normalize.go:270-342 | whatever is decoded is normalised, within the limits and without repeated keys |
| `JsonDecode.FitDecodes` | guard/internal/normalize/normalize.go:270-342 | such a value decodes to itself |
| `JsonAccept.DecodeExactly` | guard/internal/normalize/normalize.go:270-342 | a value is decoded exactly if its depth, its counts, its numbers, its strings and its keys after normalisation are all right, and to its normal form |
| `JsonAccept.GuardAcceptsExactly` | guard/internal/normalize/normalize.go:244-268 | an input is canonicalized exactly if it is short enough, spells such a value, and the text of its normal form is short enough; and to that text |
| `JsonAccept.CaptureExactly` | protocol/reference/canonicalize.py:286-388 | a parsed value is captured exactly if its depth, counts, numbers, strings and keys are all right and its whole charge fits, so that no check on the way matters; and to its normal form at that charge |
| `JsonAccept.ReferenceAcceptsExactly` | protocol/reference/canonicalize.py:464-475 | an input is canonicalized exactly if it spells such a value and input and text are short enough; a captured value is never refused by the encoder |
| `JsonDecode.CanonicalizeIsIdempotent` | guard/internal/normalize/normalize.go:244-268 | canonical text is its own canonical text, for every input and every parser that reads canonical text back |
| `JsonDecode.SameTextSameMeaning` | guard/internal/normalize/normalize.go:244-268 | two inputs, whatever the parser, have the same canonical text exactly if they decode to the same meaning |
| `ReferenceJson.CapturesAlike` | protocol/reference/canonicalize.py:286-388 | from the same parsed value the reference captures what the guard decodes, but for the spelling of numbers |
| `ReferenceJson.AlikeEncodes` | protocol/reference/canonicalize.py:404-461 | the reference's text of a captured value, numbers rendered from their decimals and members sorted by code points, is the canonical text of the decoded one |
| `ReferenceJson.EncodersAgree` | protocol/reference/canonicalize.py:464-475 | guard and reference, each under its own limits, number rules and key order, write the same text for every input both accept |
| `Snapshot.Snapshotter.Visit` | protocol/reference/canonicalize.py:301-383 | a capture is the unfolded value and charges its whole cost; an item that unfolds within depth and bytes is captured |
| `Snapshot.SnapshotValue` | protocol/reference/canonicalize.py:286-388 | the memoised traversal captures exactly the unfolded value at exactly its cost, captures everything that unfolds within the limits, and rejects every value that runs into a cycle |
| `Snapshot.CyclesNeverUnfold` | protocol/reference/canonicalize.py:333-338 | a value that runs into a cycle has no finite unfolding |

## Left out

- Session.Manager.Logout: containment is false of it, because metadata goes before the credential and a failed metadata read makes it delete whatever metadata there is; `LogoutIsClean` is the exact condition and `Session.LogoutCanOrphan` an input that breaks it.
- DotSegments.GuardAgrees: agreement is false on absolute paths that end in a dot segment, where the reference keeps a trailing slash and the guard does not; the lemma gives the exact condition and `DotSegments.GuardDiffers` an input.
- SchemaValidator.AcceptedTerminates: termination is false of accepted schemas whose references spell a pointer in another way than the collector does; `PlainlySpelled` is the condition and `SchemaValidator.AcceptanceIsNotEnough` an input. It is sufficient and not necessary: another spelling that closes no loop does no harm. A reference that leads to a part of a document the collector did not visit is outside the model.
- DecimalText.TextsAgree: agreement is stated where both accept; `DecimalRange.OnlyTheTopDiffers` and `DecimalRange.OnlyTheBottomDiffers` say exactly where only one does. Exponents beyond the decimal library's own limits, which it refuses, are accepted by the model for zeros.
- ReferenceJson.EncodersAgree: takes from the two string normalisers that they agree wherever both accept and that the reference's is idempotent. The parser's own normalisation of keys is the same as the capture's and is not modelled twice.
- QueueRecord.ValidatorsAgree: times are whole nanoseconds, which is what the guard keeps; for finer timestamps, which the schema allows and the reference compares exactly, `QueueRecord.OnlyOrderMatters` and `Timestamp.NanosecondsAgree` say when the two still agree.
- QueueOperations.AckAlwaysCommits: takes from the encoders only that sizes add up (`Encodes`): a journal is its two files and some framing, and a prefix entry costs a bounded surcharge.
- Snapshot.SnapshotValue: an accepted value may nest deeper than the limit through a shared container, since remembered containers are not descended into again, as in the code; the depth limit is promised only for what is captured by unfolding.
- UnixQueue.UnixQueue.ScanBatch: a directory with an unreadable record reports corruption before any conflict, where the code reports whichever file it lists first.
- UnixQueue.UnixQueue.RecoverSending: which of several records in flight is put back depends on the listing, as in the code, so the listing is part of the contract.
- Files other than records, checkpoints and journals (temporary files, the lock file), the quarantining of unreadable records and checkpoints, file descriptors, locks, inode and permission checks.
- Several instances of the queue at once: the directory lock is taken to serialise operations.
- Timestamps of queue records as text: they are instants, so two spellings of one instant are equal, and the 64 KiB limit on a canonical record is part of the encoded size.
- The conversion of a float beyond the 64-bit range is modelled as it is on amd64.
- HTTP delivery, receipts' signatures, the discard and retry authorities' own decisions, and OIDC: their results are arguments.
- The walk that collects schemas and assigns their pointers: a graph is what that walk produced; formats, patterns and numeric ranges of a schema are two predicates on the value.
- The library JSON tokenizers: a parser is any function from texts to values that reads canonical text back, and `CanonicalJson.Parse`, which knows neither white space nor other escapes, is one.
- `ABSENT` members of the reference encoder, binary floats, byte strings and other unsupported inputs, and the tables behind NFC and unassigned characters.
- The guard's decoder is a recursion over the parsed value rather than over a token stream.
- Percent normalisation, host names, commands and the other target kinds of the canonicalizer; plugin installation, socket lifecycle, routing tables, release scripts and examples, which would only add easier members.
