# Verified model of the AppBase sync protocol and its account and billing machinery

This Dafny project models the protocols of AppBase whose correctness depends on several
statements, several processes or several runs, and proves what they keep. Every SQL
statement, `batch` or local `transaction` is one atomic step, and every `await` between two
of them is a point where anything else may happen. `dafny verify dfyconfig.toml` checks the
whole project.

## How it is organised

Shared values: `base.dfy` (Option, Result), `texts.dfy` (the order of texts), `json.dfy` (JSON
trees whose objects keep their key order), `envelope.dfy` (ideal sealing bound to owner,
collection, record and key version).

* **Three-way merge** — `merge.dfy` (the loop refines a rule per key; idempotence and
  commutation with their exact conditions), `conflict_order.dfy` (the client-declared order is
  a lexicographic contest), `unranked_contest.dfy` (contests over a payload that lacks a number
  under the order's leading field), `ordered_fields.dfy` (what further fields of the order add),
  `contested_record.dfy` (the same on the server's log, whatever else is accepted meanwhile).
* **Server log** — `sync_log.dfy` (queries, the serial meaning of accepted mutations, change
  pages), `push_protocol.dfy` (concurrent pushes, re-encryption and key retirement, one
  statement at a time), `push_refinement.dfy` (every interleaving equals accepting the
  mutations one at a time, and rotation is invisible), `push_progress.dfy` (a conflict needs
  competitors), `key_retirement.dfy` (retirement under the operator's discipline, and a run
  without it that loses a payload), `retirement_safety.dfy` (exactly when deleting keys is safe
  for every continuation), `sync_server.dfy` (the retry loop, batches and pulls as methods over
  the rows, other writers running at each await), `key_rotation.dfy` (re-encryption batches,
  retirement and the operator's loop as methods), `cursor.dfy` (opaque cursors).
* **Clients** — `drift.dfy` (what each operation does to the local tables),
  `drift_persistence.dfy` (the operations as methods), `replica.dfy` (rows against the log),
  `sync_system.dfy` (any number of clients with one server: runs, local edits, late and
  repeated requests, lost responses, crashes), `sync_delivery.dfy` (its invariant),
  `sync_results.dfy` (the end-to-end guarantees), `sync_engine.dfy` (one undisturbed run,
  against the server's methods, terminates and leaves client and server equal),
  `sync_readiness.dfy` (such a run can start in every reachable state).
* **Accounts** — `accounts.dfy` (the tables with their triggers, one statement at a time),
  `account_service.dfy` (sessions and deletion as methods, with a provider that may refuse or
  answer too late).
* **Billing** — `billing_sync.dfy` (numbered fetches and conditional commits),
  `billing_service.dfy` (synchronisation and event delivery as methods), `catalog.dfy`
  (validation of an edit), `catalog_history.dfy` (concurrent editors), `grants.dfy`
  (selection of the grant).

The server part appears at two levels. `push_refinement.dfy` shows that the stored rows,
read through the codec, always are the serial log of the accepted mutations; `sync_system.dfy`
lets the server accept one mutation in one step. `server_refinement.dfy` connects the two: it
puts the clients of the system over the statement-level server and shows that whatever then
interleaves is a run of the system, each of whose steps was possible in its turn. So the
end-to-end guarantees hold of the statement-level server too.

In the classes, what other processes do is a script handed to the object: each call of
`Await` runs the next part of it. The proofs hold for every script.

## What turned out

* Without an order directive, merging the same client again changes nothing. With one it can:
  `OrderedMergeNotIdempotent` gives an input, and `MergeIdempotentIff` the exact condition on the
  ancestor, the server's and the client's payload: the order does not decide at once, and some
  ordered number the client left as its ancestor has it is greater than the server's, every
  ordered field before it being changed by the client or equal on both sides.
* Without a directive two clients may arrive in either order exactly when they changed no key to
  different values; the order of the keys, too, is then the same exactly when one client's
  changed keys begin with the other's (`MergeCommutes`, `MergeCommutesInOrder`).
* Contested puts are independent of their arrival order where the payload they find is ranked.
  Where it holds no number under the order's leading field, a put that still has its ancestor's
  number there is merged without ranking the payload, and the greatest put can be lost:
  `GreatestCanLose` gives an input. For any ancestor and any number of puts, every order keeps
  the greatest leading number exactly when the ancestor does not hold that number
  (`GreatestNumberSurvivesIff`), and where one put is greatest its whole rank survives, and all
  orders agree on all values, exactly under the conditions of `GreatestRankSurvivesIff` and
  `ValuesAgreeIff`, which are read off the payloads key by key.
* An order of several fields decides its leading field as an order of that field alone would.
  Under the further fields, puts that leave one at their ancestor's number can mix into a rank
  that no put had (`SeveralFieldsCanMix`); puts that change every ordered field, as all do
  without a known ancestor, converge over any payload (`ChangedFieldsConverge`).
* Retiring a key version checks that no envelope uses it one statement before it deletes the
  keys. A writer of that version still under way can lose its payload
  (`UndisciplinedRetirementLosesPayload`). `RetirementIsSafeIff` says exactly when the deletion
  loses nothing in any continuation: when no stored envelope has the version, and no call or
  rotation holds an envelope of it that its statement would still store. With many retirements
  in a run the same holds of each at its own moment (`RetirementsAreSafeIff`). Stopping the
  version's writers first, as `docs/key-rotation.md` asks, is enough
  (`DisciplinedRetirementLosesNothing`, `DisciplinedRunIsHarmless`).
* A put that carries no payload is stored as a deletion (`packages/server/src/usecases/sync.ts:87-88`).

## Model

| member | source | states |
|---|---|---|
| Merge.DefaultThreeWayMerge | packages/server/src/domain/sync.ts:55-77 | the merge as the loop computes it equals the declarative three-way merge on all inputs, deletions included |
| Merge.MergeKeys | packages/server/src/domain/sync.ts:62-75 | the loop over the client's keys, with its two overlapping conditions, assigns exactly the keys the client changed, in their order |
| Merge.PassAssignsChanged | packages/server/src/domain/sync.ts:65-73 | where both sides made the same change, the assignment the conditions skip would change nothing |
| Merge.MergeByKey | packages/server/src/domain/sync.ts:62-76 | when no order decides, each key has the client's value if the client holds it and changed it from the ancestor, otherwise the server's value or absence |
| Merge.MergeIgnoresKeyOrder | packages/server/src/domain/sync.ts:63-75 | no merged value depends on the order in which the client lists its keys |
| Merge.MergeIdempotent | packages/server/src/domain/sync.ts:55-77 | without an order directive, merging the same client again changes nothing, not even the order of keys |
| Merge.MergeIdempotentIff | packages/server/src/domain/sync.ts:59-103 | with any directive, merging again changes nothing exactly when the order decided at once or the client does not overtake, field by field of its order, what the merge keeps of the server; a condition on the inputs alone |
| Merge.OrderedMergeNotIdempotent | packages/server/src/domain/sync.ts:79-103 | a concrete ancestor, server and client with an order directive whose second merge changes the payload |
| Merge.MergeCommutes | packages/server/src/domain/sync.ts:62-76 | two clients of one ancestor without an order may be merged in either order, for every server payload, with the same values exactly when no key was changed by both to different values |
| Merge.MergeCommutesInOrder | packages/server/src/domain/sync.ts:55-77 | the whole payloads, key order included, agree for every server payload exactly when the values do and one client's changed keys begin with the other's |
| ConflictOrders.ScanIsLexicographic | packages/server/src/domain/sync.ts:94-102 | the scan with its early returns is the lexicographic comparison of the ordered numbers |
| ConflictOrders.MergeKeepsGreater | packages/server/src/domain/sync.ts:59-103 | a contested put leaves the greater rank, and the greater payload whole unless the ranks tie |
| ConflictOrders.FreshArrivalOrderIrrelevant | packages/server/src/domain/sync.ts:79-103 | puts on the current base end with the greatest rank in every arrival order, and with the same payload when ranks are pairwise distinct |
| ConflictOrders.StaleArrivalOrderIrrelevant | packages/server/src/domain/sync.ts:79-103 | the same for puts on a stale base, the current payload taking part |
| UnrankedContest.FinalNumber | packages/server/src/domain/sync.ts:59-103 | over a payload without a number under the leading field, puts that have the ancestor's number there leave it unranked; from the first that has not, the number is the greatest to arrive |
| UnrankedContest.GreatestNumberSurvivesIff | packages/server/src/domain/sync.ts:59-103 | for any ancestor, current payload and puts, every arrival order ends with the greatest leading number of the puts exactly when the current payload holds none greater or, if it holds none at all, the ancestor does not hold that very number |
| UnrankedContest.NumbersAgreeIff | packages/server/src/domain/sync.ts:59-103 | all arrival orders agree on the leading field exactly when the current payload holds a number there, or the ancestor not the greatest, or all puts hold the ancestor's number |
| UnrankedContest.GreatestRankSurvivesIff | packages/server/src/domain/sync.ts:59-103 | with one greatest put, every arrival order ends with its numbers under all ordered fields exactly when it changed the leading field and each other ordered field is one it changed or one on which the current payload and every unranking put that changes it have its value |
| UnrankedContest.ValuesAgreeIff | packages/server/src/domain/sync.ts:55-103 | with one greatest put, all arrival orders end with the same values exactly when it is alone, or the current payload holds a leading number, or it changed the leading field and every key is settled, a condition on the payloads key by key |
| UnrankedContest.UnrankedCurrentNeedsOrder | packages/server/src/domain/sync.ts:55-103 | two puts on any ancestor and a payload without a leading number: the greater survives if it comes last, if it comes first exactly when it changed the field, and when the values of both orders agree |
| UnrankedContest.GreatestCanLose | packages/server/src/domain/sync.ts:79-103 | a concrete ancestor, current payload and two puts of which the greater, arriving first, is lost |
| OrderedFields.ChangedFieldsConverge | packages/server/src/domain/sync.ts:59-103 | puts that change every ordered field leave any current payload as it is, if all lose to it, or end with their greatest rank, in every arrival order |
| OrderedFields.UnknownAncestorConverges | packages/server/src/domain/sync.ts:59-103 | without a known ancestor this holds of any puts of one order |
| OrderedFields.SeveralFieldsCanMix | packages/server/src/domain/sync.ts:79-103 | a concrete input on which an order of two fields ends, in one arrival order, with a rank that no put had, and in the other without the second number |
| ContestedRecord.LogHoldsContested | packages/server/src/usecases/sync.ts:92-109 | accepting contending puts, among any mutations of other records, leaves in the log exactly what the contest of their payloads leaves |
| ContestedRecord.FreshPutsConverge | packages/server/src/usecases/sync.ts:102-109 | two orders of acceptance of the same puts on the current version, or on a record that does not exist or is deleted, leave the record with the same greatest rank, and with the same payload when ranks are distinct |
| ContestedRecord.StalePutsConverge | packages/server/src/usecases/sync.ts:102-109 | the same on a base that is already stale, the live current version taking part, where that version is ranked |
| ContestedRecord.StaleGreatestSurvivesIff | packages/server/src/usecases/sync.ts:92-109 | over any live current version that is not the base, every order of acceptance leaves the greatest leading number exactly when that version holds none greater or, if it holds none at all, the base does not hold that very number |
| ContestedRecord.StaleValuesAgreeIff | packages/server/src/usecases/sync.ts:92-109 | on such a version, with one greatest put, every order of acceptance leaves the same values exactly when it is alone, or the version holds a leading number, or the put changed that field and every key is settled |
| ContestedRecord.SerialExtends | packages/server/src/usecases/sync.ts:30-33 | accepting more mutations after a serial log is accepting them all one at a time |
| SyncLog.NewestIndex | packages/server/src/adapters/d1_sync_repository.ts:37-51 | the current version of a record is its row with the largest sequence |
| SyncLog.VersionIndex | packages/server/src/adapters/d1_sync_repository.ts:53-68 | a named version is a row of that record with that revision, if there is one |
| SyncLog.MutationIndex | packages/server/src/adapters/d1_sync_repository.ts:21-35 | a mutation is found by owner, device and identifier exactly if a row has them |
| SyncLog.AppendKeepsWellFormed | packages/server/migrations/0001_appbase.sql:2-19 | the conditional insert keeps sequences increasing and both unique indexes |
| SyncLog.SerialIsChained | packages/server/src/usecases/sync.ts:127-128 | in a serial log each version names the version of its record just before it |
| SyncLog.ChainsNeverFork | packages/server/src/adapters/d1_sync_repository.ts:78-90 | no two versions of a record follow the same version, so a record's history is one chain |
| SyncLog.PageSplits | packages/server/src/usecases/sync.ts:37-59 | a page and what remains after its cursor are together what was left to read; more is reported exactly if something remains |
| SyncLog.PagingIsGapFree | packages/server/src/usecases/sync.ts:37-59 | following cursors while others append collects, in order and with no gap or duplicate, exactly the owner's versions between the start and the latest cursor |
| SyncLog.QuietTraversalEnds | packages/server/src/adapters/d1_sync_repository.ts:110-124 | on a log no one extends, a traversal reaches the end after at most as many reads as there were rows left |
| PushRefinement.OpeningIsFaithful | packages/server/src/adapters/envelope_secret_codec.ts:74-108 | a key that opens an envelope at all yields the object sealed in it |
| PushRefinement.InsertIsOutcome | packages/server/src/usecases/sync.ts:92-132 | the compare-and-append stores a row only where it is the outcome of its mutation on the log of that very moment |
| PushRefinement.UpdateKeepsReadable | packages/server/src/adapters/envelope_secret_codec.ts:197-204 | the conditional update of a rotation never changes what a row says |
| PushRefinement.StepPreservesInv | packages/server/src/usecases/sync.ts:61-155 | every statement of every push, rotation and retirement keeps the table equal to the serial log and every call's knowledge true |
| PushRefinement.EveryInterleavingIsSerial | packages/server/src/usecases/sync.ts:61-155 | in every reachable state the stored log is the serial log of the accepted mutations, each pushed and accepted once, and every history is a single chain |
| ServerRefinement.InterleavingsAreAcceptances | packages/server/src/usecases/sync.ts:61-155 | whatever statements interleave, there are acceptances of the one-step server, each possible in its turn, that reach the log the stored rows read as |
| ServerRefinement.DeploymentsAreSystemRuns | packages/server/src/usecases/sync.ts:61-155 | clients over the statement-level server, interleaved in any way with its pushes, rotations and retirements, are in a run of the system with every step possible in its turn |
| PushRefinement.VersionMeaning | packages/server/src/usecases/sync.ts:99-109 | a version is the client's payload if its base was the version just before it, otherwise the merge of the named ancestor, that version and the client |
| PushRefinement.RunKeepsHistory | packages/server/src/adapters/envelope_secret_codec.ts:153-214 | along any run, with any rotations and retirements, no stored version changes what it says or disappears |
| PushRefinement.ReplayReturnsOriginal | packages/server/src/usecases/sync.ts:66-77 | a mutation found once is found ever after as the change it was first accepted as |
| PushRefinement.AnswersAreStored | packages/server/src/usecases/sync.ts:133-151 | every answer to a push names the stored version of that very mutation |
| PushProgress.ConflictMeansCompetition | packages/server/src/usecases/sync.ts:92-154 | a push fails with a conflict only after at least its number of attempts of versions of the same record were appended by other mutations since it began |
| PushProgress.RetriesMeanCompetition | packages/server/src/usecases/sync.ts:92-154 | every retry was forced by a competing version; without competition a push stays in its first attempt, never fails with a conflict, and its insert takes effect unless the mutation is stored already |
| KeyRetirement.DisciplinedRetirementLosesNothing | packages/server/src/adapters/envelope_secret_codec.ts:216-231 | if a version's writers are stopped before it is retired, every stored envelope stays openable and yields the accepted object, along any run with any number of retirements |
| RetirementSafety.RetirementIsSafeIff | packages/server/src/adapters/envelope_secret_codec.ts:216-231 | after any run, the deletion leaves every envelope openable in every continuation without another deletion exactly when every stored envelope opens and has another version, and so does every envelope that a call or rotation has sealed and would still store |
| RetirementSafety.RetirementsAreSafeIff | packages/server/src/adapters/envelope_secret_codec.ts:216-231 | with any number of retirements, no stored envelope is or can become unreadable at any moment of a run exactly when every deletion is harmless at its own moment |
| RetirementSafety.DisciplinedRunIsHarmless | docs/key-rotation.md:12-20 | under the operator's discipline every deletion of a run is harmless at its moment |
| KeyRetirement.UndisciplinedRetirementLosesPayload | packages/server/src/adapters/envelope_secret_codec.ts:221-229 | a run in which a writer of the version is still under way ends with a stored payload that no key opens |
| SyncServer.SyncRepository.Append | packages/server/src/adapters/d1_sync_repository.ts:70-108 | inserts the row exactly if the expected revision is current and the mutation is new, and says so |
| SyncServer.SyncRepository.Attempt | packages/server/src/usecases/sync.ts:93-151 | one pass of the loop answers with the mutation's stored row or leaves one more competing version behind |
| SyncServer.SyncRepository.PushMutation | packages/server/src/usecases/sync.ts:61-155 | with other writers at every await: success answers with the stored outcome, failure proves enough competitors, and without interference it succeeds with exactly the serial outcome |
| SyncServer.SyncRepository.PushMutations | packages/server/src/usecases/sync.ts:25-35 | a batch answers every mutation in order with its stored row; undisturbed it is the fold of single pushes |
| SyncServer.SyncRepository.PullChanges | packages/server/src/usecases/sync.ts:37-59 | a bad cursor is refused; otherwise the page after the decoded cursor, with a cursor that decodes to the page's end |
| Cursor.BytesToBase64Url | packages/server/src/domain/cursor.ts:30-37 | the text the loop over bytes ends with decodes to those bytes, has the unpadded length and no character that needs escaping in a URL |
| Cursor.AtobInvertsBtoa | packages/server/src/domain/cursor.ts:33-43 | base64 decoding inverts encoding on all byte sequences, padding included |
| Cursor.Base64UrlRoundTrip | packages/server/src/domain/cursor.ts:30-44 | unpadded base64url (section 5 of RFC 4648) decodes to the bytes it encodes, for all byte sequences |
| Cursor.DecimalRoundTrip | packages/server/src/domain/cursor.ts:5-14 | parsing the decimal print of a number gives the number |
| Cursor.CursorRoundTrip | packages/server/src/domain/cursor.ts:1-21 | every cursor issued for a nonnegative safe integer decodes to that integer |
| KeyRotation.UpdateHitsRow | packages/server/src/adapters/envelope_secret_codec.ts:197-204 | the update reaches the row it was decided for if its envelope is still the one read, and no other row |
| KeyRotation.SelectedCount | packages/server/src/adapters/envelope_secret_codec.ts:164-180 | a batch selects distinct rows of the version, as many as there are up to the limit |
| KeyRotation.EnvelopeCodec.UserKey | packages/server/src/adapters/envelope_secret_codec.ts:246-316 | yields the owner's one stored key of a version, creating only a missing current one, and never replaces a key |
| KeyRotation.EnvelopeCodec.Open | packages/server/src/adapters/envelope_secret_codec.ts:74-108 | an opened row yields exactly the object sealed in it, and every row whose key is at hand opens |
| KeyRotation.EnvelopeCodec.Seal | packages/server/src/adapters/envelope_secret_codec.ts:49-72 | the envelope has the current version, holds the payload and opens under the stored keys |
| KeyRotation.EnvelopeCodec.ReencryptBatch | packages/server/src/adapters/envelope_secret_codec.ts:153-214 | argument errors; no row changes its meaning; the reported figures; where no writer uses the version any more the remaining count falls by the number selected, and undisturbed exactly the selected rows move |
| KeyRotation.EnvelopeCodec.RetireUserKeys | packages/server/src/adapters/envelope_secret_codec.ts:216-231 | refuses while an envelope uses the version, otherwise removes exactly its keys; with no such writer left every row still opens |
| KeyRotation.EnvelopeCodec.Rotate | docs/key-rotation.md:22-32 | the operator's loop terminates while other processes keep writing with other versions, and ends with no envelope or key of the version and every row openable |
| Drift.EnqueueReplaces | packages/appbase_drift/lib/src/drift_persistence.dart:306-366 | queueing an edit replaces what was queued for its record and touches no other row; the outbox stays sorted, with unique identifiers and one edit per record |
| Drift.EnqueueQueues | packages/appbase_drift/lib/src/drift_persistence.dart:306-366 | after queueing the outbox is in order, holds one edit of the record, which carries the draft on the base of the edit it replaces or else on the synchronised revision, and every other record's edit as before |
| Drift.CoalescingKeepsBase | packages/appbase_drift/lib/src/drift_persistence.dart:356-361 | a coalesced edit keeps the base of the edit it replaces |
| Drift.AcknowledgedRemoves | packages/appbase_drift/lib/src/drift_persistence.dart:186-200 | acknowledging removes exactly the account's rows with the answered identifiers |
| Drift.FailureKeepsOutbox | packages/appbase_drift/lib/src/drift_persistence.dart:261-274 | recording a failure adds one to the attempt counter of each of the account's edits and changes nothing else, row by row |
| Drift.SavedIsOnlyActive | packages/appbase_drift/lib/src/drift_persistence.dart:70-119 | saving makes the account the only active one; it pulls from the start exactly if it is new or another was active, and every other account keeps all but its being active |
| Drift.PendingAreOldest | packages/appbase_drift/lib/src/drift_persistence.dart:145-183 | the loaded edits are in order and the account's oldest: all of them, or as many as the limit allows with every other one later |
| Drift.ForgottenIsGone | packages/appbase_drift/lib/src/drift_persistence.dart:48-67 | a deleted account leaves no row in any table, every other row keeps its value, and its later edits are refused |
| DriftPersistence.Persistence.Enqueue | packages/appbase_drift/lib/src/drift_persistence.dart:306-366 | the statements of one queueing put an edit that carries the draft, on the right base, in place of what was queued for its record and touch nothing else |
| DriftPersistence.Persistence.Commit | packages/appbase_drift/lib/src/drift_persistence.dart:277-304 | all edits of a transaction are queued or, for a deleted account or an unknown collection, none |
| DriftPersistence.Persistence.LoadPending | packages/appbase_drift/lib/src/drift_persistence.dart:145-183 | the account's oldest pending edits in their order, at most the limit; refused exactly for a limit below one |
| DriftPersistence.Persistence.Acknowledge | packages/appbase_drift/lib/src/drift_persistence.dart:186-200 | the loop of deletions has exactly the specified effect |
| DriftPersistence.Persistence.ApplyPull | packages/appbase_drift/lib/src/drift_persistence.dart:203-258 | a page's rows and its checkpoint are stored together, or nothing is if a collection is unknown |
| DriftPersistence.Persistence.SaveAccount | packages/appbase_drift/lib/src/drift_persistence.dart:70-119 | the account ends as the only active one, pulling from the start exactly if it is new or another was active, the others otherwise as they were; returns the stored checkpoint |
| DriftPersistence.Persistence.SeedIfNeeded | packages/appbase_drift/lib/src/drift_persistence.dart:122-142 | queues the adapters' edits and marks the account, or changes nothing if it is marked |
| DriftPersistence.Persistence.DeleteAccount | packages/appbase_drift/lib/src/drift_persistence.dart:48-67 | no table holds a row of the account, every other row is as it was, and the account is remembered as deleted |
| Replica.PageIsWindow | packages/server/src/usecases/sync.ts:37-59 | a page is exactly the owner's versions between the reader's position and the page's cursor |
| Replica.PageMovesReplica | packages/appbase_drift/lib/src/drift_persistence.dart:203-258 | a page applied where the client stood moves the replica invariant to the page's cursor |
| Replica.FullyPulledRow | packages/appbase_drift/lib/src/drift_persistence.dart:224-243 | a client that has pulled everything holds exactly the row of each record's last version and no other |
| SyncDelivery.StepKeepsInv | packages/appbase_client/lib/src/sync_engine.dart:128-227 | every step of clients, server and network keeps the delivery and replica invariants |
| SyncResults.ExactlyOnce | packages/server/src/usecases/sync.ts:66-77 | a mutation identifier occurs at most once in the log, and every version is the outcome of an edit some client committed |
| SyncResults.OneEditPerRecord | packages/appbase_drift/lib/src/drift_persistence.dart:341-346 | an outbox never holds two edits of one record |
| SyncResults.NewestEditIsSafe | packages/appbase_drift/lib/src/drift_persistence.dart:277-366 | across crashes, lost responses and repeated requests, the newest committed edit of every record is in the outbox or in the log |
| SyncResults.LeavesOutboxOnlyIf | packages/appbase_drift/lib/src/drift_persistence.dart:186-200 | an edit leaves the outbox only into the log, by a newer edit of its record in the same transaction, or by deleting the account on that client |
| SyncResults.ReplicaReflectsLog | packages/appbase_drift/lib/src/drift_persistence.dart:203-258 | at every moment, across interrupted pulls and account switches, a record with a version up to the checkpoint has exactly the row of its last such version |
| SyncResults.ClientsConverge | packages/appbase_client/lib/src/sync_engine.dart:229-245 | all clients that have pulled an account to the end hold the same rows, those of the last versions |
| SyncResults.SentBasesWereIssued | packages/appbase_drift/lib/src/drift_persistence.dart:327-361 | every base revision a client sends was issued by the server for that record |
| SyncEngine.Engine.PullAll | packages/appbase_client/lib/src/sync_engine.dart:229-245 | undisturbed, the pull through the server's cursors terminates at the end of the owner's log with the client's rows following, and fails only past the safe integers |
| SyncEngine.Engine.Drain | packages/appbase_client/lib/src/sync_engine.dart:146-158 | undisturbed, the loop of batches pushed through the server's retry loop empties the account's outbox, and every edit that left it is in the log |
| SyncEngine.Engine.Synchronize | packages/appbase_client/lib/src/sync_engine.dart:128-160 | an undisturbed run against the server's use cases terminates with an empty outbox, every pending mutation in the log, the checkpoint at the end and every row that of the last version; it fails only past the safe integers |
| SyncReadiness.ReachableIsReady | packages/appbase_client/lib/src/sync_engine.dart:128-160 | in every reachable state of clients and server, after whatever interruptions, everything such a run needs to start holds for any client and account |
| Accounts.WriteFence | packages/server/migrations/0008_application_accounts.sql:55-84 | in every reachable state a closed account owns no records, keys, grants or usage, and a deleted one has no billing rows and no subject |
| Accounts.OneLiveAccountPerSubject | packages/server/migrations/0008_application_accounts.sql:13 | a subject names at most one account, which is not deleted |
| Accounts.StatusNeverMovesBack | packages/server/src/adapters/d1_accounts.ts:84-128 | no account is ever reopened or lost |
| Accounts.DeletedMeansCleaned | packages/server/src/usecases/account_deletion.ts:26-37 | every billing identity a deleted account had when it was fenced was deleted by the provider after the fence |
| Accounts.AlwaysDueAgain | packages/server/src/adapters/d1_accounts.ts:129-146 | an account under deletion is always due again, at most an hour after its last failed attempt |
| Accounts.BackOff | packages/server/src/adapters/d1_accounts.ts:139-146 | in every reachable state an account under deletion is due one minute for each of its failed attempts, at most an hour, after the last of them, and at once if there was none |
| Accounts.SessionOnlyForItsHolder | packages/server/migrations/0008_application_accounts.sql:85-87 | a session row appears only for an account active at that moment whose subject is the caller's |
| Accounts.RepeatedDeletionChangesNothing | packages/server/src/adapters/d1_accounts.ts:84-102 | closing a closed account again changes nothing at all |
| Accounts.DeletionLeavesOthersAlone | packages/server/src/adapters/d1_accounts.ts:84-102 | closing one account leaves every other with its rows, sessions and billing |
| AccountService.Service.Delete | packages/server/src/usecases/account_deletion.ts:26-37 | with anything else happening meanwhile, a normal return leaves the account deleted, any later failure leaves it fenced, and if every external deletion succeeds it returns normally |
| AccountService.Service.CleanIdentities | packages/server/src/usecases/account_deletion.ts:30-35 | when every listed identity is confirmed, no billing row of the account is left |
| AccountService.Service.RequestDeletion | packages/server/src/usecases/accounts.ts:163-170 | only an application session may request deletion, and a granted request fences the account |
| AccountService.Service.Process | packages/server/src/usecases/accounts.ts:171-178 | a failed attempt leaves the account due again within the hour after it |
| AccountService.Service.ProcessDue | packages/server/src/usecases/accounts.ts:179-190 | the first due accounts, at most twenty, in due order, get one attempt each, and each ends deleted or with a further failure on record and due again; if every external deletion succeeds all of them end deleted |
| AccountService.Service.Due | packages/server/src/adapters/d1_accounts.ts:129-138 | the due accounts by due time and identifier: all of them, or the first ones up to the limit |
| AccountService.Service.Target | packages/server/src/usecases/accounts.ts:79-100 | which account a session is opened for, and when each refusal is given |
| AccountService.Service.Open | packages/server/src/usecases/accounts.ts:70-131 | a session is saved only for an account active at that moment whose subject is the caller; a renewal stays with the account it names |
| AccountService.Service.Authenticate | packages/server/src/usecases/accounts.ts:132-148 | a stored, unexpired token yields the account it was issued for |
| AccountService.Service.RequireAccount | packages/server/src/usecases/accounts.ts:149-162 | a session passes exactly if its account is active; without one only the caller's own migrated account passes |
| AccountService.Service.Access | packages/server/src/usecases/accounts.ts:132-162 | whatever happens between the statements, a token acts for the account it was issued for, active at the check, never for a replacement |
| BillingSync.CommitIsLater | packages/server/src/adapters/d1_billing_repository.ts:100-119 | whatever a successful commit replaces was begun before it and observed no later |
| BillingSync.CommitsAreOrdered | packages/server/src/usecases/billing.ts:107-118 | under any interleaving an owner's commits strictly increase in generation and beginning, and the observation time never decreases |
| BillingSync.EarlierNeverOverwrites | packages/server/src/adapters/d1_billing_repository.ts:90-119 | once a later synchronisation has begun, an earlier one changes no row |
| BillingSync.ProcessedMeansFresh | packages/server/src/usecases/billing.ts:119-130 | in every reachable state a processed event has a delivery that looked up every identity it names, and each present owner of one has a snapshot requested after that look-up or became its owner only later |
| BillingService.Service.Synchronize | packages/server/src/usecases/billing.ts:107-118 | success means that this call's own snapshot was committed, requested after the call began |
| BillingService.Service.Finish | packages/server/src/usecases/billing.ts:111-117 | a superseded synchronisation has a newer generation or a later observation against it |
| BillingService.Service.Webhook | packages/server/src/usecases/billing.ts:119-130 | an event already processed changes nothing; otherwise it is marked only when every owner found for its identities has a snapshot requested after the look-up, in particular everyone who owned one when the call began |
| Catalogs.CapabilitiesAreExpected | packages/server/src/domain/billing.ts:142-151 | equal size and one-sided membership make the capability keys and periods exactly the expected ones |
| Catalogs.UniqueIffAsMany | packages/server/src/domain/billing.ts:120 | as many identifiers as distinct ones means that no two are equal |
| Catalogs.ValidIffFollows | packages/server/src/domain/billing.ts:110-171 | validation accepts exactly the well-formed edits of the predecessor, with a schema and without |
| CatalogHistory.CatalogService.Replace | packages/server/src/adapters/d1_billing_repository.ts:29-64 | the write takes effect exactly if the expected revision is current and no referenced plan is dropped |
| CatalogHistory.CatalogService.ReplaceCatalog | packages/server/src/usecases/billing.ts:79-106 | with concurrent editors, an accepted edit is the next revision and was validated against exactly its predecessor; a refused write was too late, or dropped a plan referenced at that moment while its revision was current |
| CatalogHistory.HistoryKeeps | packages/server/src/domain/billing.ts:119-121 | over the whole history the default plan keeps its identifier, no entitlement disappears, a purchase policy stays, and without a schema no plan disappears |
| CatalogHistory.HistoryIsWellFormed | packages/server/src/domain/billing.ts:128-170 | in every revision plan identifiers are unique, every mapping names a paid plan of that revision, and under a schema every plan has exactly its capabilities and periods |
| CatalogHistory.LegacyPlansKeepPeriods | packages/server/src/domain/billing.ts:129-132 | without a schema a plan keeps its capabilities and periods through every revision |
| Grants.SortedHead | packages/server/src/domain/billing.ts:96-105 | the head of the sorted candidates is the first one that ends latest, null counting as latest |
| Grants.GrantIsOptimal | packages/server/src/domain/billing.ts:68-108 | the grant is of the first catalog plan with an active entitlement and has the latest end within it; none exactly if no plan has one |
| Grants.StatusMatchesGrant | packages/server/src/usecases/admin.ts:147-158 | administration shows an entitlement as active or in grace exactly if it counts for a grant |
| Grants.GrantedIffShownActive | packages/server/src/usecases/admin.ts:144-159 | something is granted exactly when administration shows some entitlement of a paid plan as active or in grace |
| Grants.GrantNeverDegrades | packages/server/src/domain/billing.ts:75-106 | at any later time before its end a grant is not replaced by a lower-priority plan nor by an earlier end of the same plan |

## Left out

- ContestedRecord.StalePutsConverge: asks that the live current payload holds a number under each ordered field; otherwise the result can depend on the order, and ContestedRecord.StaleGreatestSurvivesIff and ContestedRecord.StaleValuesAgreeIff say when it does not.
- UnrankedContest.ValuesAgreeIff: asks that one put holds a greater leading number than all the others; with ties at the top, and for the further fields of an order where puts leave some of them, only the sufficient condition of OrderedFields.ChangedFieldsConverge is given.
- DriftPersistence.Persistence.SeedIfNeeded: what the adapters deliver as seeds is a parameter; nothing else runs between reading the mark and the transaction in the method, while in the system model the transaction may run on an account seeded since.
- DriftPersistence.Persistence.SaveAccount: the checkpoint is read in the same step as the transaction; account switches happen between runs, as sign-in does.
- SyncEngine.Engine.Synchronize: a single undisturbed run whose requests all arrive; interruptions, retries and deletion are steps of the system model instead.
- SyncReadiness.ReachableIsReady: asks that what adapters seed is of known collections, which the client does not check.
- AccountService.Service.ProcessDue: one reading of the clock serves the whole run.
- The engine's single-flight bookkeeping and the states it publishes.
- Account deletion inside the sync log: the log only grows there; erasure is treated in the account model.
- Product tables: collection adapters succeed or abort the whole transaction, and what they write is not modelled.
- Cursors held by a client are the sequence they stand for, which the cursor round trip justifies.
- Requests of a client with several servers; all clients talk to one issuer.
- JSON numbers are reals: infinities, negative zero, and the reordering of integer-like keys or the `__proto__` key of JavaScript objects are not modelled; equality of printed text is equality of ordered trees.
- Text decoding of a cursor outside ASCII counts as a character that is not a digit.
- Characters are Unicode scalar values, so the length limit of display names counts those instead of UTF-16 units.
- AES-GCM and key wrapping are ideal; a master key that differs between processes under the same version number is not modelled.
- A pull whose keys are retired while it opens its page may fail; only the stored rows are followed.
- Dates are integers; clocks, random identifiers, nonces and tokens are parameters, assumed not to repeat where the source relies on it.
- HTTP routing, schemas, authentication of identities, membership quotas, administration pages, the native purchase SDK and the provider's network protocol.
- Billing rows removed by an account deletion during a synchronisation; the fence itself is in the account model.
