# Calibre AI Auditor: verified model

This project models the logic of the auditor that has to be right even when a process dies half-way, and proves
what that logic guarantees.

**The durable metadata-write protocol** is the main part. A supervised write to a Calibre library is one row of an
operation ledger, driven by an outbox, per-book write locks, change records, pilot sessions and incident
acknowledgements. Calibre has no transactions, so the writer records its intent before it touches anything and
reconciles after a crash.

* `Metadata` holds metadata snapshots and the comparisons the writer trusts. `Ledger` holds the tables and the
  transition table, `Gates` the pure checks of the coordinator. `Boundary` spells these checks and the comparisons of
  files out on the stored rows, so that the guarantees below can be read without them.
* `Protocol` is the state machine. One `Event` is one database commit, one library call, or one edit by somebody
  else; a crash may fall between any two, so every reachable world is a crash point. `Run(h)` is any finite
  interleaving of the API, the writer and other people.
* `Shapes`, `Invariants` and `Preservation` show that every event keeps one invariant, `Settlement` that every event
  keeps what settled operations leave behind: the order in which a book is served, and the library as its last
  operation left it. `Theorems` and `Histories` draw the guarantees from them, for every reachable world and every run.
  `Requests` follows what a queued row asks for to the reading a write starts from, `Outcomes` the status of a change
  to the end of the operations about it. `Waiting` shows that an operation writes over what the library showed when it
  was requested. `Feasibility` shows that
  the guarantees are not empty: which announced writes and which requests can still be carried through to success, and
  runs that succeed or that end badly through nobody's fault, given in full.
* `Store` is the database session and the library as one mutable object. Its ghost `history` is always a `Run`:
  the methods of `Engine`, `Settling`, `Writer`, `Recovery` and `Coordinator` follow the code commit by commit and
  library call by library call, can change the tables only by a step of the protocol, and are verified against
  arbitrary failures of the library and against others acting (`Yield`) around every library call, between every
  reading and the commit that relies on it, and between any two operations the writer serves.

A reading is an event of its own (`Protocol.Observe`): the library answers with the book's metadata and the files of that
moment, and the answer goes on record with the number of edits other people had made by then. Every event that relies
on a reading demands one on record, made since the operation was claimed and since it last touched the library. So no
reading is made up (`Histories.ReadingsAreGenuine`), and what was read for an operation in progress is still shown unless
somebody else has edited the book *since that reading*; earlier edits do not matter. That last condition is the only
thing the guarantees about the live library leave to other people.

**Duplicate clustering** (`DisjointSets`, `Clusters`, `Deduplication`, `Spelling`): union-find with path compression and
union by rank, and the clustering that uses it, against the equivalence closure of "same canonical ISBN or same author
and title"; and what makes the members of a cluster clones, on their stored format names and digests. **Similarity** (`EditDistance`): the rolling-row Levenshtein loop against scripts of single-character edits.
**ISBN arithmetic** (`Isbn`): three implementations of the check-digit rules of section 4 of ISO 2108 against each
other, and the typing errors they catch. **Keyset pagination** (`Keyset`): the batched query loop against "all rows in
id order", while the table changes.

## What turned out differently from what the code suggests

* `_matches_patch` is not reflexive. A snapshot whose `#edition` and `edition_statement` are both set and read
  differently matches nothing, itself included (`Metadata.MatchesItselfIff`). So recovery can report a "partial state
  without restore point" for a book that nobody touched. With verified files and no change recorded it does so exactly
  when the metadata before does not match itself and the patch was not there already (`Theorems.StrandedIff`,
  `Recovery.ReconcileApply`); `Metadata.AlreadyThereExample` is a snapshot that does not match itself and that recovery
  nevertheless takes for success, and `Feasibility.StrandedIsReachable` a run that reaches the report. An apply over
  incoherent edition fields that it does not patch never succeeds (`Theorems.IncoherentNeverSucceeds`), and every other
  announced apply still can (`Feasibility.WriteCanSucceedIff`).
* A field lock stored between the validation and the commit of `writing` is not noticed. The patch is the sealed one
  less the locks *of that moment* exactly when no lock on a sealed field changed since the validation
  (`Theorems.PatchIsCurrentIff`).
* `fail_operation` keeps ledger and outbox in agreement exactly when the operation is neither requested nor succeeded
  (`Writer.FailKeepsAgreementIff`); the writer loop calls it only on operations that are claimed or writing.
* A failed undo or legacy operation blocks the V2 queue for ever, like an incident: only a V2 failure can be
  acknowledged (`Histories.LegacyFailureBlocksForever`).
* An engine failure before the first library call (staging, export, restore point, or the target OPF, which is built
  outside the guarded block) ends the operation as unknown although the library was not touched: an exception without a
  recorded rollback verdict left the library alone (`Engine.ApplyPatch`), and exactly those end unknown
  (`Writer.HandleEngineFailure`). Every request that is ready to begin can end so (`Feasibility.ReadyCanEndUnknown`),
  and then blocks the V2 queue for ever (`Histories.IncidentBlocksForever`).
* `EntityCleanser.validate_and_convert_isbn` raises, where the other two implementations return nothing, exactly on
  a ten-character form with an X before the last place (`Isbn.ImplementationsAgree`); one such ISBN makes the whole
  clustering raise (`Deduplication.ClusterDuplicates`).

## Model

| member | source | states |
|---|---|---|
| `Theorems.MutualExclusion` | src/calibre_ai_auditor/apply/writer.py:59-94 | In every reachable world a book's lock exists iff some operation on the book is claimed or writing, it names that operation, and there is at most one, also after leases expire and across crash and reconcile. |
| `Theorems.LedgerAndOutboxAgree` | src/calibre_ai_auditor/apply/writer.py:755-765 | Pending iff requested, processing iff claimed or writing, published iff succeeded, failed iff one of the four failure states; verifying, restoring and cancelled are never durable; completion is recorded exactly in terminal states. |
| `Theorems.WriteAhead` | src/calibre_ai_auditor/apply/engine.py:125-190 | At every crash point of a write, before and target are recorded and either a restore point is durable or the library still shows the before-state, unless somebody else has edited the book since the operation read it. |
| `Theorems.StrandedIff` | src/calibre_ai_auditor/apply/writer.py:176-201 | An interrupted apply without a change, on a book nobody else has edited since the apply read it, still shows its before-metadata, and is taken neither for its target nor for its before-state iff that metadata does not match itself and the patch was not there already. |
| `Theorems.LibraryShowsLastReading` | src/calibre_ai_auditor/apply/writer.py:362-393 | In every reachable world the live metadata is the last reading made for a succeeded or restored operation, until somebody else edits the book after that reading or a later operation writes it; likewise the reading whose files were accepted. |
| `Theorems.VerifiedWrite` | src/calibre_ai_auditor/apply/writer.py:332-367 | A succeeded apply's final reading carries the patch (a cover by its digest) and shows, verbatim, every other recorded field except formats, path and last_modified, an unpatched `#edition` included; its accepted reading lists files, each once, with exactly the sealed extensions and digests. |
| `Theorems.SuccessFrame` | src/calibre_ai_auditor/apply/writer.py:332-367 | Hence, until somebody else edits the book after those readings or a later operation writes it, all of this holds of the live metadata, field by field. |
| `Theorems.IncoherentNeverSucceeds` | src/calibre_ai_auditor/apply/writer.py:364-388 | An apply over incoherent edition fields that it does not patch never ends succeeded, in any run. |
| `Theorems.RestoreSoundness` | src/calibre_ai_auditor/apply/writer.py:307-388 | On every path to restored, the last reading shows the recorded before-metadata verbatim on every field outside cover, edition and last_modified; and so does the live metadata, until somebody else edits the book after that reading or a later operation writes it. |
| `Theorems.UndoneAtMostOnce` | src/calibre_ai_auditor/apply/writer.py:395-479 | Two succeeded undos of one change are the same operation. |
| `Theorems.UndoReturnsToBefore` | src/calibre_ai_auditor/apply/writer.py:459-479 | A succeeded undo's last reading, and the live metadata until somebody else edits the book after it or a later operation writes it, match the metadata its settled apply recorded before writing: every field but last_modified and the edition text verbatim, a cover artifact by its digest; the change is marked undone. |
| `Theorems.PilotBudget` | src/calibre_ai_auditor/apply/coordinator.py:282-323 | Every pilot's reserved count equals the cardinality of the set of ledger rows bound to it, at most its limit, at most five. |
| `Theorems.PilotPrefix` | src/calibre_ai_auditor/apply/coordinator.py:591-656 | In creation order all operations of a pilot but possibly the last have succeeded. |
| `Theorems.AuthorizedWrite` | src/calibre_ai_auditor/apply/coordinator.py:403-457 | An apply that ever entered writing carries exactly the sealed patch less the fields locked when it was validated, within the ten canonical fields; the authorization it names is stored and was given for its book, its run, that package's digest and that very patch; the package is sealed, tier A, local, shadowed and about the book row as validated. |
| `Theorems.StartedOnSealedFiles` | src/calibre_ai_auditor/apply/writer.py:264-297 | And it began on the sealed files: the library listed the package's paths in their order, and each file had the digest of the package's last entry for its path. |
| `Requests.StartedAsSealed` | src/calibre_ai_auditor/apply/coordinator.py:633-649 | And on a reading that showed, at each patched field, what the sealed snapshot shows: verbatim, or the same edition text. |
| `Theorems.LateLockGoesUnnoticed` | src/calibre_ai_auditor/apply/writer.py:253-297 | From every world in which an apply may begin, storing a lock on a patched field first still lets it begin with that field in its patch. |
| `Theorems.PatchIsCurrentIff` | src/calibre_ai_auditor/apply/coordinator.py:103-106 | At the commit of writing the patch holds exactly the sealed fields that are unlocked now, with the sealed values, iff no lock on a sealed field was added or lifted since the validation. |
| `Theorems.GateOpenIff` | src/calibre_ai_auditor/apply/coordinator.py:591-631 | The five-table join lets a request through iff every operation succeeded, or is acknowledged and belongs to another pilot. |
| `Theorems.AcknowledgedIsSafe` | src/calibre_ai_auditor/apply/coordinator.py:357-387 | An acknowledged operation is, in every reachable world, a completed V2 failure of a stopped pilot. |
| `Theorems.ServedInOrder` | src/calibre_ai_auditor/apply/writer.py:39-69 | Operations of one book are served in the order they were requested: a later one is past requested only when every earlier one is terminal. |
| `Theorems.UndoNamesWrittenChange` | src/calibre_ai_auditor/apply/coordinator.py:464-474 | Every undo request names a recorded change of its own book, whose apply got as far as writing and holds the same before-metadata. |
| `Requests.UndoExpectsChange` | src/calibre_ai_auditor/apply/coordinator.py:460-479 | Every undo row expects exactly what its change wrote, which is the patch of the apply that recorded it, on the same book, run and Calibre id. |
| `Requests.UndoStartedOnChange` | src/calibre_ai_auditor/apply/writer.py:416-464 | An undo that entered writing began on a reading that still showed that patch, field by field, so it overwrites nobody's later edit of those fields. |
| `Outcomes.ChangesTellOutcomes` | src/calibre_ai_auditor/apply/writer.py:362-393 | The change of a succeeded apply is applied or undone, of a restored one rolled back, of one whose restore failed marked so; and a change is undone only by an undo that succeeded. |
| `Histories.TerminalIsFinal` | src/calibre_ai_auditor/storage/operations.py:10-24 | At any two moments of a run a terminal row is unchanged, and a written row stays written with the same before-metadata. |
| `Histories.WritesAtMostOnce` | src/calibre_ai_auditor/apply/writer.py:288-297 | Over all crashes, releases and new claims an operation enters writing at most once. |
| `Histories.NeverWritesAgain` | src/calibre_ai_auditor/storage/operations.py:10-24 | An operation that has left writing is never in writing again, whatever crashes, releases and claims follow. |
| `Histories.RunLater` | src/calibre_ai_auditor/storage/models.py:93-208 | At any two moments of a run the later tables extend the earlier ones: requests are immutable, changes keep their evidence and stay undone, pilots keep their binding. |
| `Histories.ReadingsAreGenuine` | src/calibre_ai_auditor/calibre/cli.py:89-113 | Every reading an operation started from, had its files accepted on, or was settled on, is what the library showed of its book at some moment of the run. |
| `Waiting.AsRequested` | src/calibre_ai_auditor/apply/writer.py:39-69 | The first operation requested when all others are settled records as its before-metadata exactly what the library showed at the request, however long it waits and whatever happens to other books, unless somebody else edits its book meanwhile. |
| `Histories.PilotsAreMonotone` | src/calibre_ai_auditor/cli/main.py:337-346 | A pilot's runtime binding never changes, its spent budget never shrinks, and a stopped pilot never reopens. |
| `Histories.IncidentBlocksForever` | src/calibre_ai_auditor/apply/coordinator.py:596-631 | Once an operation ends restored, restore_failed or unknown, no V2 request is admissible at any later moment of any run. |
| `Histories.LegacyFailureBlocksForever` | src/calibre_ai_auditor/apply/coordinator.py:345-387 | The same for a failed operation that is not V2, because it can never be acknowledged. |
| `Feasibility.AdmissibleCanSucceed` | src/calibre_ai_auditor/apply/coordinator.py:560-665 | From every reachable world in which a request is admissible and ready (the writer runs the expected schema and the library shows the sealed snapshot), a later world of the same run is reachable in which that operation has succeeded, if need be after somebody else has put its edition fields in order. |
| `Feasibility.UnaidedSuccessIff` | src/calibre_ai_auditor/apply/writer.py:244-393 | With nobody else editing its book in between, a ready request can end succeeded iff it patches the edition or the two edition fields the library shows are coherent. |
| `Feasibility.WriteCanSucceedIff` | src/calibre_ai_auditor/apply/writer.py:288-388 | From every crash point of an announced apply, success can still be reached iff it patches the edition or found its two edition fields coherent. |
| `Feasibility.CanProduce` | src/calibre_ai_auditor/apply/writer.py:585-638 | For every sealed package, before-metadata and canonical patch of that kind, some library state shows the aligned target over files with the sealed contents. |
| `Feasibility.SuccessIsReachable` | src/calibre_ai_auditor/apply/writer.py:244-393 | A complete run from empty tables to a succeeded apply exists. |
| `Feasibility.StrandedIsReachable` | src/calibre_ai_auditor/apply/writer.py:198-201 | A complete run exists to an interrupted apply over verified files of an untouched book that recovery takes neither for its target nor for its before-state. |
| `Feasibility.ReadyCanEndUnknown` | src/calibre_ai_auditor/apply/writer.py:319-322 | From every reachable world in which a request is ready to begin, a later world is reachable in which it ended unknown and the library is the same. |
| `Preservation.RunKeeps` | src/calibre_ai_auditor/apply/writer.py:32-509 | The invariant behind the theorems holds at the end of every run. |
| `Settlement.RunSettles` | src/calibre_ai_auditor/apply/writer.py:32-509 | So do the order of service, the standing of acknowledgements and the agreement of library and last readings. |
| `Metadata.VerifiedIffPatchedAndFramed` | src/calibre_ai_auditor/apply/writer.py:288-295 | A reading matches the aligned target iff it carries the patch and every other recorded field is as before, or as relocated if it is formats or path. |
| `Metadata.TargetAt` | src/calibre_ai_auditor/apply/writer.py:630-638 | What the aligned target demands at each field: the patch, else the live formats or path, else the value before; only a replaced `#edition` is dropped. |
| `Metadata.MatchesPatchIff` | src/calibre_ai_auditor/apply/writer.py:530-545 | The comparison one field at a time: verbatim, by digest for a cover artifact, through the edition text, and not at all for last_modified. |
| `Metadata.EditionShownIff` | src/calibre_ai_auditor/apply/writer.py:534-536 | The edition shown is the text of `#edition`, or of `edition_statement` when that is missing, null or empty. |
| `Metadata.FramedMeans` | src/calibre_ai_auditor/apply/writer.py:630-638 | What a verified write keeps, field by field, formats and path being those of the accepted reading. |
| `Metadata.RestoreMatchesMeans` | src/calibre_ai_auditor/apply/engine.py:255-278 | What the engine's check after its rollback establishes: the other fields verbatim, the backed-up edition text, the backed-up cover by its digest. |
| `Metadata.RestoreChecksAgree` | src/calibre_ai_auditor/apply/engine.py:255-278 | A reading that passes the writer's restore check agrees with the engine's on every field outside cover, edition and last_modified. |
| `Metadata.MatchesItselfIff` | src/calibre_ai_auditor/apply/writer.py:530-545 | A snapshot matches itself iff its edition fields are coherent and its cover is not an artifact; no reading whatsoever matches incoherent edition fields. |
| `Metadata.UntouchedShowsTargetIff` | src/calibre_ai_auditor/apply/writer.py:176-189 | A snapshot nobody touched passes for its own target iff the patch is already there and overwrites whatever keeps the snapshot from matching itself. |
| `Metadata.AlreadyThereExample` | src/calibre_ai_auditor/apply/writer.py:530-545 | A concrete snapshot that does not match itself and yet passes for its target. |
| `Metadata.IncoherentUnframed` | src/calibre_ai_auditor/apply/writer.py:534-544 | No reading can keep incoherent edition fields that the patch leaves alone. |
| `Metadata.IncoherentExample` | src/calibre_ai_auditor/apply/writer.py:534-536 | A concrete snapshot that does not match itself. |
| `Ledger.OnlyClaimsCycle` | src/calibre_ai_auditor/storage/operations.py:10-24 | The only cycle of the transition table is requested/claimed, and a state is terminal iff it allows nothing. |
| `Ledger.EnteredFrom` | src/calibre_ai_auditor/storage/operations.py:10-24 | The table read backwards: succeeded is entered only from verifying, restored and restore_failed only from restoring, failed only from claimed, writing only from claimed, and so on for every state. |
| `Histories.StatesFollowTable` | src/calibre_ai_auditor/storage/operations.py:84-94 | In every step of every run each operation stays or moves along the transition table, through at most one intermediate state of the same transaction, which leaves eight possible moves; completion is recorded exactly on arrival in a terminal state. |
| `Gates.V2Row` | src/calibre_ai_auditor/apply/coordinator.py:633-649 | The row a V2 request creates is fresh, bound to its pilot, canonical, and about a stored book. |
| `Boundary.QueuedAsSealed` | src/calibre_ai_auditor/apply/coordinator.py:633-649 | Field by field what a queued row holds: the sealed book, run and id, the unlocked sealed fields with their values, the values the sealed snapshot shows at them, and the package, authorization, pilot and locks it was queued with. |
| `Boundary.RequestableIff` | src/calibre_ai_auditor/apply/coordinator.py:570-592 | The exact condition on package, book, authorization and runtime for a V2 request, on the stored rows. |
| `Boundary.ReservableIff` | src/calibre_ai_auditor/apply/coordinator.py:280-323 | The exact condition on the pilot: bound to this runtime, open, with a budget that agrees with the rows bound to it and is not spent; or new. |
| `Boundary.ValidApplyIff` | src/calibre_ai_auditor/apply/coordinator.py:403-457 | The exact condition under which the writer's validation passes, on the stored rows. |
| `Boundary.SameFilesIff` | src/calibre_ai_auditor/apply/writer.py:607-619 | Before a write the live paths are the sealed ones in order and every file has the digest of the last sealed entry for its path. |
| `Boundary.SameContentsIff` | src/calibre_ai_auditor/apply/writer.py:607-627 | After a write the live paths are distinct and present, and each extension and digest occurs as often as it is sealed. |
| `Boundary.SealedPathsMean` | src/calibre_ai_auditor/apply/writer.py:610-612 | The sealed paths are those of the package's entries, each once, in the order in which they are first seen. |
| `Store.EnvironmentLeavesUndisturbed` | src/calibre_ai_auditor/apply/coordinator.py:460-665 | No step of the API or of other people disturbs the rows, locks, changes or trails the writer works with, and a book they do not edit stays as it is. |
| `Store.UndisturbedTransitive` | src/calibre_ai_auditor/apply/coordinator.py:460-665 | Nor do any number of such steps in a row, which is what `Yield` stands for. |
| `Store.Store.Commit` | src/calibre_ai_auditor/apply/writer.py:295-297 | A commit replaces the tables by those of one protocol step, leaves the library alone and extends the run. |
| `Store.Store.ShowMetadata` | src/calibre_ai_auditor/calibre/cli.py:89-113 | One reading event: the answer, if any, is the live metadata and files of that moment and goes on record; earlier answers stay on record, tables and library are the same. |
| `Store.Store.Touch` | src/calibre_ai_auditor/apply/engine.py:152-169 | A library call may do anything to its own book, may stop part-way, is made only with a restore point durable, and makes earlier readings void. |
| `Engine.WriteComponents` | src/calibre_ai_auditor/apply/engine.py:234-253 | A sequence of library calls that stops at the first failure, leaves rows, changes and the rest of the trails alone, and makes earlier readings void; if it ends normally, exactly as many calls were made as asked for. |
| `Engine.RecordChange` | src/calibre_ai_auditor/apply/engine.py:125-141 | The pending change is appended in a commit of its own. |
| `Engine.MarkChange` | src/calibre_ai_auditor/apply/engine.py:183-189 | The change's verdict is durable in a commit of its own; "rolled back" needs a reading made since the library was last touched that agrees with the before-metadata. |
| `Engine.RollBack` | src/calibre_ai_auditor/apply/engine.py:170-182 | The verdict is "rolled back" only after one call for the metadata, one for each backed-up custom column and one for a backed-up cover, on a reading made after them that passes the whole comparison; a backed-up cover is there by its digest. |
| `Engine.PerformWrite` | src/calibre_ai_auditor/apply/engine.py:152-190 | Ends with the change applied after one call for the metadata, one for a patched edition and one for a backed-up cover, or raises with the verdict of the rollback recorded; a recorded "rolled back" rests on a reading made since the library was last touched. |
| `Engine.Prepare` | src/calibre_ai_auditor/apply/engine.py:46-151 | Up to the first library call the library is untouched; the change, if recorded, is pending and holds the operation's book, run, before-metadata and patch, a cover backup iff the patch has a cover, and the edition text shown before iff the patch has an edition. |
| `Engine.ApplyPatch` | src/calibre_ai_auditor/apply/engine.py:46-190 | Touches the library only after the change is durable; a durable "rolled back" is always sound; an exception without a recorded verdict left the library alone. |
| `Writer.PendingIsRequested` | src/calibre_ai_auditor/apply/writer.py:53-58 | A pending event always belongs to a requested operation, so the stale-event branch is never taken. |
| `Writer.Choose` | src/calibre_ai_auditor/apply/writer.py:39-69 | The oldest pending operation is chosen unless its book is locked, and nothing is chosen iff that is so. |
| `Writer.ClaimNext` | src/calibre_ai_auditor/apply/writer.py:32-94 | Claims exactly the oldest pending operation of an unlocked book, in one commit with its event and with the given lease on row and lock; an expired lock is never stolen. |
| `Settling.SettleFailed` | src/calibre_ai_auditor/apply/writer.py:255-262 | Fails a claimed operation, its event and its lock together, and touches no other row. |
| `Writer.ValidateOrReject` | src/calibre_ai_auditor/apply/writer.py:253-262 | Goes on iff the writer's validation passes on the rows as they are; otherwise the operation ends failed. |
| `Writer.VerifyFiles` | src/calibre_ai_auditor/apply/writer.py:585-627 | Passes iff the files are readable and are the sealed ones, path by path before a write and as a multiset of format and digest after it. |
| `Writer.BeginApply` | src/calibre_ai_auditor/apply/writer.py:288-297 | The intent, with before and target metadata, is committed before anything is written. |
| `Writer.ReadAndBegin` | src/calibre_ai_auditor/apply/writer.py:264-297 | Starts only on authorized live metadata over sealed files; otherwise fails, or raises still claimed. |
| `Writer.StartApply` | src/calibre_ai_auditor/apply/writer.py:253-297 | The first half of an apply ends writing without a change, failed, raised while claimed, or crashed. |
| `Writer.CompareAndSettle` | src/calibre_ai_auditor/apply/writer.py:362-393 | Success iff the final reading shows the aligned target, and then that reading is the last one and still shown unless somebody else edited the book since; otherwise restored or restore_failed; an unanswered reading leaves it writing. |
| `Writer.VerifyApply` | src/calibre_ai_auditor/apply/writer.py:332-393 | Success iff the files verified and the final reading shows the aligned target; otherwise restored, after every recorded component was written back, or restore_failed, or an exception leaves it writing. |
| `Writer.SettleEngineFailure` | src/calibre_ai_auditor/apply/writer.py:307-326 | Ends restored iff the engine recorded a rollback, restore_failed iff it recorded a failed one, unknown iff it recorded neither. |
| `Writer.HandleEngineFailure` | src/calibre_ai_auditor/apply/writer.py:307-326 | The same with others acting first; the library is not touched. |
| `Settling.SettleApplied` | src/calibre_ai_auditor/apply/writer.py:364-367 | Success settles row, event, lock and change in one commit, records the aligned target and the reading, on two readings on record that confirm it, the last of which is still shown unless edited since; touches no other row. |
| `Settling.SettleRestored` | src/calibre_ai_auditor/apply/writer.py:377-383 | The same for a restore, on a reading on record that agrees with the before-metadata. |
| `Settling.SettleAborted` | src/calibre_ai_auditor/apply/writer.py:768-772 | The same for unknown and restore_failed. |
| `Settling.SettleUndone` | src/calibre_ai_auditor/apply/writer.py:475-479 | The same for an undo, on a reading on record that shows its target; its change is retired. |
| `Settling.RestoreAndSettle` | src/calibre_ai_auditor/apply/writer.py:370-388 | Restored iff a reading after the restore matches the before-metadata, and then every component was written back and that reading is the last one; otherwise restore_failed; never raises, touches no other row. |
| `Writer.CompleteApply` | src/calibre_ai_auditor/apply/writer.py:299-393 | The second half of an apply ends terminal, raised while writing, or crashed; if it ends unknown the library is untouched. |
| `Writer.BeginUndo` | src/calibre_ai_auditor/apply/writer.py:459-464 | The undo's before-state, target and rollback artifact are committed before anything is written. |
| `Writer.ReadAndBeginUndo` | src/calibre_ai_auditor/apply/writer.py:416-464 | Starts only if the live metadata still shows the change; otherwise fails, or raises still claimed. |
| `Writer.StartUndo` | src/calibre_ai_auditor/apply/writer.py:395-464 | The first half of an undo ends writing, failed, raised while claimed, or crashed. |
| `Writer.CompareUndo` | src/calibre_ai_auditor/apply/writer.py:472-509 | An undo succeeds iff its reading shows the target, and is otherwise restored or restore_failed. |
| `Writer.CompleteUndo` | src/calibre_ai_auditor/apply/writer.py:466-509 | The second half of an undo ends succeeded, after every recorded component was written back, or restored, restore_failed, raised while writing, or crashed. |
| `Writer.Process` | src/calibre_ai_auditor/apply/writer.py:244-393 | On return the operation is terminal; on an exception it is durably claimed or writing; anything but a claimed operation is refused untouched; no other operation is touched. |
| `Writer.FailKeepsAgreementIff` | src/calibre_ai_auditor/apply/writer.py:512-527 | `fail_operation` keeps ledger and outbox in agreement iff the operation is neither requested nor succeeded. |
| `Writer.FailOperation` | src/calibre_ai_auditor/cli/main.py:1421-1426 | After an escaped exception the operation is failed or unknown, with its event and lock. |
| `Recovery.ReleaseClaim` | src/calibre_ai_auditor/apply/writer.py:109-125 | A dead claim returns to requested with its event pending and its lock gone, and no other row changes. |
| `Recovery.Judge` | src/calibre_ai_auditor/apply/writer.py:151-204 | How recovery classifies a reading: target, before-state, partial with a change, partial without one, or an escaped exception. |
| `Recovery.Resolve` | src/calibre_ai_auditor/apply/writer.py:176-228 | What each classification leads to: succeeded, restored, restored or restore_failed, unknown, unknown. |
| `Recovery.ReconcileApply` | src/calibre_ai_auditor/apply/writer.py:131-228 | An interrupted apply is settled; over verified files of a book nobody else has edited since the apply read it, and without a change, a stranded partial state is reported iff the before-metadata does not match itself and the patch was not there already. |
| `Recovery.ReconcileUndo` | src/calibre_ai_auditor/apply/writer.py:691-752 | An interrupted undo is settled: succeeded iff the reading shows its target, unknown if there is none, otherwise restored or restore_failed from its own rollback artifact. |
| `Recovery.ReconcileOne` | src/calibre_ai_auditor/apply/writer.py:108-130 | Afterwards the operation is not in flight, unless claimed with a live lease, and no other row changed. |
| `Recovery.Reconcile` | src/calibre_ai_auditor/apply/writer.py:97-229 | Afterwards no operation is in flight except claims with a live lease. |
| `Recovery.Serve` | src/calibre_ai_auditor/cli/main.py:1419-1426 | A claimed operation is terminal afterwards, whatever exception escaped, and no other is touched. |
| `Recovery.RunWriter` | src/calibre_ai_auditor/cli/main.py:1395-1430 | Between any two operations nothing is in flight except claims with a live lease, whatever others queue meanwhile; wherever the process dies, what it leaves behind is a run of the protocol. |
| `Coordinator.CountBound` | src/calibre_ai_auditor/apply/coordinator.py:318-323 | Counts exactly the ledger rows bound to a pilot. |
| `Coordinator.NothingInTheWay` | src/calibre_ai_auditor/apply/coordinator.py:596-631 | True iff every event is published or cleared for this pilot. |
| `Coordinator.CreateOperation` | src/calibre_ai_auditor/storage/operations.py:27-81 | A new key creates one row and one event; a known key changes nothing and returns its row. |
| `Coordinator.TryReserve` | src/calibre_ai_auditor/apply/coordinator.py:568-662 | The checks in order pass iff the request is admissible, and then reserve one unit of the budget and one row; in particular only under an authorization given for this book, run, package digest and patch. |
| `Coordinator.QueueV2Operation` | src/calibre_ai_auditor/apply/coordinator.py:560-665 | Queues exactly one operation iff the request is admissible; otherwise nothing changes. |
| `Coordinator.QueueUndoOperation` | src/calibre_ai_auditor/apply/coordinator.py:460-479 | Idempotent per change and status: one row at most for each, and a new one expects what the change wrote. |
| `Coordinator.StopPilot` | src/calibre_ai_auditor/cli/main.py:325-347 | Closes exactly the named pilot, if it exists. |
| `Coordinator.AcknowledgeFailure` | src/calibre_ai_auditor/apply/coordinator.py:345-387 | Records an acknowledgement iff the failure is a quiescent V2 failure of a stopped pilot, not yet acknowledged. |
| `Coordinator.ValidateApply` | src/calibre_ai_auditor/apply/coordinator.py:390-457 | The checks in order pass iff the queued operation is still exactly what was sealed, authorized and reserved; in particular only under an authorization given for its book, run, package digest and patch. |
| `DisjointSets.DisjointSetUnion.Find` | src/calibre_ai_auditor/curation/series_topology.py:80-87 | Returns the representative; path compression changes no representative, and an unknown item becomes a class of its own. |
| `DisjointSets.DisjointSetUnion.Union` | src/calibre_ai_auditor/curation/series_topology.py:89-100 | Merges exactly the two classes under one of their roots. |
| `DisjointSets.DisjointSetUnion.ClassesAreClosure` | src/calibre_ai_auditor/curation/series_topology.py:73-100 | After any calls two items have the same representative iff the unions connect them, parents lead to it, and the way has at most log2 of the item count links. |
| `DisjointSets.GrownSound` | src/calibre_ai_auditor/curation/series_topology.py:80-100 | Every state that can arise is a forest with strictly increasing ranks, a root of rank r has at least 2^r members, and it represents exactly the closure of the unions. |
| `DisjointSets.DepthIsLogarithmic` | src/calibre_ai_auditor/curation/series_topology.py:85-87 | The recursion of find is bounded by log2 of the item count. |
| `DisjointSets.SameRootIffConnected` | src/calibre_ai_auditor/curation/series_topology.py:89-93 | Same representative iff joined by a chain of unions. |
| `Clusters.UnionsMeanSharing` | src/calibre_ai_auditor/curation/series_topology.py:195-224 | The star-shaped unions within groups have the same closure as "same canonical ISBN or same author and title". |
| `Clusters.DictionaryIndexed` | src/calibre_ai_auditor/curation/series_topology.py:195-210 | Filing books under keys gives each key exactly its books, in order, and no key twice. |
| `Deduplication.CompleteFormatHashes` | src/calibre_ai_auditor/curation/series_topology.py:290-305 | A mapping exists iff every format has a name of its own and a SHA-256 digest. |
| `Deduplication.EqualHashesIff` | src/calibre_ai_auditor/curation/series_topology.py:245-249 | Two mappings are equal iff each file of either book has a twin in the other. |
| `Spelling.MappingIff` | src/calibre_ai_auditor/curation/series_topology.py:290-305 | For upper-case unpadded names and lower-case unpadded digests: a mapping exists iff names are present and different and digests are 64 hexadecimal digits, and it maps each name to the digest in the same place. |
| `Spelling.SameMappingIff` | src/calibre_ai_auditor/curation/series_topology.py:245-249 | Two such books have equal mappings iff they have the same set of (format, digest) pairs. |
| `Spelling.SameFormatsIff` | src/calibre_ai_auditor/curation/series_topology.py:245-249 | With the same formats in the same order: iff they have the same digests in the same order. |
| `Spelling.RespellingKeepsMapping` | src/calibre_ai_auditor/curation/series_topology.py:296-297 | Changing letter case or surrounding white space of names and digests changes no mapping. |
| `Deduplication.Classify` | src/calibre_ai_auditor/curation/series_topology.py:242-265 | CLONE iff all members have equal complete mappings; MULTIFORMAT iff not that and a complementary EPUB/PDF pair. |
| `Spelling.ClonesIff` | src/calibre_ai_auditor/curation/series_topology.py:242-249 | On such books CLONE means that every member is complete and all have the same (format, digest) pairs. |
| `Spelling.ComplementaryIff` | src/calibre_ai_auditor/curation/series_topology.py:251-261 | MULTIFORMAT needs exactly two books, no format listed twice in or across them, and an EPUB and a PDF between them. |
| `Deduplication.PickCanonical` | src/calibre_ai_auditor/curation/series_topology.py:267-272 | The first member with an EPUB, or the smallest id. |
| `Deduplication.ByIdFinds` | src/calibre_ai_auditor/curation/series_topology.py:193 | An id stands for the last book of the list that has it. |
| `Deduplication.Gather` | src/calibre_ai_auditor/curation/series_topology.py:192-210 | Raises iff some ISBN has a misplaced X; otherwise both dictionaries hold exactly the books' keys. |
| `Deduplication.UnionGroups` | src/calibre_ai_auditor/curation/series_topology.py:212-224 | Performs exactly the unions of each group's first member with the others. |
| `Deduplication.ReportedAreComponents` | src/calibre_ai_auditor/curation/series_topology.py:226-237 | The groups of two or more read back by root are exactly the components, each book in at most one. |
| `Deduplication.ClusterDuplicates` | src/calibre_ai_auditor/curation/series_topology.py:190-288 | The clusters reported are exactly the connected components of two or more books, each book in at most one, each classified by its members. |
| `EditDistance.Distance` | src/calibre_ai_auditor/providers/consensus_engine.py:103-112 | The rolling-row loop computes the edit distance. |
| `EditDistance.NextRow` | src/calibre_ai_auditor/providers/consensus_engine.py:104-111 | One pass turns the row of a prefix into the row of the next prefix. |
| `EditDistance.DistanceIsMinimal` | src/calibre_ai_auditor/providers/consensus_engine.py:100-111 | Some script of that many single-character edits exists, and no shorter one. |
| `EditDistance.Ratio` | src/calibre_ai_auditor/providers/consensus_engine.py:91-112 | With early returns, exchange by length and clamp: the result times the length n of the longer string is n less the least number of single-character edits; 1 for two empty strings, and 0 iff every character of a non-empty pair has to be edited. |
| `EditDistance.SimilarityIs` | src/calibre_ai_auditor/providers/consensus_engine.py:91-112 | That least number exists, and the value determined by it is the similarity. |
| `EditDistance.SimilarityRange` | src/calibre_ai_auditor/providers/consensus_engine.py:91-112 | That value is symmetric, lies in [0, 1] without the clamp, and is 1 iff the strings are equal. |
| `Isbn.ImplementationsAgree` | src/calibre_ai_auditor/curation/entity_cleanser.py:270-297 | The three implementations are one function, except that the third raises exactly on a misplaced X. |
| `Isbn.CanonicalOf` | src/calibre_ai_auditor/extractors/container_archaeology.py:366-391 | What the shared function and the miner return, for every input. |
| `Isbn.Checks10Iff` | src/calibre_ai_auditor/rules/isbn.py:17-23 | An ISBN-10 checks iff it is nine digits and a digit or X and 10 d0 + 9 d1 + ... + 2 d8 + d9 is a multiple of eleven. |
| `Isbn.Checks13Iff` | src/calibre_ai_auditor/rules/isbn.py:26-31 | An ISBN-13 checks iff it is thirteen digits and d0 + 3 d1 + d2 + ... + 3 d11 + d12 is a multiple of ten. |
| `Isbn.CanonicalExample` | src/calibre_ai_auditor/rules/isbn.py:34-43 | The canonical form of 0306406152 is 9780306406157. |
| `Isbn.CanonicalIsValidAndStable` | src/calibre_ai_auditor/rules/isbn.py:34-43 | Every result is a valid ISBN-13 and canonicalising it again changes nothing. |
| `Isbn.CanonicalIsInjective` | src/calibre_ai_auditor/rules/isbn.py:34-43 | Valid ISBN-10s with the same canonical form are the same ISBN-10. |
| `Isbn.Isbn10DetectsChange` | src/calibre_ai_auditor/rules/isbn.py:17-23 | Replacing any one digit or X of a valid ISBN-10, however punctuated, is detected. |
| `Isbn.Isbn10DetectsSwap` | src/calibre_ai_auditor/rules/isbn.py:17-23 | So is exchanging any two unequal ones. |
| `Isbn.Isbn13DetectsChange` | src/calibre_ai_auditor/rules/isbn.py:26-31 | Replacing any one digit of a valid ISBN-13, however punctuated, is detected. |
| `Isbn.Isbn13MissesSwapIff` | src/calibre_ai_auditor/rules/isbn.py:26-31 | Exchanging two digits of a valid ISBN-13 is missed iff their places have the same parity or they differ by a multiple of five. |
| `Isbn.MisplacedExample` | src/calibre_ai_auditor/curation/entity_cleanser.py:277-279 | A concrete input on which the third implementation raises. |
| `Keyset.StreamBooks` | src/calibre_ai_auditor/calibre/streaming_engine.py:58-97 | For every positive batch size the loop ends; ids strictly increase; every row present in all reads appears exactly once; the table read last has nothing beyond; a fixed table is emitted exactly, in id order; other batch sizes are refused. |
| `Keyset.PageLeavesNoGap` | src/calibre_ai_auditor/calibre/streaming_engine.py:64-81 | A page is never longer than the limit, empty only when nothing is left, shorter only when it holds all that is left, and skips no row before its last. |
| `Keyset.FixedTable` | src/calibre_ai_auditor/calibre/streaming_engine.py:58-97 | Increasing items that are exactly the positive rows of one table are that table in id order. |

## Left out

- calibredb, OPF building, covers, artifacts and sealed memory files: a library call is any change to its own book, with or without success; backups are opaque names.
- SQLAlchemy, PostgreSQL row and advisory locks: each transaction is one atomic step and there is one writer, as the advisory lock enforces; the lost-race branch of a claim is therefore absent.
- Digests: a stored SHA-256 is represented by the value it digests, so equal digests mean equal values.
- Identifiers: operation and event ids are row positions, with one event per operation; the Calibre id of a book key never changes; the library is keyed by book key.
- Text checks: the format checks of a pilot guard are one flag, `wellFormed`, and the length checks of an acknowledgement are one argument, `worded`.
- `queue_approved_operations`: verdicts and eligibility are not modelled; any fresh legacy row may be queued, and the writer refuses it.
- Book display status, error strings, heartbeats and timestamps other than completion: they carry no invariant; the lease clock is a natural number that stands still within one call.
- `formats` as a comma-separated string: the path list of a snapshot is given; the string form is not split.
- A reading and the check of its files are taken at one moment, although the code hashes the files after reading.
- Deleted rows: evidence packages, authorizations and book rows only accumulate (`Shapes.Grows`), although a repeated audit deletes an evidence row of the same book and run before it stores a new one (src/calibre_ai_auditor/audit/engine.py:244-249).
- Writer.FailOperation: only for claimed or writing operations, as the writer loop calls it; `Writer.FailKeepsAgreementIff` says what happens on the others.
- Recovery.RunWriter: a bounded number of rounds of the endless loop; liveness of claims is not promised by the code and not claimed.
- Cancelled operations: the state exists in the transition table and no code produces it.
- Direct `undo` and `ApplyEngine.undo_change`: development-only, they bypass the lock.
- The policy that produces packages, patches and verdicts: `CanonicalPatch` is the set of fields it allows; evidence packages are stored values.
- Deduplication.ClusterDuplicates: titles, authors, format lists, confidence and recommendation texts are not modelled; author cleaning and lower-casing of titles happen before; stripping and upper-casing cover ASCII.
- EditDistance.Ratio: exact rationals instead of floating point, on strings that are already normalised; `token_set_ratio` and the consensus weights are not modelled.
- Keyset.StreamBooks: rows are opaque values; the defaults and the format list of an emitted item are not modelled.
- Series gap analysis, providers, extraction, vision, web interface, settings and migrations.
