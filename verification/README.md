# A verified model of the durable sync engine

This project models the core of a local-first sync client for an embedded SurrealDB and proves what
its parts promise each other. Every state machine is stated over all of its runs: any order of
operations, any storage outcome, any interleaving of transactions, any worker death.

`dafny verify dfyconfig.toml` checks the whole project.

| file | what it models |
|---|---|
| `Common`, `Ordering`, `FenceText` | shared types, key order, decimal text and the metadata fence `counter:a` / `counter:i` |
| `BootstrapModel` | the rows of one (partition, client) key, admission budgets, inspection, and what each operation decides and writes |
| `BootstrapBudget` | the admission loops over accumulators, proved equal to order-free budget predicates |
| `BootstrapStore` | the store's transactions as imperative code with rollback, each proved to be one step of the state machine |
| `BootstrapHistory` | the inductive invariant and what holds over every history: budgets, at-most-once install, stale handles, authorization floor, resume |
| `BootstrapAnswers` | what each operation answers and writes on any reachable record, field by field and in both directions |
| `BootstrapPages` | pages in any order with any repeats |
| `BootstrapExample` | one smallest download, from begin to installation |
| `BootstrapSerial` | overlapping snapshot transactions with first-committer-wins, and their serial equivalent |
| `ReadProtocol`, `ReadMeaning`, `ReadReplay`, `ReplayRuns` | snapshots and what a row says by positions in the state, committed batches, the bounded replay journal, and readers over whole runs |
| `RuntimeCoherence`, `RuntimeSlot`, `RuntimeReaders` | the shared runtime slot over the durable journal: phases, poison, session loss, `Drop`, and readers of the slot |
| `SessionFence`, `BindingTickets`, `TransactionRegistry` | session generations, bootstrap tickets, transactions against `close` |
| `PendingQueue` | the bounded FIFO window and admission with exact escaped-JSON accounting |
| `Base64`, `ValueCodec`, `WireCodec` | canonical, engine and tagged-JSON values |

## How to read the model

- Codecs, digests, the state validator, the manifest verifier and the snapshot install are function-valued fields of
  `BootstrapModel.Codec`. `CodecOk` is all that is assumed of them: a decodable page frame is at most
  4 MiB, and the budget charges a page key at least its stored text.
- A stored journal's size is the pair the source computes (payload bytes, components plus the
  metadata row). The same numbers serve the scalar preflight and the encoder, as they do for every
  journal in the current row format.
- `CompletionClock` is two nondeterministic readings: at admission, and the conjunction of all later
  ones, the last of which is taken after every row has been written.
- Floats are IEEE 754 bit patterns. The text of a record id and its parser are parameters; the codec
  results hold for every such pair.
- Storage outcomes in the runtime model are nondeterministic: a call may land or not, and may report
  committed, rolled back, unknown or rollback failed. A worker that dies runs `Drop`, so death is the
  `Release` event, enabled at every point.

Some results differ from what one might expect of the code:

- An engine value holding `-0.0` does not survive the trip through the canonical form
  (`ValueCodec.NegativeZeroIsLost`); `ValueCodec.BackAndThere` states that this is the only exception.
- Completing a bootstrap rotates the fence twice, once in the guarded journal write and once when the
  header is closed; `BootstrapModel.Effect` has both.
- A journal of exactly 16,384 components is legal but cannot be inspected for a stage
  (`BootstrapHistory.InspectionSucceeds`, second clause): the preflight counts the metadata row. It is
  refused with the size error, and a first begin over it would be refused on size anyway.
- Under poison two things can still happen to a slot, both behind gates that stay shut: attaching an
  existing journal may fill it although the open then fails (`RuntimeCoherence.EarlyOpenStillFills`),
  and a committed barrier write may disarm (`RuntimeCoherence.BarrierWriteStillDisarms`).
- When one cancel fails during `close`, the rest of what that close collected stays open for good
  (`TransactionRegistry.SurvivorsOfFailedCancel`).

## Model

| member | source | states |
|---|---|---|
| FenceText.ParseFenceExact | crates/surrealdb-rn-core/src/sync_bootstrap_store.rs:970-978 | a counter text is accepted if and only if it is the canonical decimal of a u64, and then with that value |
| FenceText.ParsePrinted | crates/surrealdb-rn-core/src/sync_bootstrap_store.rs:979-994 | parsing a printed fence gives the fence back, for every u64 counter and both flags |
| FenceText.PrintParsed | crates/surrealdb-rn-core/src/sync_bootstrap_store.rs:979-987 | printing what was parsed gives the text back, so no other spelling of a fence is ever accepted |
| FenceText.TruncatedReadIsExact | crates/surrealdb-rn-core/src/sync_bootstrap_store.rs:951-969 | reading only 24 characters accepts exactly the stored texts that are well-formed fences |
| FenceText.NextFenceAdvances | crates/surrealdb-rn-core/src/sync_bootstrap_store.rs:988-994 | the next fence has the next counter and the same flag, or the counter is exhausted and it fails |
| FenceText.RotationNeverRepeats | crates/surrealdb-rn-core/src/sync_bootstrap_store.rs:988-994 | no sequence of rotations ever produces a text twice |
| BootstrapBudget.ScanRecords | crates/surrealdb-rn-core/src/sync_bootstrap_store.rs:848-858 | the record scan of a page accepts exactly a strictly ascending page above everything seen before |
| BootstrapBudget.ScanPages | crates/surrealdb-rn-core/src/sync_bootstrap_store.rs:839-880 | the page loop accepts exactly a sound page set and its running totals are the sums over it |
| BootstrapBudget.CheckBudget | crates/surrealdb-rn-core/src/sync_bootstrap_store.rs:817-898 | a stage is admitted if and only if it satisfies the combined reservation (open) or the marker budget (closed); an unsound page set is corruption, anything else a size error |
| BootstrapBudget.FinalBudget | crates/surrealdb-rn-core/src/sync_bootstrap_store.rs:900-949 | admits an installation exactly when old and new journal, all pages, key framing and both headers fit together |
| BootstrapBudget.FewerPagesFit | crates/surrealdb-rn-core/src/sync_bootstrap_store.rs:817-898 | admission survives dropping pages, the strictly increasing id scan included |
| BootstrapBudget.ActiveCoversClosedMarker | crates/surrealdb-rn-core/src/sync_bootstrap_store.rs:995-1009 | what an open stage reserved covers the marker that replaces it, which is why cancel needs no check |
| BootstrapBudget.FinalCoversClosedMarker | crates/surrealdb-rn-core/src/sync_bootstrap_store.rs:900-949 | the final budget implies the marker budget of the installed journal |
| BootstrapBudget.PagesAreCounted | crates/surrealdb-rn-core/src/sync_bootstrap_store.rs:939-942 | counting page by page gives the number of pages |
| BootstrapStore.Inspect | crates/surrealdb-rn-core/src/sync_bootstrap_store.rs:1233-1338 | inspection loop and structural tests compute exactly the inspection the state machine uses |
| BootstrapStore.PageScalars | crates/surrealdb-rn-core/src/sync_bootstrap_store.rs:1243-1265 | the scalar preflight accepts exactly rows within their caps and totals them |
| BootstrapStore.Store.Begin | crates/surrealdb-rn-core/src/sync_bootstrap_store.rs:283-403 | begin takes exactly the step of the state machine, with its error, and returns the incarnation of the stage now in place |
| BootstrapStore.Store.StagePage | crates/surrealdb-rn-core/src/sync_bootstrap_store.rs:405-461 | a page takes exactly the step of the state machine; an exhausted fence rolls the page back |
| BootstrapStore.Store.Complete | crates/surrealdb-rn-core/src/sync_bootstrap_store.rs:466-622 | a completion takes exactly the step, whose installation is that of the whole download (`BootstrapAnswers.InstallAnswer`); a deadline passed after the rows were written rolls all of them back |
| BootstrapStore.Store.Install | crates/surrealdb-rn-core/src/sync_bootstrap_store.rs:542-622 | writes journal, marker, page deletions and two fence rotations together or nothing |
| BootstrapStore.Store.PrepareInstall | crates/surrealdb-rn-core/src/sync_bootstrap_store.rs:542-596 | up to the guarded write, the state to install or exactly the error of the decision |
| BootstrapStore.Store.Cancel | crates/surrealdb-rn-core/src/sync_bootstrap_store.rs:685-730 | a cancel takes exactly the step, bound to manifest bytes, context and incarnation |
| BootstrapStore.Store.GuardStateWrite | crates/surrealdb-rn-core/src/sync_bootstrap_store.rs:1025-1051 | refuses exactly what the guard decision refuses and otherwise returns the next fence, if there is one |
| BootstrapStore.Store.WriteJournal | crates/surrealdb-rn-core/src/sync_state.rs:480-525 | an ordinary journal write takes exactly the step, with the refusals for another identity, an invalid state, erased subscriptions and a moved journal, storing the rotated fence in the same transaction |
| BootstrapStore.Store.WriteBarrier | crates/surrealdb-rn-core/src/sync_bootstrap_store.rs:1052-1076 | a barrier write takes exactly the step; what it stores is `BootstrapAnswers.BarrierAnswer` |
| BootstrapStore.Store.ResumeStage | crates/surrealdb-rn-core/src/sync_bootstrap_store.rs:176-279 | a returning session gets exactly the inspection-only answer |
| BootstrapHistory.InspectionSucceeds | crates/surrealdb-rn-core/src/sync_bootstrap_store.rs:1233-1338 | on every state satisfying the invariant, inspection finds the stage: neither corrupt nor too large |
| BootstrapHistory.StepKeeps | crates/surrealdb-rn-core/src/sync_bootstrap_store.rs:1267-1327 | every operation keeps the invariant: header iff fence, closed iff inactive, incarnation at most the counter, receipt iff revision, consumed implies closed with a revision the journal reached, closed implies no pages, budgets hold |
| BootstrapHistory.ReachableIsSound | crates/surrealdb-rn-core/src/sync_bootstrap_store.rs:1267-1327 | no history from a fresh journal makes inspection report corruption |
| BootstrapHistory.BudgetsHoldEverywhere | crates/surrealdb-rn-core/src/sync_bootstrap_store.rs:817-949 | every reachable open stage is within the combined reservation and every closed one within the marker budget |
| BootstrapHistory.FenceNamesRecord | crates/surrealdb-rn-core/src/sync_bootstrap_store.rs:1010-1051 | two moments of a history with the same fence are the same record |
| BootstrapHistory.IncarnationsRise | crates/surrealdb-rn-core/src/sync_bootstrap_store.rs:376-402 | each stage-creating begin gets an incarnation above all earlier ones |
| BootstrapHistory.AppliedAtMostOnce | crates/surrealdb-rn-core/src/sync_bootstrap_store.rs:511-622 | two installations in one history are of different, rising incarnations |
| BootstrapHistory.RetryIsHistorical | crates/surrealdb-rn-core/src/sync_bootstrap_store.rs:516-534 | after an installation, its exact receipt is a success without change for as long as its stage is the newest, and any other answer is an error |
| BootstrapHistory.ClosedNeverInstalls | crates/surrealdb-rn-core/src/sync_bootstrap_store.rs:535-537 | a stage once closed is never installed later in the history |
| BootstrapHistory.StaleHandleIsRefused | crates/surrealdb-rn-core/src/sync_bootstrap_store.rs:428-433 | once a successor exists, page, complete and cancel with an older incarnation fail for ever, whatever bytes they carry |
| BootstrapHistory.AuthorizationFloor | crates/surrealdb-rn-core/src/sync_bootstrap_store.rs:337-375 | owner never changes, authorization never falls, and a context changes only where a closed stage is replaced |
| BootstrapHistory.CreatedAboveCheckpoint | crates/surrealdb-rn-core/src/sync_bootstrap_store.rs:342-346 | no stage is created below the authorization of the journal's checkpoint |
| BootstrapHistory.ResumeFindsNewestStage | crates/surrealdb-rn-core/src/sync_bootstrap_store.rs:176-279 | naming a stage finds it, with its exact page set and as staging, consumed or cancelled, if and only if it is the newest; otherwise a conflict |
| BootstrapHistory.ResumeAdmitsNewerAuthorization | crates/surrealdb-rn-core/src/sync_bootstrap_store.rs:240-248 | without a manifest, inspection is admitted exactly for the same owner at no lower authorization once the stage is closed, and for the exact context while it is open |
| BootstrapHistory.ResumeFindsNothing | crates/surrealdb-rn-core/src/sync_bootstrap_store.rs:223-239 | before the first begin there is no stage for a journal of any size, except that with defined tables the 16,384-component journal is refused on size |
| BootstrapAnswers.InstallAnswer | crates/surrealdb-rn-core/src/sync_bootstrap_store.rs:511-622 | a completion installs `next` if and only if the stage is open, named, unbarred and timely, its receipt closes this download, all stored pages verify, installing all of them gives `next`, `next` is valid, and every budget is met |
| BootstrapAnswers.AppliedInstallsDownload | crates/surrealdb-rn-core/src/sync_bootstrap_store.rs:542-581 | in every run the journal after an installation is what installing all staged pages, verified against the manifest, over the journal before it gives |
| BootstrapAnswers.DownloadExists | crates/surrealdb-rn-core/src/sync_bootstrap_store.rs:542-559 | on every record of the protocol all stored pages decode, so the two results above always have their download |
| BootstrapAnswers.InstallStores | crates/surrealdb-rn-core/src/sync_bootstrap_store.rs:582-622 | an installation stores the new journal, the consumed marker with receipt and revision, no pages and the fence two further |
| BootstrapAnswers.HistoricalAnswer | crates/surrealdb-rn-core/src/sync_bootstrap_store.rs:516-534 | a completion is historical if and only if exactly this receipt was installed for this stage and context |
| BootstrapAnswers.CancelAnswer | crates/surrealdb-rn-core/src/sync_bootstrap_store.rs:685-730 | a cancel closes the stage if and only if incarnation, manifest bytes and context are its own it was not installed and a fence counter is left; without a stage, or after installation, it succeeds without change |
| BootstrapAnswers.CancelStores | crates/surrealdb-rn-core/src/sync_bootstrap_store.rs:710-730 | a cancelled stage is closed without receipt and its pages are gone; journal and barrier stay |
| BootstrapAnswers.CreateAnswer | crates/surrealdb-rn-core/src/sync_bootstrap_store.rs:283-402 | a begin creates a stage if and only if the request is sound, there is no stage or a closed one of the same owner at no higher authorization, and there is room |
| BootstrapAnswers.CreateStores | crates/surrealdb-rn-core/src/sync_bootstrap_store.rs:376-402 | a new stage is empty and open, and its incarnation is the next counter, which is also its fence |
| BootstrapAnswers.BeginRetryAnswer | crates/surrealdb-rn-core/src/sync_bootstrap_store.rs:347-375 | a begin succeeds without change if and only if it repeats the open stage byte for byte |
| BootstrapAnswers.PageAnswer | crates/surrealdb-rn-core/src/sync_bootstrap_store.rs:405-458 | a page is added if and only if it belongs to this open, unbarred stage, is new and fits, and is a success without change if and only if it is stored already |
| BootstrapAnswers.PageStores | crates/surrealdb-rn-core/src/sync_bootstrap_store.rs:449-458 | an added page is the only row that changes besides the rotated fence |
| BootstrapAnswers.JournalAnswer | crates/surrealdb-rn-core/src/sync_state.rs:480-525 | an ordinary write goes through if and only if it is the next valid revision of the stored journal, keeps subscriptions, fits by itself and beside the stage |
| BootstrapAnswers.JournalStores | crates/surrealdb-rn-core/src/sync_state.rs:480-525 | an ordinary write stores the new journal and the rotated fence and nothing else |
| BootstrapAnswers.BarrierAnswer | crates/surrealdb-rn-core/src/sync_state.rs:391-413 | a barrier write is refused only for want of fence counters; it stores the required scope and revisions it names, as a quarantine if it is one or one was stored |
| BootstrapAnswers.QuarantineSurvives | crates/surrealdb-rn-core/src/sync_state.rs:391-413 | in every run a barrier once raised is never removed and a quarantine never lifted |
| BootstrapAnswers.InspectionAnswer | crates/surrealdb-rn-core/src/sync_bootstrap_store.rs:1233-1338 | inspection of any rows is too large, corrupt, without a stage or that stage, each exactly when the row sizes and the stored fields say so |
| BootstrapAnswers.WeightsMeaning | crates/surrealdb-rn-core/src/sync_bootstrap_store.rs:839-880 | what each budget charges for one page, with the numbers |
| BootstrapAnswers.ReservationSuffices | crates/surrealdb-rn-core/src/sync_bootstrap_store.rs:817-949 | what an open stage reserves is enough: an installed journal that grew by no more than was reserved for its pages passes the final budget, if the receipt is no longer than a page key |
| BootstrapAnswers.NoRecordTwice | crates/surrealdb-rn-core/src/sync_bootstrap_store.rs:848-858 | record ids rise through the pages in index order, so no record is staged twice |
| BootstrapPages.ArrivalOrderDoesNotMatter | crates/surrealdb-rn-core/src/sync_bootstrap_store.rs:434-458 | any covering order with any repeats is accepted throughout if and only if the whole download is admissible and the fence has room for its new pages, and ends in the same stage with the fence advanced once per new page |
| BootstrapExample.InstallationIsReachable | crates/surrealdb-rn-core/src/sync_bootstrap_store.rs:283-622 | the laws are not vacuous: begin, one page and a completion take any fresh journal of the context to its installed successor |
| BootstrapSerial.EveryHistoryIsSerial | crates/surrealdb-rn-core/src/sync_bootstrap_store.rs:1010-1141 | every history of overlapping transactions equals running its writers one at a time in commit order, each operation answered as at its place |
| BootstrapSerial.CommitIsSerial | crates/surrealdb-rn-core/src/sync_bootstrap_store.rs:303-402 | a writer that survived to commit decides and writes the same on the current rows as on its snapshot |
| BootstrapSerial.OthersDoNotDisturb | crates/surrealdb-rn-core/src/sync_bootstrap_store.rs:1025-1076 | a commit sharing no row with a pending writer leaves everything that writer depends on |
| BootstrapSerial.WriteSetMeaning | crates/surrealdb-rn-core/src/sync_bootstrap_store.rs:1010-1141 | a write set is exactly the rows that change, and beyond them the header a repeated cancel rewrites, a rewritten barrier and the intent of a first begin |
| BootstrapSerial.ConcurrentIsSound | crates/surrealdb-rn-core/src/sync_bootstrap_store.rs:1233-1338 | the invariant and clean inspection hold in every state of every concurrent history |
| BootstrapSerial.BarrierIntentIsNeeded | crates/surrealdb-rn-core/src/sync_bootstrap_store.rs:1077-1121 | without the create-then-delete of the barrier row, a first begin and a barrier write would both commit with a result of neither order |
| ReadProtocol.Snapshot | crates/surrealdb-sync-client/src/read.rs:203-260 | the four collecting loops build the snapshot specified row by row, whose rows `ReadMeaning` describes by positions |
| ReadProtocol.RowInSnapshot | crates/surrealdb-sync-client/src/read.rs:203-277 | the row a reader sees for any record, present or not, is the one its own confirmed, optimistic, pending and outcome data determine |
| ReadMeaning.OptimisticMeaning | crates/surrealdb-sync-client/src/lib.rs:995-1083 | a row shows what the last pending operation on it leaves; with none pending, the last accepted and unpulled one; with none of those, the confirmed record |
| ReadMeaning.LastPendingExists | crates/surrealdb-sync-client/src/lib.rs:1018-1022 | a record touched by a pending operation has a last one, so the first case applies |
| ReadMeaning.LastUnpulledExists | crates/surrealdb-sync-client/src/lib.rs:1004-1017 | a record touched by an accepted and unpulled operation has a last one, so the second case applies |
| ReadMeaning.PendingMeaning | crates/surrealdb-sync-client/src/read.rs:203-260 | the pending list has one entry per pending operation on the record, in queue order |
| ReadMeaning.SettledMeaning | crates/surrealdb-sync-client/src/read.rs:203-260 | a settled commit is listed on exactly the records it touched, accepted ones with sequence and coverage, conflicts with their resolution |
| ReadMeaning.ConfirmedMeaning | crates/surrealdb-sync-client/src/read.rs:187-260 | the confirmed part, and a missing record is absent within the authorized scope exactly under reset coverage |
| ReadMeaning.MetadataMeaning | crates/surrealdb-sync-client/src/read.rs:158-186 | a snapshot is authorized as of a cursor exactly under reset coverage, and names the checkpoint if there is one |
| ReadProtocol.ComputeCommittedBatch | crates/surrealdb-sync-client/src/read.rs:313-344 | the diff loop computes the committed batch, or nothing when the revision did not move |
| ReadProtocol.BatchReplays | crates/surrealdb-sync-client/src/read.rs:313-344 | applying a committed batch to the old snapshot gives exactly the new snapshot |
| ReadProtocol.BatchIsMinimal | crates/surrealdb-sync-client/src/read.rs:313-344 | a batch names each changed record once, in ascending order, and no unchanged one |
| ReadProtocol.Prepare | crates/surrealdb-sync-client/src/lib.rs:644-660 | a prepared transition is the same state or has the next revision, with exactly two errors: a change at the last revision, and an invalid state |
| ReadReplay.RecordKeeps | crates/surrealdb-rn-core/src/sync_read.rs:103-135 | recording keeps the bounds, the byte count and the unbroken chain to the current revision |
| ReadReplay.RememberKeeps | crates/surrealdb-rn-core/src/sync_read.rs:87-96 | remembered view cursors stay within 64 entries and 256 KiB |
| ReadReplay.RecordRetains | crates/surrealdb-rn-core/src/sync_read.rs:103-135 | what is left after recording: the longest suffix that leaves room, then the new batch; nothing after an oversize one |
| ReadReplay.RememberRetains | crates/surrealdb-rn-core/src/sync_read.rs:87-96 | what is left after remembering: the longest suffix that leaves room, then the new cursor |
| ReadReplay.RotateClears | crates/surrealdb-rn-core/src/sync_read.rs:67-73 | rotation fails exactly at the last generation and otherwise leaves an empty journal of the next |
| ReadReplay.ChangesAnswer | crates/surrealdb-rn-core/src/sync_read.rs:136-187 | a poll is an error exactly for a bad limit or cursor, a reset exactly for another epoch, a future revision or one no batch starts at, and otherwise the page that starts there |
| ReadReplay.EpochTextInjective | crates/surrealdb-rn-core/src/sync_read.rs:50-53 | different generations of one journal have different epoch texts |
| ReadReplay.ReadJournal.Rotate | crates/surrealdb-rn-core/src/sync_read.rs:67-73 | rotation clears everything under a new generation, or fails and changes nothing |
| ReadReplay.ReadJournal.Record | crates/surrealdb-rn-core/src/sync_read.rs:103-135 | the eviction loop terminates and drops the fewest batches that make room; an oversize batch empties the journal |
| ReadReplay.ReadJournal.RememberViewCursor | crates/surrealdb-rn-core/src/sync_read.rs:87-96 | the eviction loop terminates and drops the fewest cursors that make room |
| ReadReplay.ReadJournal.Changes | crates/surrealdb-rn-core/src/sync_read.rs:136-187 | the answer is a reset or exactly the next page of the chain; the internal gap error is unreachable |
| ReplayRuns.ReplayRefinesSnapshot | crates/surrealdb-rn-core/src/sync_read.rs:97-187 | in every run a reader that bootstraps and applies what it is answered holds exactly the snapshot its cursor names |
| ReplayRuns.QuiescentReaderCatchesUp | crates/surrealdb-rn-core/src/sync_read.rs:136-187 | without new writes, 128 polls of any page sizes bring any reader to the current snapshot |
| ReplayRuns.JournalAlwaysBounded | crates/surrealdb-rn-core/src/sync_read.rs:103-135 | every reachable journal respects its bounds and chains to the current revision |
| ReplayRuns.NoEpochReuse | crates/surrealdb-rn-core/src/sync_read.rs:155-166 | after a loss or a published bootstrap anywhere in a run, every cursor issued up to then is answered by a reset or an error for ever, even at an equal revision |
| ReplayRuns.ExhaustedNeverRevives | crates/surrealdb-rn-core/src/sync_client.rs:415-425 | a cell that lost its runtime with its epoch counter exhausted never gets one again |
| ReplayRuns.EpochChangesIffBroken | crates/surrealdb-rn-core/src/sync_client.rs:415-425 | between two moments that show a runtime the epoch has changed if and only if the runtime was lost or a bootstrap published somewhere between them |
| RuntimeCoherence.FreeSlotIsCoherent | crates/surrealdb-rn-core/src/sync_client.rs:935-1006 | within a session, unpoisoned, a free or clean slot's runtime equals the durable journal, whatever storage did and wherever workers died |
| RuntimeCoherence.PoisonIsForever | crates/surrealdb-rn-core/src/sync_client.rs:202-217 | from the poison on no client joins, no inspection reports, no open returns, and no operation passes its gate, reads, installs, publishes or arms a call, except the initial save of an open cleared before in the same hold |
| RuntimeCoherence.FillUnderPoison | crates/surrealdb-rn-core/src/sync_client.rs:385-426 | an empty slot can still be filled under poison if and only if an open is at a point that fills, was cleared before the poison, has not let go and settled no initial save since |
| RuntimeCoherence.DisarmUnderPoison | crates/surrealdb-rn-core/src/sync_client.rs:1104-1127 | a hold can still disarm under poison if and only if it has a committed barrier write, and that write was armed in the same hold before the poison |
| RuntimeCoherence.BarrierWriteStillDisarms | crates/surrealdb-rn-core/src/sync_client.rs:1104-1127 | a run in which a barrier write caught by the poison disarms and keeps its runtime |
| RuntimeCoherence.LateHoldIsInert | crates/surrealdb-rn-core/src/sync_client.rs:446-459 | a hold taken after the poison stays at the gate until its release and leaves runtime, journal and reader as it found them |
| RuntimeCoherence.EarlyOpenStillFills | crates/surrealdb-rn-core/src/sync_client.rs:334-356 | a run in which attaching an existing journal leaves its slot filled although the poison came before, while the open itself fails at the gate that follows |
| RuntimeCoherence.HoldIsNeverSilent | crates/surrealdb-rn-core/src/sync_client.rs:935-1006 | over a whole hold, wherever the worker died: the database is poisoned or every armed call was settled for certain; a call not carried to its end costs the runtime; what runtime is left is the durable journal |
| RuntimeCoherence.RunKeeps | crates/surrealdb-rn-core/src/sync_client.rs:935-1006 | the coherence invariant holds in every reachable state, and poison and session loss never revert |
| RuntimeReaders.SlotIsReplayWorld | crates/surrealdb-rn-core/src/sync_client.rs:1518-1603 | over every run, slots created anew included, the cell and the reader of the present slot are those of a replay history; a reader from an earlier slot is not yet part of it |
| RuntimeReaders.SlotReaderHoldsSnapshot | crates/surrealdb-rn-core/src/sync_client.rs:734-752 | over every run, slots created anew included, a reader holds what was shown at some moment under its cursor, and whenever that cursor was shown it stood for exactly that |
| RuntimeReaders.ForeignPollResets | crates/surrealdb-rn-core/src/sync_read.rs:159-166 | a cursor of an earlier slot never yields batches: the poll is refused or answered with the whole current snapshot |
| RuntimeReaders.SlotReaderReachesStorage | crates/surrealdb-rn-core/src/sync_client.rs:740-752 | on a free slot of a live database 128 polls bring any reader, of this slot or an earlier one, to the snapshot of the durable journal |
| RuntimeSlot.SyncClient.PersistAndInstall | crates/surrealdb-rn-core/src/sync_client.rs:1518-1603 | succeeds, with the transition installed and durable, if and only if the gate is open, a runtime is there, the state can be encoded, the write committed undisturbed and the runtime took it; leaves everything untouched only for a closed gate, no runtime, an unencodable state or a rolled-back write; otherwise the runtime is gone |
| RuntimeSlot.SyncClient.CompleteBootstrap | crates/surrealdb-rn-core/src/sync_client.rs:1385-1516 | exactly when an applied completion is shown (read back equal, unbarred, both epochs rotate) and when a historical one is (the runtime already is the durable state); untouched only for a closed gate, no runtime or a rollback |
| RuntimeSlot.SyncClient.FinishCompletion | crates/surrealdb-rn-core/src/sync_client.rs:1467-1516 | after a committed completion, exactly when it is shown as applied or as historical; otherwise the runtime is gone |
| RuntimeSlot.SyncClient.FinishStagingCall | crates/surrealdb-rn-core/src/sync_client.rs:899-932 | a staging write keeps the runtime exactly when its outcome is certain, the session holds and the database is not poisoned |
| RuntimeSlot.SyncClient.SaveScopeBarrier | crates/surrealdb-rn-core/src/sync_client.rs:1104-1127 | a committed barrier write keeps the runtime whatever became of session and poison meanwhile; any other outcome takes it away unrotated |
| RuntimeSlot.SyncClient.RefreshScopeBarrier | crates/surrealdb-rn-core/src/sync_client.rs:460-479 | behind the gate, the runtime survives exactly a barrier read that succeeds |
| RuntimeSlot.SyncClient.FillAndReturn | crates/surrealdb-rn-core/src/sync_client.rs:414-441 | an open returns exactly when the gate holds and a runtime is there, and then the runtime is the durable journal |
| RuntimeSlot.ReachedIsReachable | crates/surrealdb-rn-core/src/sync_client.rs:935-1006 | whatever a client method reaches from a moment of a run is a moment of a longer run, so all results about runs hold of the methods |
| RuntimeSlot.SyncClient.Initialize | crates/surrealdb-rn-core/src/sync_client.rs:317-443 | exactly when an open succeeds, and then the slot shows the durable journal, found or newly created; a failure that left a runtime has it dropped at release |
| RuntimeSlot.SyncClient.AttachExisting | crates/surrealdb-rn-core/src/sync_client.rs:334-356 | attaching never writes, and exactly when it succeeds, on a runtime equal to the durable journal |
| RuntimeSlot.SyncClient.Drop | crates/surrealdb-rn-core/src/sync_client.rs:994-1006 | the guard's drop is the release step, in every phase |
| SessionFence.OneClientOneSession | crates/surrealdb-rn-core/src/lib.rs:236-266 | all admitted operations of one client run under one session, in every interleaving with session changes |
| SessionFence.OldClientNeverRevived | crates/surrealdb-rn-core/src/sync_client.rs:446-459 | once its generation has passed, a client is never admitted again, even if the session returns |
| SessionFence.NewClientIsServed | crates/surrealdb-rn-core/src/sync_client.rs:446-459 | on an open database with no change under way a new client is admitted, under the current session |
| SessionFence.TouchedOnlyWhenFenced | crates/surrealdb-rn-core/src/lib.rs:531-542 | when the session is touched, no operation is running and no initialized client can be admitted again |
| SessionFence.ExhaustionClosesFirst | crates/surrealdb-rn-core/src/lib.rs:236-248 | from an exhausted reservation on the database is closed and nobody is admitted, and the session can be touched if and only if a change was already armed and has not finished |
| SessionFence.WindowClientNeedsSecondReservation | crates/surrealdb-rn-core/src/lib.rs:249-266 | a client opened between the two reservations would survive the change; only the second shuts it out |
| SessionFence.Lifecycle.ReserveSessionChange | crates/surrealdb-rn-core/src/lib.rs:236-248 | a reservation raises the generation by one or closes the database, and never touches the session |
| SessionFence.Lifecycle.ChangeSession | crates/surrealdb-rn-core/src/lib.rs:531-542 | after a change no existing client is admissible; a failed one left the session alone |
| BindingTickets.TicketsNameContexts | crates/surrealdb-rn-core/src/sync_client.rs:868-882 | in every run a ticket names one context, and a later ticket the same owner at a strictly larger authorization |
| BindingTickets.SupersededTicketStaysStale | crates/surrealdb-rn-core/src/sync_client.rs:1336-1366 | a superseded ticket is never accepted again, through every loss and recovery of the runtime |
| BindingTickets.BindingSlot.Access | crates/surrealdb-rn-core/src/sync_client.rs:1336-1366 | access is granted exactly to the journal's own context, at no lower authorization, with the current ticket if one is presented |
| BindingTickets.BindingSlot.Bind | crates/surrealdb-rn-core/src/sync_client.rs:868-882 | a new context takes the next ticket, the bound one keeps its own, exhaustion changes nothing |
| TransactionRegistry.NothingOpenAfterClose | crates/surrealdb-rn-core/src/lib.rs:684-728 | once a close has finished without a failing cancel, every live handle that was or will be returned is closed |
| TransactionRegistry.SurvivorsOfFailedCancel | crates/surrealdb-rn-core/src/lib.rs:706-724 | exactly what a failed cancel leaves open at every later moment: what that close had collected and not cancelled, other than the failing one, open then and not ended or dropped since |
| TransactionRegistry.FailedCancelLeavesOthersOpen | crates/surrealdb-rn-core/src/lib.rs:684-728 | a run in which such a handle is open after a later close has finished |
| TransactionRegistry.Database.Register | crates/surrealdb-rn-core/src/lib.rs:504-529 | a handle is returned and registered, or closed, according to the flag read under the registry lock |
| TransactionRegistry.Database.Close | crates/surrealdb-rn-core/src/lib.rs:684-728 | the cancelling loop leaves no open handle and forgets none |
| PendingQueue.ArrayReads | crates/surrealdb-rn-core/src/sync_queue.rs:42-50 | the charged JSON text, escaped as in section 7 of RFC 8259, reads back to the same strings |
| PendingQueue.EscapeIsShortest | crates/surrealdb-rn-core/src/sync_queue.rs:74-78 | no text that reads as a byte is shorter than its escape, so every charged length is the least possible |
| PendingQueue.EscapeTexts | crates/surrealdb-rn-core/src/sync_queue.rs:74-78 | the escape of every byte: two bytes for the seven short ones, six for other controls, one otherwise |
| PendingQueue.QuotedLength | crates/surrealdb-rn-core/src/sync_queue.rs:104-106 | a commit is charged its length, two quotes and what its escapes add |
| PendingQueue.OrdinaryCommitCharge | crates/surrealdb-rn-core/src/sync_queue.rs:104-106 | the charge of an ordinary commit, `{"a":1}` |
| PendingQueue.BoundedJson | crates/surrealdb-rn-core/src/sync_queue.rs:26-50 | however the serializer splits its writes, it succeeds exactly when the whole text fits |
| PendingQueue.Window | crates/surrealdb-rn-core/src/sync_queue.rs:52-84 | the window is the longest FIFO prefix within both limits, its byte count exact, the too-large flag true exactly when a first commit exists and does not fit alone; limits are 1 to 64 commits and 2 bytes to 4 MiB |
| PendingQueue.Admits | crates/surrealdb-rn-core/src/sync_queue.rs:87-110 | a candidate is admitted exactly when the whole queue with it is within both limits, which must be 1 to 64 commits and 2 bytes to 4 MiB |
| PendingQueue.AdmissionAgreesWithWindow | crates/surrealdb-rn-core/src/sync_queue.rs:52-110 | the two loops agree: admitted exactly when the window would show the whole queue with the candidate |
| Base64.DecodeEncode | crates/surrealdb-rn-core/src/sync_http_codec.rs:202 | decoding encoded bytes gives the bytes, section 4 of RFC 4648 |
| Base64.EncodeDecode | crates/surrealdb-rn-core/src/wire.rs:282-286 | decoding accepts only what encoding produces |
| Base64.SymbolCodes | crates/surrealdb-rn-core/src/sync_http_codec.rs:202 | the standard alphabet by character code |
| Base64.GroupIsBigEndian | crates/surrealdb-rn-core/src/sync_http_codec.rs:202 | three bytes and their four symbols are the same 24-bit number |
| Base64.EncodedLength | crates/surrealdb-rn-core/src/sync_http_codec.rs:202 | four symbols per started group of three bytes |
| Base64.EncodedPadding | crates/surrealdb-rn-core/src/sync_http_codec.rs:202 | one or two padding signs complete a short group |
| ValueCodec.ThereAndBack | crates/surrealdb-rn-core/src/sync_http_codec.rs:233-280 | canonical to engine succeeds exactly on well-keyed values and is undone by engine to canonical, nested record keys included |
| ValueCodec.SupportedTranslates | crates/surrealdb-rn-core/src/sync_codec.rs:141-189 | engine to canonical succeeds exactly on finite floats and supported kinds at every depth |
| ValueCodec.FromSurrealMeaning | crates/surrealdb-rn-core/src/sync_codec.rs:141-189 | an engine value translates to a canonical one if and only if that denotes it, kind by kind and at every depth |
| ValueCodec.ToSurrealMeaning | crates/surrealdb-rn-core/src/sync_http_codec.rs:233-280 | the engine value of a canonical one is denoted by it and holds no negative zero |
| ValueCodec.BackAndThere | crates/surrealdb-rn-core/src/sync_codec.rs:141-189 | engine to canonical and back always succeeds, and is the identity if and only if no negative zero is inside |
| ValueCodec.NegativeZeroIsLost | crates/surrealdb-sync-protocol/src/canonical.rs:30-42 | the concrete value the round trip changes |
| WireCodec.WrittenDecodes | crates/surrealdb-rn-core/src/sync_http_codec.rs:192-231 | what is written decodes to the same value exactly when its nesting is within the decoder's limit |
| WireCodec.WrittenForm | crates/surrealdb-rn-core/src/sync_http_codec.rs:192-231 | the JSON of every value by its fields: an integer is exactly a tag and its canonical decimal as text, none, bytes and records likewise |
| WireCodec.NothingBareIsWritten | crates/surrealdb-rn-core/src/sync_http_codec.rs:197 | no bare integer occurs at any depth of anything written |
| WireCodec.TaggedTextDecodes | crates/surrealdb-rn-core/src/wire.rs:254-310 | what the decoder makes of each tag that carries a text |
| WireCodec.ToJsonInjective | crates/surrealdb-rn-core/src/sync_http_codec.rs:192-231 | two values never share a JSON form, whatever the record printer does |
| WireCodec.WritableWrites | crates/surrealdb-rn-core/src/sync_http_codec.rs:207-230 | for every record printer, a value can be written if and only if no object outside a record key holds the tag key, every record key is one the engine has, and each record's own text parses back to it |
| WireCodec.FaithfulTextReturns | crates/surrealdb-rn-core/src/sync_http_codec.rs:217-230 | where the text returns the key it printed, no well-formed record is refused |

## Left out

- The SurrealDB engine, SurrealQL text, schema definitions and `INFO` queries: a transaction is an update of rows with a write set.
- The identity-length test on keys (`validate_key`), the `format_version` and stray-field tests of stored rows, and legacy (version 1) journals and their migration.
- Overflow of `usize` while adding sizes: sums are unbounded, so the checked additions that would overflow are size refusals here only through the limits.
- BootstrapBudget.CheckBudget: a stored page whose records have no native form is reported as corruption, where the source passes on the reservation's own error; no reachable stage has such a page, because pages are checked before they are stored.
- BootstrapStore.Store.Complete: when only a later clock reading is past the deadline and something else fails too, which of the two errors is reported is not stated.
- Hash and root verification, manifest digests and the snapshot install inside completion: uninterpreted functions.
- `sync_state`'s row encoding, subscriptions, views and the protocol crate's CBOR codecs.
- The cached scope barrier of a runtime slot; only the journal's coherence with its cache is stated.
- Coherence between the two reservations of one session change: a client opened in that window has its own slot, and the session-fencing results cover it.
- A close guarantee for live queries: the source registers them without rechecking the flag.
- `validate_coverage` and `scope_transition_decision`: short case tables that would add only easy members.
- The 16 MiB bridge output limit: an answer too large to deliver is an undelivered poll.
- Idempotent re-enqueue of an already queued commit before admission, conflict resolution and push or pull processing.
- UTF-8 validity of serialized commits: texts are byte sequences, and the conversion error is not modelled.
- Real clocks, diagnostics counters, endpoint validation, sign-in, UniFFI glue and all application code.
