# Verification of the ceremony client, journal and delivery tooling

This project models the parts of the repository in which much depends on state, order and failure, and
proves what their callers rely on:

- the client that assembles ceremony hierarchies, follows progress streams and exports artifacts
  (`CeremonyLineage`, `CeremonyTree`, `CeremonyFetch`, `Progress`, `AgentProgress`, `ArtifactExport`);
- the console that prints progress and keeps a cursor file, and the soak worker that publishes an
  effect and a result, both under crashes and power losses (`Storage`, `Console`, `Worker`);
- the journal behind the progress stream: canonical bytes, hash chain, event store and the server that
  streams it (`Framing`, `Journal`, `EventStore`, `ProgressServer`), and server and console together
  (`Following`);
- the budget ledger (`BudgetLedger`);
- the delivery scripts: the quality-gate planner and the coverage floors (`DependencyClosure`,
  `Planner`, `TextLines`, `NameStatus`, `Coverage`), scenario selection (`Scenarios`) and the council data snapshot
  (`CouncilSnapshot`).

`Base` and `Ordering` hold what they share. Loops of the source are methods with invariants, objects that
change in place are classes, protocols are state machines whose steps include the failures; the
properties are lemmas about the functions those methods compute. Automatic induction is switched off
throughout, so that inductive proofs are written out.

The disk is modelled as the listings of a directory since its last sync: a rename is visible at once, and
a power loss may bring back any of those listings, with the contents of unsynced files replaced by
anything. `u64` numbers saturate where the source saturates and fail where it checks.

Where the code does not do what one would expect, the model follows the code and says exactly when:

- at the largest `u64` a read can move the cursor back or leave it behind a delivered record
  (`Progress.ContiguousIff`, `Console.CoveredIffBelowTheEnd`);
- the agent read neither skips repeated records nor compares the ceremony of a record, and so differs from
  the plain read exactly on streams with such records (`AgentProgress.AgreeIffOwnRecords`);
- an empty list of paths plans everything, so it is the one change that asks for more alone than together
  with others (`Planner.HomomorphismIff`);
- saving a cursor does not sync the directory, so a power loss can bring back an earlier cursor or none;
  nothing is skipped, but records may be printed again (`Console.PowerLossAdvancesIff`,
  `Console.PowerLossMovesCursorBack`);
- the soak worker syncs the effects directory but, until its last step, not the directory that lists it, so a
  power loss in between can remove a completed effect (`Worker.DurableEffectCanBeLost`,
  `Worker.OutlastsIffSettled`);
- a failed export leaves the verified file at a new destination exactly when only the removal of the
  temporary name fails (`ArtifactExport.ExportArtifact`, `ArtifactExport.FailedExportCanInstall`);
- without valid keys the snapshot sort is stable and not canonical (`CouncilSnapshot.CanonicalAgreesIff`);
- reservations alone do not keep a budget ceiling (`BudgetLedger.HistoryStaysWithinCeilingIff`,
  `BudgetLedger.LateObservationOverruns`).

## Model

| member | source | states |
|---|---|---|
| `CeremonyTree.FromInstances` | crates/made-client/src/ceremony_tree.rs:14-79 | succeeds if and only if no id is empty or repeated and no ceremony is its own ancestor; the result is the sorted forest of the parent relation and lists every instance exactly once; an error names the first bad id, or says that a cycle was cut off from every root; on every clean listing, cyclic ones included, the recursion is called once for each ceremony reachable from a root and for no other |
| `CeremonyTree.BuildNode` | crates/made-client/src/ceremony_tree.rs:87-111 | a result is the subtree below the id, restores `visiting`, adds exactly its ids to `built`, and took one call per node, in depth-first order; started at a rooted id with its ancestors in `visiting`, the in-recursion cycle error never happens |
| `CeremonyTree.GroupChildren` | crates/made-client/src/ceremony_tree.rs:30-54 | every ceremony is listed once, under its parent only, siblings by position and then id |
| `CeremonyTree.SelectRoots` | crates/made-client/src/ceremony_tree.rs:56-66 | exactly the ceremonies without a listed parent, once each, in id order |
| `CeremonyTree.IndexListing` | crates/made-client/src/ceremony_tree.rs:17-29 | the index by id, or the first entry that is empty or repeated |
| `CeremonyTree.BuildForest` | crates/made-client/src/ceremony_tree.rs:68-78 | one tree per root; the number of built ids tells whether there is a cycle; one call for each rooted id |
| `CeremonyTree.CallsAreTheRooted` | crates/made-client/src/ceremony_tree.rs:68-73 | a forest read depth first names each id whose ancestry ends at a root once and no other |
| `CeremonyTree.CountDecides` | crates/made-client/src/ceremony_tree.rs:74-78 | comparing the number of built ids with the listing detects a cycle if and only if there is one |
| `CeremonyTree.ForestIdsAreTheRooted` | crates/made-client/src/ceremony_tree.rs:68-78 | what the recursion from the roots reaches is exactly the set of ceremonies whose ancestry ends |
| `CeremonyTree.ForestConservesInstances` | crates/made-client/src/ceremony_tree.rs:68-79 | read depth first, the forest is a permutation of the listing: nothing lost, nothing twice |
| `CeremonyTree.TreeIsUnique` | crates/made-client/src/ceremony_tree.rs:40-54 | a listing and a root id leave only one tree |
| `CeremonyTree.ForestIsUnique` | crates/made-client/src/ceremony_tree.rs:40-66 | a listing leaves only one forest |
| `CeremonyTree.PermutationBuildsSameForest` | crates/made-client/src/ceremony_tree.rs:14-79 | the order of the listing does not matter: any permutation is accepted alike and gives the identical forest |
| `CeremonyTree.PermutedListing` | crates/made-client/src/ceremony_tree.rs:17-29 | a permuted clean listing is clean and indexes to the same map |
| `CeremonyLineage.AcyclicIffRooted` | crates/made-client/src/ceremony_tree.rs:56-78 | no ceremony is its own ancestor if and only if every ancestry ends at a root |
| `CeremonyLineage.UnrootedFindsCycle` | crates/made-client/src/ceremony_tree.rs:74-78 | from any ceremony the roots do not reach, an actual cycle in the listing is produced |
| `CeremonyLineage.ParentIs` | crates/made-client/src/ceremony_tree.rs:30-39 | the parent of a ceremony is the listed one its lineage names, and there is none otherwise |
| `CeremonyLineage.SiblingsAreInOrder` | crates/made-client/src/ceremony_tree.rs:40-54 | between siblings the positions of their lineages decide, between equal positions the ids |
| `Ordering.StringLeIs` | crates/made-client/src/ceremony_tree.rs:52-52 | ids compare by the first character in which they differ; a beginning comes before what continues it |
| `CeremonyFetch.Traverse` | crates/made-client/src/ceremonies.rs:68-96 | each reachable ceremony is fetched once and nothing else is, breadth first, in the order in which the fetched ones mention them; at most the limit is fetched; a failed fetch is the last one made; the limit error comes with the limit used up and means more are reachable than allowed, and when every fetch succeeds it is returned exactly then |
| `CeremonyFetch.FlattenHolds` | crates/made-client/src/ceremonies.rs:87-93 | every child of every group is queued |
| `CeremonyFetch.FetchTree` | crates/made-client/src/ceremonies.rs:68-97 | on every server the call succeeds if and only if every reachable ceremony is answered, the limit suffices, and the answers carry non-empty ids of their own without a lineage cycle; the result is the forest of those answers; when the parent links of the answers agree with their child lists this comes down to the limit and to the root having no reachable parent, and the result is one tree, rooted at the id asked for, over exactly the reachable ceremonies; an error says which of the three failed: the limit, the last fetch, or assembly, and there a cycle exactly when the ids are in order |
| `CeremonyFetch.AssemblesIff` | crates/made-client/src/ceremonies.rs:73-96 | what assembly accepts of a completed traversal is a condition on the answers for the reachable ids alone, whatever the order they were fetched in |
| `CeremonyFetch.CompleteIsAcyclic` | crates/made-client/src/ceremonies.rs:68-97 | a complete fetch is free of cycles if and only if the root does not name a fetched ceremony as its parent |
| `CeremonyFetch.CompleteIsOneTree` | crates/made-client/src/ceremonies.rs:68-97 | and then the forest is the single tree of everything reachable |
| `CeremonyFetch.ClosedHoldsReachable` | crates/made-client/src/ceremonies.rs:77-95 | an empty queue means the seen set contains everything reachable |
| `Framing.RequestPreimageInjective` | crates/made-client/src/made_client.rs:98-115 | two requests hash the same bytes if and only if invocation, method and payload are all equal |
| `Framing.ReadWrittenRequest` | crates/made-client/src/made_client.rs:98-115 | the hashed bytes can be read back into the three parts |
| `Framing.ReadWritten` | crates/made-client/src/made_client.rs:112-115 | a length-prefixed field is read back whatever follows it |
| `Framing.WriteAllCancels` | crates/made-core/src/entities/audit_record.rs:454-469 | sequences of framed pieces with the same layout are equal as bytes only when they are equal piece by piece |
| `Framing.ReadWrittenPieces` | crates/made-core/src/entities/audit_record.rs:454-469 | framed numbers, fields and optional fields are read back piece by piece, whatever follows them |
| `Journal.CanonicalInjective` | crates/made-core/src/entities/audit_record.rs:365-449 | two records with the same canonical bytes are the same record but for the stored digest, across all three schema versions |
| `Journal.ReadCanonical` | crates/made-core/src/entities/audit_record.rs:365-449 | an independent reader of the format gets the whole record back from its canonical bytes, for all three schema versions |
| `Journal.ShapesAre` | crates/made-core/src/entities/audit_record.rs:337-356 | which fields are present decides the version: no event, an event, an event with its evidence |
| `Journal.VerifyChain` | crates/made-core/src/entities/audit_chain.rs:23-75 | says unbroken if and only if the records form a chain from the opening record on, and otherwise names the first record that breaks it and the first test that it fails |
| `Journal.LinkDefect` | crates/made-core/src/entities/audit_chain.rs:42-72 | no defect if and only if the record continues its predecessor; otherwise the first of the five tests that fails, with its numbers |
| `Journal.ExplainsOneWay` | crates/made-core/src/entities/audit_chain.rs:23-75 | at most one defect explains a record |
| `Journal.ChainSequence` | crates/made-core/src/entities/audit_chain.rs:23-75 | in an unbroken chain of any length record `i` carries number `i + 1`, or the largest `u64` once the numbers end, and an intact digest |
| `Journal.HeadDetermines` | crates/made-core/src/entities/audit_chain.rs:23-75 | two non-empty unbroken chains, of any length, with the same last digest are equal, or contain two records the digest confuses |
| `Journal.HeadCommitsToJournal` | crates/made-core/src/entities/audit_record.rs:317-322 | instantiated with the hash: a stored journal that was altered anywhere yet still verifies against the same head exhibits a hash collision |
| `EventStore.Sealed` | crates/made-core/src/entities/audit_record.rs:155-187 | a sealed record has an intact digest, links to its predecessor, and takes every other field, each from its own place, from the fact and its evidence |
| `EventStore.CarriedIsDetermined` | crates/made-core/src/entities/audit_record.rs:155-187 | fact, evidence and predecessor leave nothing of the record open but its digest |
| `EventStore.LiveIs` | crates/made-core/src/entities/audit_record.rs:198-213 | evidence covers a fact from the admission on and before the expiry, which is all the two tests come to |
| `EventStore.RepeatsEvent` | crates/made-core/src/ports/ceremony_event_store.rs:104-111 | over any stored records, reports a repetition if and only if an event id of the batch is stored already or occurs twice in the batch |
| `EventStore.SealContinuation` | crates/made-core/src/ports/ceremony_event_store.rs:87-130 | on any stored records, accepts if and only if the batch is not empty, belongs to the stream, carries live evidence and new event ids, and the last stored record is intact and of the stream; otherwise it names the first of these demands that fails; the sealed records carry the facts in order and link on; a journal in order stays one |
| `EventStore.RefusesOneWay` | crates/made-core/src/ports/ceremony_event_store.rs:87-130 | a batch is refused for one reason only, and never one that is admissible |
| `EventStore.SealFacts` | crates/made-core/src/ports/ceremony_event_store.rs:113-129 | the sealing loop: refused exactly when the predecessor is altered or foreign or the evidence does not cover a fact, and for the first of these |
| `EventStore.JournalContinues` | crates/made-core/src/ports/ceremony_event_store.rs:113-129 | a journal extended by linked records of its stream with new event ids is one unbroken chain again |
| `EventStore.SealWithSeals` | crates/made-core/src/entities/audit_record.rs:91-187 | sealing with the real hash meets the condition the store is proved under |
| `EventStore.Store.Append` | crates/made-adapters/src/memory/ceremony_event_store.rs:46-80 | an append conflicts exactly when the expected version is not the current one, and says both; a refusal names its reason; a conflict or a refusal changes nothing; success extends this stream and the global log by the batch and nothing else, and every stream stays an intact journal that agrees with the log |
| `EventStore.Store.ExtendLog` | crates/made-adapters/src/memory/ceremony_event_store.rs:61-68 | the global log grows by the batch, in order, and the log of every other stream is untouched |
| `EventStore.Store.Read` | crates/made-adapters/src/memory/ceremony_event_store.rs:105-120 | the page is the records after the version, no more than the limit |
| `EventStore.PageIs` | crates/made-adapters/src/memory/ceremony_event_store.rs:112-118 | a page is as many records as there are behind the version, up to the limit, in order |
| `EventStore.JournalIsNumbered` | crates/made-adapters/src/memory/ceremony_event_store.rs:206-210 | records are numbered from one without gaps until the numbers end, so the version of a stream is its length, or the largest `u64` |
| `Progress.WatchOnce` | crates/made-client/src/progress.rs:9-105 | the loop computes `Watch`, the reading of a whole stream, on every sequence of frames |
| `Progress.WatchSucceedsIff` | crates/made-client/src/progress.rs:35-105 | a read succeeds if and only if the stream is records of this ceremony followed by an end frame, the first occurrence of each event is numbered on without a gap, and the cursor and reason of the end frame fit; the batch is then those first occurrences |
| `Progress.WatchResumes` | crates/made-client/src/progress.rs:35-100 | a batch starts right behind the cursor, belongs to the ceremony, and leaves the cursor at its last record |
| `Progress.ContiguousIff` | crates/made-client/src/progress.rs:35-100 | a batch runs on from the cursor without gap or overlap, and leaves the cursor at its end, exactly when the cursor plus the event ids the stream delivers for the first time stays below the largest `u64` |
| `Progress.CursorGoesBackAtTheEnd` | crates/made-client/src/progress.rs:62-84 | at the largest `u64` a read can succeed and move the cursor back by one |
| `Progress.CursorStaysBehindTheLastRecord` | crates/made-client/src/progress.rs:53-84 | one before the end, the last record of the range is delivered and the cursor stays behind it |
| `Progress.ChainedReadsContiguousIff` | crates/made-client/src/progress.rs:9-105 | any number of reads, each resuming where the last stopped, number their records on from the first cursor without gap or repetition, exactly when cursor plus first deliveries stay below the largest `u64` |
| `Progress.ChainedReadsRefineLog` | crates/made-client/src/progress.rs:9-105 | against any log the streams are cut from, the reads together return exactly the slice between the first and the last cursor |
| `Progress.RepetitionIgnored` | crates/made-client/src/progress.rs:42-61 | a frame delivered again later in the stream makes no difference to the read, whether it succeeds or fails |
| `Progress.StutteringChangesNothing` | crates/made-client/src/progress.rs:42-61 | nor does any number of such repetitions |
| `AgentProgress.WatchAgentOnce` | crates/made-client/src/agent_progress.rs:10-95 | the loop computes `WatchAgent` on every sequence of frames |
| `AgentProgress.AgentRefinesPlain` | crates/made-client/src/agent_progress.rs:39-93 | on streams of own records without repetition, the agent read succeeds if and only if the plain read of its records succeeds and the activity lane is well formed, and its event half is the plain batch |
| `AgentProgress.AgreeIffOwnRecords` | crates/made-client/src/agent_progress.rs:39-93 | wherever either read accepts its side of the stream, both return the same if and only if every record before the end frame is of the ceremony and none is repeated |
| `AgentProgress.WatchAgentSucceedsIff` | crates/made-client/src/agent_progress.rs:39-95 | on arbitrary streams: success exactly when records are numbered on, activities ascend, at most one snapshot appears and only from the start, and the end frame covers all of it; the batch is then all of it |
| `AgentProgress.ForeignRecordIsDelivered` | crates/made-client/src/agent_progress.rs:47-56 | every record of another ceremony under the expected number is delivered by the agent read and refused by the plain one |
| `AgentProgress.RepeatedEventIsDelivered` | crates/made-client/src/agent_progress.rs:47-56 | a second record under a delivered event id and the next number is delivered as well |
| `AgentProgress.LanesSplit` | crates/made-client/src/agent_progress.rs:39-93 | the same from any intermediate state of the two loops |
| `AgentProgress.RepetitionStopsAgentRead` | crates/made-client/src/agent_progress.rs:47-56 | below the end of the numbering, any stream with a repetition that the plain read skips ends the agent read with an error |
| `AgentProgress.ConsumeAscends` | crates/made-client/src/agent_progress.rs:57-90 | activities strictly ascend from the old cursor and none lies behind the new one; a snapshot only appears in a read from the start |
| `AgentProgress.ChainedActivityAscends` | crates/made-client/src/agent_progress.rs:39-93 | over any number of chained reads no activity is delivered twice or out of order |
| `AgentProgress.ChainedAgentReadsContiguousIff` | crates/made-client/src/agent_progress.rs:39-93 | the records of chained reads are numbered on without gap, exactly when they stay below the largest `u64` |
| `AgentProgress.OneAgentRead` | crates/made-client/src/agent_progress.rs:39-93 | one read in a chain is that read |
| `AgentProgress.AgentReadsChain` | crates/made-client/src/agent_progress.rs:39-93 | chains of reads compose: the whole succeeds exactly when both parts do, and gives both, the second from both cursors of the first |
| `ProgressServer.HistoryIsTerminal` | crates/made-app/src/usecases/stream_ceremony_use_case.rs:458-489 | paging through the history, 200 records at a time, answers whether any record up to the head ended the ceremony; an error exactly when the read of a page before the first such record fails |
| `ProgressServer.DeliverRecords` | crates/made-app/src/usecases/stream_ceremony_use_case.rs:363-389 | delivery stops right after the first record that ends the ceremony |
| `ProgressServer.SendPage` | crates/made-app/src/usecases/stream_ceremony_use_case.rs:363-410 | the records of a page extend the delivered slice to all the page reaches, or up to and including the first that ends the ceremony, and report whether one did |
| `ProgressServer.Conclude` | crates/made-app/src/usecases/stream_ceremony_use_case.rs:412-443 | after a terminal record comes the terminal mark; otherwise, at a head already reached, the failure of a history read or the terminal mark when the history has ended; otherwise the limit mark exactly when the limit is used up, and else nothing; every end frame is true of the journal up to the head it reports |
| `ProgressServer.DeliverPage` | crates/made-app/src/usecases/stream_ceremony_use_case.rs:212-361 | a page closes the stream if and only if it delivers a terminal record, has caught up with a history that has ended or cannot be read, or uses up the limit, and with the frame for the first of these; otherwise all that the page reaches is delivered and nothing of it ended the ceremony |
| `ProgressServer.RunStream` | crates/made-app/src/usecases/stream_ceremony_use_case.rs:65-210 | what a stream is, exactly: refused when the first read fails or finds nothing; otherwise open as long as each turn is woken in time, read and not closed by its page, and ended by the first turn that is not, with the end frame, the failure or the silence that turn calls for; the frames are a contiguous slice of the journal behind the cursor and at most one more; a record that ends the ceremony is the last one delivered |
| `ProgressServer.TakeTurn` | crates/made-app/src/usecases/stream_ceremony_use_case.rs:143-209 | one pass of the loop: an elapsed wait ends a stream that has caught up, at once when the caller does not wait; then a departed receiver, a failed read, or the page decides |
| `ProgressServer.NoWaitEndsAtOnce` | crates/made-app/src/usecases/stream_ceremony_use_case.rs:144-156 | a caller that does not wait gets an end frame or an error in the turn after the one that caught up, at the latest |
| `ProgressServer.DeadlineEndsStream` | crates/made-app/src/usecases/stream_ceremony_use_case.rs:158-172 | a caller that waits and stays gets one when the deadline passes after catching up |
| `ProgressServer.FailureIsPassedOn` | crates/made-app/src/usecases/stream_ceremony_use_case.rs:391-410 | a page that cannot be read ends the stream with that failure |
| `ProgressServer.TerminalsAre` | crates/made-app/src/usecases/stream_ceremony_use_case.rs:491-499 | the four event types that end a ceremony |
| `ProgressServer.WireKeeps` | crates/made-adapters/src/grpc/mappers/ceremony_history.rs:58-85 | the streamed record keeps ceremony, event, type, payload and number |
| `ProgressServer.StoredIsOrderly` | crates/made-adapters/src/memory/ceremony_event_store.rs:206-210 | what the event store keeps is a journal as the results below need it |
| `ProgressServer.ServerFeedsClient` | crates/made-app/src/usecases/stream_ceremony_use_case.rs:116-210 | end to end: every stream the server closes is accepted by the client, whose batch is exactly that slice of the journal |
| `ProgressServer.BrokenOffStreamIsNotMisread` | crates/made-app/src/usecases/stream_ceremony_use_case.rs:116-210 | a stream that breaks off is reported as such and never as a protocol violation |
| `ProgressServer.FollowingDeliversJournal` | crates/made-app/src/usecases/stream_ceremony_use_case.rs:116-210 | following a ceremony over any number of streams delivers the journal from the first cursor to the last, each record once |
| `Following.FollowReturnsAfterTerminal` | crates/made-console/src/execute.rs:187-207 | console and server together, over runs with interruptions: when a following watch saves its last cursor and returns, the journal holds a record up to it that ended the ceremony, and everything from the start value to it was printed as it is in the journal |
| `Following.RunStaysTrue` | crates/made-console/src/execute.rs:187-207 | at every point of such a run the output consists of journal records only |
| `Following.ReadStaysTrue` | crates/made-console/src/execute.rs:188-200 | a served read that succeeds brings journal records, and finishes a following watch if and only if it reaches a head up to which the ceremony has ended |
| `Console.AtLeastOnce` | crates/made-console/src/execute.rs:177-208 | on every disk whose cursor files, if any, are complete: over every interleaving of starts, reads, saves, failures, crashes and power losses in which no session begins at the largest `u64`, everything the saved cursor skips was printed, and the cursor file is never torn |
| `Console.EverythingFromTheStartWasPrinted` | crates/made-console/src/execute.rs:177-229 | with one `--after` value throughout, every record from it up to the saved cursor was printed |
| `Console.CoveredIffBelowTheEnd` | crates/made-console/src/execute.rs:177-229 | the guarantee holds for a start value if and only if it is below the largest `u64` |
| `Console.SavedCursorNeverMovesBack` | crates/made-client/src/progress_checkpoint.rs:49-81 | while the power stays on, the saved cursor only advances, across any number of sessions, wherever they start |
| `Console.PowerLossRestoresAListing` | crates/made-client/src/progress_checkpoint.rs:49-81 | after a power loss the saved cursor is the one of the restored directory listing |
| `Console.PowerLossAdvancesIff` | crates/made-client/src/progress_checkpoint.rs:49-81 | a power loss keeps the cursor from going back exactly when the restored listing holds one no lower |
| `Console.PowerLossMovesCursorBack` | crates/made-client/src/progress_checkpoint.rs:49-81 | from every untouched disk there is a run with two saves after which a power loss restores the first cursor, and another that leaves none |
| `Console.BatchCovers` | crates/made-console/src/execute.rs:188-197 | printing a batch before saving its cursor covers that cursor |
| `Console.StepKeeps` | crates/made-console/src/execute.rs:187-207 | wherever sessions start, each step keeps the cursor file complete in every listing, and each but a power loss keeps or advances the saved cursor; unless a session begins at the largest `u64`, each keeps every saved cursor covered |
| `Console.RunKeeps` | crates/made-console/src/execute.rs:187-207 | so does every run |
| `Console.Watcher.LoadCheckpoint` | crates/made-console/src/execute.rs:210-229 | the cursor file when there is one, refused when unreadable or of another ceremony, else the argument, whatever it is; nothing is written |
| `Console.Watcher.Save` | crates/made-client/src/progress_checkpoint.rs:49-81 | succeeds unless an operation fails; success leaves the new cursor, synced, under its name; failure leaves the old file, and no temporary one unless its removal fails too |
| `Console.Watcher.Watch` | crates/made-console/src/execute.rs:177-208 | on any disk: a cursor file that cannot be used fails the watch and changes nothing; otherwise the first pass that does not go on decides how the watch ends, and the records of the passes up to it are what is printed; a successful return leaves a saved cursor, this watch printed everything from the cursor it loaded up to there, and when following it reaches the head of a terminal end frame; when the cursor files were complete before, the saved cursor does not go back and stays covered unless some session began at the largest `u64` |
| `Console.Watcher.RunPasses` | crates/made-console/src/execute.rs:187-207 | the loop itself: the passes before the last all go on |
| `Console.Watcher.OnePass` | crates/made-console/src/execute.rs:188-206 | a read that failed is repeated if and only if following and the failure is one to retry; one that succeeded is printed and saved, and the watch goes on if and only if the save succeeds, following, short of a terminal head; an unsaved cursor leaves the file as it was |
| `Console.UnreachableKeepsWatching` | crates/made-console/src/execute.rs:202-204 | a following watch outlasts any number of passes in which the server cannot be reached, and prints nothing |
| `Console.OtherFailureStops` | crates/made-console/src/execute.rs:205-205 | any other failure ends the watch, and so does every failure when not following |
| `Worker.ResultImpliesEffect` | scripts/soak/repository-worker.py:11-46 | after any runs, reruns, crashes and power losses, a visible result is a complete document beside a complete effect with the request bytes, and a visible effect is never anything else |
| `Worker.VisibleEffectStays` | scripts/soak/repository-worker.py:24-46 | from the moment the effect can be seen, every rerun and every crash at any point leaves it in place with the request bytes |
| `Worker.EffectStays` | scripts/soak/repository-worker.py:24-46 | once every listing that could come back holds the effect and its directory, it survives power losses as well, unchanged |
| `Worker.FinishedRunSettles` | scripts/soak/repository-worker.py:45-46 | the sync of the operation directory at the end of a run brings this about, whatever came before: nothing afterwards takes the effect away |
| `Worker.OutlastsIffSettled` | scripts/soak/repository-worker.py:16-46 | the effect stays visible whatever happens, power losses included, if and only if every listing that could come back holds it and its directory |
| `Worker.EffectSurvivesIff` | scripts/soak/repository-worker.py:16-31 | until then, one power loss keeps a durable effect exactly when the restored operation directory still lists the effects directory |
| `Worker.DurableEffectCanBeLost` | scripts/soak/repository-worker.py:16-31 | and it does get lost: wherever a listing without the effects directory could come back, a run that completes and syncs the effect can be followed by a power loss that removes it |
| `Worker.RunKeeps` | scripts/soak/repository-worker.py:11-46 | the invariant behind these holds at every point of every run |
| `Worker.PublishEffect` | scripts/soak/repository-worker.py:16-31 | the first half is a run of the steps; it leaves the effect synced under its name in a synced effects directory, no temporary file and every other file as it was; the entry of that directory is made durable by the second half |
| `Worker.PublishResult` | scripts/soak/repository-worker.py:33-46 | the second half is a run of the steps and leaves the result durable under its name, no temporary file and every other file as it was |
| `Worker.Work` | scripts/soak/repository-worker.py:11-46 | an uninterrupted run leaves both durable and nothing else changed; the effects directory is listed durably, so the effect is settled from then on |
| `ArtifactExport.ExportArtifact` | crates/made-client/src/artifact_export.rs:13-47 | succeeds exactly when the reference matches, the chunks add up to the promised size and digest and no file operation fails; at every point, and after a crash or power loss there, a destination that changed holds the verified artifact; without `overwrite` an existing destination never changes; a failure changes the destination exactly when the artifact was written and linked to a free name and only the removal of the temporary name failed; the states passed through follow one another by single disk operations; a failure names its cause and leaves the temporary file behind exactly when it was created and its removal fails |
| `ArtifactExport.WriteVerified` | crates/made-client/src/artifact_export.rs:49-127 | succeeds exactly when some prefix of the replies is complete and verified; the temporary file then holds those bytes, synced; a failure names the first reply or operation that went wrong; the destination is untouched throughout |
| `ArtifactExport.ReceiveChunks` | crates/made-client/src/artifact_export.rs:62-110 | ends against any server; success exactly when the replies up to the first end of file all fit and every write goes through; the file then holds their concatenation; a failure names the first bad reply or write, and the file holds the chunks before it |
| `ArtifactExport.CheckResponse` | crates/made-client/src/artifact_export.rs:79-101 | a reply is accepted if and only if it makes progress or ends the file, its digest is right and its next offset is where the bytes so far end; otherwise the first of these that fails is named |
| `ArtifactExport.WrongOneWay` | crates/made-client/src/artifact_export.rs:79-101 | each refused reply has one fault by name, and an accepted one none |
| `ArtifactExport.InstallFile` | crates/made-client/src/artifact_export.rs:143-156 | renames over the destination, or links to a free name and drops the temporary one; every intermediate directory is one of these; it fails with the link in place exactly when only the removal fails, and otherwise fails without a change |
| `ArtifactExport.FailedExportCanInstall` | crates/made-client/src/artifact_export.rs:151-155 | such a failure exists for every artifact, with any destination |
| `ArtifactExport.CompleteOnce` | crates/made-client/src/artifact_export.rs:64-110 | a server can complete a transfer at only one point |
| `DependencyClosure.ReverseClosure` | scripts/ci/quality-gate-plan.py:265-279 | the work list returns exactly the packages with a chain of dependencies to a changed one |
| `DependencyClosure.Search` | scripts/ci/quality-gate-plan.py:271-279 | the result contains the changed packages, is closed under dependents and within every such set |
| `DependencyClosure.Invert` | scripts/ci/quality-gate-plan.py:267-270 | the inverted graph has an edge exactly where the graph has the opposite one |
| `DependencyClosure.ClosureIsClosed` | scripts/ci/quality-gate-plan.py:265-279 | every dependent of an affected package is affected |
| `DependencyClosure.ClosureIsLeast` | scripts/ci/quality-gate-plan.py:265-279 | nothing else is: it is the least such set |
| `DependencyClosure.ClosureOfUnion` | scripts/ci/quality-gate-plan.py:265-279 | the closure of a union is the union of the closures |
| `DependencyClosure.ClosureIsIdempotent` | scripts/ci/quality-gate-plan.py:265-279 | closing again adds nothing |
| `DependencyClosure.ClosureIsMonotone` | scripts/ci/quality-gate-plan.py:265-279 | more dependencies never remove an affected package |
| `Planner.PlanFor` | scripts/ci/quality-gate-plan.py:314-377 | the plan, computed with one closure over all changed crates and one pass over the other paths, is the union of what each path asks for alone; it is full exactly when forced, given no paths, or given a path only the full matrix answers, and its reason says which |
| `Planner.ScanCrates` | scripts/ci/quality-gate-plan.py:330-347 | the loop finds the owners, the paths they account for, and whether a contract was touched |
| `Planner.RouteRest` | scripts/ci/quality-gate-plan.py:361-369 | the second loop routes exactly the paths no crate accounts for |
| `Planner.RoutePathIs` | scripts/ci/quality-gate-plan.py:303-311 | a path goes to its exact route, else to the first prefix in the table that matches, else to nothing when it is documentation, and is unknown otherwise |
| `Planner.NeighboursCommute` | scripts/ci/quality-gate-plan.py:112-145 | the order of neighbouring prefixes matters only when one continues the other |
| `Planner.CratePathGates` | scripts/ci/quality-gate-plan.py:339-358 | gate by gate, what a path inside a crate asks for, in terms of the crates that depend on its owner |
| `Planner.OwnersAre` | scripts/ci/quality-gate-plan.py:330-336 | a path belongs to the crates whose directory it lies in, unless it is documentation |
| `Planner.NormalizedAre` | scripts/ci/quality-gate-plan.py:321-321 | one leading `./` is dropped, and so are empty paths |
| `Planner.DocumentationIs` | scripts/ci/quality-gate-plan.py:214-215 | documentation is what lies under `docs` and what ends in `.md` or `.txt` |
| `Planner.PlannedIs` | scripts/ci/quality-gate-plan.py:314-377 | the full flag and every gate of a plan, said of crate directories, dependencies and routing tables alone |
| `Planner.PlanIsHomomorphism` | scripts/ci/quality-gate-plan.py:314-377 | for non-empty changes, the plan of two together is the union of their plans |
| `Planner.HomomorphismIff` | scripts/ci/quality-gate-plan.py:318-323 | gate by gate and for the full flag, the law extends to an empty change if and only if the other side plans it anyway |
| `Planner.PlanIsMonotone` | scripts/ci/quality-gate-plan.py:314-377 | adding paths never switches a gate off |
| `Planner.UnclassifiablePlansEverything` | scripts/ci/quality-gate-plan.py:371-373 | one path without a rule switches every gate on |
| `Planner.CrateGatesPathwise` | scripts/ci/quality-gate-plan.py:349-358 | the gates of all owners together are those of the owners of each path |
| `NameStatus.ParseNameStatus` | scripts/ci/quality-gate-plan.py:465-472 | the loop returns `Paths` of the lines, on any text |
| `NameStatus.FieldsAre` | scripts/ci/quality-gate-plan.py:469-469 | tabs divide the fields of any line, and empty fields do not count |
| `TextLines.LinesAre` | scripts/ci/quality-gate-plan.py:468-468 | a line ends at the first break, a carriage return and a newline being one |
| `TextLines.BreaksAre` | scripts/ci/quality-gate-plan.py:468-468 | the code points that break lines |
| `NameStatus.ParseReadsRender` | scripts/ci/quality-gate-plan.py:465-472 | parsing what git writes returns every named path in order, both sides of a rename |
| `NameStatus.RenamePlansBothSides` | scripts/ci/quality-gate-plan.py:465-472 | so a gate that either side of a rename asks for is planned |
| `CouncilSnapshot.Unique` | crates/made-adapters/src/council_data_snapshot.rs:67-75 | accepts if and only if no key repeats and the limit is kept |
| `CouncilSnapshot.Validate` | crates/made-adapters/src/council_data_snapshot.rs:39-48 | accepts if and only if every list is unique within the limit and every item valid |
| `CouncilSnapshot.CanonicalForm` | crates/made-adapters/src/council_data_snapshot.rs:49-58 | two valid snapshots have the same canonical form if and only if they hold the same items in some order |
| `CouncilSnapshot.CanonicalReorders` | crates/made-adapters/src/council_data_snapshot.rs:49-58 | canonicalizing keeps the items and their validity, and doing it again changes nothing |
| `CouncilSnapshot.CanonicalAgreesIff` | crates/made-adapters/src/council_data_snapshot.rs:49-58 | on all snapshots, valid or not: the canonical forms agree if and only if the items under each key come in the same order |
| `Ordering.SortIsStable` | crates/made-adapters/src/council_data_snapshot.rs:49-58 | sorting keeps the order of equivalent members |
| `Ordering.SortAgreesIff` | crates/made-adapters/src/council_data_snapshot.rs:49-58 | two sequences sort to the same if and only if they order equivalent members alike |
| `CouncilSnapshot.ReorderingKeepsValidity` | crates/made-adapters/src/council_data_snapshot.rs:39-58 | validity does not depend on the order of the items |
| `CouncilSnapshot.RepeatedKeysKeepTheirOrder` | crates/made-adapters/src/council_data_snapshot.rs:49-58 | without validity the form is not canonical: any two different items under one key sort differently in their two orders |
| `Scenarios.ParseSelection` | crates/made-e2e-runner/src/scenario_selection.rs:112-128 | accepts if and only if there is a token and each token means something, and returns the union of their meanings; otherwise the error of the first token that means nothing |
| `Scenarios.AddToken` | crates/made-e2e-runner/src/scenario_selection.rs:130-224 | adds exactly the meaning of the token, group, number or range, or fails with its error |
| `Scenarios.SelectsIs` | crates/made-e2e-runner/src/scenario_selection.rs:130-224 | what a token means: its group, else the numbers of its range, else its number, all within 1 to 20 |
| `Scenarios.RefusedIs` | crates/made-e2e-runner/src/scenario_selection.rs:200-224 | when a token is a range that ends before it starts, and when it is nothing known |
| `Scenarios.SplitOnceIs` | crates/made-e2e-runner/src/scenario_selection.rs:200-200 | a range is divided at its first dash |
| `Scenarios.StripPrefixIs` | crates/made-e2e-runner/src/scenario_selection.rs:212-215 | `scenario-` is dropped, or else a leading `s` |
| `Scenarios.ParseU8Is` | crates/made-e2e-runner/src/scenario_selection.rs:216-216 | a number is digits with an optional plus sign, at most 255 |
| `Scenarios.DigitsRead` | crates/made-e2e-runner/src/scenario_selection.rs:216-216 | digits read as the number they are written for |
| `Scenarios.LeadingZero` | crates/made-e2e-runner/src/scenario_selection.rs:216-216 | leading zeros do not matter |
| `Scenarios.WhitespaceIs` | crates/made-e2e-runner/src/scenario_selection.rs:118-120 | the code points that count as white space |
| `Scenarios.GroupNamesAre` | crates/made-e2e-runner/src/scenario_selection.rs:132-198 | the names the table knows |
| `Scenarios.TrimIs` | crates/made-e2e-runner/src/scenario_selection.rs:113-116 | white space goes at both ends and nowhere else |
| `Scenarios.LowerIs` | crates/made-e2e-runner/src/scenario_selection.rs:131-131 | capitals become small letters and nothing else changes |
| `Scenarios.WordIsOneToken` | crates/made-e2e-runner/src/scenario_selection.rs:118-121 | text without a separator is one token |
| `Scenarios.DefaultIs` | crates/made-e2e-runner/src/scenario_selection.rs:113-116 | nothing, or blanks, select the `compose` suite |
| `Scenarios.ComposeIs` | crates/made-e2e-runner/src/scenario_selection.rs:34-68 | which is every scenario that needs neither a model nor a meeting |
| `Scenarios.SuitesAre` | crates/made-e2e-runner/src/scenario_selection.rs:34-90 | it is made of the other suites |
| `Scenarios.AddTokens` | crates/made-e2e-runner/src/scenario_selection.rs:118-123 | the loop adds the union of all tokens, or fails when one does |
| `Scenarios.CommaIsUnion` | crates/made-e2e-runner/src/scenario_selection.rs:112-128 | joining two accepted selectors with a comma selects the union |
| `Scenarios.ParsePrinted` | crates/made-e2e-runner/src/scenario_selection.rs:252-258 | parsing the printed form of a selection returns the selection |
| `Scenarios.PrintingIsStable` | crates/made-e2e-runner/src/scenario_selection.rs:112-128 | parse, print and parse again is parse, for every accepted selector |
| `Scenarios.DecimalSelects` | crates/made-e2e-runner/src/scenario_selection.rs:226-250 | a printed number selects its scenario and no group captures it |
| `Scenarios.GroupsAreSensible` | crates/made-e2e-runner/src/scenario_selection.rs:132-198 | the table of groups meets the conditions used above: no group is empty or named like a number |
| `Coverage.ReadFloors` | scripts/ci/coverage-floors.py:24-36 | on any text: accepts exactly when its data lines are two fields each, name every production crate once and give a finite percentage in range, and returns those |
| `Coverage.AcceptedAre` | scripts/ci/coverage-floors.py:29-32 | a data line is accepted exactly when it is a name and a number from 80 to 100, both included |
| `Coverage.RowsAre` | scripts/ci/coverage-floors.py:29-29 | two fields are a name and a number; anything else is no row |
| `Coverage.SkippedAre` | scripts/ci/coverage-floors.py:27-28 | empty lines, comments and the header are skipped |
| `Coverage.CheckRatchet` | scripts/ci/coverage-floors.py:39-42 | passes if and only if no floor went down |
| `Coverage.RatchetChain` | scripts/ci/coverage-floors.py:39-42 | over any history of passing changes the floor of a crate never ends below where it began |
| `Coverage.CoverageTotals` | scripts/ci/coverage-floors.py:58-74 | fails exactly on a production file with impossible counts, and otherwise sums every crate |
| `Coverage.CrateIs` | scripts/ci/coverage-floors.py:61-65 | the crate of a file is what follows the first `crates` in its path |
| `Coverage.LinesIgnoreOrder` | scripts/ci/coverage-floors.py:58-74 | the sums do not depend on the order of the files |
| `Coverage.TotalsConserveLines` | scripts/ci/coverage-floors.py:58-74 | the crates together account for every production line once |
| `Coverage.CheckCoverage` | scripts/ci/coverage-floors.py:77-91 | a crate is reported if and only if it has no data or is below its floor, and the total if and only if it is below the minimum |
| `Coverage.FloorsCarryTheTotal` | scripts/ci/coverage-floors.py:77-91 | when all crates meet floors no lower than the minimum, the total meets it |
| `BudgetLedger.BalanceOf` | crates/made-core/src/entities/budget_ledger.rs:223-255 | fails only on a closed ledger or an overflow; the columns are the sums of what was set aside, observed, estimated and left unknown; where there is a ceiling, ceiling plus overrun equals charges plus what is available, and where there is none nothing overruns and what a `u64` can still count is available |
| `BudgetLedger.ColumnsAddUp` | crates/made-core/src/entities/budget_ledger.rs:223-255 | every charge is in exactly one column |
| `BudgetLedger.Classify` | crates/made-core/src/entities/budget_ledger.rs:341-409 | one reservation adds its four charges to the right columns, or a column has overflowed |
| `BudgetLedger.EnsureCapacity` | crates/made-core/src/entities/budget_ledger.rs:257-284 | refuses with the first overrun dimension, else with the first that is too short |
| `BudgetLedger.CapacityIff` | crates/made-core/src/entities/budget_ledger.rs:257-284 | a request is admitted if and only if charges and request stay countable and within every ceiling there is |
| `BudgetLedger.AmountsAre` | crates/made-core/src/value_objects/budget/budget_reservation_estimate.rs:37-44 | known amounts are reserved as they are and unknown ones as nothing, unless a ceiling lacks its estimate, and then the first such dimension is named |
| `BudgetLedger.Account.ApplyEvent` | crates/made-core/src/entities/budget_ledger.rs:135-221 | the ledger after the event, or the error with the ledger unchanged |
| `BudgetLedger.DecidedEventsApply` | crates/made-core/src/entities/budget_ledger.rs:49-221 | what a decision produces, the ledger accepts, and deciding the same again produces nothing |
| `BudgetLedger.OpenIs` | crates/made-core/src/entities/budget_ledger.rs:49-70 | when opening produces its event, when it was done before, and that all else is a conflict |
| `BudgetLedger.ReserveIs` | crates/made-core/src/entities/budget_ledger.rs:72-101 | a reservation is made once, in the amounts of its estimate, if it fits; repeated it changes nothing, changed it conflicts |
| `BudgetLedger.ReconcileIs` | crates/made-core/src/entities/budget_ledger.rs:103-136 | a reservation is reconciled for the first time, or again under the same id with a better measurement, and else refused |
| `BudgetLedger.ClosedIs` | crates/made-core/src/entities/budget_ledger.rs:72-110 | a ledger that is not open answers every other command with that |
| `BudgetLedger.ExecuteNext` | crates/made-core/src/entities/budget_ledger.rs:26-221 | a command that produces an event adds it and moves the ledger by it; every other command changes nothing |
| `BudgetLedger.ReplayRebuilds` | crates/made-core/src/entities/budget_ledger.rs:26-32 | after any sequence of commands the recorded events rebuild exactly the ledger, whose version counts them |
| `BudgetLedger.ChargedAfter` | crates/made-core/src/entities/budget_ledger.rs:135-221 | a reservation charges its amounts and stays within the ceilings; a reconciliation replaces its own charge by the measured one |
| `BudgetLedger.OverrunIff` | crates/made-core/src/entities/budget_ledger.rs:187-217 | an event breaks a ceiling if and only if it is a reconciliation above its own charge plus what was left |
| `BudgetLedger.HistoryStaysWithinCeilingIff` | crates/made-core/src/entities/budget_ledger.rs:26-221 | over every accepted history a ceiling holds throughout if and only if no reconciliation overshoots |
| `BudgetLedger.HistoryRehydrates` | crates/made-core/src/entities/budget_ledger.rs:26-32 | a history of accepted events, as used here, is what rehydration passes through |
| `BudgetLedger.RehydratedHasHistory` | crates/made-core/src/entities/budget_ledger.rs:26-32 | and every successful rehydration passes through one |
| `BudgetLedger.LateObservationOverruns` | crates/made-core/src/entities/budget_ledger.rs:187-217 | a history in which no operation exceeds its reservation and a ceiling still breaks: a low estimate frees budget that a later observation takes back |
| `BudgetLedger.OverrunBlocksReservations` | crates/made-core/src/entities/budget_ledger.rs:72-101 | while a dimension is overrun no new reservation is decided |
| `BudgetLedger.ReconciliationsEnd` | crates/made-core/src/value_objects/budget/measured_budget_quantities.rs:44-53 | measurements only improve, so no history reconciles a reservation more than nine times |
| `BudgetLedger.ReconciliationsIff` | crates/made-core/src/value_objects/budget/measured_budget_quantities.rs:44-53 | nine is the exact bound: a history that reconciles a reservation `n` times exists if and only if `n` is at most nine |

## Left out

- Transport, TLS, authentication metadata and protobuf conversion: streams are sequences of frames, servers are functions from requests to answers.
- SHA-256 itself: it is a parameter, and results that need it to be injective name the collision instead.
- The JSON encoding of checkpoints: an encoder and decoder are parameters that are assumed to round-trip.
- The agent-activity feed on the server side; the client side of it is modelled in `AgentProgress`.
- A watch without a cursor file, and two consoles that share one cursor file.
- Console.Watcher.Watch: the endless loop is given as many passes as its caller lists, and ends with `OutOfPasses` after them.
- ProgressServer.RunStream: what each turn of the loop meets is given as a list, which stands for the clock, the notifier and the receiver.
- The invocation log of the soak worker and the rest of the soak scripts.
- ArtifactExport.ExportArtifact: the temporary name is taken to differ from the destination, which the generated part of the name gives.
- Worker.Work: the result path is taken to differ from the names the script uses beside it.
- Planner.PlanFor: the order of listed crates and the wording of reasons; the routing tables, the workspace graph and the embedded-data check are inputs.
- NameStatus.ParseReadsRender: paths with tabs or line breaks, which git quotes, are not rendered.
- Coverage.ReadFloors: how a number is read from text is a parameter.
- Coverage.CheckCoverage: percentages are exact reals, not binary floating point, and the texts of the failures are left out.
- Scenarios.ParseSelection: scenarios are their numbers.
- CouncilSnapshot.Validate: the checks on single items are parameters.
- BudgetLedger.Account.ApplyEvent: timestamps are left out and the version does not overflow.
- BudgetLedger.BalanceOf: the order in which overflowing columns are found, which does not show in the error.
- The stack depth of recursive tree building and the rendering of trees, batches and plans.
- Authorization policy, attention, knowledge, councils and the other use cases: they add members of the same kind, or none that span operations.
