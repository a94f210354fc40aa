# Verified model of the structured-file, OAuth, confirmation and bridge cores

This project models the parts of the server whose correctness spans several operations, and proves what they promise.
Run `dafny verify dfyconfig.toml` here to check all of it.

- **Reading files.** A file is a list of chunks of arbitrary size (`Streams`). `AnchorSearch`, `TextLines`, `LineEndings`
  and `Utf8` hold the scanners that carry state from chunk to chunk, each proved against a reading of the whole file;
  `Selectors` puts them together. `FileTransform` is the multi-operation edit with its receipt and its atomic commit.
- **Composing files.** `SplitMerge` compiles splits and merges, `ComposeJournal` says what rolling back means,
  `ComposeInvariant` what is known whenever a composition may stop, and `ComposeManager` executes and recovers. Every
  durable effect is one step, and an arbitrary script (`FaultScript`) decides at each step whether it succeeds, fails, or
  the process dies there; every method says for which scripts it gets through.
- **Markdown sections** (`MarkdownSections`) and the **staging area** for long texts (`ContentStage`).
- **Refresh tokens.** `RefreshTokens` is the rotation machine and its theorems over runs (the practice of section 4.14.2
  of RFC 9700), `RefreshStore` the shared store and its merge, `RefreshInstances` several instances over one store with
  what each remembers and is about to delete, `RefreshSurvival` and `RefreshMarks` the theorems over their runs, and
  `AuthorizationServer` the object with its index, deletion lists and roll-backs, any number of which are proved to follow
  such a run. `OAuthPrune` is preview and apply of pruning.
- **Confirmations.** `CanonicalJson` is the text arguments are bound by, `StateHandles` the handle store, `Confirmations`
  the multi-round extension and the deletion manager, `ConsentGate` the order in which a tool call is processed.
- **Bridge.** `BridgeScheduler` has the two heavy-read slots, the queue and the mutation record under every interleaving;
  `ChangeList` the change list with its counts.

Classes carry the state the source changes in place; each method is tied to a function of the old state, and the theorems
are about these functions and hold for every run.

## What is a parameter

- Hashes are compared by content: receipts, expected hashes, argument digests and the hashed handle ids.
- Handles, tokens, grants and operation ids are drawn by the environment; runs assume that random values do not repeat.
- Clocks are integers. Where one call reads the clock twice (look-up and consumption of a handle, pruning and creation of a
  stage) the model has two readings. At the instant of expiry a token, handle or stage counts as expired.
- The replay window is the constant of the server, 15 minutes. Two insertions at one offset are refused. Rolling back a
  target that did not exist before deletes it. The merge rule of a stale save is that of the server.
- The Markdown parser answers a list of headings with positions; the selector and schema validators of other modules
  answer whether they accept.

## Where the code does less than it promises

Each of these is a theorem, and the condition named is exact.

- The streamed anchor search equals the whole-buffer search exactly for anchor texts without a border; of two occurrences
  of "aa" in "aaaa" the scan counts one when it reads two bytes at a time (`AnchorSearch.ChunkingIrrelevantIffUnbordered`).
- A composition commits exactly when every step works and sources and destinations are as compiled, and a rollback ends well
  exactly when every step of it works (`ComposeManager.Manager.Execute`, `ComposeManager.Manager.Rollback`). When a step of
  the rollback fails, targets whose own steps worked are back all the same, but the operation is given up, recovery passes it
  by, and a target already replaced keeps the new content (`ComposeManager.FailedRollbackKeepsResult`).
- Rolling back a queued operation that was compiled while its destination was absent deletes the destination if an
  identical operation has committed meanwhile (`ComposeJournal.RollbackHarmlessIff`,
  `ComposeManager.StaleTwinDeletesCommitted`).
- A temporary file outlives recovery when writing or recording it is struck and it is not removed again; the scripts are
  given for preparing all targets and for the copies of backups in a rollback (`ComposeManager.Manager.PrepareAll`,
  `ComposeManager.Manager.Rollback`, `ComposeManager.LeftoverSurvivesRecovery`).
- A detected reuse of a refresh token removes the active refresh token only; access tokens stay accepted
  (`RefreshTokens.ReuseLeavesAccess`, `RefreshTokens.AccessOutlivesReuse`). A replay that does not name the resource counts as reuse
  (`RefreshTokens.ReplaysExactly`).
- With several instances a saved rotation stays in the store until a later pair of the grant, or one of the same
  millisecond with a larger token, is saved by any of them or a holder removes it
  (`RefreshSurvival.RotationStaysIff`), so two instances that exchange the same token drop one of the successors
  (`RefreshStore.StaleRotationDropsSuccessor` says which). A revocation clears the store when the revoking instance
  knew everything there (`RefreshSurvival.RevocationReachesIff`), and lasts until an instance that remembers the grant
  writes (`RefreshSurvival.GoneStaysIff`). The mark that a token was used is lost exactly when an instance saves that
  has it on its list of marks to delete, or revokes the grant (`RefreshMarks.UsedStaysIff`); it is on that list
  exactly since an exchange that could not be saved, or an unsaved clean-up after its expiry, until the next save or
  restart (`RefreshMarks.ListedIff`, `RefreshMarks.MarkIsForgotten`). The answer recorded with it is lost also to an
  instance that remembers another one (`RefreshMarks.AnswerStaysIff`).
- Null, false, 0 and the empty string are bound like missing arguments (`CanonicalJson.ArgumentsBoundIff`).
- The mutation check and the mutation record are separated by an await, so mutations that wait for a slot can overlap
  (`BridgeScheduler.OneMutationIff`).
- Path normalisation is not idempotent, and neither is the change list over names that have to be normalised twice
  (`ChangeList.IdempotentIffClean`, `ChangeList.NormalizedOnceIff`).
- In a file with a byte order mark sections are read and edited three bytes early
  (`MarkdownSections.MarkedContentFitsIff`, `MarkdownSections.MarkedEditFitsIff`).
- What replaces the target of an edit between the last check and the rename is lost (`FileTransform.Target.Commit`).
- Pruning deletes by token string and client id, so a working token goes with an orphan of the same string, and then its
  client may be left for the next plan. A preview cannot see a record that a later one of the same key hides, and the two
  backends differ on lists with repeated or missing ids (`OAuthPrune.DeletesExactlyIff`, `OAuthPrune.WorkingTokensStayIff`,
  `OAuthPrune.NothingLeftToPruneIff`, `OAuthPrune.PreviewIsPlanIff`, `OAuthPrune.BackendsAgreeIff`).

## Model

| member | source | states |
|---|---|---|
| AnchorSearch.IndexOf | src/util/file_selectors.js:220-231 | the first occurrence at or after an offset: it is an occurrence, and none lies before it |
| AnchorSearch.ScanBuffer | src/util/file_selectors.js:219-235 | one carry-and-chunk buffer adds to the hit count, the next allowed start and the selected start exactly the hits counted in that buffer |
| AnchorSearch.ReadChunk | src/util/file_selectors.js:215-239 | after a chunk the kept state is that of having read everything so far, whatever the carry was |
| AnchorSearch.Scan | src/util/file_selectors.js:200-244 | the loop over the stream answers the count and the n-th start of the streamed match list |
| AnchorSearch.ResolveAnchor | src/util/file_selectors.js:200-244 | accept or reject, and the range, as decided by the streamed match list, the expected count and the occurrence |
| AnchorSearch.StreamRefinesWhole | _tests/smoke_file_selectors.js:47-54 | for every file in which hits do not overlap and every cut into chunks, the streamed list equals the whole-buffer list of hits, position by position |
| AnchorSearch.BorderLosesHit | src/util/file_selectors.js:224-231 | for every text that has a border there is a file and a chunk size at least as long as the text for which the streamed scan loses a hit |
| AnchorSearch.ChunkingIrrelevantIffUnbordered | _tests/smoke_file_selectors.js:69-82 | streaming equals whole-buffer search for all files and all chunkings if and only if the anchor text has no border |
| AnchorSearch.StreamSound | src/util/file_selectors.js:219-235 | with or without a border every counted position is a real occurrence and counted occurrences do not overlap |
| Utf8.ValidConcat | src/util/file_selectors.js:117-126 | cutting at a point up to which the text is valid UTF-8 leaves the validity of the whole to the rest (section 4 of RFC 3629) |
| Utf8.BoundaryIffBothValid | src/util/file_selectors.js:117-126 | in a valid file the one-byte boundary test accepts an offset if and only if both parts are valid |
| Utf8.SliceValid | _tests/smoke_file_selectors.js:84-92 | every slice between two accepted offsets, and what is left of it and right of it, is valid |
| Utf8.HitOnBoundaries | src/util/file_selectors.js:200-244 | a valid text can occur in a valid file only between two character boundaries |
| Utf8.FeedConcat | src/util/file_selectors.js:52-57 | feeding a decoder two chunks is feeding it their concatenation |
| Utf8.DecoderAcceptsExactlyValid | src/util/file_selectors.js:49-88 | the chunk-fed fatal decoder accepts exactly the byte strings of section 4 of RFC 3629 |
| TextLines.ResolveLineRange | src/util/file_selectors.js:139-198 | the streamed line selection equals the whole-file selection for every cut into chunks, between CR and LF included |
| TextLines.InspectTextFile | src/util/file_selectors.js:41-104 | size, byte order mark, dominant ending, line total and refusals depend on the file only, not on the chunks |
| TextLines.LineRangeOnBoundaries | src/util/file_selectors.js:139-198 | every accepted line range of a valid file starts and ends on a character boundary |
| Selectors.ResolveSelector | src/util/file_selectors.js:246-293 | bytes, lines, anchor, eof and section selectors answer what the whole-file reading of the selector says, refusals and content check included |
| Selectors.AnchorSelectionAligned | src/util/file_selectors.js:200-244 | an accepted anchor selection is made of whole characters and, when it includes the anchor, is the anchor text |
| Selectors.AcceptedSelectionAligned | _tests/smoke_file_selectors.js:84-92 | every accepted selector of any kind on a valid file selects whole characters, so the selected slice is valid UTF-8 |
| LineEndings.NormalizeChunk | src/util/file_transform_engine.js:66-80 | one chunk yields its share of the output and hands on whether a CR is pending |
| LineEndings.NormalizeLineEndings | _tests/smoke_file_transform_engine.js:62-81 | what the generator yields is the normalised concatenation for every cut into valid chunks; an invalid chunk refuses |
| LineEndings.NormalizeJoinsLines | src/util/file_transform_engine.js:63-81 | normalising is splitting into lines and joining them with the chosen ending |
| LineEndings.LinesPreserved | _tests/smoke_file_transform_engine.js:62-81 | the adapted text has exactly the lines of the original, none added and none lost |
| LineEndings.NormalizeIdempotent | _tests/smoke_markdown_structure.js:139-150 | adapting an adapted text, whatever ending it was adapted to, is adapting the original: nothing is doubled |
| LineEndings.NormalizeValid | src/util/file_transform_engine.js:63-81 | adapting valid UTF-8 gives valid UTF-8 |
| FileTransform.AssertNonOverlapping | src/util/file_transform_engine.js:168-179 | the loop accepts if and only if no two neighbours in sorted order clash |
| FileTransform.NeighboursImplyAll | src/util/file_transform_engine.js:168-179 | checking neighbours is enough: sorted proper ranges are clear pairwise if and only if neighbours are |
| FileTransform.AcceptedIffPairwiseCompatible | src/util/file_transform_engine.js:168-179 | a list of operations is accepted if and only if every two of them are compatible, whatever the listing order |
| FileTransform.ListingOrderIrrelevant | _tests/smoke_file_transform_engine.js:28-60 | two listings of the same accepted operations are both accepted and sort to the same list, so they write the same bytes |
| FileTransform.WriteContent | src/util/file_transform_engine.js:300-330 | the one-pass writer writes the splice of the sorted operations |
| FileTransform.SpliceIsSequential | _tests/smoke_file_transform_engine.js:38-60 | the one-pass result equals single edits applied one after the other from right to left |
| FileTransform.AnnouncedSizeExact | src/util/file_transform_engine.js:219-228 | the announced size, old size plus the growth of every operation, is the size of what is written |
| FileTransform.UntouchedBytePreserved | _tests/smoke_file_transform_engine.js:104-115 | every byte outside the ranges is still there, moved by exactly the growth in front of it |
| FileTransform.TransformKeepsUtf8 | _tests/smoke_file_selectors.js:137-142 | whole-character selections and valid contents turn a valid file into a valid file |
| FileTransform.Target.Commit | src/util/file_transform_engine.js:294-330 | a commit that the checks let through leaves exactly the previewed result; every refusal and failure leaves what is there; a replacement noticed by the last check survives, one after it is lost exactly when the rename works |
| ComposeJournal.ExpectAllAt | src/util/file_compose.js:456-474 | what rollback leaves at each destination: the committed content, except for a stale twin |
| ComposeJournal.RollbackHarmlessIff | _tests/smoke_file_split_merge.js:145-190 | rolling back changes nothing that was committed if and only if no target was compiled as absent while its destination holds exactly its result |
| ComposeJournal.DecisionLeadsHome | src/util/file_compose.js:427-474 | in every state a crash can leave, the rollback decision is never a refusal and leads to the expected content, the needed backup being there |
| ComposeManager.Manager.WriteTemporary | src/util/file_compose.js:382-413 | a fault while the temporary file is written changes no document, and the file is removed or known to be orphaned |
| ComposeManager.Manager.PrepareTarget | src/util/file_compose.js:382-425 | the temporary file holds the result and is recorded exactly when three steps work; otherwise it is left behind exactly for the scripts LeavesTemp |
| ComposeManager.Manager.RestoreTarget | src/util/file_compose.js:427-454 | the destination has its expected content again exactly when its steps work, and its old content otherwise; no other document or backup changed; the copy of the backup is left behind exactly for the scripts LeavesRollbackTemp |
| ComposeManager.Manager.RollbackTarget | src/util/file_compose.js:461-474 | one turn of the rollback loop: for every script whether destination and row are back |
| ComposeManager.Manager.RollbackTargets | src/util/file_compose.js:456-474 | the loop gets through exactly when every step works; each target is back or as it was according to the script of its own turn, no failed turn stops another, and one copy of a backup is left behind for every turn begun with such a script |
| ComposeManager.Manager.Rollback | src/util/file_compose.js:456-495 | a rollback ends rolled back exactly when every one of its steps works; one that fails is given up with every target back whose own steps worked, or stays unfinished when recording the failure fails too; of temporary files it leaves one copy for every turn begun with such a script and, given up, those recorded |
| ComposeManager.Manager.Recover | src/util/file_compose.js:497-502 | recovery undoes the unfinished operation exactly when every step of its rollback works; afterwards the only temporary files are known orphans; with nothing unfinished it changes nothing, so a second one is a no-op |
| ComposeManager.Manager.PrepareAll | src/util/file_compose.js:547-548 | every target is prepared and no document touched, for every script of faults; of temporary files exactly the one is left at which such a script stops |
| ComposeManager.Manager.VerifyAll | src/util/file_compose.js:555-559 | the check passes exactly when its step works and every source and destination still is as inspected |
| ComposeManager.Manager.CommitTarget | src/util/file_compose.js:561-571 | one turn of the commit loop: backup, record, rename, record; done exactly when its five or six steps work, recoverable whenever one does not |
| ComposeManager.Manager.CommitAll | src/util/file_compose.js:561-571 | after the loop every destination holds its result and no temporary file is left |
| ComposeManager.Manager.Run | src/util/file_compose.js:546-579 | prepare, verify, commit: all results in place exactly when every step works and sources and destinations are as compiled, or the operation still unfinished with the committed contents unchanged |
| ComposeManager.Manager.Execute | _tests/smoke_file_split_merge.js:145-228 | for every script: it commits exactly when every step works and sources and destinations are as compiled; one error with nothing struck after it ends rolled back; once recovery has run, the documents are those before the call, or those with the operation undone, or, only after a reported commit, those with every result; a commit leaves no temporary file of its own; struck at most once after the start, the call leaves exactly the one that was being prepared, if the script lets that be |
| ComposeManager.Manager.ExecuteThenRecover | _tests/smoke_file_split_merge.js:192-228 | the process dies once anywhere in the call: recovery comes to its end, nothing is unfinished, the documents are those before the call or those with the operation undone, the operation is marked rolled back, and, sources and destinations being as compiled, a temporary file is left exactly if the process died between creating and recording it |
| ComposeManager.LeftoverSurvivesRecovery | src/util/file_compose.js:388-419 | after a crash between creating a temporary file and recording it, recovery ends with the operation rolled back and the file still there |
| ComposeManager.FailedRollbackKeepsResult | src/util/file_compose.js:472-498 | two failures, the hook after the only commit and the first look of the rollback: the operation is given up, recovery is a no-op, the destination holds the result |
| ComposeManager.StaleTwinDeletesCommitted | src/util/file_compose.js:427-474 | two executions of one creation: the second is rolled back and deletes the file the first committed |
| ComposeInvariant.ResultAllAt | src/util/file_compose.js:561-571 | after a commit each destination holds its result and every other document is unchanged |
| SplitMerge.SplitCoverage | src/util/file_compose.js:76-84 | the cursor loop accepts if and only if the sorted ranges chain from 0 to the size |
| SplitMerge.CoverageIffTiling | _tests/smoke_file_split_merge.js:61-102 | full coverage is accepted if and only if the ranges tile the source: proper, within it, apart from each other, and no byte left out |
| SplitMerge.WriteMerge | src/util/file_compose.js:402-411 | the writer's loop writes the separator-join of the sources in order |
| SplitMerge.SplitThenMergeIsIdentity | _tests/smoke_file_split_merge.js:61-117 | merging the parts of an accepted full split in order of position with an empty separator gives the source back |
| SplitMerge.ListingOrderMatters | src/util/file_compose.js:76-84 | coverage ignores the listing order, so merging in listing order need not give the source back |
| SplitMerge.JoinValid | src/util/file_compose.js:163-223 | a merge of valid files with a valid separator is valid |
| SplitMerge.CompileSplit | src/util/file_compose.js:86-161 | accepted if and only if the source is as expected, within the size limit and valid UTF-8, parts exist, every destination is new and not the source, selectors hold, and full coverage tiles; the targets are the parts in listing order, with distinct destinations |
| SplitMerge.CompileMerge | src/util/file_compose.js:163-223 | accepted if and only if the sources are as expected, within the size limit and valid UTF-8, not repeated unless allowed, not the destination, the destination is absent or readable text, and the result fits; the result is the separator-join |
| SplitMerge.CommittedSplitMergesBack | _tests/smoke_file_split_merge.js:76-117 | after a committed full split in order the source is still there and merging the written parts compiles to it |
| RefreshTokens.RunKeepsChains | _tests/smoke_oauth21_persistent_state.js:101-141 | in every run the refresh tokens of each grant form one chain: all used ones once each, each answered with the next, the last with the unused one, of which there is at most one |
| RefreshTokens.RunKeepsFamilies | _tests/smoke_oauth21_persistent_state.js:101-141 | in every run each grant has at most one unused token, no token is both, no two tokens share a successor, and every value in the tables was drawn before |
| RefreshTokens.OneBodyPerToken | src/auth/oauth21_authorization_server.js:978-1066 | over every run, all successful exchanges of one token answer the same body |
| RefreshTokens.ReplaysExactly | src/auth/oauth21_authorization_server.js:980-993 | a rotated token is answered again with the first body if and only if the grace period is open, the token itself would not have expired and the resource is named; otherwise it is refused, whatever was rotated or restarted in between |
| RefreshTokens.ReuseEndsTheGrant | _tests/smoke_oauth21_persistent_state.js:123-141 | once a detected reuse is saved the grant has no refresh token and gets no new token of any kind for the rest of the run, restarts included |
| RefreshTokens.RevocationEndsTheGrant | src/auth/oauth21_authorization_server.js:1121-1156 | after a saved revocation no token of the grant is in any table for the rest of the run |
| RefreshTokens.ReuseLeavesAccess | src/auth/oauth21_authorization_server.js:984-1010 | detecting reuse leaves the access tokens of the grant accepted, and every later exchange of a used token is answered as it would have been |
| RefreshTokens.AccessOutlivesReuse | src/auth/oauth21_authorization_server.js:993-1017 | a run of three requests that ends with a detected reuse and both access tokens of the grant accepted |
| RefreshTokens.UsedStays | src/auth/oauth21_authorization_server.js:675-687 | a used token stays recorded with its answer until its own expiry is cleaned up or the grant is revoked |
| RefreshTokens.NoUnusedStays | src/auth/oauth21_authorization_server.js:943-1067 | no event hands out anything for a grant that has no unused token left |
| RefreshStore.ResolveGrants | src/auth/oauth21_state_helpers.js:3-10 | per grant the token that expires last, or else is largest, is kept, in whatever order the candidates are met |
| RefreshStore.Store.Save | src/auth/oauth21_persistence_store.js:391-440 | a save replaces the store by the merge of store and memory, or, when it fails, leaves it as it was |
| RefreshStore.MergeIsMemory | src/auth/oauth21_authorization_server.js:330-370 | for a single instance a save writes exactly the instance's tables: nothing deleted comes back and nothing is lost |
| RefreshStore.MergeWellFormed | src/auth/oauth21_persistence_store.js:330-378 | whoever saves, the store has one unused token per grant and none that is also used |
| RefreshStore.StaleRotationDropsSuccessor | src/auth/oauth21_authorization_server.js:330-370 | when two instances exchange the same token both answer, and exactly one successor is in the store afterwards |
| RefreshInstances.MemoryIsServed | src/auth/oauth21_authorization_server.js:943-1157 | what an instance remembers after a request depends on no other instance: it is the step of the single-server machine |
| RefreshInstances.FailedSaveChangesNothing | _tests/smoke_oauth21_persistent_state.js:233-242 | a request whose save fails changes store and memory no more than the clean-up in front of it |
| RefreshInstances.RunSane | src/auth/oauth21_persistence_store.js:330-376 | in every run of several instances all records of one token agree and every table has one unused token per grant |
| RefreshInstances.SoloIsRun | src/auth/oauth21_authorization_server.js:294-310 | with a single instance the system is the single-server machine, restarts included |
| RefreshSurvival.RotationStaysIff | _tests/smoke_oauth21_persistent_state.js:409-450 | in every run with failing saves, stale instances and restarts a saved rotation is in the store exactly until a pair of the grant is saved that exchanges it, is later, or is of the same millisecond with a larger token, or an instance that holds the token revokes it or drops it for a reuse |
| RefreshSurvival.OnlyTheNewest | _tests/smoke_oauth21_persistent_state.js:351-370 | as long as it stays, the newest token is the only unused one of its grant in the store; a pair that loses a tie to it is not there |
| RefreshSurvival.FreshInstanceAccepts | _tests/smoke_oauth21_persistent_state.js:409-450 | an instance started meanwhile remembers exactly that unused token of the grant |
| RefreshSurvival.FreshInstanceAcceptsAccess | src/auth/oauth21_authorization_server.js:621-670 | an instance started meanwhile accepts the access token of the pair for its lifetime, unless a holder has revoked it |
| RefreshSurvival.AccessStaysIff | src/auth/oauth21_persistence_store.js:332-349 | a saved access token is in the store for its lifetime exactly until an instance that holds it revokes its grant |
| RefreshSurvival.SavedGoneIff | src/auth/oauth21_persistence_store.js:332-349 | over any store of whose records of the grant the saver knows, in particular one without any, a save leaves the grant out exactly when the saver remembers nothing of it |
| RefreshSurvival.RevocationReachesIff | src/auth/oauth21_authorization_server.js:1070-1095 | a saved revocation clears the store of the grant exactly when the instance knew every live record the store had of it |
| RefreshSurvival.GoneStaysIff | _tests/smoke_oauth21_persistent_state.js:351-370 | in every run a grant that is gone from the store stays gone exactly until an instance that remembers some of it by then writes; one that holds its refresh token and saves an exchange of it is such an instance |
| RefreshMarks.UsedStaysIff | src/auth/oauth21_persistence_store.js:344-352 | in every run the mark of a used token is in the store for the token's lifetime exactly until an instance saves that has it on its list of marks to delete, or that remembers it and revokes the grant; a saved exchange of the token itself does not strike it |
| RefreshMarks.AnswerStaysIff | src/auth/oauth21_persistence_store.js:344-352 | the answer recorded with the mark stays exactly until that or until an instance saves that remembers another answer |
| RefreshMarks.ListedIff | src/auth/oauth21_authorization_server.js:279-292 | in every run a mark is on an instance's list exactly if an exchange there could not be saved, or an expired mark was cleaned up unsaved, and the instance has neither saved nor restarted since |
| RefreshMarks.FreshInstanceReplays | _tests/smoke_oauth21_persistent_state.js:101-141 | as long as mark and answer stay, an instance started from the store answers the token as the exchange did within the grace period when the resource is named, and otherwise, as long as the token would have lived, detects the reuse |
| RefreshMarks.FailedExchangeForgetsUse | src/auth/oauth21_authorization_server.js:1050-1066 | three requests at two instances over any store: after an unsaved exchange of a token that the other instance exchanged, the next save strikes the mark |
| RefreshMarks.MarkIsForgotten | src/auth/oauth21_authorization_server.js:1050-1066 | a run of two instances and five events in which that happens |
| RefreshInstances.RunAlong | src/auth/oauth21_authorization_server.js:943-1157 | requests, failing saves and restarts in any order at any instances are a run, as long as random values do not repeat and time does not run back |
| AuthorizationServer.Server.LoadRefresh | src/auth/oauth21_authorization_server.js:621-670 | loading rebuilds the refresh table and its per-grant index, whatever the order of the records |
| AuthorizationServer.Server.SetRefresh | src/auth/oauth21_authorization_server.js:257-263 | the record, the active token of its grant and the deletion list change together |
| AuthorizationServer.Server.DeleteRefresh | src/auth/oauth21_authorization_server.js:265-277 | the record goes, is put on the deletion list, and the index stays right |
| AuthorizationServer.Server.Save | src/auth/oauth21_authorization_server.js:556-575 | the store becomes the merge of what it holds by then with memory and deletion lists, which are cleared, or nothing changes |
| AuthorizationServer.Server.Cleanup | src/auth/oauth21_authorization_server.js:675-687 | expired records go from memory, and memory and store agree on the rest whether or not the save works |
| AuthorizationServer.Server.Issue | src/auth/oauth21_authorization_server.js:924-941 | a pair is minted and saved, or memory is as before |
| AuthorizationServer.Server.RotateToken | src/auth/oauth21_authorization_server.js:1027-1065 | rotation with roll-back: the whole rotation, saved, or exactly the tables from before |
| AuthorizationServer.Server.DropActive | src/auth/oauth21_authorization_server.js:994-1008 | the active refresh token of the grant goes, or is back when that cannot be saved |
| AuthorizationServer.Server.Exchange | src/auth/oauth21_authorization_server.js:974-1066 | a refresh request does what the machine says, for every outcome of both saves, and memory and store still agree |
| AuthorizationServer.Server.Redeem | src/auth/oauth21_authorization_server.js:943-973 | a redeemed code mints one pair of a new grant, or nothing when it cannot be saved |
| AuthorizationServer.Server.RevokeGrant | src/auth/oauth21_authorization_server.js:1070-1094 | every record of the grant goes from all tables and the index, and is on the deletion lists |
| AuthorizationServer.Server.RestoreGrant | src/auth/oauth21_authorization_server.js:1106-1119 | the snapshot put back gives exactly the tables from before the revocation |
| AuthorizationServer.Server.Revoke | _tests/smoke_oauth21_persistent_state.js:351-373 | a revocation that cannot be saved changes nothing in memory or store; one that is saved removes the grant |
| AuthorizationServer.DriveAll | _tests/smoke_oauth21_persistent_state.js:351-450 | any number of server objects over one store, any requests, failing saves and restarts: the store, memories and deletion lists it ends with and all answers are those of a run of the system |
| AuthorizationServer.Drive | _tests/smoke_oauth21_persistent_state.js:101-141 | one server object over its store follows a run of the single-server machine, answers included |
| StateHandles.Store.Create | src/runtime/state_handle_prototype.js:63-89 | a new active record with the bounded lifetime; the oldest record goes when the store is full |
| StateHandles.Store.Read | src/runtime/state_handle_prototype.js:91-108 | the first reason to refuse, in the documented order, or the payload; only finding an expired active record changes the store |
| StateHandles.Store.Destroy | src/runtime/state_handle_prototype.js:110-115 | revokes exactly when reading would succeed, and answers what reading answers |
| StateHandles.DeadStays | src/runtime/state_handle_prototype.js:60-118 | no operation makes a handle that is not active acceptable again |
| StateHandles.DestroyEnds | src/runtime/state_handle_prototype.js:110-115 | an accepted handle is dead afterwards |
| StateHandles.ForeignLookIsHarmless | src/runtime/state_handle_prototype.js:96-99 | looking a handle up changes the store if and only if it is active and has expired, and never another record |
| Confirmations.MrtrExtension.Evaluate | src/runtime/mrtr_extension.js:171-296 | verdict and store of every call, with the consumption of matching and of mismatching handles |
| Confirmations.DestructiveConfirmation.Evaluate | src/runtime/destructive_tool_confirmation.js:37-102 | verdict and store of every call, with no consumption on a wrong target |
| Confirmations.OneShot | _tests/smoke_mrtr_extension.js:157-250 | over every run a handle is accepted at most once, and never after a mismatching or badly answered call consumed it |
| Confirmations.AcceptedMeansIssued | _tests/smoke_mrtr_extension.js:130-191 | whatever is let through was issued earlier to the same party for the same tool, the same arguments up to key order, the same scopes and requirement, has not expired and is answered as asked |
| Confirmations.AllowedMeansIssued | _tests/smoke_cbm_delete_confirmation.js:41-95 | an allowed deletion was confirmed with a handle issued for the same project to the same party, whose scopes the caller still has, and not expired |
| Confirmations.DeletionMismatchKeepsStore | _tests/smoke_cbm_delete_confirmation.js:41-70 | in the deletion manager a wrong project or a foreign caller leaves the store as it was |
| Confirmations.ForeignCallerKeepsStore | _tests/smoke_mrtr_extension.js:193-215 | a foreign identity leaves the store of the multi-round extension as it was |
| Confirmations.UntouchedIsHonoured | src/runtime/state_handle_prototype.js:67-70 | a handle nobody presented is honoured, in time and with the same call, unless a thousand newer ones pushed it out |
| CanonicalJson.CanonicalIffSame | src/runtime/mrtr_extension.js:49-53 | sorting keys at every level gives equal values if and only if the values are the same JSON up to key order (section 1 of RFC 8259) |
| CanonicalJson.EscapePrefix | src/runtime/mrtr_extension.js:41-52 | string literals can be read back uniquely, surrogates and control characters included |
| CanonicalJson.PrintPrefix | src/runtime/mrtr_extension.js:35-56 | texts that agree, followed by anything that can follow a value, come from the same value |
| CanonicalJson.PrintInjective | src/runtime/mrtr_extension.js:35-56 | different values are printed differently |
| CanonicalJson.WalkPrintsCanonical | src/runtime/mrtr_extension.js:32-60 | the counting, depth-limited walk prints the canonical form of exactly the values that fit the limits and refuses all others |
| CanonicalJson.CanonicalTextIffSame | _tests/smoke_mrtr_extension.js:44-58 | the same JSON up to key order is treated alike, limits included, and whenever a text is produced only the same JSON produces it |
| CanonicalJson.ArgumentsBoundIff | src/runtime/mrtr_extension.js:160-169 | arguments share a binding if and only if they are the same JSON up to key order or both count as empty: null, false, 0 and the empty string are bound like missing arguments |
| ConsentGate.ContentConfirmsExactly | src/runtime/consent_runtime_policy.js:157-163 | the content that counts as consent is exactly the object with the one member confirmed: true |
| ConsentGate.Handler.Proceed | src/runtime/tools_call_handler.js:213-267 | consent is checked and audited before anything runs |
| ConsentGate.Handler.Handle | src/runtime/tools_call_handler.js:136-330 | audit entries, executions and handle store after one message, for every outcome |
| ConsentGate.ExecutionHasConsent | _tests/smoke_mrtr_runtime_integration.js:183-263 | an executed consent tool was let through with a handle, was confirmed exactly, and its consent entry precedes its start entry |
| ConsentGate.ConsentGatesExecution | _tests/smoke_mrtr_runtime_integration.js:183-263 | in every sequence of messages each execution of a consent tool rests on an earlier request for consent to the same call |
| ConsentGate.OneExecutionPerConsent | _tests/smoke_mrtr_runtime_integration.js:183-263 | no two executions of consent tools rest on the same request |
| ConsentGate.OnlyExecutionsCount | src/runtime/tools_call_handler.js:136-146 | a round that does not execute leaves the executions unchanged, and invalid input touches neither handles nor executions |
| BridgeScheduler.Bridge.AcquireHeavyReadSlot | src/integrations/codebase_memory/cbm_cli_bridge.js:74-89 | a slot at once below the capacity, otherwise the end of the queue |
| BridgeScheduler.Bridge.ReleaseHeavyReadSlot | src/integrations/codebase_memory/cbm_cli_bridge.js:91-98 | a freed slot goes to the head of the queue in the same step |
| BridgeScheduler.Bridge.Enter | src/integrations/codebase_memory/cbm_cli_bridge.js:1241-1266 | from the call to its first await: refused at once while a mutation is recorded, admitted, queued, or running |
| BridgeScheduler.Bridge.Resume | src/integrations/codebase_memory/cbm_cli_bridge.js:1267-1268 | after the await the mutation is recorded without looking again |
| BridgeScheduler.Bridge.TimeOut | src/integrations/codebase_memory/cbm_cli_bridge.js:80-86 | a queued call that times out leaves the queue and nobody else does |
| BridgeScheduler.Bridge.Finish | src/integrations/codebase_memory/cbm_cli_bridge.js:1356-1359 | however a call ends its slot is handed on and its own mutation record cleared |
| BridgeScheduler.RunKeepsConsistent | _tests/smoke_cbm_cli_bridge.js:711-741 | in every interleaving the counter is the number of slot holders, at most two, the queue lists exactly the waiting calls, and nobody waits beside a free slot |
| BridgeScheduler.QuietMeansIdle | _tests/smoke_cbm_cli_bridge.js:711-741 | when every call is answered the counter is zero, the queue empty and no mutation recorded |
| BridgeScheduler.WaitersAreServed | src/integrations/codebase_memory/cbm_cli_bridge.js:74-98 | while somebody waits two other calls hold slots and each of them can go on |
| BridgeScheduler.NeverLostNorOvertaken | src/integrations/codebase_memory/cbm_cli_bridge.js:74-98 | a waiting call is never lost or overtaken, and every freed slot moves it forward or lets it in |
| BridgeScheduler.TwoMutationsAtOnce | src/integrations/codebase_memory/cbm_cli_bridge.js:1241-1267 | every mutation that waits for a slot can run twice at once |
| BridgeScheduler.OneMutationIff | _tests/smoke_cbm_cli_bridge.js:383-395 | at most one mutation is active in every interleaving if and only if delete_project, manage_adr and ingest_traces are not used |
| ChangeList.RemoveDuplicates | src/integrations/codebase_memory/cbm_cli_bridge.js:664-676 | keeps the first non-empty entry of each key, in order |
| ChangeList.Bound | src/integrations/codebase_memory/cbm_cli_bridge.js:1030-1100 | list and counts of the report, the counts computed by subtraction being the counts of what they name |
| ChangeList.ChangedFiles | _tests/smoke_cbm_cli_bridge.js:397-418 | the changed files returned are the report's list for the native paths and the scope |
| ChangeList.Conservation | _tests/smoke_cbm_cli_bridge.js:439-471 | native total = removed + out of scope + returned + omitted; at most 200 are returned, an order-preserving prefix of the scoped list |
| ChangeList.UniqueRepresents | src/integrations/codebase_memory/cbm_cli_bridge.js:664-676 | the list without duplicates has exactly the keys of the native list, each once |
| ChangeList.IdempotentIffClean | src/integrations/codebase_memory/cbm_cli_bridge.js:646-676 | over a set of names the pipeline leaves its own output alone for every list and every scope if and only if no name of the set has to be normalised twice |
| ChangeList.NormalizedOnceIff | src/integrations/codebase_memory/cbm_cli_bridge.js:646-648 | a name has to be normalised twice exactly when, blanks trimmed and slashes turned, it starts with "./" twice and goes on, has a blank behind its "./", or has a blank before its trailing slashes |
| ChangeList.NormalizeFixesClean | src/integrations/codebase_memory/cbm_cli_bridge.js:646-648 | normalising leaves a name alone if and only if it has no blank at an end, no backslash, no leading dot-slash and no trailing slash |
| ChangeList.NormalizingTwiceDiffers | src/integrations/codebase_memory/cbm_cli_bridge.js:646-648 | a name with two leading dot-slashes is normalised differently the second time |
| MarkdownSections.BuildIndex | src/util/markdown_structure.js:123-165 | the one pass with a stack computes, for every heading, path, number, extent and child count as defined by enclosure |
| MarkdownSections.FindEnd | src/util/markdown_structure.js:134-144 | the end is the next heading that is not deeper, and the child count is the number of headings in between |
| MarkdownSections.NestedOrDisjoint | _tests/smoke_markdown_structure.js:66-90 | any two sections are nested or disjoint, and nested exactly when one is on the path of the other |
| MarkdownSections.ListedIsFound | _tests/smoke_markdown_structure.js:66-90 | asking for a listed path, number and content answers that section, whatever file the content was taken from |
| MarkdownSections.FoundIffListed | src/util/markdown_structure.js:196-212 | what is found is listed under that path and number, and what is not found is not listed |
| MarkdownSections.PathAndNumberIdentify | src/util/markdown_structure.js:128-130 | no two sections share path and number |
| MarkdownSections.OtherSectionsUntouched | _tests/smoke_markdown_structure.js:131-201 | each of the five edits leaves the bytes of every section that is neither inside nor around the edited one as they were |
| MarkdownSections.InsertionKeepsInside | _tests/smoke_markdown_structure.js:131-201 | each of the three insertions also keeps the bytes of the section itself and of every section inside it |
| MarkdownSections.BodyEditKeepsHeading | src/util/markdown_structure.js:261-264 | replacing a body keeps everything up to and including the heading line |
| MarkdownSections.MarkedContent | src/util/markdown_structure.js:109-184 | in a file with a byte order mark the range of a section selects what stands three bytes before it |
| MarkdownSections.MarkedContentFitsIff | src/util/markdown_structure.js:166-184 | what is read and hashed as the section is its own content exactly when the section repeats what stands three bytes before it |
| MarkdownSections.MarkedEditFitsIff | src/util/markdown_structure.js:250-295 | each of the five edits of such a file is the edit of its text exactly when the content followed by the three bytes at the end of the range is the three bytes at its start followed by the content |
| MarkdownSections.MarkedDocumentMisread | src/util/markdown_structure.js:114-184 | a document of two headings whose second section is misread and whose first section is edited in the wrong place |
| ContentStage.ApplyConsistent | _tests/smoke_content_stage_manager.js:31-131 | after every operation counters agree with the content read back, digests with what was sealed, ids are unique and all quotas hold |
| ContentStage.RowFate | src/util/content_stage_store.js:95-206 | an operation changes at most the one row it names; all other rows stay or expire |
| ContentStage.OwnersAreIsolated | _tests/smoke_content_stage_manager.js:31-131 | a call never changes what another owner stored |
| ContentStage.SealedIsImmutable | _tests/smoke_content_stage_manager.js:31-131 | a sealed stage stays exactly as it is until its owner releases it or it expires |
| ContentStage.RefusalChangesNothing | src/util/content_stage_manager.js:101-172 | a refused call changes nothing but what has expired |
| ContentStage.StageHoldsWhatWasAppended | _tests/smoke_content_stage_manager.js:31-131 | in every run a stage holds exactly the accepted chunks in order since its creation |
| ContentStage.PairedJoins | src/util/content_stage_manager.js:37-49 | texts without unpaired surrogates can be joined without creating one |
| ContentStage.StageManager.Create | src/util/content_stage_store.js:103-124 | creation under the count and byte quotas, and refusal without any other effect |
| ContentStage.StageManager.Append | src/util/content_stage_manager.js:114-142 | appending with all refusals in order, counters and expiry |
| ContentStage.StageManager.Seal | src/util/content_stage_store.js:158-184 | sealing hashes the chunks in sequence order and checks what was expected |
| ContentStage.StageManager.Release | src/util/content_stage_store.js:191-197 | releasing removes the owner's stage, expired or not, and nothing else |
| ContentStage.StageManager.OpenReadStream | src/util/content_stage_manager.js:174-181 | only a sealed stage is read, and what is read is its content |
| OAuthPrune.PreviewIsPlanIff | src/auth/oauth21_prune_preview.js:25-95 | what a server previews from its tables, in which a later record replaces an earlier one of the same key, is what the plan finds in the stored lists exactly when no hidden record matters |
| OAuthPrune.HiddenOrphan | src/auth/oauth21_state_helpers.js:20-28 | an orphan followed by a working record under the same token is in the plan and not in the preview |
| OAuthPrune.KeyedPreviewIsPlan | src/auth/oauth21_prune_apply.js:196-245 | with unique keys, as tables always have, preview and plan agree |
| OAuthPrune.DeletesExactlyIff | src/auth/oauth21_prune_apply.js:285-299 | applying deletes exactly the candidates if and only if no other record shares a deleted token or client id |
| OAuthPrune.WorkingTokensStayIff | _tests/smoke_oauth21_prune_apply.js:87-154 | list by list, every working token and its client survive if and only if no working token is that of an orphan in the same list |
| OAuthPrune.NothingLeftToPruneIff | _tests/smoke_oauth21_prune_apply.js:143-154 | a plan made at the same time after applying has no candidates if and only if every old enough client that a live record names is named by one that shares no orphan's token |
| OAuthPrune.ClashLosesWorkingToken | src/auth/oauth21_prune_apply.js:285-299 | with two records under one token string a working token is deleted and the next plan has a candidate |
| OAuthPrune.BackendsAgreeIff | src/auth/oauth21_prune_apply.js:112-173 | the tables hold exactly what the files would hold if and only if tokens and client ids are present and unique |
| OAuthPrune.ApplyingAgrees | _tests/smoke_oauth21_prune_apply.js:260-285 | from data the tables can hold, applying gives the same on both backends |
| OAuthPrune.HalfAppliedFinishesIff | src/auth/oauth21_prune_apply.js:446-448 | when only the token file was written, every client is still registered, and applying again gives the planned result under that same condition and no other |
| OAuthPrune.PruneTarget.Execute | src/auth/oauth21_prune_apply.js:356-498 | denied unless every approval is given, then nothing changes; otherwise the backup is what was there and the store what was planned, or unchanged when nothing could be written or the transaction fails, or half applied when the second file could not be written |

## Left out

- HTTP and JSON-RPC framing, process spawning, file permissions, directory creation and workspace path rules: no state of
  interest here.
- The Markdown parser, the SQL engine, SHA-256 and the random generators: foreign code, taken as parameters as said above.
- Writing a store file is one step that works or leaves the file as it was; the copy fallback after a blocked rename, which
  can leave a partial file, is not modelled.
- Authorization codes, PKCE, login and throttling; `RefreshTokens` starts from a code that passed every check.
- Refresh records without a grant id, which only hand-written stores contain, and the answer for unsupported scopes in a
  rotation, which needs a changed scope configuration between two starts.
- Registration of clients under the capacity limit; the pruning rule it shares is in `OAuthPrune`.
- Audit entries other than those of the consent gate, warnings and message texts; error codes are kept where they separate
  outcomes.
- Checking the shape of input requests, of consent metadata and of tool schemas: an answer of the environment in
  `Confirmations` and `ConsentGate`.
- Impacted symbols of detect_changes run through the same generic list functions as changed files (`ChangeList.Bound`), but
  their composite key is not modelled; neither are lower-cased paths on Windows and non-string entries.
- Bridge time limits of running processes and the bounding of other tools' output: a running call may end at any time.
- Other processes that change a destination while a composition runs: the checks and refusals that answer them are modelled,
  but only the composer writes in a run, so the rollback refusals for foreign content are never reached.
- ComposeManager.Manager.WriteTemporary: the integrity check of the file just written is not modelled; a source that changed
  before writing is noticed by the check after it.
- RefreshSurvival.RotationStaysIff: follows, of several pairs of one grant saved in the same millisecond, those with the
  largest token so far; the others are not in the store as long as that one is (`RefreshSurvival.OnlyTheNewest`).
- An instance whose first reading of the store fails and which starts with empty tables.
- Selectors.ResolveSelector: the anchor case follows the streamed match list, which is what the code does; where that is the
  whole-file reading is `AnchorSearch.ChunkingIrrelevantIffUnbordered`. The line numbers of the answer are not modelled.
- SplitMerge.CompileMerge: the separator is a byte string; the refusal of unpaired surrogates in it is not modelled.
- AuthorizationServer.Server.Cleanup: the loops over the tables are written as one bulk removal, since their order has no
  effect.
- OAuthPrune.PruneTarget.Execute: receipt and gate verification are a list of answers, and the receipts written are not
  modelled.
- Rate limits, decisions and task-augmented calls before and after the consent gate.
