# Verification of think's replication core

A Dafny model of the local-first memory store `think`, and proofs about it. The store keeps entries in an
SQLite index per cortex (L2), queues new lines in an outbox table, and replicates them through an
append-only git branch (L1) that several clones share. `dafny verify dfyconfig.toml` checks everything.

## What is modelled

**Replication** (`L1Log`, `Ingest`, `Replica`, `Replication`, `Runs`, `SingleWriter`, `Scenarios`). A
replica is its index, its outbox, the clone's local and remote-tracking refs, and the one drain the global
lock lets run. A branch tip is the sequence of commits leading to it. Each function `Replica.Do...` is one
atomic step; a run is any interleaving of steps of any number of replicas, with failed fetches, rejected
and unacknowledged pushes, failed removals and crashes between any two steps. Main results: nothing
committed to an outbox is lost without `skipPush`; what `skipPush` costs is stated exactly; caught-up
replicas hold the same table; a last-wins rebuild agrees with tombstone-wins pulling exactly on logs where
every deleted id ends with a tombstone, which retries keep when each entry has one writer and need not keep
when another replica deletes it.

**The drain and its pages** (`Drain`, `Delivery`, `Pages`). The retry loop as an imperative class, proved
against a function that composes the atomic steps; a whole drain as a run of those steps, which keeps what
runs keep; when three attempts suffice; and how lines are laid out in numbered pages of a tree.

**The debouncer** (`Debouncer`, `Handoffs`, `PushDebouncer`). Timers, counts, the immediate queue and the
promise-chain lock as a state machine of event-loop turns, with a bound on the turns until it is quiet and
what each drain is handed told from the calls alone, and as a class that keeps its invariants.

**Readers and writers of the index** (`Readers`, `PullLoop`, `PullCoverage`, `Stores`). The pull loop's
nested loops over commits and files with every kind of read failure and interruption; `sync`, `delete`,
boot-time indexing and the forced rebuild as methods of one database class.

**The socket framer** (`Protocol`), **the managed block in instruction files** (`ManagedBlock`), **the
layout migration** and how it may stop half-way (`Layout`, `LayoutResult`, `LayoutStops`), **activity
numbers** (`ActivitySeq`), **retro curation** (`CurateRetros`), **supersession chains** (`ChainWalk`),
**schema migrations** (`Migrations`) and **recall ranking** (`Recall`).

What the code gets from outside is a parameter: git's answers and failures, other writers' commits, the
clock, fresh ids, embeddings and cosines, the model's duplicate verdicts, the JSON parser, SQLite's
success. Transactions are atomic; a crash loses only what is volatile.

## Where code and comments disagree

The model follows the code.

- `packages/cli/src/lib/git-plumbing.ts:215-219` says a failed compare-and-swap propagates to the retry
  loop. The append is outside the loop's `try`, so it ends the drain. When the branch exists only remotely
  it fails every time (`Runs.NoLocalBranchIsStuck`).
- `packages/cli/src/lib/git-plumbing.ts:266-274` calls the forced reset lossless because rows are deleted
  only after a push. With `skipPush` they are deleted after a local commit (`Scenarios.SkipPushLoses`).
- `packages/cli/src/daemon/push-debouncer.ts:334-340` calls a failed row removal cosmetic. With a second
  writer it can bring back a deleted entry on the next rebuild (`Scenarios.RebuildResurrects`).
- `packages/cli/src/daemon/pull-loop.ts:435-439` moves the cursor when there is nothing new; a failed
  `rev-list` looks the same, and its commits are never visited again (`PullCoverage.FailedRevListSkips`).
- `packages/cli/src/daemon/pull-loop.ts:237` says the files a commit changed or added are listed. For a
  commit without a parent `diff-tree` prints nothing, so the lines of a branch's first commit are pulled
  only once a later commit touches their page (`PullCoverage.PlannedIff`).
- `packages/cli/src/commands/curate-retros.ts:292-296` says its guard prevents promoting and relegating in
  turn. It does so as long as the configured limit keeps pace (`CurateRetros.NoOscillationIff`).
- `packages/cli/src/daemon/recall.ts:1286-1291` says the brute-force engine ignores the limit.
  `packages/cli/src/lib/search-vectors.ts:50` cuts to it, so hidden rows crowd out shown ones there too
  (`Recall.HiddenRowsCrowdOutIff`).
- `packages/cli/src/commands/cortex-migrate-layout.ts:240-242` says collisions abort the migration, and
  lines 274-277 present the staging name as protection against a target that is another source. When a page
  has to move onto one that is still in place, the migration stops with the page at its staging name.
  Nothing undoes that, and migrating again leaves the page out (`LayoutStops.VanishesIff`,
  `LayoutStops.MovingDownBlocks`).
- `packages/cli/src/commands/recall.ts:46-47` bounds the ancestor search to avoid cycles. The bound also
  makes a found event disappear when its history is longer (`ChainWalk.DeepHistoryVanishesIff`).

## Model

| member | source | states |
|---|---|---|
| `Ingest.IngestAllExplains` | packages/cli/src/daemon/pull-loop.ts:493-568 | ingesting any lines leaves exactly their ids, each with the content of one of its lines, deleted iff one of its lines is a tombstone |
| `Ingest.Convergence` | packages/cli/src/daemon/pull-loop.ts:493-568 | two replicas that ingest the same set of lines in any order, with any repetition and batching, hold the same table, given same-id lines agree on content |
| `Ingest.LivenessNeedsNoAgreement` | packages/cli/src/daemon/pull-loop.ts:512-525 | which ids are live depends on the set of lines alone, whatever they say about content |
| `Ingest.ReindexIsLast` | packages/cli/src/commands/reindex.ts:131-168 | a rebuild holds an id iff the log does, with the content and deletion of its last line |
| `Ingest.ReindexRefinesPullIff` | packages/cli/src/commands/reindex.ts:113-194 | a forced rebuild and pulling keep the same ids, and agree on what is live iff every tombstoned id ends with a tombstone in the log |
| `Ingest.ReindexEqualsPull` | packages/cli/src/commands/reindex.ts:113-194 | on such a log with agreeing content the two tables are equal |
| `Readers.ReadersAgreeIff` | packages/cli/src/daemon/pull-loop.ts:497-534 | the two readers store the same row iff the line has a non-empty id, non-empty string content, a string timestamp, a known kind, an author that reads the same, and a deletion field that is a non-empty string or falsy, and then it is the row of the fields given, author unknown and kind memory where they are missing; neither stores one iff the content is no string; pulling drops content "", a rebuild stores it |
| `Replication.StepKeeps` | packages/cli/src/daemon/push-debouncer.ts:398-549 | every step of a writer, reader or drain, interrupted anywhere, keeps a replica accounted for: rows ordered, each written line queued, shared or skipped, drained rows still at the front, appended rows in the branch, pushed rows on origin |
| `Replication.OthersKeepInv` | packages/cli/src/daemon/push-debouncer.ts:508-531 | whatever other writers push in between keeps that invariant |
| `Replication.RemovalIsSuffix` | packages/cli/src/daemon/push-debouncer.ts:341-347 | deleting the drained ids leaves exactly the rows enqueued after them |
| `Replication.ResetKeeps` | packages/cli/src/lib/git-plumbing.ts:277-290 | a forced reset to the remote tip loses no line that was not skipped before |
| `Replication.AppendKeeps` | packages/cli/src/lib/git-plumbing.ts:293-360 | committing on the resolved tip keeps the accounting and what the local branch held, puts the rows into it, and holds what the remote-tracking tip holds unless the two have diverged |
| `Replication.IndexableAreQueued` | packages/cli/src/daemon/outbox-index.ts:111-140 | boot indexing takes up exactly the queued lines that are no tombstones and do not fail |
| `Replication.WriteQueues` | packages/cli/src/daemon/sync-handler.ts:331-369 | a write with text under an unused id queues one live line behind all others; an online one also puts the row into the index, an offline one does not; any other changes nothing |
| `Replication.PushOutcomes` | packages/cli/src/daemon/push-debouncer.ts:500-545 | origin moves, to the local branch, only by a push that reaches it and fast-forwards it; rows are removed next only when git says so too; a rejected one is tried again while attempts are left; anything else ends the drain with its rows in place |
| `Runs.NothingLost` | packages/cli/src/daemon/push-debouncer.ts:398-549 | at least once: in every interleaved run of any replicas without a skipPush drain, each line ever committed to an outbox is in that outbox or in origin's log |
| `Runs.EveryLineAccounted` | packages/cli/src/daemon/push-debouncer.ts:503-507 | in every run at all, each line is queued, on origin, or was skipped by a skipPush drain and is still in the local branch or was dropped by a reset |
| `Runs.OriginOnlyGrows` | packages/cli/src/daemon/push-debouncer.ts:508-514 | origin is extended, never rewritten |
| `Runs.CaughtUpReplicaIsComplete` | packages/cli/src/daemon/sync-handler.ts:343-369 | once outboxes are empty, a replica that has pulled origin's log holds what all writers wrote and deleted |
| `Runs.ReplicasConverge` | packages/cli/src/daemon/pull-loop.ts:493-568 | two such replicas hold the same table |
| `Runs.SkipRemovalKeepsIff` | packages/cli/src/daemon/push-debouncer.ts:503-507 | a skipPush drain keeps the promise iff each of its lines is already on origin or queued again |
| `Runs.ResetLosesIff` | packages/cli/src/lib/git-plumbing.ts:277-290 | a line in no outbox and in no other branch is lost by a forced reset iff it never reached origin |
| `Runs.LostForever` | packages/cli/src/daemon/push-debouncer.ts:503-507 | a live line that no outbox, no branch and not origin holds never appears again, whatever runs later |
| `Runs.NoLocalBranchIsStuck` | packages/cli/src/lib/git-plumbing.ts:355-362 | a clone that knows the remote branch but has no local one never gets a row out of its outbox until something checks the branch out |
| `Runs.AppendStallsIff` | packages/cli/src/lib/git-plumbing.ts:355-362 | an append fails its compare-and-swap iff the tip exists only remotely |
| `SingleWriter.BatchedTombsLast` | packages/cli/src/daemon/push-debouncer.ts:334-354 | a log made of runs of the written lines whose ends never go back ends every deleted id with a tombstone, however often batches were repeated |
| `SingleWriter.StepKeepsOrder` | packages/cli/src/daemon/push-debouncer.ts:415-439 | every step of a writer keeps its queue in order and its lines in all its refs in such batches |
| `SingleWriter.SingleWriterReindexEqualsPull` | packages/cli/src/commands/reindex.ts:113-194 | with one writer, after any run with any retries, a rebuild from origin's log equals pulling it |
| `SingleWriter.OneWriterEachReindexEqualsPull` | packages/cli/src/commands/reindex.ts:113-194 | so it does with any number of replicas when each entry is written and deleted by one of them |
| `Scenarios.UndisturbedDrain` | packages/cli/src/daemon/push-debouncer.ts:398-514 | an undisturbed drain puts the whole outbox on origin in order and empties it, or keeps it when the removal fails |
| `Scenarios.LiveLineFollowsTombstone` | packages/cli/src/daemon/push-debouncer.ts:334-354 | one failed removal already makes a live line follow the tombstone of its id |
| `Scenarios.RebuildResurrects` | packages/cli/src/daemon/push-debouncer.ts:334-354 | with a second writer a failed removal lets the next rebuild bring back an entry everybody deleted |
| `Scenarios.SkipPushLoses` | packages/cli/src/daemon/push-debouncer.ts:503-507 | a skipPush drain followed by a forced reset loses an entry |
| `DrainLoop.Clone.ExecutePlumbing` | packages/cli/src/daemon/push-debouncer.ts:398-549 | the drain does what its specification says: rows read once, the first attempt forced or not by how far behind the branch is, at most three attempts, and the two metrics counted |
| `Replica.BehindCounts` | packages/cli/src/daemon/push-debouncer.ts:455-463 | the count of commits behind is that of the remote-tracking ref beyond the history it shares with the local branch, whatever the local branch has of its own |
| `Replica.BehindIff` | packages/cli/src/daemon/push-debouncer.ts:455-475 | a branch is n behind iff the two refs split into a common history and n further commits of the tracking ref; the count fails iff a ref is missing |
| `Delivery.StartsForcedIff` | packages/cli/src/daemon/push-debouncer.ts:450-476 | the first attempt is forced iff the preflight fetch went through, both refs exist, the threshold is positive and origin has at least that many commits beyond the common history |
| `Delivery.SkipPushStaysLocal` | packages/cli/src/daemon/push-debouncer.ts:495-507 | a drain with skipPush pushes nothing: origin gets what others land and no more, in one attempt |
| `Replication.ResetsToRemote` | packages/cli/src/lib/git-plumbing.ts:277-290 | a forced reset moves the local branch to the remote-tracking tip, or leaves it when there is none, and changes nothing else |
| `Delivery.UpToDateNeverStartsForced` | packages/cli/src/daemon/push-debouncer.ts:464-470 | a clone whose local branch contains the tip of origin never starts forced |
| `DrainLoop.Clone.RunAttempts` | packages/cli/src/daemon/push-debouncer.ts:480-531 | the retry loop: forced after the first attempt, three attempts iff all were bounced |
| `DrainLoop.Clone.AppendLines` | packages/cli/src/lib/git-plumbing.ts:229-364 | fetch, reset when forced, resolve the tip, commit on it; fails iff the branch exists only remotely |
| `DrainLoop.Clone.PushBranch` | packages/cli/src/daemon/push-debouncer.ts:508-531 | a push delivers, is bounced as no fast-forward, or stops the drain |
| `DrainLoop.Clone.DeleteOutboxRows` | packages/cli/src/daemon/push-debouncer.ts:341-354 | a removal leaves exactly the rows whose ids are not listed, in their order; a failed one leaves all |
| `Delivery.DrainIsReplay` | packages/cli/src/daemon/push-debouncer.ts:398-549 | a whole drain is a run of its own atomic steps, interleaved with nothing but the commits and lines its attempts meet |
| `Delivery.DrainKeepsPromise` | packages/cli/src/daemon/push-debouncer.ts:398-549 | however a drain ends, the replica stays accounted for and origin is only extended; without skipPush each line written before or during it is queued or on origin |
| `Delivery.DrainBranchesIff` | packages/cli/src/lib/git-plumbing.ts:293-362 | a drain gives a clone without a local branch one iff the clone knows of no remote branch when it appends; otherwise it stops there and keeps its rows |
| `Delivery.DrainRemovesWhatItRead` | packages/cli/src/daemon/push-debouncer.ts:437-439 | rows leave only when delivered and removed, exactly the rows read; lines enqueued meanwhile stay, in order |
| `Delivery.AttemptLandsIff` | packages/cli/src/lib/git-plumbing.ts:229-364 | an attempt lands iff others land nothing before its push but what it contains: forced, nothing; unforced, the local branch has not diverged and at most its own unpushed commits |
| `Delivery.FastForwardIff` | packages/cli/src/lib/git-plumbing.ts:229-364 | that is when the commit built on the resolved tip contains what origin holds at push time |
| `Delivery.BoundedRetryIff` | packages/cli/src/daemon/push-debouncer.ts:480-545 | when only rejections fail, a drain delivers iff its first attempt lands or one of the two forced ones has nobody pushing between fetch and push; otherwise all three were bounced |
| `Pages.AppendKeepsLinesIff` | packages/cli/src/lib/git-plumbing.ts:87-143 | an append keeps every line and adds its own iff the page it writes was read as it is and is at most 999999; a failed listing or read overwrites a page |
| `Pages.SafeAppendExtends` | packages/cli/src/lib/git-plumbing.ts:300-305 | with listing and page read, what readers see is extended by the lines in order |
| `Pages.TreeReadsFlat` | packages/cli/src/commands/reindex.ts:44-72 | a branch of up to 999999 such appends reads back as its commits' lines in order, over any page rotation |
| `Pages.AppendGoesTo` | packages/cli/src/lib/git-plumbing.ts:87-143 | a healthy append goes to the last page, or opens the next one when that holds a thousand lines; every other page stays |
| `Pages.PagesFill` | packages/cli/src/lib/git-plumbing.ts:82-86 | so the pages of such a branch are numbered from 1 without a gap, all but the last holding a thousand lines or more |
| `PushDebounce.PushDebouncer.Notify` | packages/cli/src/daemon/push-debouncer.ts:211-248 | counts the notification, re-arms the timer, skips invalid names; keeps all invariants |
| `PushDebounce.PushDebouncer.Fire` | packages/cli/src/daemon/push-debouncer.ts:235-247 | an elapsed timer hands its count and its skipPush over |
| `PushDebounce.PushDebouncer.Flush` | packages/cli/src/daemon/push-debouncer.ts:263-281 | takes over the pending count and asks for the lock at once |
| `PushDebounce.PushDebouncer.AcquireLock` | packages/cli/src/daemon/push-debouncer.ts:297-302 | chains onto the promise in the lock field and leaves a new one |
| `PushDebounce.PushDebouncer.Begin` | packages/cli/src/daemon/push-debouncer.ts:303-305 | a drain that gets the lock is the only one running |
| `PushDebounce.PushDebouncer.End` | packages/cli/src/daemon/push-debouncer.ts:304-308 | a body that returns or throws lets exactly its successor begin |
| `Debouncer.RunKeeps` | packages/cli/src/daemon/push-debouncer.ts:211-332 | in every reachable state: timer armed iff a count is pending, with the last skipPush; notifications equal counts pending plus handed over; first come first drained; every row covered by a wake-up still to come, or its drain failed or the daemon crashed |
| `Debouncer.FifoMutualExclusion` | packages/cli/src/daemon/push-debouncer.ts:297-332 | across all cortexes at most one drain runs, and the next to begin is the next that asked, as soon as its predecessor ended |
| `Debouncer.LockNeverJams` | packages/cli/src/daemon/push-debouncer.ts:297-309 | while a drain waits, one is running or one may begin |
| `Debouncer.OneNotifyIsEnough` | packages/cli/src/daemon/index.ts:531-545 | after any history, failures and crashes included, one notification of a cortex gets all its rows drained once drains succeed and things are quiet |
| `Debouncer.QuietMeansDrained` | packages/cli/src/daemon/push-debouncer.ts:211-281 | without failures a quiet daemon has an empty outbox |
| `Debouncer.QuietIsReached` | packages/cli/src/daemon/push-debouncer.ts:235-332 | without new notifications every run of pending turns is bounded by the turns left, and is quiet iff it has made them all iff none is pending |
| `Debouncer.OneNotifyDrains` | packages/cli/src/daemon/index.ts:531-545 | so one notification and the turns it leaves pending drain the cortex when drains succeed |
| `Handoffs.HandsOverWhatWasAsked` | packages/cli/src/daemon/push-debouncer.ts:199-281 | in every reachable state each hand-off, waiting or already at the lock, carries the count of notifications its timer collected and the skipPush of the last of them, or those of its flush, in the order they came; a pending count and its timer likewise |
| `Handoffs.NoSkipUnlessAsked` | packages/cli/src/daemon/push-debouncer.ts:205-209 | in a run in which no write, notification or flush asks for skipPush no hand-off and no drain has it |
| `Handoffs.DrainReadsItsRows` | packages/cli/src/daemon/push-debouncer.ts:415-426 | a running drain has read exactly the rows its cortex had queued when it got the lock |
| `Handoffs.RowLeavesIff` | packages/cli/src/daemon/push-debouncer.ts:341-347 | a row leaves the outbox iff the drain that read it ends with its rows removed |
| `Handoffs.RowEntersIff` | packages/cli/src/daemon/sync-handler.ts:347-385 | a row enters it only with a write of its cortex, under an id no row has had |
| `PullLoop.Loop.IngestEntry` | packages/cli/src/daemon/pull-loop.ts:493-568 | insert once, afterwards only tombstones |
| `PullLoop.Loop.FetchAndIngest` | packages/cli/src/daemon/pull-loop.ts:390-486 | a cycle ingests a front part of the planned lines; it ingests all and moves the cursor when neither stopped nor thrown out of, and only then, except that a failed rev-list moves it without ingesting anything |
| `PullLoop.Loop.IngestCommits` | packages/cli/src/daemon/pull-loop.ts:443-470 | the nested loops ingest, in order, what the commits' files hold, up to the stop |
| `PullCoverage.Coverage` | packages/cli/src/daemon/pull-loop.ts:390-486 | with faithful reads, whenever the cursor is c every well-formed line added by commits from the starting point to c is indexed with its tombstone |
| `PullCoverage.TipIsCovered` | packages/cli/src/daemon/pull-loop.ts:390-486 | every line of the branch as of the cursor was there at the starting point or is indexed |
| `PullCoverage.StopAndRerun` | packages/cli/src/daemon/pull-loop.ts:473-481 | a stop in the middle and a rerun, over a branch that may have grown, reach the table of an uninterrupted cycle |
| `PullCoverage.FailedRevListSkips` | packages/cli/src/daemon/pull-loop.ts:231-233 | a failed rev-list moves the cursor to the tip and ingests nothing; a later cycle plans only what commits after that tip show |
| `PullCoverage.NothingMissedIff` | packages/cli/src/daemon/pull-loop.ts:231-282 | no uninterrupted cycle misses an added line iff the fetch fails or neither rev-list, nor the diff of a commit with a parent, nor the show of a JSONL file of one does |
| `PullCoverage.CycleToTheEnd` | packages/cli/src/daemon/pull-loop.ts:390-486 | the loop itself, run to its end, moves the cursor and covers what was added iff it does not miss a line in that sense |
| `PullCoverage.PlannedIff` | packages/cli/src/daemon/pull-loop.ts:240-257 | a cycle plans a line iff a commit from its start on, other than the root, lists a file that holds it; lines of the root wait for a later commit to touch their page |
| `PullCoverage.FirstSyncPlans` | packages/cli/src/daemon/pull-loop.ts:195-230 | without a cursor a line is planned iff a commit with a parent among the last 100 shows it, so every such commit of a branch of at most 100 |
| `PullCoverage.CursorPlans` | packages/cli/src/daemon/pull-loop.ts:219-221 | with cursor c, iff a commit with a parent from c on shows it |
| `PullCoverage.ShowsIff` | packages/cli/src/daemon/pull-loop.ts:240-257 | a commit shows a line iff its diff lists a path ending in .jsonl whose file at that commit holds an entry read as that line |
| `PullCoverage.FirstSyncCovers` | packages/cli/src/daemon/pull-loop.ts:195-230 | after a first sync run to its end, every well-formed line added after the root by one of the last 100 commits is indexed with its tombstone: on a branch of at most 100, every one |
| `PullCoverage.HiddenLineIsMissed` | packages/cli/src/daemon/pull-loop.ts:435-439 | any other failed read can lose a line for good |
| `Stores.Store.FoldRetroNearDuplicate` | packages/cli/src/daemon/sync-handler.ts:194-224 | folds into the first live retro that it and all before it are similar enough, adding one occurrence (a missing count is 1), and into nothing otherwise |
| `Stores.FoldFindsDuplicate` | packages/cli/src/daemon/sync-handler.ts:207-213 | on candidates sorted by similarity the scan finds a retro iff one is above the threshold |
| `Stores.Store.HandleSync` | packages/cli/src/daemon/sync-handler.ts:240-401 | refused iff the request is not accepted, its text did not embed, or there is nothing to fold it into and the transaction rolled back, and then nothing changes; folded: a live retro gets one occurrence, no row and no line; stored: row and outbox line together under the id of the request, and a retro counts one occurrence |
| `Stores.Store.HandleDelete` | packages/cli/src/daemon/delete-handler.ts:93-168 | refused exactly for an unknown cortex, not one selector, more than 20 unforced matches or a failed transaction, and then nothing changes; otherwise exactly the selected rows are deleted besides those that were |
| `Stores.DeleteTombstonesAll` | packages/cli/src/daemon/delete-handler.ts:144-155 | a delete tombstones exactly its targets and queues one tombstone line each, in order, with the row's own content |
| `Stores.Store.IndexPendingOutboxEntries` | packages/cli/src/daemon/outbox-index.ts:47-202 | boot indexing leaves the index as if the queued live lines had been pulled, and counts the rows it added |
| `Stores.BootReplay` | packages/cli/src/daemon/outbox-index.ts:47-202 | every valid queued live line then has its row with its own content unless the id was known; known rows stay; indexing again or pulling those lines adds nothing |
| `Stores.Store.ReindexForced` | packages/cli/src/commands/reindex.ts:90-180 | the loop rebuilds the table from the lines that embed, last wins, and counts the rest as failures |
| `Stores.RebuildAgreesIff` | packages/cli/src/commands/reindex.ts:139-152 | a rebuild in which embeddings fail keeps live what pulling does iff of each deleted entry no line embeds or the last that does is a tombstone, and of every other entry some line embeds |
| `Stores.RebuildThenBootLiveIff` | packages/cli/src/daemon/outbox-index.ts:111-140 | after a rebuild and boot indexing an entry is live iff its last logged line is live, or the log lacks it and a live line is queued: a queued tombstone counts only once it is pulled |
| `Protocol.SplitRoundTrip` | packages/cli/src/daemon/protocol.ts:170-223 | the pieces a stream is split into are free of newlines and make up the stream again |
| `Protocol.OneFramePerLine` | packages/cli/src/daemon/protocol.ts:170-223 | each complete line is processed once or refused once when over 1 MiB, in order; an unterminated tail is refused once when too long |
| `Protocol.FramesAreFinal` | packages/cli/src/daemon/protocol.ts:179-192 | what was said about a stream stands whatever bytes follow |
| `Protocol.LineFramer.OnData` | packages/cli/src/daemon/protocol.ts:170-225 | after any chunk, what was said is what the whole stream means, and at most 1 MiB is buffered |
| `Protocol.LineFramer.Accumulate` | packages/cli/src/daemon/protocol.ts:176-196 | a part without newline is kept, or the line refused once and dropped |
| `Protocol.LineFramer.CompleteLine` | packages/cli/src/daemon/protocol.ts:197-221 | a newline completes the line, or ends one that is too long |
| `Protocol.LineFramer.Enqueue` | packages/cli/src/daemon/protocol.ts:99-107 | hands over to a waiting consumer or queues; delivered and queued items are what was enqueued, in order |
| `Protocol.LineFramer.NextItem` | packages/cli/src/daemon/protocol.ts:109-116 | gives the oldest queued item, or waits |
| `Protocol.LineFramer.ProcessLine` | packages/cli/src/daemon/protocol.ts:122-163 | one response or one request for a line, nothing for a blank one |
| `Protocol.EveryLineAnswered` | packages/cli/src/daemon/protocol.ts:122-221 | for every stream the peer gets one payload_too_large for each line over 1 MiB, an unfinished one included, and the parser's response for each line it refuses; the consumer gets the request of each line it accepts; both in order, so every line that is too long or not blank is answered once |
| `Protocol.AnsweredInPlace` | packages/cli/src/daemon/protocol.ts:122-163 | the answer to a line comes right after the answers to the lines before it |
| `Protocol.Feed` | packages/cli/src/daemon/protocol.ts:88-252 | for any cut of a stream into chunks the trace is that of the stream: the responses and requests its lines call for |
| `ManagedBlock.FindCleanMarkerPairs` | packages/cli/src/commands/init.ts:191-210 | the cursor loop computes the scan |
| `ManagedBlock.ScanIsClean` | packages/cli/src/commands/init.ts:172-210 | reported pairs are in order and apart, each a begin marker closed by the next end marker with no begin marker between |
| `ManagedBlock.LeftOutIsBehindStray` | packages/cli/src/commands/init.ts:172-190 | where the scan ends, any further clean pair comes after a begin marker that nothing closes cleanly |
| `ManagedBlock.ManagedFile.Upsert` | packages/cli/src/commands/init.ts:212-275 | created, unchanged, replaced, deduped, migrated with backup, or appended; a dry run reports the same and writes nothing |
| `ManagedBlock.OutcomeIff` | packages/cli/src/commands/init.ts:219-274 | clean pairs come first; migrated iff there are none and both fingerprints and the heading occur; appended otherwise; unchanged iff rewriting changes nothing; deduped counts the pairs |
| `ManagedBlock.MigratesSection` | packages/cli/src/commands/init.ts:242-268 | a migration puts the block in place of the section from its heading to the next top-level heading, one newline before it if there was any and one behind it if something follows, and keeps the rest |
| `ManagedBlock.AppendsAfterBlankLine` | packages/cli/src/commands/init.ts:271-274 | an append keeps the text and adds just the newlines that a blank line before the block takes |
| `ManagedBlock.ReplaceSettles` | packages/cli/src/commands/init.ts:222-240 | replacing keeps the text outside the outermost pair but for one newline |
| `ManagedBlock.SecondRunIsUnchanged` | packages/cli/src/commands/init.ts:212-275 | with clean pairs or no begin marker, one run leaves exactly one clean pair and the second run changes nothing, legacy migration included |
| `ManagedBlock.CreatedIsUnchanged` | packages/cli/src/commands/init.ts:215-218 | a created file is left alone by the next run |
| `ManagedBlock.SecondRunUnchangedIff` | packages/cli/src/commands/init.ts:212-275 | the second run is unchanged iff the first found a clean pair, or migrated a section and kept no begin marker before it and no clean pair behind it, or found neither section nor begin marker |
| `ManagedBlock.StrayGrowsForever` | packages/cli/src/commands/init.ts:271-274 | a begin marker nothing closes makes the file grow by a block on every run |
| `Layout.PlanBranchMigration` | packages/cli/src/commands/cortex-migrate-layout.ts:131-236 | the planner's loops number canonical pages, pages from elsewhere and the legacy file consecutively after the flat pages |
| `Layout.RunMovesIff` | packages/cli/src/commands/cortex-migrate-layout.ts:270-289 | renames with distinct sources and targets all go through iff each target is free in its turn, and then every file sits at its target with its content and nothing else changed |
| `Layout.Worktree.ApplyPlan` | packages/cli/src/commands/cortex-migrate-layout.ts:244-290 | duplicate targets stop it before any change; otherwise the git mv's in order, highest renumbering first and each by way of a staging name, up to the first that fails, which leaves what was done |
| `Layout.Worktree.RenameStaged` | packages/cli/src/commands/cortex-migrate-layout.ts:270-280 | goes through iff the source is there and staging name and target are free; with only the target taken the file is left at its staging name; otherwise nothing changes |
| `Layout.ThroughStagingIff` | packages/cli/src/commands/cortex-migrate-layout.ts:267-280 | renames by way of staging names go through iff they would at once and the staging names are free, with the same result |
| `Layout.RunConserves` | packages/cli/src/commands/cortex-migrate-layout.ts:270-290 | no run of renames, completed or not, loses a file, overwrites one or makes one up |
| `LayoutResult.MigrationIff` | packages/cli/src/commands/cortex-migrate-layout.ts:131-290 | a migration goes through iff no plain name is taken, no page has to move onto one that precedes it, and no staging name is taken; contents are then conserved |
| `LayoutResult.PagesKeepOrder` | packages/cli/src/commands/cortex-migrate-layout.ts:157-220 | afterwards pages ascend and hold flat pages, then the branch's own, then others, each in order |
| `LayoutResult.PlainFilesKeepNames` | packages/cli/src/commands/cortex-migrate-layout.ts:186-230 | afterwards every listed file without a number is in the directory under its own name with its content, and every other file without a number, and every file at a staging name, is as it was |
| `LayoutResult.RelistedIsListedIff` | packages/cli/src/commands/cortex-migrate-layout.ts:131-155 | a second planning run finds the result and nothing left outside, iff the page numbers still have six digits |
| `LayoutResult.ReplanIsNullIff` | packages/cli/src/commands/cortex-migrate-layout.ts:231-233 | planning again finds nothing to do iff the flat pages were numbered 1, 2, 3, ... |
| `LayoutStops.MovingDownBlocks` | packages/cli/src/commands/cortex-migrate-layout.ts:267-280 | files on which a migration stops with page 5 at its staging name, and migrating again goes through without that page |
| `LayoutStops.BlockedMigration` | packages/cli/src/commands/cortex-migrate-layout.ts:265-280 | a page that has to move onto a preceding one ends the migration: the pages above it are renumbered, it stands at its staging name with its content, every other file is where it was |
| `LayoutStops.VanishesIff` | packages/cli/src/commands/cortex-migrate-layout.ts:244-290 | no migration loses content, but while page numbers have six digits one takes a page out of the planner's and readers' view iff targets are distinct, some page has to move onto a preceding one, and no staging name of that page or one above is taken |
| `LayoutStops.FirstTimeVanishesIff` | packages/cli/src/commands/cortex-migrate-layout.ts:244-290 | with no staging name taken: iff targets are distinct and some page has to move onto a preceding one |
| `LayoutStops.NextListing` | packages/cli/src/commands/cortex-migrate-layout.ts:131-170 | planning again finds the pages before that one and the renumbered pages above it, but not the page |
| `LayoutStops.OutOfViewForever` | packages/cli/src/commands/cortex-migrate-layout.ts:244-290 | however often the layout is migrated again, a file at a staging name is never planned, moved or overwritten |
| `ActivitySeq.RecomputeRanks` | packages/cli/src/db/activity-seq.ts:30-62 | recompute numbers the live rows exactly 1..n in (ts, id) order and clears the deleted ones |
| `ActivitySeq.RecomputeDependsOnLive` | packages/cli/src/db/activity-seq.ts:3-12 | tables with equal live rows number them alike |
| `ActivitySeq.RecomputeIdempotent` | packages/cli/src/db/activity-seq.ts:22-24 | recomputing twice is recomputing once |
| `ActivitySeq.LiveNumbersStayDistinct` | packages/cli/src/db/activity-seq.ts:78-84 | no two live rows share a number after any inserts, deletes, rebuilt rows and recomputes |
| `ActivitySeq.InsertMatchesRecomputeIff` | packages/cli/src/db/activity-seq.ts:65-84 | stamping a new row is as good as recomputing iff it comes after all live rows |
| `ActivitySeq.InOrderNeedsNoRecompute` | packages/cli/src/db/activity-seq.ts:65-84 | rows arriving in order never need a recompute |
| `ActivitySeq.MemoryTable.AssignNextSeq` | packages/cli/src/db/activity-seq.ts:78-84 | one more than the highest live number, 1 when there is none |
| `ActivitySeq.MemoryTable.BackfillIfNeeded` | packages/cli/src/db/activity-seq.ts:100-113 | recomputes iff a live row has no number, and then none lacks one |
| `ActivitySeq.InsertedRow` | packages/cli/src/daemon/pull-loop.ts:536-568 | a new row, tombstoned or not, gets the number after the highest live one and no other row changes; a known id changes nothing |
| `ActivitySeq.NumbersStick` | packages/cli/src/db/activity-seq.ts:65-84 | a number stays with its row, through its deletion too, until the row is rebuilt or all are recomputed |
| `ActivitySeq.LacksNumberIff` | packages/cli/src/db/activity-seq.ts:86-113 | after any changes of an empty table a live row lacks a number, so that a backfill runs, iff it was rebuilt and since then neither touched nor recomputed |
| `CurateRetros.NoOscillation` | packages/cli/src/commands/curate-retros.ts:297-361 | over any passes without a new recall, under a limit that keeps pace, the passes after which a retro is promoted are consecutive |
| `CurateRetros.NoOscillationIff` | packages/cli/src/commands/curate-retros.ts:312-344 | curation cannot oscillate iff from no pass a to a later pass b the limit grows by more than b - a, except up to b |
| `CurateRetros.PassMovesOneWay` | packages/cli/src/commands/curate-retros.ts:297-361 | no retro is promoted and relegated in one pass |
| `CurateRetros.FlagAfterPassIff` | packages/cli/src/commands/curate-retros.ts:297-361 | after a pass a retro that was not merged away is promoted iff it was or is worthy, and it was never recalled or fewer runs than the limit are recorded since; a merged one keeps its flag; the run is recorded |
| `CurateRetros.NeverRecalledStays` | packages/cli/src/commands/curate-retros.ts:337-344 | a retro that was never recalled is never relegated |
| `CurateRetros.FastRiseOscillates` | packages/cli/src/commands/curate-retros.ts:312-344 | wherever it grows faster, some retro goes down under the lower limit and up again under the higher one, with increasing run times |
| `CurateRetros.DedupeTombstones` | packages/cli/src/commands/curate-retros.ts:255-280 | a dedupe pass tombstones exactly the younger sides of equivalent pairs |
| `CurateRetros.DedupeCounts` | packages/cli/src/commands/curate-retros.ts:255-280 | each retro counts one occurrence more for every equivalent pair that keeps it, the older of the two, or the first when they are of one age |
| `CurateRetros.OlderOneStays` | packages/cli/src/commands/curate-retros.ts:261-265 | unless three live retros share a creation time, following the merges from any retro leads to one that stays and is no younger |
| `CurateRetros.AllSavedIff` | packages/cli/src/commands/curate-retros.ts:261-265 | no verdicts can merge a retro away without one that stays iff no three live retros share a creation time |
| `CurateRetros.CircleVanishes` | packages/cli/src/commands/curate-retros.ts:261-265 | three of the same age, judged equivalent in a circle, are all merged away |
| `CurateRetros.Curator.RunCurationPasses` | packages/cli/src/commands/curate-retros.ts:210-365 | the loops merge, promote, relegate and record as specified, and report the equivalent pairs and the flags that went up and down; a dry run changes nothing |
| `ChainWalk.ClimbIsSimple` | packages/cli/src/commands/recall.ts:72-86 | a walk from a head visits no event twice, so it ends, whatever the links |
| `ChainWalk.ChainsDisjoint` | packages/cli/src/commands/recall.ts:66-94 | chains from different heads share no event |
| `ChainWalk.PrintedIff` | packages/cli/src/commands/recall.ts:58-86 | an event is printed iff it supersedes nothing, or its parent is present, printed and linked to it |
| `ChainWalk.RootlessNeverPrinted` | packages/cli/src/commands/recall.ts:66-67 | cycles and events whose ancestor is gone are never printed |
| `ChainWalk.LosingBranchNeverPrinted` | packages/cli/src/commands/recall.ts:60-63 | an event is not printed when its parent is linked to another |
| `ChainWalk.EarlierRivalNeverPrinted` | packages/cli/src/commands/recall.ts:60-63 | of two events superseding one, the earlier in the index is never printed |
| `ChainWalk.DeepHistoryVanishesIff` | packages/cli/src/commands/recall.ts:46-56 | when only the newest event of a history was found, it is printed iff the history has at most 22 events |
| `ChainWalk.PrintChain` | packages/cli/src/commands/recall.ts:72-86 | the walk ends with a full chain from the head |
| `ChainWalk.RenderLongTermEvents` | packages/cli/src/commands/recall.ts:32-95 | one full chain for each event that supersedes nothing |
| `ChainWalk.PrintedIsInAChain` | packages/cli/src/commands/recall.ts:66-94 | the chains hold exactly the printed events |
| `ChainWalk.FetchAncestors` | packages/cli/src/commands/recall.ts:35-56 | stopping the rounds early gives the same index as all 20 |
| `ChainWalk.AncestorsIff` | packages/cli/src/commands/recall.ts:35-56 | the index holds exactly the given events and what is at most 21 supersedes links above one of them |
| `Migrations.RunKeepsPrefix` | packages/cli/src/db/migrate.ts:25-38 | a run that stops anywhere leaves a version-sorted prefix, each migration applied once |
| `Migrations.PrefixOfOrder` | packages/cli/src/db/migrate.ts:17-23 | such a schema is a prefix of all versions in ascending order |
| `Migrations.FailedRunsResume` | packages/cli/src/db/migrate.ts:8-39 | after any failed or crashed starts of releases in any order, downgrades included, the schema is a version-sorted prefix; a start that gets through equals one clean run over its list and what newer releases had applied |
| `Migrations.LateVersionSkippedIff` | packages/cli/src/db/migrate.ts:17-23 | a full run equals a clean one iff every version not yet applied is higher than all applied |
| `Migrations.Database.RunMigrations` | packages/cli/src/db/migrate.ts:8-39 | applies and records the pending versions in order up to the first that fails or the death of the process; one that fails is neither applied nor recorded |
| `Migrations.Database.PendingVersions` | packages/cli/src/db/migrate.ts:17-23 | filtering and sorting gives the missing versions in ascending order |
| `Recall.OlderNeverOutscores` | packages/cli/src/daemon/recall.ts:1557-1565 | at equal cosine of either sign recency never ranks the older above, never changes the sign and never exceeds the cosine |
| `Recall.OlderRowNeverOutscores` | packages/cli/src/daemon/recall.ts:1545-1583 | nor do equal curator and context terms change that |
| `Recall.ScoreTerms` | packages/cli/src/daemon/recall.ts:1566-1583 | a promoted retro scores the boost more than the same row uncurated, a relegated one the penalty less, a row of the active context its boost more |
| `Recall.PlainScore` | packages/cli/src/daemon/recall.ts:1545-1565 | without these a row scores its cosine times the weight of its distance, all of it when it is the newest or has no number |
| `Recall.BetterOffIsKept` | packages/cli/src/daemon/recall.ts:1566-1583 | of two rows alike in all else the better curated one scores higher and is never cut off in favour of the other |
| `Recall.TopOutranksRest` | packages/cli/src/daemon/recall.ts:1679-1683 | nothing cut off outranks anything kept |
| `Recall.TakeTop` | packages/cli/src/daemon/recall.ts:1679-1683 | sorting and cutting gives the n best of the pool, best first |
| `Recall.RankAndFilter` | packages/cli/src/daemon/recall.ts:1679-1690 | after sorting and cutting exactly the entries stay, in order, that no excluded source selects and some included one does when there are any, whose tier is not excluded and is included when there are any, and quarantined ones only with the flag |
| `Recall.ApplyFilters` | packages/cli/src/daemon/recall.ts:226-250 | exactly the allowed entries survive, in their order |
| `Recall.SelectorMeans` | packages/cli/src/daemon/recall.ts:207-211 | "peer" selects every peer: provenance, "proxy" every proxy: one, any other selector only itself |
| `Recall.FirstRuleDecides` | packages/cli/src/daemon/recall.ts:341-356 | the first rule that applies gives the tier, untrusted when none does |
| `Recall.TierIs` | packages/cli/src/daemon/recall.ts:341-356 | under the user's own rules the tier is that of the first rule that is "*" or selects the provenance, untrusted when there is none |
| `Recall.DefaultRulesTrustSelf` | packages/cli/src/daemon/recall.ts:311-325 | without configured rules exactly the entries of provenance self are trusted, all others untrusted |
| `Recall.RecallOneCortexWithVec` | packages/cli/src/daemon/recall.ts:1370-1600 | the scored pool of one cortex is what search, hiding and floor leave |
| `Recall.SearchIff` | packages/cli/src/daemon/recall.ts:1292-1387 | the search finds rows with a vector only, under a metadata filter only current rows that meet it, at most five times the limit when rows are numbered and the limit otherwise; a row it misses is no nearer than any it finds |
| `Recall.PoolIff` | packages/cli/src/daemon/recall.ts:1399-1449 | the pool holds exactly the scored rows found that are current, meet the filters and reach the floor, which counts unless a metadata filter is on and the caller gave none, or it is -1 or less |
| `Recall.ConstrainedCount` | packages/cli/src/daemon/recall.ts:1370-1457 | with a metadata filter and no explicit floor the count is the smaller of limit and matching embedded rows, whatever the query |
| `Recall.PoolCortexes` | packages/cli/src/daemon/recall.ts:1803-1825 | a federated recall pools all cortexes that answer |
| `Recall.PartInPlace` | packages/cli/src/daemon/recall.ts:1803-1825 | the pool holds the entries of the cortexes one behind the other and nothing else |
| `Recall.HiddenRowsCrowdOutIff` | packages/cli/src/daemon/recall.ts:1384-1400 | a recall without filter and floor returns as many shown rows as it should whatever the cosines iff it should return none or the search limit has room for all hidden rows beside them |
| `Recall.CrowdedOut` | packages/cli/src/daemon/recall.ts:1429-1436 | without that room, cosines that put the hidden rows first make it come up short |

## Left out

- The legacy worktree drain (`packages/cli/src/daemon/push-debouncer.ts:560-849`): `git switch`, rebase and union merges of a shared worktree; the plumbing path is the default.
- The commit that creates a cortex on a new machine, and commits other processes make on the same clone's local branch during a drain: a local branch moves only by the drain, a reset or a checkout.
- History rewritten on origin, and merges: a branch is a linear history that only grows, as every writer here pushes fast-forwards only.
- Pages.AppendKeepsLinesIff: states the loss a failed listing or read of the tree causes for one append; the runs of the replication model assume that a branch's pages are read back faithfully.
- Entries' `topics`, `source_ids`, `supersedes` and `origin_peer_id`: carried along by every reader and writer without a decision depending on them.
- PullCoverage.StopAndRerun: the interrupted cycle and the rerun see the same clock, which matters only to lines without a timestamp.
- PullLoop.Loop.FetchAndIngest: one cycle at a time; the second chain of cycles that an interrupt during a running cycle starts, and the embedding awaited between the existence check and the insert, are not interleaved.
- When a deletion happened: the first tombstone seen sets the time, so only deletedness is compared across peers.
- Debouncer.OneNotifyIsEnough: counts a drain with `skipPush` as one that removes its rows; where their lines are then is the subject of `Runs.SkipRemovalKeepsIff`.
- Real time: debounce delays, back-off and poll intervals are arbitrary interleavings.
- `processLine`'s JSON rules and UTF-8 decoding: the parser is any function of the line's bytes. Listeners' removal after the consumer stops is not modelled.
- Layout: canonical pages sit directly in the branch's directory; deeper directories below it, removal of emptied directories, and the commit and push afterwards are not modelled. A failing `git mv` for other reasons than a missing source or a taken target is not modelled.
- LayoutStops.VanishesIff: speaks of migrations whose page numbers stay within six digits; a page numbered past 999999 goes out of view as `LayoutResult.RelistedIsListedIff` says.
- ManagedBlock.SecondRunUnchangedIff: takes both markers to start with the same character, as the HTML comments of both templates do.
- Runs.LostForever: speaks of live lines; a lost tombstone line is written again when another replica deletes the entry.
- Runs: rebuilding the index is not a step of a run; `Stores.RebuildAgreesIff` and `Stores.RebuildThenBootLiveIff` say what one does to an index.
- ActivitySeq: timestamps and ids stand for their places in SQLite's collation order.
- CurateRetros: the value signal and its weights are the set of retros a pass finds worthy; recorded dedupe verdicts and the choice of candidate pairs are inputs. Every pass is later than all recorded runs and recalls; two runs in the same millisecond, which the table counts once, are not among the runs considered.
- ChainWalk: heads are taken in index order, not sorted by time; titles, topics and colours are not modelled.
- Recall: the full-text fallback, JSON of topics, and provenance derivation from an episode key. Ties of the search engine's ordering may fall either way.
- Schema contents, FTS5, sqlite-vec and the embedding model: abstract.
- Compaction, supersession and curation by a language model: their verdicts are inputs or absent.
- Configuration, README generators, the dashboard, servers, hooks, updates and command-line parsing: they would add only easy members.
