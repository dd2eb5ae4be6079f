# Verified models of a git client's core

This project models the parts of the application's C++ core whose correctness depends on several
functions, threads or processes together, and proves what they keep over every input and every run.
Each module stands for one component:

| module | component |
|---|---|
| `SessionRefresh`, `SessionProgress`, `SessionEvents` | refresh requests, dispatches, the publish gate and coverage in `Session` |
| `Scanner`, `ScannerRuns`, `ScanCompletes`, `ScanIncremental`, `ScanPaths`, `ScanSeries`, `ScanOutcomes`, `RepoIndex`, `Like` | the discovery scan, its workers, and the repository index it fills |
| `Askpass` | the credential prompt handshake between the application and git's askpass clients |
| `CatFile`, `CatFileRecords`, `Watchdog`, `CatFileRuns` | the `git cat-file --batch` client, its framing and its deadline |
| `Cancellation` | cancellation tokens and their callbacks |
| `Lru` | the byte-bounded cache of `DiffService` |
| `RawRecords`, `LogCounts`, `Numstat` | the `--raw -z` and `--numstat -z` readers of `DiffService` |
| `ConflictMarkers`, `ConflictRoundTrip`, `ConflictFiles`, `ConflictUnion` | the conflict marker parser and the batch of conflicted paths |
| `HistoryWalk` | the history walk's rows and its publish schedule |
| `Utf8` | UTF-8 repair and bounded truncation |

Concurrent components have two layers. A class holds the fields that a lock guards, with one method
per critical section, each proved against a function on values. A step function then interleaves
those functions with timers, tasks, other threads and other processes, and the theorems speak about
every run of it. Sequential components are methods with loops proved against recursive functions,
and the theorems are about those functions.

## What the proofs found

- A refresh request can be lost. `finishRefresh` decides `arm(0)` under the lock and carries it out
  later; if a younger request's `arm(kDelay)` comes in between, the timer fires before that request's
  quiet period is over, the callback returns, and nobody arms the timer again
  (src/capi/Session.cpp:335-369). `LostRequestRun` is such a run, `QuietLostIff` says that exactly
  this step breaks the promise, and `NoRequestLost` that nothing else does. A request that is not lost
  can always still be dispatched and answered (`RequestsAreCoveredIff`, `EveryRequestIsAnswered`).
- Resetting a registration is meant to keep its callback from outliving what it captures
  (src/core/base/CancellationToken.h:48-55). Once `cancel` has swapped the list out, the reset returns
  while the callback is still to run: `ResetStopsItsCallbackIff`, `LateResetRun`.
- GRAPH_UPDATED is emitted after the lock is released (src/capi/Session.cpp:538-552), so a superseded
  walk's `complete:true` can still arrive after a newer dispatch published its refs.
  `CompletionIsCurrentIff` gives the exact condition and `LateCompletionRun` a run.
- The header of the conflict parser says an assembled file can never contain a marker line
  (src/core/git/ConflictMarkerParser.h:46-50). The code keeps a nested opening marker in `ours`, stray
  markers in text, and a malformed file as it is; `NoMarkerEchoedIff` says, for every file, exactly when
  the promise holds.
- Doubling is said to keep the publishing cost linear (src/core/git/HistoryProvider.cpp:194-195). The
  increment is capped, so the factor of two that doubling gives holds exactly up to two full chunks
  (`CostWithinTwiceIff`) and every walk of three full chunks exceeds it (`LongWalksCopyMore`). What
  keeps the cost linear after that is the builder's limit of 2,000,000 rows: the factor stays within
  ten (`CostIsLinearWithinTheLimit`).
- A directory whose listing breaks part-way is taken for fully listed. The loop tests the error only
  while the iterator is not at its end (src/core/discovery/Scanner.cpp:214-218), and an iterator that
  reports an error is at its end. So the scan stores a signature for the part it saw:
  `SignaturesAreWholeIff` says when the stored signatures are true, `BrokenListingOutcome` that a Full
  scan marks live rows in the part it did not see missing, and `BrokenListingIsNotRetried` that the
  next Incremental scan prunes the directory instead of listing it again.
- A changed file whose path starts with "COMMIT " is taken for a commit header
  (src/core/git/DiffService.cpp:398-406): `CountsAreOwnIff`, `MisleadingPathIsCounted`.
- `touchReposUnder` asks for no separator after its prefix and ignores case
  (src/core/cache/RepoIndexDb.cpp:608-609), so siblings that continue the name are touched too:
  `TouchStaysBelowIff`. A completed scan can then leave a repository live that is gone and that no
  pruned directory contains: `OnlyAccountedRowsLiveIff`, `SiblingStaysLiveRun`.

## Assumptions

- `Session`: the steady clock has passed one delay when a session opens; tasks posted to the pool run.
- Scan, where it is said that nothing on disk goes missing: paths are built on the way down, so a
  directory's path extends its parent's and a repository's work or git directory extends the path it
  was found at, as src/core/discovery/Scanner.cpp:250-260 sees to.
- Scan: a `directory_iterator` that reports an error becomes the end iterator, as the C++ standard
  requires; the file system does not change during one scan, links are not followed, and no other scan of
  the same base folder runs at the same time. A SQL statement and a transaction are atomic.
- Askpass: git runs one client at a time, a prompt is answered at most once and only after it was
  raised, and a client leaves only by taking an answer.
- `LIKE` is modelled as SQLite documents it with `ESCAPE '\'`: ASCII letters compare without case.
- The output of `git cat-file --batch` follows "BATCH OUTPUT" in the git-cat-file manual.

## Model

| member | source | states |
|---|---|---|
| `SessionRefresh.SessionObject.RefreshHistory` | src/capi/Session.cpp:319-333 | a request gets the next number, is recorded as pending (dirty if a run is in flight), and asks for a timer exactly when nothing runs |
| `SessionRefresh.SessionObject.OnTimerFired` | src/capi/Session.cpp:335-352 | a new generation exactly when the quiet period is over and nothing runs, covering every request made so far |
| `SessionRefresh.SessionObject.SetHistoryFilter` | src/capi/Session.cpp:502-512 | always a new generation, which covers and absorbs every request made so far |
| `SessionRefresh.SessionObject.FinishRefresh` | src/capi/Session.cpp:354-369 | a stale generation changes nothing; the current one ends its run and asks for a follow-up exactly when a request was folded in |
| `SessionRefresh.SessionObject.ClaimPublishLocked` | src/capi/Session.cpp:371-377 | the gate lets through only a generation that is not older, and then stands at it |
| `SessionRefresh.SessionObject.PublishRefs` | src/capi/Session.cpp:398-404 | refs are replaced only together with the gate |
| `SessionRefresh.SessionObject.PublishGraph` | src/capi/Session.cpp:535-548 | the graph is replaced only by a walk that passes the gate |
| `SessionRefresh.RunKeepsInv` | src/capi/Session.cpp:300-553 | every interleaving of requests, timer, filter changes and out-of-order tasks keeps the invariant tying generations, coverage, refs, graph and delivered events together, and nothing published goes back |
| `SessionRefresh.PublishGateIsMonotone` | src/capi/Session.cpp:371-406 | in every run the held refs come from dispatch `publishedGeneration_`, and gate, refs and graph only move to newer dispatches |
| `SessionRefresh.CoveredRequestsAreVisible` | src/capi/Session.cpp:300-406 | once REFS_UPDATED with coversRequest >= n was delivered, every later `currentRefs()` was loaded by a read that began after request n |
| `SessionEvents.CoverageByEvents` | src/capi/Session.cpp:300-406 | the same over the events of the run: the refs returned later were loaded by a read whose start comes after the n-th request event |
| `SessionEvents.RefsWereRead` | src/capi/Session.cpp:391-404 | in every run the held refs come from a load event of their own dispatch and carry the number of request events before it |
| `SessionRefresh.ChunkBelongsToHeldRefs` | src/capi/Session.cpp:535-548 | a chunk is published if and only if its dispatch is the one whose refs are held; a superseded walk changes nothing |
| `SessionEvents.AnnouncedChunkWasPublished` | src/capi/Session.cpp:535-553 | every delivered GRAPH_UPDATED was preceded by the publishing of a chunk of the same dispatch with the same `complete` |
| `SessionRefresh.QuietLostIff` | src/capi/Session.cpp:354-369 | the promise that a pending request will be found due survives a step if and only if it is not a late `arm(0)` inside a younger quiet period |
| `SessionRefresh.NoRequestLost` | src/capi/Session.cpp:300-369 | in every run without such a step, no uncovered request is left with nobody to dispatch it |
| `SessionRefresh.EarlyRearmLosesTheRequest` | src/capi/Session.cpp:335-369 | after such a step, letting the timer run always strands the request |
| `SessionRefresh.LostRequestRun` | src/capi/Session.cpp:335-369 | a concrete run from a fresh session that loses a request |
| `SessionProgress.RequestsAreCoveredIff` | src/capi/Session.cpp:300-369 | in every run, the session's own further steps can bring a dispatch that covers every request made so far if and only if the state is not stalled |
| `SessionProgress.EveryRequestIsAnswered` | src/capi/Session.cpp:300-406 | in every run without the losing step, an uncovered request can still be dispatched, loaded and answered by REFS_UPDATED without another request |
| `SessionRefresh.CompletionIsCurrentIff` | src/capi/Session.cpp:535-553 | a delivered graph event speaks for the held refs if and only if no newer dispatch claimed its refs between publish and delivery |
| `SessionRefresh.LateCompletionRun` | src/capi/Session.cpp:535-553 | a concrete run in which a superseded completion is delivered last |
| `Scanner.DirectoryIterator.Increment` | src/core/discovery/Scanner.cpp:209-218 | the next entry, and an error only together with the end |
| `Scanner.Enumerate` | src/core/discovery/Scanner.cpp:194-262 | the listing loop counts every subdirectory it is shown, yields exactly the children the specification descends into, and finds a directory unreadable exactly when opening it failed, never when its listing breaks part-way |
| `Scanner.SignatureByFields` | src/core/discovery/Scanner.cpp:270-280 | what is signed, and when, in terms of the directory's own fields and the number of subdirectories shown |
| `Scanner.BatchesByNumbers` | src/core/discovery/Scanner.cpp:183-190 | a batch is flushed exactly when it has twenty records, and signatures are saved five hundred at a time |
| `Scanner.SharedState.TakeWork` | src/core/discovery/Scanner.cpp:84-98 | work is taken from the front and counted active; leaving is allowed only with an empty queue and nobody active |
| `Scanner.SharedState.Release` | src/core/discovery/Scanner.cpp:100-108 | one worker fewer is active, nothing else changes |
| `Scanner.SharedState.AddRecord` | src/core/discovery/Scanner.cpp:176-183 | the record joins the pending batch and its size is reported |
| `Scanner.SharedState.SwapPending` | src/core/discovery/Scanner.cpp:37-45 | the whole pending batch is handed over and none stays behind |
| `Scanner.SharedState.PublishListing` | src/core/discovery/Scanner.cpp:264-281 | the children join the queue in order, and a signature is kept exactly for a directory with a known time whose listing could be opened, even if it broke part-way |
| `Scanner.SharedState.Fail` | src/core/discovery/Scanner.cpp:147-152 | the failure is recorded and nothing else |
| `ScannerRuns.RunKeepsInv` | src/core/discovery/Scanner.cpp:75-397 | every interleaving of any number of workers, cancellation, failures and the calling thread keeps the accounts of directories, records, rows and signatures |
| `ScannerRuns.NobodyLeavesEarly` | src/core/discovery/Scanner.cpp:82-108 | a worker that leaves an uncancelled, unfailed scan leaves an empty queue and no busy worker |
| `ScannerRuns.CompletedScanFoundAll` | src/core/discovery/Scanner.cpp:82-355 | a completed scan handled the directories of the recursive specification each exactly as often as it occurs, committed exactly the repositories among them and touched exactly the pruned paths |
| `ScanPaths.FoundIffPath` | src/core/discovery/Scanner.cpp:110-262 | a repository is found if and only if a path leads to it from the root: subdirectories that are no placeholders and no links, within the depth limit, none after the root named by the skip rules, none of them a repository or unopenable before the last, and none unchanged since an earlier scan |
| `ScanPaths.FullScanFindsAllPaths` | src/core/discovery/Scanner.cpp:298-397 | after a completed Full scan a repository is live if and only if such a path leads to it |
| `ScanPaths.PrunedIffPath` | src/core/discovery/Scanner.cpp:127-157 | a directory is pruned if and only if a path leads to it on which it is the first unchanged one |
| `ScanPaths.RowsAfterScan` | src/core/cache/RepoIndexDb.cpp:451-619 | the whole table after a completed scan, row by row: found, touched with a pruned directory, missing, or another folder's and untouched |
| `ScannerRuns.LiveRowsAfterScan` | src/core/discovery/Scanner.cpp:131-191 | after a completed scan the live rows of the folder are exactly those found in this run plus previously live rows that match the path of a pruned directory |
| `ScanIncremental.VisitedOrPruned` | src/core/discovery/Scanner.cpp:131-156 | a directory that an unpruned walk visits is visited, or its path extends that of a pruned directory |
| `ScanIncremental.RepositoryOnDiskIsLiveIff` | src/core/discovery/Scanner.cpp:131-156 | after a completed scan, a repository that an unpruned walk would find is live if and only if it was live before or this walk found it |
| `ScanIncremental.NothingOnDiskGoesMissing` | src/core/discovery/Scanner.cpp:134-148 | over every run, completed or not, no live repository that an unpruned walk would find is marked missing |
| `ScannerRuns.FullScanIsExact` | src/core/discovery/Scanner.cpp:316-397 | after a completed Full scan they are exactly those found in this run |
| `ScannerRuns.NothingGoesMissingEarly` | src/core/discovery/Scanner.cpp:349-397 | until the final sweep no live row goes missing, whatever is cancelled or fails; a cancelled scan has committed all it found |
| `ScannerRuns.StoredSignaturesComeFromListings` | src/core/discovery/Scanner.cpp:357-384 | a signature the scan stored is that of a directory it listed, in a walk that ran to completion |
| `ScannerRuns.SignaturesAreWholeIff` | src/core/discovery/Scanner.cpp:203-281 | after a completed scan every stored signature describes directories listed to their end if and only if no listed directory's enumeration broke part-way |
| `ScannerRuns.GenerationsStayOrdered` | src/core/cache/RepoIndexDb.cpp:398-426 | a scan of an index in which no row is ahead of its folder's generation meets the sweep's premise and, however it ends, leaves such an index |
| `ScanCompletes.MovesAreBounded` | src/core/discovery/Scanner.cpp:82-296 | in every run of any number of workers, they take at most ten steps per directory to visit and nine per worker, besides waiting |
| `ScanCompletes.SomeoneCanMove` | src/core/discovery/Scanner.cpp:84-98 | until all workers have left, one of them can do something other than wait |
| `ScanCompletes.EveryRunCanEnd` | src/core/discovery/Scanner.cpp:298-397 | from every state of every run the scan can be brought to its end, and to cancelled = false if nobody cancelled and nothing failed |
| `ScanCompletes.EveryScanCanComplete` | src/core/discovery/Scanner.cpp:298-397 | whatever the tree, the rows and the signatures, some run of the scan ends with cancelled = false |
| `ScanSeries.SeriesKeepsOrder` | src/core/discovery/Scanner.cpp:316-325 | over any series of scans of any folders, each set up from the database the one before left and each ending anyhow, no row gets ahead of its folder's generation |
| `ScanSeries.CompletedScanInSeries` | src/core/discovery/Scanner.cpp:316-397 | after any such series from an empty index, a completed scan leaves live exactly what it found and the live rows it touched under pruned directories |
| `ScanOutcomes.OnlyAccountedRowsLiveIff` | src/core/discovery/Scanner.cpp:131-156 | a completed scan leaves live only rows it found or rows inside a pruned directory, if and only if no other live row strays from a pruned directory's name |
| `ScanOutcomes.SiblingStaysLiveRun` | src/core/discovery/Scanner.cpp:134-155 | a completed Incremental scan that prunes "/a/b" and leaves the vanished "/a/bc" live |
| `ScanOutcomes.SignedIsNotVisitedAgain` | src/core/discovery/Scanner.cpp:131-156 | a stored signature met with the same time keeps everything below the directory unvisited, however the listing went |
| `ScanOutcomes.BrokenListingOutcome` | src/core/discovery/Scanner.cpp:209-281 | every completed Full scan of any tree stores a signature under the key of each listed directory whose listing broke part-way, and marks missing every live row it did not find |
| `ScanOutcomes.BrokenListingIsNotRetried` | src/core/discovery/Scanner.cpp:131-156 | two completed scans in a row, after the second of which the repository is still missing although it is there and the folder can be listed |
| `RepoIndex.RepoIndexDb.BeginScan` | src/core/cache/RepoIndexDb.cpp:398-426 | an unknown folder is an error and changes nothing; a known one gets the next generation |
| `RepoIndex.RepoIndexDb.UpsertRepo` | src/core/cache/RepoIndexDb.cpp:451-497 | a row is inserted, or taken over and brought back if it was missing; no other row changes |
| `RepoIndex.RepoIndexDb.CommitBatch` | src/core/discovery/Scanner.cpp:47-60 | a batch is applied in order |
| `RepoIndex.RepoIndexDb.MarkMissingRows` | src/core/cache/RepoIndexDb.cpp:568-586 | exactly the folder's live rows of older generations become missing, and their number is returned |
| `RepoIndex.RepoIndexDb.TouchReposUnder` | src/core/cache/RepoIndexDb.cpp:588-619 | exactly the folder's rows matched by the escaped prefix advance to the generation |
| `RepoIndex.RepoIndexDb.SaveDirSignature` | src/core/cache/RepoIndexDb.cpp:746-766 | the directory's signature is replaced and no other |
| `RepoIndex.RepoIndexDb.ClearDirSignatures` | src/core/cache/RepoIndexDb.cpp:768-780 | exactly the folder's signatures are removed |
| `RepoIndex.UnderIsPrefix` | src/core/cache/RepoIndexDb.cpp:592-609 | what the pattern matches is decided by case-folded prefixes of the two paths |
| `RepoIndex.UnderIsBelowOrStray` | src/core/cache/RepoIndexDb.cpp:592-609 | the pattern matches the rows at or below the directory and those that stray from its name |
| `RepoIndex.TouchStaysBelowIff` | src/core/cache/RepoIndexDb.cpp:588-619 | a touch with a new generation changes only rows at or below the directory if and only if no row of the folder strays from its name |
| `RepoIndex.SiblingStrays` | src/core/cache/RepoIndexDb.cpp:608-609 | a concrete sibling that does |
| `Like.EscapeLike` | src/core/cache/RepoIndexDb.cpp:600-607 | the loop puts an escape before every metacharacter and keeps everything else |
| `Like.PrefixPattern` | src/core/cache/RepoIndexDb.cpp:592-609 | an escaped prefix and a percent sign match a string if and only if it starts with the prefix up to ASCII case |
| `Like.SubstringPattern` | src/core/cache/RepoIndexDb.cpp:785-806 | an escaped query between percent signs matches if and only if the query occurs in the string up to ASCII case |
| `Like.PatternsByLetters` | src/core/cache/RepoIndexDb.cpp:592-595 | what the wildcards, the escape character and plain letters of a pattern match |
| `Like.HasPrefixByLetters` | src/core/cache/RepoIndexDb.cpp:608-609 | a prefix up to case, letter by letter |
| `Askpass.HandshakeFile.Write` | src/core/git/AskpassHelper.cpp:91-141 | under every sequence of partial, interrupted and failing writes the target appears whole or stays as it was, and it appears exactly when opening, writing all of it, closing and renaming succeed |
| `Askpass.BringsAllIff` | src/core/git/AskpassHelper.cpp:109-122 | a file is written whole if and only if the calls before the first error move enough bytes; interrupted calls are repeated |
| `Askpass.AskpassPoller.Rearm` | src/capi/AskpassPoller.cpp:85-89 | both flags are cleared together |
| `Askpass.AskpassPoller.MarkSeen` | src/capi/AskpassPoller.cpp:90-94 | the request is marked seen and the answer flag kept |
| `Askpass.AskpassPoller.Answer` | src/capi/AskpassPoller.cpp:104-115 | the flag is set exactly when the secret is in the file, which is exactly when every step of writing it succeeds |
| `Askpass.RunKeepsInv` | src/capi/AskpassPoller.cpp:57-115 | every interleaving of poller, user and successive clients keeps files, flags and poller position consistent |
| `Askpass.EveryClientGetsItsOwnAnswer` | src/core/git/AskpassHelper.cpp:153-199 | prompts are raised at most once each and in order, and the n-th client takes the answer to prompt n |
| `Askpass.OnlyThePollerMoves` | src/capi/AskpassPoller.cpp:57-102 | while a prompt is unseen only the poller can move, and each of its steps brings the prompt closer |
| `Askpass.WaitingPromptIsRaised` | src/capi/AskpassPoller.cpp:76-98 | no request stays unseen: at most nine steps of the poller raise it, whatever an earlier answer left behind |
| `CatFile.Pipe.ReadExact` | src/core/git/CatFileBatch.cpp:38-50 | over any split into short reads, exactly the next bytes, or failure exactly when the stream ends before |
| `CatFile.Pipe.ReadLine` | src/core/git/CatFileBatch.cpp:157-175 | the text before the first newline, consumed with it, unless there is none or it is too long |
| `CatFile.Pipe.Drain` | src/core/git/CatFileBatch.cpp:570-582 | over any short reads, exactly the asked number of bytes is discarded |
| `CatFile.ParseSize` | src/core/git/CatFileBatch.cpp:556-564 | a number exactly for a text of digits, with the value a 64-bit word keeps |
| `CatFile.CatFileBatch.ExchangeLocked` | src/core/git/CatFileBatch.cpp:520-601 | outcome, poisoning and position are those of the whole-stream specification, however the stream splits |
| `CatFile.CatFileBatch.AnswerHeader` | src/core/git/CatFileBatch.cpp:534-586 | every header shape is answered as the specification says and only unparseable ones poison |
| `CatFile.CatFileBatch.ReadPayload` | src/core/git/CatFileBatch.cpp:566-601 | content and terminator are consumed, or the oversize payload drained, or the batch poisoned |
| `CatFile.CatFileBatch.Read` | src/core/git/CatFileBatch.cpp:456-499 | a bad or cancelled request touches nothing; a poisoned or dead child is replaced before the exchange; a request that cannot be written or whose child was killed poisons |
| `CatFileRecords.WholeRecord` | src/core/git/CatFileBatch.cpp:520-601 | a whole record followed by anything gives its own outcome, is consumed exactly and keeps the child |
| `CatFileRecords.MissingByLetters` | src/core/git/CatFileBatch.cpp:534-538 | "<name> missing" and a newline is NotFound and consumed exactly |
| `CatFileRecords.AmbiguousByLetters` | src/core/git/CatFileBatch.cpp:539-542 | "<name> ambiguous" and a newline is the ambiguity error and consumed exactly |
| `CatFileRecords.ObjectByLetters` | src/core/git/CatFileBatch.cpp:544-601 | an object's header, content and terminator give its own name, kind and content, or its size when over 128 MiB, and are consumed exactly |
| `CatFileRecords.CutRecord` | src/core/git/CatFileBatch.cpp:520-601 | a record cut short anywhere poisons and claims nothing of another record |
| `CatFileRecords.OneRecordOrPoison` | src/core/git/CatFileBatch.cpp:520-601 | on every conforming or truncated stream the child is kept if and only if the first record is whole, and the stream then stands at the next |
| `Watchdog.Impl.Arm` | src/core/git/CatFileBatch.cpp:68-75 | the clock is set for this request and an old verdict forgotten |
| `Watchdog.Impl.Disarm` | src/core/git/CatFileBatch.cpp:77-83 | the clock is stopped and the verdict reported |
| `Watchdog.Impl.Watch` | src/core/git/CatFileBatch.cpp:233-249 | the child is killed exactly when a deadline is set and has passed, and the deadline is then cleared |
| `Watchdog.FiresExactlyWhenOverdue` | src/core/git/CatFileBatch.cpp:233-249 | in every run the watchdog can fire if and only if a request is in flight, its child was not killed for it, and its deadline counted from its arming has passed; so no kill comes early |
| `Watchdog.NotKilledAtOnce` | src/core/git/CatFileBatch.cpp:241-246 | a concrete request that is killed at its deadline and not before |
| `Watchdog.KillsAreChargedOnce` | src/core/git/CatFileBatch.cpp:472-499 | in every interleaving the watchdog fires only while a request is armed, a request reports Timeout if and only if its child was killed for it, and no later request is given that child |
| `Watchdog.TimeoutReplacesTheChild` | src/core/git/CatFileBatch.cpp:486-497 | the request after a Timeout starts a new child |
| `CatFileRuns.AnswersBelongToTheirRequests` | src/core/git/CatFileBatch.cpp:472-601 | in every interleaving of requests, failed writes, watchdog and dying children, each request is told its own record's outcome, or poisons and tells nothing of any record, and it is a Timeout if and only if a child was killed for it |
| `Cancellation.CancellationState.OnCancel` | src/core/base/CancellationToken.h:107-121 | a callback is listed under a new id, or must run at once exactly when cancellation already happened |
| `Cancellation.CancellationState.RemoveCallback` | src/core/base/CancellationToken.h:23-30 | exactly the entry with this id leaves the list |
| `Cancellation.CancellationState.Cancel` | src/core/base/CancellationToken.h:136-148 | the first cancel takes the whole list, a later one nothing |
| `Cancellation.CallbacksRunOnce` | src/core/base/CancellationToken.h:100-148 | over every interleaving of registrations, moves, resets and cancels a callback runs at most once, and in the end exactly those the swap found or that came later |
| `Cancellation.RegistrationTakesEffect` | src/core/base/CancellationToken.h:107-121 | in any state a registration is held and listed, or is to be run at once, depending on cancellation alone |
| `Cancellation.HeldCallbackIsSwapped` | src/core/base/CancellationToken.h:136-148 | a callback held when cancel comes is among those it runs |
| `Cancellation.DueStaysDue` | src/core/base/CancellationToken.h:136-148 | a callback that is to be run is run or still to be run after any step |
| `Cancellation.CancelledForever` | src/core/base/CancellationToken.h:136-148 | the swap takes the list of that moment; afterwards the list stays empty and the swap is never repeated |
| `Cancellation.ResetRemovesOnlyItsOwn` | src/core/base/CancellationToken.h:62-98 | a reset leaves every other registration's callback listed |
| `Cancellation.ResetStopsItsCallbackIff` | src/core/base/CancellationToken.h:48-61 | after a reset the callback the handle held has run or can still run if and only if cancellation had already swapped it out |
| `Cancellation.LateResetRun` | src/core/base/CancellationToken.h:136-148 | a concrete run in which a callback runs after its reset |
| `Lru.LruByBytes.Get` | src/core/git/DiffService.h:106-114 | the specification's value and its move to the front, with list, map and total kept consistent |
| `Lru.LruByBytes.Put` | src/core/git/DiffService.h:116-135 | the specification's replacement and eviction, within budget, with list, map and total kept consistent |
| `Lru.PutKeepsIff` | src/core/git/DiffService.h:116-135 | an entry under another key survives a put if and only if the new entry and the entries up to it fit the budget, and then keeps its place behind those |
| `Lru.LookupFinds` | src/core/git/DiffService.h:106-114 | a lookup finds the one entry with the key, and nothing exactly when there is none |
| `Lru.GetMovesToFront` | src/core/git/DiffService.h:106-114 | a get puts what it finds in front and leaves the rest in order |
| `Lru.TwoPuts` | src/core/git/DiffService.h:116-135 | two puts that fit together are both there, the later first |
| `Lru.LruByBytes.Evict` | src/core/git/DiffService.h:127-134 | the loop keeps what `Trim` keeps and ends within budget |
| `Lru.LruByBytes.Clear` | src/core/git/DiffService.h:137-142 | an empty and consistent cache |
| `Lru.TrimIsLongestFittingPrefix` | src/core/git/DiffService.h:127-134 | eviction keeps the longest prefix of the most recent entries that fits the budget |
| `Lru.CacheHoldsLastPuts` | src/core/git/DiffService.h:101-166 | after any run of get, put and clear: within budget, one entry per key, and each entry is the last one put under its key |
| `Lru.PutIsRememberedIff` | src/core/git/DiffService.h:106-135 | a put is found again if and only if it fits the budget, with the value put |
| `Lru.OrderIsRecency` | src/core/git/DiffService.h:106-135 | after any run the list is in order of last use, so evictions drop what was used longest ago |
| `RawRecords.SplitWords` | src/core/git/DiffService.cpp:149-160 | the words between blanks, an empty last one dropped |
| `RawRecords.ReadMeta` | src/core/git/DiffService.cpp:136-181 | leading newlines are skipped, anything but a metadata record of five words is refused, and status and score are decoded |
| `RawRecords.ParseRawRecords` | src/core/git/DiffService.cpp:131-198 | the loop over any slice reads what the specification reads, in two or three fields per entry and with a truncated tail |
| `RawRecords.MetaReadBack` | src/core/git/DiffService.cpp:136-181 | a written metadata record reads back as written, after any newlines |
| `RawRecords.MetaByFields` | src/core/git/DiffService.cpp:136-181 | a metadata line made of its literal parts is read into those fields |
| `RawRecords.StatusLetters` | src/core/git/DiffService.cpp:16-32 | the kind of each status letter, every other letter meaning modified |
| `RawRecords.EntryByFields` | src/core/git/DiffService.cpp:183-196 | one path or two in their order, and what a list that ends too early gives |
| `RawRecords.RenameExample` | src/core/git/DiffService.cpp:119-198 | a rename as git prints it, field by field |
| `RawRecords.ParseInvertsWriting` | src/core/git/DiffService.cpp:120-198 | parsing inverts writing for every list of changed files, renames and copies included |
| `LogCounts.CommitFileCounts` | src/core/git/DiffService.cpp:394-417 | finding the headers and counting the slices gives one count per header, of the records up to the next |
| `LogCounts.CountsPerHeader` | src/core/git/DiffService.cpp:398-406 | there are as many counts as fields that read like a header |
| `LogCounts.CountsAreOwnIff` | src/core/git/DiffService.cpp:394-417 | every commit gets the length of its own list if and only if no path reads like a header |
| `LogCounts.CountsByNumbers` | src/core/git/DiffService.cpp:407-416 | each count names its commit and is the number of its files, below 2^32 |
| `LogCounts.StreamExample` | src/core/git/DiffService.cpp:394-397 | a stream with one commit, field by field |
| `LogCounts.ColumnAgreesWithPanel` | src/core/git/DiffService.cpp:121-130 | the count shown for a commit is the length of the list its own records give when read alone |
| `LogCounts.MisleadingPathIsCounted` | src/core/git/DiffService.cpp:398-406 | a concrete commit that is counted as two |
| `Numstat.IndexByPath` | src/core/git/DiffService.cpp:250-259 | the index holds exactly the paths, each with its first file |
| `Numstat.AttachLineCounts` | src/core/git/DiffService.cpp:255-306 | the join, in place on the list, does what reading entry by entry does |
| `Numstat.EntryReadBack` | src/core/git/DiffService.cpp:262-290 | a written entry is consumed whole, both paths of a rename included, whatever follows |
| `Numstat.EveryFileGetsItsOwn` | src/core/git/DiffService.cpp:250-306 | for any entries in any order, a file ends with the counts of its own path and of no other |
| `Numstat.NumbersOfTheEntry` | src/core/git/DiffService.cpp:290-305 | the one entry for a path gives the file its first number as added and its second as removed lines; without one the file stays as it is |
| `Numstat.JoinOfBothOutputs` | src/core/git/DiffService.cpp:223-308 | a commit's two outputs give every file the numbers printed for it, 0 where one does not fit 32 bits, and leave binaries and all other fields alone |
| `Numstat.WrittenByFields` | src/core/git/DiffService.cpp:262-288 | an entry's records letter by letter |
| `Numstat.NumbersExample` | src/core/git/DiffService.cpp:296-305 | "3", "1" and a path are three lines added and one removed |
| `ConflictMarkers.SplitKeepingLineEndings` | src/core/git/ConflictMarkerParser.cpp:11-24 | the loop cuts after every newline |
| `ConflictMarkers.JoinSplit` | src/core/git/ConflictMarkerParser.cpp:7-24 | the lines of any file concatenate back to it |
| `ConflictMarkers.SplitJoin` | src/core/git/ConflictMarkerParser.cpp:11-24 | splitting undoes concatenation, whatever the line endings |
| `ConflictMarkers.CollectRegion` | src/core/git/ConflictMarkerParser.cpp:65-108 | the inner loop collects the specification's region and stops after its end, or finds it malformed |
| `ConflictMarkers.ParseFile` | src/core/git/ConflictMarkerParser.cpp:42-125 | the two loops give the specification's segments, region count and verdict |
| `ConflictMarkers.MarkOfLine` | src/core/git/ConflictMarkerParser.cpp:59-93 | what every line is, by its first seven letters, or by being the separator with any line ending |
| `ConflictRoundTrip.AssembleFile` | src/core/git/ConflictMarkerParser.cpp:127-168 | nothing for a missing or unresolved choice, otherwise the chosen lines in order |
| `ConflictRoundTrip.RegionlessFileIsUnchanged` | src/core/git/ConflictMarkerParser.cpp:97-108 | every file with no regions, all malformed ones included, assembles to the identical bytes |
| `ConflictRoundTrip.ParseInvertsRendering` | src/core/git/ConflictMarkerParser.cpp:42-125 | parsing inverts marker rendering for every normalised list of segments, with or without base, any line ending, with or without final newline |
| `ConflictFiles.ParseFindsThePieces` | src/core/git/ConflictMarkerParser.cpp:42-125 | the same for files written with the literal markers, any labels and line endings |
| `ConflictFiles.RegionByLines` | src/core/git/ConflictMarkerParser.cpp:65-121 | a file of nine lines with all four markers: which line is whose |
| `ConflictFiles.ChoosingASide` | src/core/git/ConflictMarkerParser.cpp:138-167 | choosing ours, theirs or own lines for a conflict leaves those between the text before and after |
| `ConflictFiles.ChoiceByLines` | src/core/git/ConflictMarkerParser.cpp:148-165 | the bytes that choosing leaves of the nine-line file |
| `ConflictRoundTrip.ResolvingARenderedFile` | src/core/git/ConflictMarkerParser.cpp:42-168 | parsing and assembling a rendered file gives its text and each region's chosen side, without the marker lines, and nothing exactly when a choice is missing, surplus or undecided |
| `ConflictRoundTrip.MalformedFileIsEchoed` | src/core/git/ConflictMarkerParser.cpp:97-108 | every malformed file has a marker line and assembles to itself, marker included |
| `ConflictRoundTrip.NoMarkerEchoedIff` | src/core/git/ConflictMarkerParser.h:46-50 | for every file, no choice brings a marker line into the assembled file, as split again into lines, if and only if the file's markers come in order and every region ends |
| `ConflictRoundTrip.NestedMarkerIsEchoed` | src/core/git/ConflictMarkerParser.cpp:77-95 | a concrete file that, resolved to ours, assembles to a marker line |
| `ConflictUnion.ConflictBatch.Merge` | src/core/git/ConflictBatch.cpp:22-46 | new paths are appended in order and every state is re-derived from this scan alone |
| `ConflictUnion.ConflictBatch.ResolvedCount` | src/core/git/ConflictBatch.cpp:48-53 | the number of resolved entries, which is all of them if and only if none is unresolved |
| `ConflictUnion.ConflictBatch.AllResolved` | src/core/git/ConflictBatch.cpp:55-57 | true if and only if there are entries and all are resolved |
| `ConflictUnion.EntriesAfterScans` | src/core/git/ConflictBatch.cpp:22-46 | after any series of scans, from a fresh or restored batch, the entries are the union in order of first appearance and the last scan alone decides the states |
| `ConflictUnion.EntriesByScans` | src/core/git/ConflictBatch.cpp:22-46 | entry by entry after any scans: first candidate of its path, in order, unresolved if and only if the last scan reports the path |
| `ConflictUnion.StatesByLastScan` | src/core/git/ConflictBatch.cpp:25-31 | restored entries too are unresolved if and only if the last scan reports their path |
| `ConflictUnion.UnionIsFirstAppearances` | src/core/git/ConflictBatch.cpp:33-45 | the union keeps exactly the first candidate of every path, in order |
| `ConflictUnion.AllResolvedIff` | src/core/git/ConflictBatch.cpp:48-57 | a fresh batch is all resolved if and only if some scan had a conflict and the last had none |
| `HistoryWalk.Sink.Add` | src/core/graph/GraphBuilder.cpp:78-84 | a row is added unless the limit of 2,000,000 rows is reached |
| `HistoryWalk.Sink.AddRecord` | src/core/git/HistoryProvider.cpp:208-235 | in linear mode a row goes in one record late with the next record as its parent |
| `HistoryWalk.Sink.PublishIfDue` | src/core/git/HistoryProvider.cpp:237-262 | exactly when the threshold is reached, or once early on the timer, the row count is appended to the publishes, and the next threshold is the capped increment away |
| `HistoryWalk.Walk` | src/core/git/HistoryProvider.cpp:175-280 | for every walk, the rows are the valid records in order, cut at the limit and in linear mode each with the next row as its only parent; the publishes are exactly the scheduled ones, and the walk does not end past one that was due |
| `HistoryWalk.RecordsAreParsedLines` | src/core/git/HistoryProvider.cpp:203-207 | the records are those of the lines that parsed, in order |
| `HistoryWalk.PublishesKeepSchedule` | src/core/git/HistoryProvider.cpp:237-262 | whatever the lines and the timer, publish points keep the schedule and the rows handed over never reach a publish that did not happen |
| `HistoryWalk.TimerBringsTheFirst` | src/core/git/HistoryProvider.cpp:244-252 | a timer due at a line after which there are rows brings the first publish no later than that line |
| `HistoryWalk.EarlyPublishNeedsTimer` | src/core/git/HistoryProvider.cpp:244-252 | a first publish before 256 rows comes at a line at which the timer was due |
| `HistoryWalk.PublishesIncrease` | src/core/git/HistoryProvider.cpp:237-262 | publish points strictly increase |
| `HistoryWalk.CostWithinTwiceIff` | src/core/git/HistoryProvider.cpp:194-262 | rows copied up to the last publish r are at most 2r if and only if r is within two full chunks |
| `HistoryWalk.LongWalksCopyMore` | src/core/git/HistoryProvider.cpp:194-262 | every walk of at least three full chunks copies more than that, whatever its timer does |
| `HistoryWalk.LongWalkExists` | src/core/git/HistoryProvider.cpp:194-195 | a concrete walk that does |
| `HistoryWalk.CostBounds` | src/core/git/HistoryProvider.cpp:194-262 | in general the cost lies between r^2/(2M) and 2r + r^2/(2M) for the chunk limit M |
| `HistoryWalk.CostIsLinearWithinTheLimit` | src/core/graph/GraphBuilder.h:16-19 | for every walk the cost is at most 10r, because of the row limit |
| `Utf8.SequenceLength` | src/core/base/ExceptionDiagnostic.cpp:83-113 | the length of the one character of section 4 of RFC 3629 that starts here, or 0 if none does |
| `Utf8.CharLengthSpec` | src/core/base/ExceptionDiagnostic.cpp:89-112 | the lead byte and its second-byte range decide the grammar's character length |
| `Utf8.ValidUtf8` | src/core/base/ExceptionDiagnostic.cpp:116-131 | characters are kept and every other byte becomes a question mark |
| `Utf8.RepairedIsWellFormed` | src/core/base/ExceptionDiagnostic.cpp:115-131 | repaired text is well-formed for every byte string |
| `Utf8.RepairKeepsWellFormed` | src/core/base/ExceptionDiagnostic.cpp:115-131 | repair is the identity if and only if the text is well-formed, and idempotent |
| `Utf8.RepairByteByByte` | src/core/base/ExceptionDiagnostic.cpp:115-131 | repair keeps the length and every byte that is part of a character, and puts a question mark in place of every other byte |
| `Utf8.GrammarIsEncoding` | src/core/base/ExceptionDiagnostic.cpp:80-113 | the characters of the grammar are exactly the encodings of the code points that are no surrogates, up to U+10FFFF |
| `Utf8.ScreenSummary` | src/core/base/ExceptionDiagnostic.cpp:217-227 | a well-formed prefix of the repaired text of at most 2048 bytes, all of it if it fits and at least 2045 bytes if it is cut |

## Left out

- The rest of `Session.cpp` and the exported C functions: they forward to operations that are not modelled.
- `Session`: cancellation of a superseded walk, which only ends a task earlier, is one of the ways a task may fail; teardown and tasks dropped by the pool are not modelled.
- `Scanner`: the counters, the progress and batch callbacks, `finishScan`, an unreadable base folder and a signature lookup that fails are not modelled.
- `Scanner`: following links, with its cycle detection by file identity, is not modelled.
- `RepoIndexDb`: columns the scan does not read, migration, probes and the ordering and limit of `search`.
- Askpass: cancel files, timeouts, `stop()`, `isPromptPending` and an answer that cannot be written leave the request behind and are outside the run theorems; file permissions are not modelled.
- `CatFileBatch`: spawning that fails, `readCommits`, commit parsing and the operation log.
- `Cancellation`: tokens without a state, whose registration is always empty.
- Lru.LruByBytes.Put: the running total is unbounded, because entry sizes that add up past 64 bits do not fit in memory.
- `DiffService`: cache keys, running the commands, cutting their output at NUL bytes and turning a commit's hexadecimal name into an id.
- RawRecords.ReadMeta: the similarity score is unbounded, because git prints at most three digits.
- `HistoryProvider`: parsing of one rev-list line, the query arguments, `--max-count` truncation, cancellation inside the sink and the final publish, which copies every row once more.
- `GraphBuilder`: lanes; only its row limit is modelled, at the default that every walk uses.
- `UnifiedDiffParser`, `RefStore`, `ProcessRunner`, `OperationRunner`, blame and file history readers, JSON bodies and error texts.
- The Flutter application, the platform runners and the scripts.
