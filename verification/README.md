# Conveyor: a verified model of the durable broker

Conveyor's broker keeps jobs in a hand-rolled write-ahead log, shares flushes through a group committer, drives jobs
through a state machine by logged events, hands them out under fencing tokens from lazily cleaned heaps, and shortens
its log with snapshots. This project models that code in Dafny and proves what it is for: over every run, any
interleaving and any number of crashes, nothing acknowledged is lost, no token is handed out twice, and no job is
stranded.

## Layout

Each layer is connected to the one above it by a proof.

| module | what it is |
|---|---|
| `Framing` | the record format, the scan, torn tails |
| `Wal` | the segmented log as an object over a directory of files |
| `GroupCommit` | the committer and `Sync` as a protocol of threads, and the committer's own two critical sections |
| `LogRefinement` | what the log object does is a step or run of that protocol; its replay is the record suffix recovery reads |
| `Jobs` | jobs, events, the effect of an event, what the log's folds keep |
| `Recovery` | snapshots gathered field by field, replay, the unlogged release of leases, lived state against folded log |
| `System` | the whole broker as one machine: operations, committer, token reservations, snapshots, deletion, crashes |
| `Runs` | runs put together from steps |
| `Core`, `Durability`, `Fencing`, `Budget`, `Convergence`, `Dedup`, `Restarts` | invariants of that machine and the theorems over its runs |
| `Unguarded` | exactly when making a snapshot visible is safe, and the run that loses a job when it is not |
| `Schedule`, `Store` | the index and the job store as objects, proved against the event effects and against a linear scan |
| `StoreRefinement` | every store method is a run of the machine, and reopening is its crash step |
| `EndToEnd` | bytes to broker: the log object holds the machine's records through appends, deletion, byte cuts and reopening |
| `Session` | a broker's life over bytes: store and log object together through operations, flushes, snapshots, deletion and restarts |
| `Dispatcher`, `Backoff` | worker slots and the dispatch loop over the store; retry delays in 64-bit arithmetic |

`Options` and `Numbers` hold stock helpers.

## Hypotheses

The theorems over runs of `System` assume what follows, and nothing about clocks, interleavings or crash points.

- **A snapshot appears only once the log is durable up to its LSN.** `Snapshot` records `lastLSN`, which may name
  records still buffered, and nothing in the code waits for them (internal/broker/store.go:918-951). This is the
  `guarded` argument of `System.Enabled`. `Unguarded` proves the condition is exact, separately for acknowledged
  submissions, for acknowledged completions and for fencing tokens, and exhibits the failing run.
- **A crash does not have to keep what a snapshot read.** A snapshot encodes live jobs, so it can hold the effect of a
  record that is lost later. Whether recovery then agrees with the log has an exact condition, `System.SnapshotFits`:
  every job the replayed records leave alone is in the snapshot as the log had it, and every other has the attempt and
  token right that they do not overwrite. It holds whenever the crash keeps all the snapshot had read past, if the last
  recovery agreed too. `Convergence` proves the equivalence and gives a run in which it fails. From a restart on, lived
  state and log agree exactly while what was recovered fits the records logged since, so a job out of line is in line
  again once it is leased. Durability, fencing, idempotency and the bound on deliveries need none of this.
- **A crash keeps every closed segment, and of the active one and the buffer meant for it a byte prefix that reaches at
  least the flushed part.** So it may fall in the middle of a write, inside a rotation included.
- **The first failed write or flush ends the useful part of a run.** Afterwards flushes only fail.
- The newest visible snapshot is readable, and decoding gives back every event that was logged. No more can be asked:
  payloads are bounded and events are not. An event whose encoding is too large is refused and never logged.
- New job IDs are fresh. IDs have one fixed length, so they are numbers here.
- LSNs and tokens do not reach 2^64.

The clock, the jitter draw, the fresh ID, and whether an append or a flush succeeds are arguments. Times are integers
counted from Go's zero time. The checksum is an arbitrary deterministic function to 32 bits.

## Where the code is narrower than what is written about it

- The store's type comment says mutations are flushed before they are applied (internal/broker/store.go:63-68). The code
  applies first and flushes after (internal/broker/store.go:193-210); only token reservations flush first. The model
  follows the code.
- Snapshots can run ahead of the durable log, as above (`Unguarded.UnguardedRunLosesAJob`).
- The shift bound in the backoff is said to prevent overflow (internal/job/backoff.go:15-17). With a base of 2^32
  nanoseconds or more it need not (`Backoff.LongBaseCanCollapse`); `Backoff.DelayIsExactIff` says exactly when it does.
- A queue name that continues another after a NUL character can share its idempotency keys (`Jobs.KeysCollideIff`).
- A job nacked and leased again before its release leaves its first stream a slot short (`Dispatcher.SlotCanLeak`).
  Counts and jobs part exactly when a job that a connected stream still owns is assigned (`Dispatcher.ExactStepIff`).
- docs/DESIGN.md:86 rejects messages whose epoch is below the job's. The code requires equality and the Leased state
  (internal/broker/store.go:429-431). docs/DESIGN.md:83-84 passes a retried job through Pending; the code leases it
  straight from RetryWait.
- A deduplicated submission is answered without a flush (internal/broker/store.go:466-472). The job it names can be lost
  (`Dedup.DedupCanBeLost`), and can no longer be lost exactly when the original submission is durable at that moment
  (`Dedup.DedupIsSafeIff`).
- Recovery does not look at the retry budget again (internal/broker/store.go:340-352). Between two restarts no job is
  delivered more than maxRetries + 1 times, but restarts can add deliveries without end
  (`Budget.RestartsOutrunTheBudget`). A restart takes a job out of its budget exactly when it was out on its last
  delivery (`Budget.RestartKeepsBudgetIff`).

## Model

| member | source | states |
|---|---|---|
| `Framing.Uint32RoundTrip` | internal/wal/wal.go:255-260 | reading back a 32-bit field gives the number written |
| `Framing.FrameBytes` | internal/wal/wal.go:252-260 | each byte of a frame: the little-endian length, the little-endian checksum of those four bytes and the payload, the payload |
| `Framing.HeadIff` | internal/wal/wal.go:494-523 | a record starts exactly where a header fits, its length is from 1 to 64 MiB and all there, and the checksum is that of length and payload |
| `Framing.HeadOfFrame` | internal/wal/wal.go:494-531 | the reader finds exactly the payload that was framed, whatever follows it |
| `Framing.FrameOfHead` | internal/wal/wal.go:494-531 | whatever bytes the reader accepts are byte for byte the frame of the payload it returns |
| `Framing.ScanAfterRecords` | internal/wal/wal.go:490-533 | records followed by any bytes scan to those records and then whatever the rest scans to |
| `Framing.ScanInvertsEncode` | internal/wal/wal.go:490-533 | scanning concatenated frames returns the payloads |
| `Framing.EncodeInvertsScan` | internal/wal/wal.go:490-533 | for arbitrary bytes, re-encoding the scanned records gives a prefix of those bytes |
| `Framing.ScanIsUnique` | internal/wal/wal.go:487-489 | there is one way to read bytes as records up to where no record starts, and the scan is it |
| `Framing.TornFrameHasNoHead` | internal/wal/wal.go:495-516 | no proper prefix of a frame reads as a record, for any checksum function |
| `Framing.ScanOfTornLog` | internal/wal/wal.go:487-489 | a log cut at any byte scans to exactly the records wholly before the cut |
| `Framing.TornLogKeepsDurable` | internal/wal/wal.go:161-192 | a cut past the durable bytes keeps every durable record |
| `Framing.RepairThenAppend` | internal/wal/wal.go:181-201 | cutting to the valid end and appending scans to the old records and then the new ones |
| `Framing.ScanAdvances` | internal/wal/wal.go:525-532 | one turn of the reading loop moves the valid end past one whole frame |
| `Framing.ReadRecord` | internal/wal/wal.go:495-523 | the loop's tests accept a record exactly when one starts here |
| `Framing.ScanRecords` | internal/wal/wal.go:490-533 | the loop returns the scan, its count, and the byte offset at which its records end |
| `Wal.TornSegment` | internal/wal/wal.go:161-173 | what survives of the last segment scans to a prefix of what was appended, durable records included |
| `Wal.SealActive` | internal/wal/wal.go:317-334 | sealing the active segment starts one under a base never used before, and the closed segments still tile the log |
| `Wal.CrashCanReopen` | internal/wal/wal.go:161-203 | what a crash leaves is a directory reopening accepts, and what it finds there is a prefix of what was appended that reaches every durable record |
| `Wal.DropOldest` | internal/wal/wal.go:440-450 | deleting the oldest segment leaves the remaining records under their own LSNs |
| `Wal.DeleteSegments` | internal/wal/wal.go:440-450 | the deleting loop stops exactly at the first segment reaching past the cutoff, through well-formed directories only |
| `Wal.ReplaySegment` | internal/wal/wal.go:410-418 | one segment's callback adds its records from the cutoff on, numbered from its base |
| `Wal.ReplaySegments` | internal/wal/wal.go:393-424 | skipping segments below the cutoff loses nothing: each record from the cutoff on once, in order, with its LSN |
| `Wal.ReplayFromIs` | internal/wal/wal.go:375-377 | a replay starts at the cutoff or the first record, whichever is later, ends with the last, and has each record in between at its place |
| `Wal.PrefixDeletionIsInvisible` | internal/wal/wal.go:427-432 | deleting records below an LSN does not change a replay from it |
| `Wal.Log.Create` | internal/wal/wal.go:153-159 | a new log is empty and starts at LSN 1 |
| `Wal.Log.Open` | internal/wal/wal.go:161-203 | whatever bytes the last file holds, its records are kept under their own LSNs behind those of the closed segments, the rest is cut, and what was stable still is |
| `Wal.Log.AnyCrashCanReopen` | internal/wal/wal.go:161-192 | any byte prefix of the active file with the buffer behind it that spares the durable bytes is something reopening accepts |
| `Wal.Log.Append` | internal/wal/wal.go:233-266 | the refusals; otherwise the record joins the log under the next LSN, after a rotation exactly when the segment is full |
| `Wal.Log.FlushBuffer` | internal/wal/wal.go:270-279 | the whole buffer reaches the active file, and nothing else changes |
| `Wal.Log.Drain` | internal/wal/wal.go:286-296 | the locked part of a sync writes the whole buffer to the file and makes nothing durable |
| `Wal.Log.FlushActive` | internal/wal/wal.go:298-307 | the unlocked part makes durable exactly what the file held when it began, whatever was appended or deleted since |
| `Wal.Log.Sync` | internal/wal/wal.go:286-307 | with nothing in between, everything appended before is durable after; a closed log is refused |
| `Wal.Log.AppendSync` | internal/wal/wal.go:220-231 | on success the record and everything before it is durable |
| `Wal.Log.Rotate` | internal/wal/wal.go:317-365 | everything is durable in closed segments and the new base was never used |
| `Wal.Log.Replay` | internal/wal/wal.go:378-425 | every retained record from the LSN on, once, in order, with the LSN its append returned |
| `Wal.Log.TruncateBefore` | internal/wal/wal.go:433-458 | exactly the leading segments wholly below the LSN go, never the active one; the rest keeps its LSNs and durability |
| `Wal.Log.Close` | internal/wal/wal.go:462-481 | everything is durable, the files are what a crash after a whole write would leave, and a second close does nothing |
| `GroupCommit.DurableOnlyGrows` | internal/wal/wal.go:281-307 | no step takes anything off stable storage, rotation during a flush included |
| `GroupCommit.StepKeepsInv` | internal/broker/commit.go:55-98 | every step keeps: at most one loop, waiters imply a loop, every call owed or given one reply, promises only for durable records |
| `GroupCommit.RunKeepsInv` | internal/broker/commit.go:55-98 | so does every run, and stable storage only grows along it |
| `GroupCommit.OneReplyEach` | internal/broker/commit.go:95-97 | no step replies twice to a call |
| `GroupCommit.RunKeepsHistory` | internal/broker/commit.go:95-97 | nor does any run rewrite a reply or what a call found on entry |
| `GroupCommit.CommitIsSound` | internal/broker/commit.go:49-67 | a nil return from commit, in any interleaving, means every record appended before the call is durable |
| `GroupCommit.ReplyIsEarned` | internal/broker/commit.go:85-97 | a nil error is only sent to a caller whose records are durable, and who has had no reply |
| `GroupCommit.SyncIsSound` | internal/wal/wal.go:281-307 | when Sync returns, what had been appended when it drained the buffer is durable, even if a rotation slipped in |
| `GroupCommit.LoopProgresses` | internal/broker/commit.go:73-99 | the loop always has a step to take, and each leaves it less to do |
| `GroupCommit.LoopDrains` | internal/broker/commit.go:69-98 | from any state the loop, left alone, replies to every call and stops, even after a failed flush; if nothing has failed, everybody still waiting is told of success |
| `GroupCommit.UnbrokenRunAnswersYes` | internal/broker/commit.go:85-97 | over every run without a failed write or flush, every answer is success |
| `GroupCommit.ReplyIsOutcome` | internal/broker/commit.go:85-97 | a whole batch is told exactly whether its own flush succeeded, whatever became of other threads' flushes |
| `GroupCommit.Committer.JoinWaiters` | internal/broker/commit.go:58-64 | commit's critical section is the protocol's Join, and says whether to start a loop |
| `GroupCommit.Committer.TakeBatch` | internal/broker/commit.go:75-83 | the loop's critical section is the protocol's Take, and says whether to stop |
| `LogRefinement.Append` | internal/wal/wal.go:233-266 | during any flushes an append to the log object is the protocol's Append, after its Rotate exactly when the segment is full, and returns that record's position |
| `LogRefinement.Write` | internal/wal/wal.go:286-296 | the locked part of a sync is the protocol's Write, whatever other threads are doing |
| `LogRefinement.End` | internal/wal/wal.go:298-307 | the end of a flush is the protocol's End, however much was appended or deleted since it began |
| `LogRefinement.Sync` | internal/wal/wal.go:286-307 | a sync with nothing in between is Write, Begin and End, whatever other threads are in the middle of, and its target is the whole log |
| `LogRefinement.TruncateBefore` | internal/wal/wal.go:433-458 | deletion is invisible to the protocol's record counts |
| `LogRefinement.Reopen` | internal/wal/wal.go:161-203 | a crash, in the middle of a write or not, and a reopening are the protocol's Reboot, keeping at least the durable records under their LSNs |
| `LogRefinement.ReplayIsSuffix` | internal/broker/store.go:154-167 | replaying from just past the snapshot and decoding gives the event suffix recovery folds, if decoding gives back the events logged |
| `Jobs.FoldConcat` | internal/broker/store.go:239-246 | replaying in two stretches is replaying once |
| `Jobs.EffectWrites` | internal/broker/store.go:254-317 | the value each kind of event writes into each field of its job, and that nothing else changes |
| `Jobs.CeilingRises` | internal/broker/store.go:404-419 | the token ceiling only rises along a log |
| `Jobs.SubmittedStays` | internal/broker/store.go:254-326 | a submitted job is in every longer replay with what was fixed at submission unchanged |
| `Jobs.AckedStaysDone` | internal/broker/store.go:254-326 | an acknowledged job is Done in every longer replay |
| `Jobs.EffectKeepsIdem` | internal/broker/store.go:256-265 | an applicable event keeps the idempotency map exactly the one the jobs determine |
| `Jobs.FoldIdemExact` | internal/broker/store.go:256-265 | so does replaying a whole log |
| `Jobs.IdemIsDerived` | internal/broker/store.go:903-910 | jobs with the same fixed parts determine one idempotency map |
| `Jobs.OneJobPerKey` | internal/broker/store.go:466-473 | two jobs never share a queue and a key |
| `Jobs.KeysCollideIff` | internal/broker/store.go:1075 | two queue names can share a key string if and only if one continues the other after a NUL |
| `Jobs.DedupIsFaithful` | internal/broker/store.go:466-473 | for NUL-free names a deduplicated submission finds a job of its own queue and key |
| `Recovery.EffectKeepsLeased` | internal/broker/store.go:277-316 | each operation's event keeps the leased set equal to the jobs in state Leased |
| `Recovery.ReleaseMeans` | internal/broker/store.go:340-352 | a leased job waits for a retry due now, its lease cleared, its attempt, token and fixed part as they were; no other job changes |
| `Recovery.EffectFollows` | internal/broker/store.go:254-317 | no event can pull the lived state and the folded log apart: same jobs, same fixed parts, Done stays Done |
| `Recovery.EffectMatches` | internal/broker/store.go:254-317 | the same for attempts, tokens, states up to released leases, and retry schedules |
| `Recovery.ReleaseKeepsRelations` | internal/broker/store.go:340-352 | releasing leases without logging it keeps both relations |
| `Recovery.RecoveriesAgree` | internal/broker/store.go:338-352 | two states related to one log agree once their leases are released, whenever that happens |
| `Recovery.LoadedIdemIsExact` | internal/broker/store.go:978-986 | loading a snapshot derives the map its jobs determine |
| `Recovery.EffectByField` | internal/broker/store.go:254-317 | an event overwrites a field with a value that does not depend on the state, or leaves it alone, field by field |
| `Recovery.FoldByField` | internal/broker/store.go:154-167 | so after a replay each field is the same from any start, or untouched |
| `Recovery.ReadKeepsReadable` | internal/broker/store.go:918-932 | a field of a live job read after the lock is released may be newer than the capture, but never wrongly so |
| `Recovery.FuzzySnapshotConverges` | internal/broker/store.go:918-932 | replaying the events the snapshot overlapped erases the mixture: only running leases' expiries can differ |
| `Recovery.FuzzySnapshotRecovers` | internal/broker/store.go:918-932 | so after leases are released it recovers exactly the jobs of an instantaneous snapshot |
| `Recovery.FoldMatchesIff` | internal/broker/store.go:154-172 | replaying records over a snapshot gives what replaying the log gives if and only if the snapshot fits those records |
| `Recovery.AlwaysAgreeIff` | internal/broker/store.go:338-352 | two states agree after every pair of restart times if and only if they matched before their leases were released |
| `Core.LegitIsSound` | internal/broker/store.go:577-657 | an operation allowed by the lived state logs a record that is sound for the log's own fold |
| `Core.DoneIsUntouched` | internal/broker/store.go:429-431 | nothing is ever logged about a job that is Done |
| `Core.PublishStep` | internal/broker/store.go:918-951 | a snapshot that appears is a possible state of the log at its LSN, however its fields were gathered |
| `Core.RecoverFollows` | internal/broker/store.go:147-177 | snapshot, replay and release land on a possible state of the log that was kept, with its token ceiling |
| `Core.CoreStep` | internal/broker/store.go:104-957 | every step of the whole broker keeps log, snapshot, memory and snapshot in progress consistent |
| `Durability.AcknowledgedIsDurable` | internal/broker/store.go:499-505 | a successful reply covers a record that is in the log and durable |
| `Durability.GrantedHolds` | internal/broker/store.go:489-505 | each acknowledged submission has its job now, and each acknowledged completion is Done now |
| `Durability.AcknowledgedIsForever` | docs/DESIGN.md:14-16 | over every run with any crashes, snapshots and deletions, an acknowledged submission is never lost and an acknowledged completion never undone |
| `Durability.ReplayNeverFails` | internal/broker/store.go:154-172 | in every reachable state replay of any log a crash may keep never meets a record it cannot apply |
| `Durability.IdempotencyHolds` | internal/broker/store.go:466-493 | in every reachable state the idempotency map is exactly the one the jobs determine |
| `Durability.LeasedIsExact` | internal/broker/store.go:717-730 | in every reachable state the leased set is exactly the jobs in state Leased |
| `Dedup.SubmissionIsSafeIff` | internal/broker/store.go:489-505 | a logged submission can no longer be lost in any run if and only if its record is durable |
| `Dedup.DedupIsSafeIff` | internal/broker/store.go:466-473 | a deduplicated reply names a job that can no longer be lost if and only if the original submission is durable when it is given |
| `Dedup.DedupCanBeLost` | internal/broker/store.go:466-473 | the run that loses a job named in a deduplicated reply |
| `Fencing.TokenStep` | internal/broker/store.go:378-419 | every step keeps issued tokens rising, below the next one and under a ceiling already durable |
| `Fencing.FenceStep` | internal/broker/store.go:421-431 | every step keeps running leases under distinct, issued, unclosed tokens |
| `Fencing.TokensNeverRepeat` | internal/broker/store.go:389-403 | over all runs and crashes each token exceeds every token handed out before, those of lost lease records included |
| `Fencing.ClosedAtMostOnce` | internal/broker/store.go:577-687 | an accepted ack, nack or reclaim closes a lease that was issued and not closed before |
| `Fencing.ClosedTokenIsRefused` | internal/broker/store.go:421-431 | a closed token is refused for every job in every later state |
| `Fencing.RestartFencesAll` | internal/broker/store.go:328-352 | every token issued before a restart is refused for every job in every state of every run after it |
| `Budget.RankFalls` | internal/broker/store.go:646-687 | each lease, ack, nack and timeout uses up some of what is left, and none brings a job within its budget or out of it |
| `Budget.DeliveriesAreBounded` | internal/broker/store.go:646-687 | in every reachable state no job, carried over a restart or not, has been delivered more than maxRetries + 1 times since its submission, its replay or the restart; one submitted or replayed since is within its budget, its attempt count exact |
| `Budget.ReleaseKeepsBudgetIff` | internal/broker/store.go:340-352 | releasing a job takes it out of its budget if and only if it was out on its last delivery |
| `Budget.RestartKeepsBudgetIff` | internal/broker/store.go:328-352 | over a whole recovery whose snapshot fits, a job leaves its budget if and only if the kept log has it out on its last delivery |
| `Budget.RestartsOutrunTheBudget` | internal/broker/store.go:328-352 | for every n, a run that delivers a job that allows no retries n times |
| `Restarts.RunnableIff` | internal/broker/store.go:340-361 | after a restart a job may run if and only if replay found it out on lease, or waiting and due |
| `Restarts.LeasedRunsAgain` | internal/broker/store.go:328-352 | in every run, a job out on lease when the broker dies, none of whose records the crash loses, is due at the restart, with its attempt, token and fixed part as they were |
| `Convergence.ReplayMatchesIff` | internal/broker/store.go:154-167 | snapshot and replayed suffix match the kept log if and only if the snapshot fits it |
| `Convergence.CoveredFits` | internal/broker/store.go:918-951 | if the last recovery agreed with the log, the visible snapshot fits every log that keeps what it had read past |
| `Convergence.ExactPublish` | internal/broker/store.go:918-951 | a mixed snapshot, together with the records it overlaps, matches the log |
| `Convergence.LivedStateMatchesIff` | internal/broker/store.go:328-352 | at any moment after any restart of any run, lived jobs and log agree, but for released leases, heartbeats and the schedules those replace, if and only if what the restart recovered fits the records logged since |
| `Convergence.LivedStateMatchesLog` | internal/broker/store.go:328-352 | so they do from every restart whose snapshot fitted what its crash kept, whatever happened before |
| `Recovery.LeaseHeals` | internal/broker/store.go:267-278 | a lease record brings a job in line whatever the snapshot had of it |
| `Convergence.SnapshotAndTruncateAreInvisible` | internal/broker/store.go:912-957 | after a crash anywhere between capture and the last deletion, recovery agrees with replaying the whole log, whenever the restarts happen, if and only if the snapshot fits; if the last recovery agreed, it fits whenever this crash keeps what it had read past |
| `Convergence.SeenThenLost` | internal/broker/store.go:918-951 | a run in which a lease read into the snapshot is lost and recovery disagrees with the log |
| `Runs.LoneCommit` | internal/broker/commit.go:55-99 | from a quiet broker one call is served and its record acknowledged |
| `Unguarded.OverclaimLoses` | internal/broker/store.go:918-951 | a broker whose snapshot claims LSNs still to be handed out can acknowledge a submission and lose it |
| `Unguarded.OverclaimUndoes` | internal/broker/store.go:918-951 | it can acknowledge a completion and recover without the job |
| `Unguarded.OverclaimRepeats` | internal/broker/store.go:918-951 | it can hand out the same token twice |
| `Unguarded.PublishIsSafeIff` | internal/broker/store.go:918-951 | making a snapshot visible never costs an acknowledged submission, never undoes an acknowledged completion, and keeps tokens strictly rising, each if and only if the log is durable up to its LSN |
| `Unguarded.UnguardedRunLosesAJob` | internal/broker/store.go:918-951 | the failing run from an empty broker: two crashes and an acknowledged job gone |
| `Backoff.Backoff` | internal/job/backoff.go:32-58 | positive, at most the effective cap, and between half the delay and the delay, for every int64 base and cap |
| `Backoff.JitterCoversUpperHalf` | internal/job/backoff.go:53-57 | every wait in the upper half can be drawn |
| `Backoff.DelayIsExactIff` | internal/job/backoff.go:43-51 | the wrapped shift and sign test give the capped doubling if and only if the wrapped product is not a positive number below the cap |
| `Backoff.IdealDoubles` | internal/job/backoff.go:33-48 | the uncapped delay is the base, or one second, doubled with each attempt up to the 33rd |
| `Backoff.DelayIsExactIffBits` | internal/job/backoff.go:43-51 | the same without the product: exact unless bits are shifted out and those left are positive and below the cap |
| `Backoff.ShortBaseIsExact` | internal/job/backoff.go:15-51 | for bases under 2^32 nanoseconds, the defaulted ones included, the delay is the base doubled attempt - 1 times, at most 32, or the cap if that is less; defaults one second and five minutes |
| `Backoff.FloorIsMonotone` | internal/job/backoff.go:19-31 | the guaranteed minimum wait never shrinks with the attempt |
| `Backoff.LongBaseCanCollapse` | internal/job/backoff.go:48-51 | a longer base can wrap past the sign test: retry 33 waits about four seconds under an unlimited cap |
| `Schedule.PopReady` | internal/broker/index.go:27-35 | what comes off a ready heap has the highest priority in it, the earliest enqueue time of those, and the lowest ID of those |
| `Schedule.PromoteHeaps` | internal/broker/index.go:126-129 | the promoting loop moves every entry that is due and no other, and loses none |
| `Schedule.Index.Push` | internal/broker/index.go:105-118 | the entry goes to the heap its eligibility says, and no other queue changes |
| `Schedule.Index.Promote` | internal/broker/index.go:121-130 | nothing due stays delayed, nothing not due becomes ready, nothing is lost |
| `Schedule.Index.Pop` | internal/broker/index.go:135-141 | exactly the top ready entry goes; none only if there is none |
| `Schedule.Index.NextDeadline` | internal/broker/index.go:145-156 | the minimum over all delayed entries, and none exactly when nothing is delayed |
| `Store.BestIsUnique` | internal/broker/index.go:20-35 | the order is total on jobs: a linear scan has one answer |
| `Store.BestMeans` | internal/broker/index.go:20-35 | every other waiting and due job of the queue has a lower priority than the one picked, or the same and is younger, or is as old and has a higher ID |
| `Store.NewJobMeans` | internal/broker/store.go:452-487 | a new job field by field: as asked, with the default handler, no negative retries, enqueued now, eligible after its delay |
| `Store.FailMeans` | internal/broker/store.go:656-687 | a failed job field by field: another try after the delay while attempt <= maxRetries, otherwise dead-lettered now |
| `Store.BlankIff` | internal/broker/store.go:449-451 | a queue name is refused if and only if it has no character outside the listed spaces |
| `Store.PushRestores` | internal/broker/store.go:493 | filing the one job an event touched makes the index fit again |
| `Store.PopFits` | internal/broker/store.go:536-547 | taking out a stale entry strands nobody; taking out a current one strands only its own job |
| `Store.PromoteFits` | internal/broker/store.go:525-526 | after promotion everything a linear scan could pick is ready under its current key |
| `Store.TopIsBest` | internal/broker/store.go:528-547 | a current, due top of the ready heap is the job the linear scan would pick |
| `Store.RefileFits` | internal/broker/store.go:542-553 | putting a popped entry back leaves no job stranded |
| `Store.SweptOneMore` | internal/broker/store.go:725-741 | failing one more expired lease extends the sweep and touches no other job |
| `Store.SweptMeans` | internal/broker/store.go:717-742 | a job taken back field by field: its lease had expired, and it waits between half its delay and all of it, or is dead-lettered now |
| `Store.Store.constructor` | internal/broker/store.go:104-146 | an empty store with token 1 next, zero settings replaced by the defaults |
| `Store.Store.Apply` | internal/broker/store.go:254-326 | each kind of event writes exactly these values into its job; an unknown job is reported and nothing changes |
| `Store.Store.Record` | internal/broker/store.go:193-210 | append, then effect, then LSN; a poisoned store or a refused append changes nothing |
| `Store.Store.CommitDurable` | internal/broker/store.go:223-236 | a success means everything appended before the call is durable; a failed flush poisons the store for good |
| `Store.Store.ReserveEpochs` | internal/broker/store.go:404-419 | a flushed record raises the ceiling; one appended but not flushed stays in the log and claims nothing; otherwise nothing happens |
| `Store.Store.NextEpoch` | internal/broker/store.go:378-387 | tokens are consecutive, each at most the reserved ceiling, with a reservation exactly when the block is used up |
| `Store.Store.Submit` | internal/broker/store.go:448-497 | which reply and when; an accepted job is field by field what was asked, with the defaults, eligible after its delay; a duplicate is a job under the same key string; nothing else changes anything |
| `Store.Store.NextCandidate` | internal/broker/store.go:525-547 | the popping loop ends under any clock with the linear scan's answer, or with proof that there is no candidate |
| `Store.Store.Lease` | internal/broker/store.go:520-573 | the waiting and due job of the queue with the highest priority, then age, then ID, leased until now + dur under the next token with one more attempt; nothing exactly when none is waiting and due; no job stranded on any path |
| `Store.Store.Ack` | internal/broker/store.go:577-593 | accepted exactly for the running lease's token, and then the job is Done with its lease cleared; a refusal changes nothing |
| `Store.Store.FailJob` | internal/broker/store.go:656-687 | with attempt <= maxRetries the job retries after half its backoff to all of it, with the reason given; otherwise it is dead-lettered now; attempt and token stay |
| `Store.Store.Nack` | internal/broker/store.go:609-632 | accepted exactly for the running lease's token, with the failure rule's outcome and a default reason; a refusal changes nothing |
| `Store.Store.ReclaimExpired` | internal/broker/store.go:717-742 | without an append error exactly the leases expired by now fail, once each, by the failure rule with reason "lease expired"; every other job is as it was; with an error, some of them |
| `Store.Store.Heartbeat` | internal/broker/store.go:696-709 | only the running lease's expiry moves, for its token only, and nothing is logged |
| `Store.Store.ReplayDead` | internal/broker/store.go:768-788 | only dead-lettered jobs return: pending, attempt zero, due now, error cleared, and filed |
| `Store.Store.LoadSnapshot` | internal/broker/store.go:978-987 | loading visits the file's jobs in its order |
| `Store.LoadingIsOrderBlind` | internal/broker/store.go:903-910 | whatever order the file lists the jobs in, loading gives the same state and the one map its jobs determine |
| `Store.Store.ReplayRecords` | internal/broker/store.go:154-167 | succeeds exactly when every record finds its job, and then gives their fold |
| `Store.Store.RecoverLeased` | internal/broker/store.go:340-352 | exactly the leased jobs become retries due now with their lease cleared and all else kept, and the leased set is empty |
| `Store.Store.RebuildIndex` | internal/broker/store.go:354-361 | an index built from the jobs alone strands nobody |
| `Store.Store.Recover` | internal/broker/store.go:147-177 | load, replay, then exactly the leased jobs become retries due now, an index that strands nobody, and the next token just above the ceiling; fails exactly when replay does |
| `Store.AdditiveKeepsIdem` | internal/broker/store.go:256-265 | replaying applicable records keeps the idempotency map exact |
| `StoreRefinement.Submit` | internal/broker/store.go:448-497 | an accepted submission is one step of the machine, a deduplicated one its unlogged answer, anything else none |
| `StoreRefinement.Ack` | internal/broker/store.go:577-593 | likewise an accepted ack |
| `StoreRefinement.Nack` | internal/broker/store.go:609-632 | likewise an accepted nack |
| `StoreRefinement.ReplayDead` | internal/broker/store.go:768-788 | likewise an accepted replay |
| `StoreRefinement.Heartbeat` | internal/broker/store.go:696-709 | an accepted heartbeat is the machine's unlogged Beat |
| `Runs.ReserveRun` | internal/broker/store.go:404-419 | a reservation is append, flush and only then the raised ceiling, whatever other threads are flushing |
| `StoreRefinement.Lease` | internal/broker/store.go:520-573 | during any flushes a lease is a reservation if one was needed and then one record; or a token forfeited when the append is refused; or a record and a failed flush when the reservation's is |
| `StoreRefinement.SweepRun` | internal/broker/store.go:725-741 | the failures of a sweep are legitimate one after the other |
| `StoreRefinement.ReclaimExpired` | internal/broker/store.go:717-742 | a sweep is a run of exactly its failures |
| `StoreRefinement.Restart` | internal/broker/store.go:147-177 | from every reachable state, after any crash, opening never fails, and the store it gives is the machine's after its Crash |
| `EndToEnd.Append` | internal/broker/store.go:193-210 | appending an event's encoding to the log object is the machine's Record or Reserve, after a rotation exactly when the segment is full, and returns the event's LSN; an encoding that cannot be framed is refused and nothing happens |
| `EndToEnd.Flush` | internal/wal/wal.go:286-307 | each part of a Sync of the log object is the machine's, whatever other threads are in the middle of |
| `EndToEnd.Unseen` | internal/broker/store.go:193-210 | no other step of the machine changes what the log object has to hold |
| `EndToEnd.TruncateBefore` | internal/broker/store.go:953 | deleting segments the visible snapshot covers is the machine's Truncate, cut short or not |
| `EndToEnd.PerformAll` | internal/wal/wal.go:205-458 | over any sequence of appends, parts of syncs, deletions and steps in between, the log object goes on holding the machine's records and what was done to it is a run of the machine |
| `EndToEnd.ReadBack` | internal/broker/store.go:154-167 | cutting the active file and its buffer anywhere past the durable bytes, reopening, replaying and decoding gives the records recovery is stated over |
| `EndToEnd.CrashAndOpen` | internal/broker/store.go:104-183 | from bytes to broker: after any such cut opening succeeds, is one Crash of the machine, and log object and store again stand for the machine after it |
| `EndToEnd.CodecExists` | internal/broker/store.go:197-199 | an encoding and decoding as required exist for logs of up to sixty-seven million events |
| `Session.Session.constructor` | internal/broker/store.go:104-146 | an empty directory and an empty store hold and show the empty broker |
| `Session.Session.Submit` | internal/broker/store.go:448-497 | store and bytes go together: the event is appended exactly when the log takes its encoding, and the acknowledged history only grows |
| `Session.Session.Ack` | internal/broker/store.go:577-593 | likewise |
| `Session.Session.Nack` | internal/broker/store.go:609-632 | likewise |
| `Session.Session.ReplayDead` | internal/broker/store.go:768-788 | likewise |
| `Session.Session.Heartbeat` | internal/broker/store.go:696-709 | likewise, with no bytes written |
| `Session.Session.Lease` | internal/broker/store.go:520-573 | likewise, a reservation being appended, synced and only then applied before the lease it is for |
| `Session.Session.ReclaimExpired` | internal/broker/store.go:717-742 | likewise, one record for each expired lease |
| `Session.Session.Background` | internal/broker/commit.go:55-99 | steps of the committer, of flushes and snapshots, and deletion, in any order between operations, keep store and bytes together |
| `Session.Session.Restart` | internal/broker/store.go:104-183 | so does cutting the bytes anywhere past their durable part and opening again, any number of times |
| `Session.Session.AcknowledgedIsHere` | docs/DESIGN.md:14-16 | whatever was acknowledged at any time is in the store now, and its record is in the bytes under its LSN unless a snapshot has replaced it |
| `Dispatcher.StepKeepsInv` | internal/broker/dispatcher.go:154-264 | no step of the loop, register, release or unregister breaks: owned jobs <= inFlight <= maxInFlight |
| `Dispatcher.SlotsHold` | internal/broker/dispatcher.go:154-264 | so it holds over every interleaving |
| `Dispatcher.SlotSteps` | internal/broker/dispatcher.go:191-264 | what each step does to streams, owners and counts, in numbers |
| `Dispatcher.ExactStepIff` | internal/broker/dispatcher.go:191-222 | where slots counted and jobs owned meet, a step makes them part if and only if it assigns a job a connected stream still owns |
| `Dispatcher.ExactRunIff` | internal/broker/dispatcher.go:154-264 | over any run they meet throughout if and only if no still-owned job is ever assigned |
| `Dispatcher.SlotCanLeak` | internal/broker/dispatcher.go:191-222 | equality does not hold: a run that leaves a stream counting a job it does not own |
| `Dispatcher.Dispatcher.Ask` | internal/broker/dispatcher.go:182-189 | the store's lease gives the best job of the stream's queue, or none can run, or the store refuses, and why it can |
| `Dispatcher.Dispatcher.Serve` | internal/broker/dispatcher.go:170-204 | one turn leases the best job of its queue to a live stream with room, for the stream's worker and lease duration, and assigns it, or leaves streams and jobs as they were because the stream is sated |
| `Dispatcher.Dispatcher.Pass` | internal/broker/dispatcher.go:169-204 | a pass gives each stream at most one job; if it places none every live stream was full, found nothing to run or was refused, each refusal with its own cause |
| `Dispatcher.Dispatcher.Dispatch` | internal/broker/dispatcher.go:154-209 | undisturbed, the loop ends under any clock, and only when at its last pass every live stream was full, or no job of its queue could run when it asked, or the store refused it a lease, which it does only if poisoned or if the log fails that very turn |

## Left out

- The RPC server, generated code, CLI, bench, metrics, worker pool and handlers: plumbing, networking and display.
- JSON and CRC32C themselves, and naming, listing and sorting of files: a segment or snapshot is known by its LSN.
- Operating system calls and their errors, including an unreadable file or a failed remove; bit rot inside the log.
- A write that fails part-way and running on after a failed flush: the first failure ends what is promised. In `System` a
  reservation whose flush fails leaves the store locked until the crash, where the code would report the error and go on;
  `StoreRefinement.Lease` ends there too.
- Exhaustion of 64-bit LSNs and tokens, and with it the replay loop's use of the largest LSN as an upper bound.
- Falling back to an older snapshot, pruning old ones, and two `Snapshot` calls at once.
- The array layout of `container/heap`: a heap is its multiset of entries and a top is any entry none precedes.
- `Stats`, `Get`, `ListJobs`, `Clone`, conversions and the store's `Close`: easy members.
- Sleeping, ticks, wake-up signals and every claim about throughput.
- Jobs are values, not shared pointers. The one place where the sharing shows, a snapshot encoding live jobs after
  releasing the lock, is modelled in `System` and `Recovery` by reading each field separately at any later moment; reads
  torn inside one field are not modelled.
- `Snapshot` is modelled as steps of `System` and not as a method of the store class: its point is what interleaves with it.
- Store.Store.Submit: the method is the critical section; that the reply waits for the flush is stated in `System` and
  `Durability`, and so for `Ack`, `Nack`, `ReclaimExpired` and `ReplayDead`.
- Store.Store.Recover: that records are applicable is a hypothesis of its last clause, met in every reachable state by
  `StoreRefinement.Restart`.
- Wal.Log.Open: closed segments must be whole; damage inside one of them is not covered.
- Wal.Log.Sync: nothing comes between its two parts here; `Drain` and `FlushActive` are the parts, for any interleaving.
- Session.Session.Lease: when a reservation is needed, no other flush is under way; waiting for one in the middle of the
  critical section is not modelled.
- Session.Session.ReclaimExpired: likewise, whether or not a rotation is needed.
- Unguarded.PublishIsSafeIff: over continuations whose later snapshots are guarded.
- Dispatcher.Dispatcher.Dispatch: nobody else uses the store and no worker disconnects while it runs.
