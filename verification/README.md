# A verified model of the supervisor

The supervisor keeps one WebSocket session with dispatch at a time, runs one
render job at a time in a task of its own, tears canceled jobs down, upgrades
itself when idle, and shares a temporary directory and a cache with other
processes. This project models that behaviour in Dafny and proves what it
promises. `dafny verify dfyconfig.toml` checks everything.

## What is modelled

**The dispatch session** (`SessionBook`, `SessionSteps`, `SessionInvariant`,
`SessionOwnership`, `SessionFrames`, `SessionPreservation`, `SessionTheorems`,
`SessionWire`, `SessionEnds`, `SessionTimes`, `SessionWitness`).
`SessionBook.Session` is the mutable state of a session, each method tied to a
function on a snapshot of it (`View`). `SessionSteps` is the machine around it:
nineteen events, among them every frame, tick, task completion, panic, failed
send, shutdown and reconnect, in any order. `select!` is biased in the source;
free choice covers every order it can take. Each `.await` on a job handle is a
step of its own, taken once that task has ended. A run is a sequence of states
each following from the one before by an enabled event; the theorems hold of
every run. History the program does not keep (the table of spawned tasks, the
log of frames sent, the acks dropped at the queue cap) is part of the state;
the `task` tags in messages and acks are such history, and no step compares
them. One assumption is made: dispatch assigns each (job id, attempt) once.

**The upgrade handoff** (`UpgradeGate`, `VersionWords`,
`UpgradeLedger`, `UpgradeHandoff`). The gate is a class of
its own; the handoff theorems are about it inside whole session runs. The
ledger is a file replaced atomically, written by `apply`, and the process loop
around it is a history of passes, each of which a crash may cut after any
durable effect. That a pass honours the suppression read at its top is proved of
the sessions in it (`UpgradeHandoff.SessionHandoffIsAdmissible`), so the fuse
holds end to end. All times come from one clock that never goes back.

**The shared disk.** `WorkDirNames`, `SweepDir`, `PurgeRecord`,
`WorkDirProtocol`, `WorkDirSafety` and `WorkDirReclaim` are the working
directories of several supervisors: names, the sweep, the record of failed
purges, and the protocol over process starts, deaths and reused pids, with the
liveness probe and the removal as separate steps. `CacheSweep` is the LRU sweep.
`Publication` is one cache entry: download, verification, extraction, rename,
eviction file by file, and a crash between any two steps.

**A job's run** (`WhiteSpace`, `BrowserSweep`, `RunEffects`, `RunnerChild`,
`RunnerReport`). The select loop consumes what the environment lets it see, and
every branch logs its effects on the child, the browsers, the directory and the
wire one by one. `RunEffects` says which effects may follow which and what that
means; the methods of `RunnerReport` are proved to keep to it on every path, and
`RunnerOutcome` says, wake by wake, what that comes to. That a job sends one
terminal frame and does nothing after it is what the session machine relies on.

**Codecs** (`Numerals`, `Octal`, `Ustar`, `UstarReader`, `Collect`, `Base64Url`,
`KeyValueText`, `StatusSnapshot`). The ustar writer fills its block in place and
is read back by a reader written from the ustar Interchange Format (the pax
utility, IEEE Std 1003.1); base64url follows section 5 of RFC 4648; the status
file is read from any prefix of itself.

**The runner's liveness timer** (`Liveness`). The interval is re-armed when its
callback runs: each callback comes one interval after the one before it, or up
to the longest block of the event loop later than that.

## What the proofs found

- A second cancel before the first job reports overwrites the one-entry cancel
  slot, and the first job's terminal frame is then sent
  (`OverwrittenCancelIsReported`); the frames withheld are exactly the others
  (`SuppressionIsExact`).
- The seventeenth stacked cancel is awaited inline without an ack, and its ack
  is lost if the socket then dies (`OverCapAckCanBeLost`). Exactly: a failed
  teardown over the cap is acknowledged if and only if its terminal frame was
  read and withheld before a later cancel or the end of the session
  (`AckConservation`).
- A job task that panics posts no frame and keeps the slot: the node refuses
  every job until dispatch cancels that one or the session ends
  (`PanickedJobHoldsTheSlot`).
- The ledger remembers one target, so two targets announced in turn re-open each
  other within minutes (`AlternatingTargetsDefeatTheFuse`), and the two
  texts may spell one version (`RespellingDefeatsTheFuse`); when a run is possible
  is stated exactly (`RunPossibleIff`).
- A runner's directory whose job id ends in a pid and a time, with an all-digit
  suffix, is swept by that pid's liveness instead of by age
  (`RunnerNameClassifies`).
- With a clock set back between a pid's death and its reuse, a slow sweeper can
  remove a live directory (`ClockSetBackLosesALiveDir`): exactly when it is
  about to remove a name as that name is drawn again (`CreationIsSafeIff`).
- A working directory is removed under a runner that may still run exactly when
  the last wait for it fails as a system call (`PurgedUnreapedIff`).
- Two late callbacks add up: the runner can be silent for two intervals and two
  blocks of its event loop, not one, so a block of 30 s, and not only one of
  60 s, lets the supervisor time a live render out (`SilenceBoundIsExact`,
  `NeverSilentIff`).
- A text that ends in a carriage return loses it on the way through the status
  file (`SnapshotRoundTripIff`).
- An eviction cut short by a crash can leave a marker on an incomplete entry,
  which the next check takes for a hit (`InterruptedEvictionTears`); it can not
  if evictions remove the marker first (`MarkerFirstIsSafe`).
- An archive with a file of 8 GiB or more is not read back, and every other is
  (`ArchiveRoundTrip`).
- A torn status file misleads exactly when its time has two or more digits and
  is below 16,667 ms (`TornFilesHarmlessIff`).

## Model

| member | source | states |
|---|---|---|
| `SessionBook.Session.constructor` | crates/supervisor-core/src/connection.rs:688-717 | a session starts owning nothing; only the pending acks survive the one before |
| `SessionBook.Session.QueuePendingCancelAck` | crates/supervisor-core/src/connection.rs:285-301 | the ack joins the queue, or is dropped when 32 are waiting |
| `SessionBook.Session.QueueDrainedCancelAck` | crates/supervisor-core/src/connection.rs:310-325 | only a recorded cancel whose task ended Failed queues an ack; a panic or a completion queues none |
| `SessionBook.Session.FlushPendingCancelAcks` | crates/supervisor-core/src/connection.rs:666-676 | what is sent is a prefix of the queue in order, what is kept is the rest, and the prefix ends at the first failed send |
| `SessionBook.Session.DrainInFlightJobs` | crates/supervisor-core/src/connection.rs:733-754 | ends owning nothing, having joined the in-flight job and then every teardown in order |
| `SessionBook.Session.OnWorkerMessage` | crates/supervisor-core/src/connection.rs:882-1069 | the whole new session state of the worker-queue arm, and that the session dies exactly on a failed send of a frame that is not withheld |
| `SessionBook.Session.OnCancel` | crates/supervisor-core/src/connection.rs:1170-1255 | a cancel for another job changes nothing; one for the in-flight job records it and keeps the handle, inline-awaited over the cap |
| `SessionBook.Session.OnAccept` | crates/supervisor-core/src/connection.rs:1130-1168 | the job is in flight exactly when `jobAccepted` went out |
| `SessionBook.DrainingIndex` | crates/supervisor-core/src/connection.rs:1036-1041 | the first teardown with that job id and attempt, if there is one |
| `SessionBook.DrainQueuesOwedAcks` | crates/supervisor-core/src/connection.rs:733-772 | while the queue has room, a drain queues exactly one ack per canceled job that ended Failed, in joining order |
| `SessionPreservation.StepKeepsInvariant` | crates/supervisor-core/src/connection.rs:774-1332 | every enabled event keeps the session invariant: ownership of handles, the cancel slot, counts of acks and terminal frames |
| `SessionPreservation.InvariantAlongRuns` | crates/supervisor-core/src/connection.rs:1462-1559 | the invariant holds in every state of every run, across sessions |
| `SessionPreservation.MatchingIsByTask` | crates/supervisor-core/src/connection.rs:401-412 | matching a frame by job id and attempt is matching it by the job task that sent it |
| `SessionPreservation.IdleMeansNothingRuns` | crates/supervisor-core/src/connection.rs:812-813 | when the tick's idle test holds, every task spawned so far is over |
| `SessionTheorems.TeardownComplete` | crates/supervisor-core/src/connection.rs:725-754 | whenever no session is open every task ever spawned is joined or had its own report read as its last act, and no handle is awaited twice |
| `SessionTheorems.SpawnedMeansAccepted` | crates/supervisor-core/src/connection.rs:1130-1158 | every task ever spawned has its `jobAccepted` on the wire |
| `SessionTheorems.FramesOnlyAppended` | crates/supervisor-core/src/connection.rs:774-1332 | no step takes back or reorders a frame already sent |
| `SessionTheorems.AckIsTrueWitness` | crates/supervisor-core/src/connection.rs:246-325 | an ack sent or waiting means its lease was accepted and canceled and its task ended Failed and was joined before; it is that lease's only ack and carries its tenant, job and attempt |
| `SessionTheorems.AckConservation` | crates/supervisor-core/src/connection.rs:1025-1058 | once its session is over, a canceled lease has exactly one ack if its task ended Failed and either the cancel found room in the teardown list or the frame was withheld in its turn, and none otherwise; it keeps it through every later session |
| `SessionTheorems.LossNeedsFullQueue` | crates/supervisor-core/src/connection.rs:285-295 | an ack is dropped only by a step that found 32 waiting |
| `SessionTheorems.NothingLostBelowCap` | crates/supervisor-core/src/connection.rs:285-295 | a run whose queue never fills drops no ack |
| `SessionTheorems.LeaseGuard` | crates/supervisor-core/src/connection.rs:920-975 | a frame releases the in-flight job, or consumes the cancel record, only if that very task posted it |
| `SessionTheorems.OneJobAtATime` | crates/supervisor-core/src/connection.rs:1094-1103 | no two running tasks are both uncanceled |
| `SessionTheorems.SlotReleasedExactlyBy` | crates/supervisor-core/src/connection.rs:920-975 | in every run a step frees the in-flight slot if and only if it reads that job's own terminal frame, cancels that job, or joins it in the final drain |
| `SessionTheorems.PanickedJobHoldsTheSlot` | crates/supervisor-core/src/connection.rs:1094-1103 | along every run, once the in-flight job's task has panicked nothing is spawned and every assignment is refused, with Busy if jobs are allowed at all, until that job is canceled or the session drains |
| `SessionTheorems.HeartbeatCoversLiveTasks` | crates/supervisor-core/src/connection.rs:781-782 | the heartbeat count is never below the number of running tasks, and at most 16 teardowns stack |
| `SessionTheorems.SuppressionIsExact` | crates/supervisor-core/src/connection.rs:907-975 | a terminal frame is withheld if and only if its task was canceled and no later cancel took the slot, and the history flag of withheld frames says the same; a withheld completion is what `just_canceled` then holds |
| `SessionTheorems.TerminalFrameDiscipline` | crates/supervisor-core/src/connection.rs:907-1068 | each lease has at most one terminal frame on the wire, and a canceled lease one only if a later cancel took its slot |
| `SessionWire.MessagesAreForwarded` | crates/supervisor-core/src/connection.rs:882-1069 | in every run a message taken off the queue is sent, unless it is the terminal frame of a canceled task that no later cancel displaced; a failed send of any other closes the session |
| `SessionWire.WireIsAccountedFor` | crates/supervisor-core/src/connection.rs:774-1332 | in every run the wire holds exactly what each step says, given by the events and the task table alone: registrations, heartbeats, acceptances, forwarded messages and acks, in order |
| `SessionWire.QueueIsInOrder` | crates/supervisor-core/src/connection.rs:882-906 | within a session every progress report, terminal frame and refusal posted was taken off the queue once, in the order posted, or still waits |
| `SessionWire.WireIsInQueueOrder` | crates/supervisor-core/src/connection.rs:1061-1062 | over every run the forwarded messages on the wire are those taken off the queue whose send succeeded and that are not withheld, once each, in queue order |
| `SessionWire.AcceptancesAreSpawns` | crates/supervisor-core/src/connection.rs:1104-1168 | the acceptances on the wire are the leases of all tasks ever spawned, in order, and each session registered once |
| `SessionWire.HeartbeatsCount` | crates/supervisor-core/src/connection.rs:781-782 | a sent heartbeat carries exactly the number of tasks in flight or listed as teardowns, every running task is among them, and they are at most 17 |
| `SessionTimes.AckMeasuresTeardown` | crates/supervisor-core/src/connection.rs:262-284 | every ack, sent, waiting or dropped, reports the time from the frame that canceled its very task to the step that settled its teardown |
| `SessionWitness.JobIsReported` | crates/supervisor-core/src/connection.rs:882-1069 | for any lease a run in which its progress and its end reach the wire and the slot is free again |
| `SessionWitness.CancelIsAcked` | crates/supervisor-core/src/connection.rs:1025-1058 | for any lease and delay a run in which its cancel is acknowledged with that delay and its own frame kept back |
| `SessionWitness.AckSurvivesReconnect` | crates/supervisor-core/src/connection.rs:666-676 | for any lease a run in which the socket dies during the teardown and the next session sends the ack |
| `SessionWitness.PanicRefuses` | crates/supervisor-core/src/connection.rs:1094-1103 | for any two leases a run in which the task of one panics and the refusal of the other reaches the wire |
| `SessionWitness.ExitIsHad` | crates/supervisor-core/src/connection.rs:1524-1533 | every exit but an upgrade and an unreachable dispatch is had by some session |
| `SessionTheorems.OverwrittenCancelIsReported` | crates/supervisor-core/src/connection.rs:695-700 | a concrete run in which a canceled job's terminal frame is sent |
| `SessionTheorems.OverCapAckCanBeLost` | crates/supervisor-core/src/connection.rs:1241-1253 | a concrete run in which the seventeenth stacked cancel is torn down and never acknowledged: its frame was not read in time |
| `SessionTheorems.IdleClockHasWindow` | crates/supervisor-core/src/connection.rs:811-829 | whenever the idle clock runs, nothing has run and no step disturbed the wait since the tick that started it |
| `SessionTheorems.HandoffIsIdleSafe` | crates/supervisor-core/src/connection.rs:811-828 | a session that closes to upgrade to v does so at a tick at least one quiet period after an earlier one, and between them nothing was accepted, running or tearing down and every tick found the opt-in on, v the target, and v not suppressed |
| `SessionTheorems.HandoffRespectsSuppression` | crates/supervisor-core/src/connection.rs:343-389 | no handoff to a suppressed version before its suppression, counted from the start of the run, is over and a quiet period more has passed |
| `SessionEnds.HandoffIff` | crates/supervisor-core/src/connection.rs:811-828 | a tick hands over to v if and only if it ends a window at least a quiet period long, opened by a tick, in which nothing was accepted, running or tearing down and every tick found the opt-in on, v the target, and v not suppressed |
| `SessionEnds.TargetIsLatestNotice` | crates/supervisor-core/src/connection.rs:343-363 | the target is the version last announced in the session, and its suppression counts from the connection |
| `SessionEnds.ClockRunsIff` | crates/supervisor-core/src/connection.rs:369-382 | a tick leaves the idle clock running if and only if the operator opted in, all tasks are over, and a version was announced that is not, or no longer, held back |
| `SessionEnds.ClosesFor` | crates/supervisor-core/src/connection.rs:774-1332 | which event ends a session with which exit, both ways: a shutdown signal, the heartbeat limit, what the socket said, or a failed send |
| `SessionEnds.FinalExitStopsTheRun` | crates/supervisor-core/src/connection.rs:1524-1533 | after any exit but a lost socket, an upgrade included, the run drains, stops with that exit, and puts nothing more on any wire |
| `UpgradeGate.AutoUpgradeGate.constructor` | crates/supervisor-core/src/connection.rs:343-354 | a new gate has no target and no idle clock and re-arms the suppression from now |
| `UpgradeGate.AutoUpgradeGate.Announce` | crates/supervisor-core/src/connection.rs:356-363 | only a new target resets the idle clock |
| `UpgradeGate.AutoUpgradeGate.MarkBusy` | crates/supervisor-core/src/connection.rs:365-367 | the idle clock stops and nothing else changes |
| `UpgradeGate.AutoUpgradeGate.Observe` | crates/supervisor-core/src/connection.rs:369-382 | the idle clock starts or runs on exactly when a policy, a target, the opt-in and idleness are there and the target is not suppressed |
| `UpgradeGate.AutoUpgradeGate.Ready` | crates/supervisor-core/src/connection.rs:384-389 | the target, when the clock has run a whole quiet period |
| `UpgradeGate.IdleSinceIsStreakStart` | crates/supervisor-core/src/connection.rs:356-382 | over every input history, the clock reads the start of the latest unbroken streak of calm ticks for the target |
| `UpgradeGate.ReadyIffQuietPeriodElapsed` | crates/supervisor-core/src/connection.rs:384-389 | the gate is ready if and only if such a streak began a quiet period ago or earlier |
| `UpgradeLedger.Ledger.WriteAttempt` | bins/decent/src/auto_upgrade.rs:212-216 | the whole record lands or the old one stays |
| `UpgradeLedger.Ledger.Apply` | bins/decent/src/auto_upgrade.rs:66-180 | the durable effects in order; a restart is asked for exactly after a swap behind a successful first write; an error exactly when an outcome that matters could not be recorded |
| `UpgradeLedger.RunsBehindStartedRecord` | bins/decent/src/auto_upgrade.rs:73-124 | in every history every run comes right behind its own durable Started record, for a strictly newer version |
| `UpgradeLedger.StampsInOrder` | bins/decent/src/main.rs:997-1101 | stamps never go back along the durable log |
| `UpgradeLedger.LedgerIsLastWrite` | bins/decent/src/auto_upgrade.rs:207-216 | the ledger holds the last record written |
| `UpgradeLedger.NextPassWaits` | bins/decent/src/auto_upgrade.rs:221-237 | while only same-target, unsuccessful records follow a run, the next pass for that target comes a day later |
| `UpgradeLedger.SameTargetRunsAreADayApart` | bins/decent/src/auto_upgrade.rs:221-237 | the fuse: over crashes and restarts, two runs for one target with no other target's record and no success between them are at least 24 h apart |
| `UpgradeLedger.RunsWhen` | bins/decent/src/auto_upgrade.rs:73-124 | an attempt runs the package manager if and only if its first record landed and the target is strictly newer |
| `UpgradeLedger.RunsOnlyUpwards` | bins/decent/src/auto_upgrade.rs:73-94 | an attempt runs the package manager if and only if its first record landed, both texts name a version, and the target's is the greater number in every base above their parts |
| `UpgradeLedger.RunsOneWay` | bins/decent/src/auto_upgrade.rs:73-94 | between two versions the package manager runs in one direction at most |
| `UpgradeLedger.OutcomeRecorded` | bins/decent/src/auto_upgrade.rs:73-180 | after any history an uninterrupted attempt leaves the record its versions, its writes and the package manager call for |
| `UpgradeLedger.CrashLeavesStarted` | bins/decent/src/auto_upgrade.rs:112-124 | after any history an attempt that crashed behind its first write leaves its Started record and its target held back for a day |
| `UpgradeLedger.SuppressedUnlessUpgraded` | bins/decent/src/auto_upgrade.rs:221-237 | its target is then held back for exactly a day, unless a swap was recorded |
| `UpgradeLedger.AlternatingTargetsDefeatTheFuse` | bins/decent/src/main.rs:997-1101 | for any two different targets newer than the running version there is a history that runs them in turn, the first again half an hour later |
| `UpgradeLedger.RespellingDefeatsTheFuse` | bins/decent/src/auto_upgrade.rs:221-237 | for any version there is a history that runs two spellings of it a quarter of an hour apart |
| `VersionWords.SpellingReads` | bins/decent/src/main.rs:523-547 | a version is read back from any text that spells it, behind any "rust-" and "v" and after words that are no version, unless a number exceeds 64 bits |
| `VersionWords.FirstVersion` | bins/decent/src/main.rs:525-537 | the word found is three numbers between dots, and none is found exactly when no word is |
| `VersionWords.VersionShape` | bins/decent/src/main.rs:525-537 | a word is a version if and only if it is three runs of digits with a dot between each two |
| `VersionWords.NewerIsGreater` | bins/decent/src/auto_upgrade.rs:77-77 | one version is newer than another if and only if it is the greater number with its parts for digits, the major part first |
| `VersionWords.NewerIsAnOrder` | bins/decent/src/auto_upgrade.rs:77-77 | of two versions exactly one is newer or they are the same, and newer than newer is newer |
| `UpgradeHandoff.SessionHandoffIsAdmissible` | bins/decent/src/main.rs:997-1030 | every handoff of every session run started with the policy read from the ledger is a pass that honours that ledger's suppression |
| `UpgradeHandoff.HandoffWaits` | bins/decent/src/main.rs:997-1030 | a handoff comes a quiet period or more after the ledger was read, and a quiet period before it the ledger no longer held the target back |
| `UpgradeHandoff.FuseHoldsThroughSessions` | bins/decent/src/main.rs:997-1101 | after any history of passes, a session that hands over the target of an earlier unsuccessful run leads to an attempt no sooner than a day and a quiet period after that run |
| `UpgradeHandoff.RunPossibleIff` | bins/decent/src/main.rs:997-1101 | after any history some session run and pass run the package manager for v at time t if and only if t is a quiet period or more after the last pass, v names a version above 0.0.0, and a quiet period before t the ledger holds no suppressing record of v younger than a day |
| `CacheSweep.Collect` | crates/supervisor-core/src/cache.rs:249-285 | the listing holds exactly the visible directories with their marker |
| `CacheSweep.OnlyCompleteEntries` | crates/supervisor-core/src/cache.rs:255-276 | downloads in progress and unmarked directories are never entries |
| `CacheSweep.EveryEvictableIsListed` | crates/supervisor-core/src/cache.rs:249-285 | a root's entries are its directories with a marker and no leading dot, each once, in the order walked |
| `CacheSweep.ListedIff` | crates/supervisor-core/src/cache.rs:217-285 | an entry is considered if and only if it is such a directory of one of the three roots |
| `CacheSweep.SortKeepsEntries` | crates/supervisor-core/src/cache.rs:291-293 | sorting by last use is a permutation |
| `CacheSweep.SortIsStable` | crates/supervisor-core/src/cache.rs:291-293 | entries used at the same moment keep the order they were walked in |
| `CacheSweep.Evict` | crates/supervisor-core/src/cache.rs:295-328 | the scan stops at the first point where the cap is met, having taken exactly the removable entries before it |
| `CacheSweep.SweepCaches` | crates/supervisor-core/src/cache.rs:249-345 | the outcome's counts and bytes agree with what was evicted |
| `CacheSweep.NeverSaturates` | crates/supervisor-core/src/cache.rs:313-313 | the saturating subtraction is exact |
| `CacheSweep.SweepIsShortestOldestPrefix` | crates/supervisor-core/src/cache.rs:287-328 | what is evicted is the shortest oldest-first prefix of the removable entries that meets the cap, or all of them, and never a protected entry |
| `CacheSweep.ShortestPrefixIsUnique` | crates/supervisor-core/src/cache.rs:287-328 | only one eviction fits that description |
| `CacheSweep.ReportedTotalIsSurvivors` | crates/supervisor-core/src/cache.rs:298-335 | the bytes reported after the sweep are the survivors', and every protected entry survives |
| `WorkDirNames.OwnNameClassifies` | crates/supervisor-core/src/sweep.rs:75-96 | for every job id, the name a supervisor creates is read back as exactly its pid if and only if its clock was between 2001 and the end of 64 bits, and is otherwise nobody's |
| `WorkDirNames.NamesAreUnique` | crates/supervisor-core/src/purge.rs:127-134 | equal names come from the same pid, instant and count, whatever the job ids |
| `WorkDirNames.RunnerNameClassifies` | crates/supervisor-core/src/sweep.rs:97-110 | a runner's directory is read as a runner's unless its job id and suffix together spell a pid, a time and a number; then as that pid's |
| `WorkDirNames.NamesClassify` | crates/supervisor-core/src/sweep.rs:75-111 | what each text is taken for, both ways: a supervisor's if it reads job-<anything>-<pid>-<nanos>-<counter>, else a runner's if it reads job-<anything>-<six characters>, else foreign |
| `SweepDir.NewestMtime` | crates/supervisor-core/src/sweep.rs:144-165 | the walk with its own stack finds the newest time of the tree as recursion defines it |
| `SweepDir.NewestIsLatest` | crates/supervisor-core/src/sweep.rs:144-165 | the newest time is the latest of all the paths the walk can reach and read |
| `SweepDir.Sweep` | crates/supervisor-core/src/sweep.rs:175-218 | what is left is exactly the entries not both abandoned and removable, in order, and the count is of the others |
| `SweepDir.SweptByName` | crates/supervisor-core/src/sweep.rs:175-218 | an entry goes if and only if it is removable and its name ends in the fields of another process proved dead, or in a runner's suffix with its newest file old enough |
| `SweepDir.ForeignStays` | crates/supervisor-core/src/sweep.rs:199-199 | an entry whose name is no text, does not begin with job-, or ends in neither form stays, whatever the probe and the clock say |
| `SweepDir.SupervisorDirSwept` | crates/supervisor-core/src/sweep.rs:186-191 | a supervisor's directory is abandoned exactly when its owner is another process, proved dead |
| `SweepDir.RunnerDirSwept` | crates/supervisor-core/src/sweep.rs:192-198 | a runner's directory is abandoned exactly by age, unless its name spells an owner |
| `PurgeRecord.PurgeFailures.Record` | crates/supervisor-core/src/purge.rs:54-67 | the new list is the old one with the failure replaced or last, and stays bounded with one entry per path |
| `PurgeRecord.PurgeFailures.Clear` | crates/supervisor-core/src/purge.rs:69-74 | every other entry stays, in order |
| `PurgeRecord.RecordedIsWellKept` | crates/supervisor-core/src/purge.rs:54-67 | after recording, the list holds the failure and what it held before, less the oldest of a full list and nothing else |
| `PurgeRecord.RecordedInOrder` | crates/supervisor-core/src/purge.rs:54-67 | a new failure goes last and pushes out the first of 64; a repeated one takes its place |
| `PurgeRecord.WithoutKeepsTheRest` | crates/supervisor-core/src/purge.rs:69-74 | clearing a path removes its entries and no other |
| `PurgeRecord.WithoutInOrder` | crates/supervisor-core/src/purge.rs:69-74 | the entries that stay keep their order |
| `PurgeRecord.RemoveWithRetry` | crates/supervisor-core/src/purge.rs:83-105 | stops at the first success, fails only after three failures, and reports the last |
| `WorkDirSafety.StepKeeps` | crates/supervisor-core/src/sweep.rs:175-272 | every process start, death, creation, drop, read, probe, removal and retry keeps the protocol's invariant |
| `WorkDirSafety.SweepableIsSafe` | crates/supervisor-core/src/sweep.rs:186-199 | a name the sweep dooms is held by no live process |
| `WorkDirSafety.LiveDirsSurvive` | crates/supervisor-core/src/sweep.rs:175-272 | in every run a live process's working directories are all on disk |
| `WorkDirSafety.OnlyItsOwnerRemoves` | crates/supervisor-core/src/purge.rs:169-191 | a live process's working directory leaves the disk only by its own drop, whatever any other process's sweep or its own retry does |
| `WorkDirSafety.CreationIsSafeIff` | crates/supervisor-core/src/purge.rs:127-134 | drawing a name keeps the protocol safe if and only if no live process is about to remove that name, and otherwise, and only then, the very next removal can lose the directory just created |
| `WorkDirSafety.NewNamesAreSafe` | crates/supervisor-core/src/purge.rs:127-134 | in every run a name that was never on disk is safe to draw |
| `WorkDirSafety.OwedDirsAreRecorded` | crates/supervisor-core/src/purge.rs:169-191 | whatever a live process created and let go of is gone, or in its record, or was pushed out of the full record |
| `WorkDirSafety.NextNameIsNew` | crates/supervisor-core/src/purge.rs:127-134 | a process never draws a name twice |
| `WorkDirSafety.ClockSetBackLosesALiveDir` | crates/supervisor-core/src/sweep.rs:186-217 | a concrete run with a clock set back in which a live directory is removed |
| `WorkDirReclaim.SweepReclaims` | crates/supervisor-core/src/sweep.rs:175-218 | wherever a run has come, an idle live process can sweep a dead supervisor's or an old runner's directory away, and that directory only |
| `WorkDirReclaim.ForeignDirsStay` | crates/supervisor-core/src/sweep.rs:199-199 | in every run a directory with a name in no known form stays on disk unless its maker drops it |
| `WorkDirReclaim.RetriesReclaim` | crates/supervisor-core/src/sweep.rs:233-270 | wherever a run has come, an idle live process can retry its record to the end, and exactly its own and dead processes' directories leave the disk and the record |
| `WorkDirReclaim.OwnFailuresAreDue` | crates/supervisor-core/src/sweep.rs:250-256 | among them is every directory the process made with a sane clock |
| `Publication.StepKeeps` | crates/supervisor-core/src/runner.rs:241-314 | every step of a download, eviction or crash keeps the entry's invariant |
| `Publication.MarkerMeansComplete` | crates/supervisor-core/src/runner.rs:241-314 | at every point of every run, an entry with its marker is the full extraction of bytes with its hash if and only if none of its files was evicted since it was published |
| `Publication.OnlyVerifiedFiles` | crates/supervisor-core/src/runner.rs:284-306 | no file is ever at either path that an unverified archive brought |
| `Publication.RenamePublishes` | crates/supervisor-core/src/runner.rs:302-314 | in every run a rename leaves the whole extraction of the archive just verified at the final path, marker and all and nothing evicted, and the next cache check is a hit |
| `Publication.PublicationPossible` | crates/supervisor-core/src/runner.rs:241-314 | wherever a run has come, whatever crashed, if the check misses then a download of any archive with the hash and the marker can run through and is published whole |
| `Publication.FreshCachePublishes` | crates/supervisor-core/src/runner.rs:241-314 | in particular in a fresh cache |
| `Publication.MarkerFirstIsSafe` | crates/supervisor-core/src/cache.rs:304-304 | if evictions remove the marker first, the marker can be trusted at every moment |
| `Publication.FinishedEvictionsAreSafe` | crates/supervisor-core/src/cache.rs:298-328 | if evictions always finish, the marker can be trusted whenever none is under way |
| `Publication.InterruptedEvictionTears` | crates/supervisor-core/src/cache.rs:304-304 | from any published entry with another file, an interrupted eviction leaves a marker on an incomplete entry, and the next check is a hit |
| `BrowserSweep.WrapperLineParses` | crates/supervisor-core/src/runner.rs:427-456 | the line the wrapper writes is read back as its pid and its start time, whatever the padding |
| `WhiteSpace.NormalizedSameWords` | crates/supervisor-core/src/runner.rs:462-480 | two start times compare equal exactly when they have the same words, cut at Unicode white space |
| `BrowserSweep.KillRecordedBrowsers` | crates/supervisor-core/src/runner.rs:495-551 | the pids signalled are exactly those of the lines that are safe and verified, in order |
| `BrowserSweep.PidsSignalledExactlyWhen` | crates/supervisor-core/src/runner.rs:506-545 | a pid is signalled if and only if it is safe and some browser was recorded under it that has its process's start time, or has none recorded while the pid is in use |
| `BrowserSweep.LinesSignal` | crates/supervisor-core/src/runner.rs:495-551 | of any lines at all, a safe pid is signalled if and only if some line's first word spells it and the rest is its process's start time, or there is no rest and the pid is in use |
| `RunnerChild.TerminateChild` | crates/supervisor-core/src/runner.rs:1090-1138 | the exact effects of a termination, in order |
| `RunnerReport.Attend` | crates/supervisor-core/src/runner.rs:897-1016 | each arm of the select loop ends the run by its own effects; whichever ends it, the effects are in order, the progress reports before it went out in order, and the result is the verdict of the wakes so far |
| `RunnerReport.AwaitExit` | crates/supervisor-core/src/runner.rs:1018-1050 | after the output ends: the wait, a termination if the wait fails, the sweep and the removal in order, and the reason by exit status, done event and failed assignment |
| `RunnerReport.RunJobInner` | crates/supervisor-core/src/runner.rs:753-1050 | every early return and every branch leaves the directory removed after the child was waited for and its browsers swept, with exactly the signals and frames its verdict calls for |
| `RunnerReport.RunJob` | crates/supervisor-core/src/runner.rs:705-751 | all effects of a job are in order; its frames are its progress reports, unchanged and in order, and then the terminal frame its verdict names |
| `RunnerOutcome.LoopEndsAtFirst` | crates/supervisor-core/src/runner.rs:897-1016 | the loop ends at the first wake that is a deadline, a cancel, a silence, a read error, the end of the output, a dead sampler, a sample above the cap or the runner's own error, and at no other |
| `RunnerOutcome.AbortIsReported` | crates/supervisor-core/src/runner.rs:897-1016 | each of these but the end of the output is reported as a failure with its own reason, as the last effect |
| `RunnerOutcome.AbortStopsTheRunner` | crates/supervisor-core/src/runner.rs:897-1016 | and each sends a TERM to a safe pid, and a KILL if it outlives the grace period |
| `RunnerOutcome.ExitIsReported` | crates/supervisor-core/src/runner.rs:1018-1050 | after the output: a failed wait, then a bad exit, then a failed assignment or a missing done event |
| `RunnerOutcome.CompleteIff` | crates/supervisor-core/src/runner.rs:897-1050 | a job is complete if and only if its runner was started, no ending wake came before the end of its output, a done event did, and it exited successfully |
| `RunnerOutcome.CompleteCarriesLastDone` | crates/supervisor-core/src/runner.rs:983-1003 | a complete job carries the size of its last done event, and time and frames from its metrics or else from the event and the assignment |
| `RunnerOutcome.ProgressIsForwarded` | crates/supervisor-core/src/runner.rs:971-982 | before the terminal frame there is one frame for each progress report before the end, untouched and in order, and no other |
| `RunnerOutcome.SetupGetsAsFar` | crates/supervisor-core/src/runner.rs:753-880 | for each way the setup can fail: whether the directory was made, whether a process was started, and the reason reported |
| `RunnerOutcome.BrowsersKilledExactlyWhen` | crates/supervisor-core/src/runner.rs:1027-1038 | however a spawned runner ends, the browsers killed are exactly those recorded that may still be running |
| `RunnerReport.CompleteExactlyWhen` | crates/supervisor-core/src/runner.rs:1018-1050 | a job is reported complete if and only if its runner was started, its output ended before any abort, the runner exited successfully, and a done event was seen |
| `RunnerReport.OneTerminalFrameLast` | crates/supervisor-core/src/runner.rs:705-751 | the terminal frame is the last effect of a job and the only terminal one, and the directory was removed exactly as often as made, at most once |
| `RunnerReport.StoppedExactlyWhen` | crates/supervisor-core/src/runner.rs:841-1026 | the log of a job has a TERM to the runner if and only if it was spawned with a safe pid and its run was aborted or could not be watched or waited for, and a KILL if and only if it then outlived the grace period |
| `RunnerReport.PurgedUnreapedIff` | crates/supervisor-core/src/runner.rs:1109-1125 | no wait for a spawned runner returned its exit if and only if it had to be stopped and the last wait of that failed |
| `RunEffects.KilledBeforePurge` | crates/supervisor-core/src/runner.rs:841-1050 | in every log in order, between a spawn and the removal of the directory a wait for the child came back, and the recorded browsers were swept after that wait |
| `RunEffects.NothingAfterPurge` | crates/supervisor-core/src/runner.rs:705-751 | after the removal nothing is spawned, signalled, swept or created: only the guard is released and the terminal frame sent |
| `RunEffects.GuardCoversTheJob` | crates/supervisor-core/src/runner.rs:705-751 | in every log in order that ends in a report, the keep-awake guard is taken first and given back once, right before the report |
| `RunEffects.NeverSignalsItself` | crates/supervisor-core/src/runner.rs:1058-1060 | no log in order signals process group 0 or the supervisor's own |
| `Numerals.ParseInvertsPrint` | crates/supervisor-core/src/sweep.rs:88-92 | a printed number parses to itself exactly up to the type's limit |
| `Numerals.SplitAtSeparator` | crates/supervisor-core/src/sweep.rs:79-79 | splitting distributes over a separator |
| `Octal.ValueOfOctalText` | packages/client/src/archive.ts:18-21 | an octal field holds the number modulo its capacity, and the number itself if and only if it fits |
| `Ustar.SplitTarPath` | packages/client/src/archive.ts:23-33 | an accepted path's two fields fit and join back to the path |
| `Ustar.RefusedPaths` | packages/client/src/archive.ts:23-33 | a path is refused exactly when it exceeds 100 bytes and its last slash does not cut it into two fitting fields |
| `Ustar.WriteText` | packages/client/src/archive.ts:14-16 | writes the value, cut to the field, and nothing else |
| `Ustar.TarHeader` | packages/client/src/archive.ts:35-53 | the filled block is the fields in order with the checksum over spaces, or the path's error |
| `Ustar.FieldAt` | packages/client/src/archive.ts:35-53 | each field is at the offset its predecessors' widths add up to |
| `Ustar.CheckedBlock` | packages/client/src/archive.ts:45-52 | the block is the one with spaces for its checksum, whose sum is written over them |
| `UstarReader.CreateTar` | packages/client/src/archive.ts:74-83 | the blocks of the members in order and two zero blocks, or the first member's error |
| `UstarReader.HeaderReads` | packages/client/src/archive.ts:35-53 | a written header reads back as its path, mode and kind, its checksum right, and its size modulo 8^11 |
| `UstarReader.HeaderIsReproducible` | packages/client/src/archive.ts:35-53 | in every header owner, group and time read as 0 and the unused fields are zero bytes |
| `UstarReader.ArchiveRoundTrip` | packages/client/src/archive.ts:74-83 | for every entry list whose paths are accepted, the reader recovers exactly the entries, permission bits only, if and only if every size is below 8^11 |
| `UstarReader.ArchiveFails` | packages/client/src/archive.ts:23-33 | an archive fails exactly when some path cannot be split, with the first such path |
| `UstarReader.MembersAreBlocks` | packages/client/src/archive.ts:78-80 | an archive is whole blocks |
| `Collect.CollectDir` | packages/client/src/archive.ts:55-72 | the walk pushes the listing in the order the recursion defines |
| `Collect.ListingIsExact` | packages/client/src/archive.ts:55-72 | the listing is exactly the files and the directories with neither file nor directory in them, each under its path |
| `Collect.NoPathTwice` | packages/client/src/archive.ts:55-72 | in a tree whose directories have distinct names without slashes, no path is listed twice |
| `Collect.DirectoriesAreImplied` | packages/client/src/archive.ts:5-11 | every directory left out has something listed below it |
| `Collect.TreeReadsBack` | packages/client/src/archive.ts:55-83 | a reader of a tree's archive finds exactly its files and empty directories |
| `Base64Url.Decode` | crates/supervisor-core/src/worker_token.rs:72-90 | fails exactly on a symbol outside the alphabet before the padding; otherwise gives the floor(6n/8) whole bytes of the symbols' bit string |
| `Base64Url.OneMoreByte` | crates/supervisor-core/src/worker_token.rs:80-87 | the low bits of the wrapping buffer are always exactly the pending input |
| `Base64Url.DecodingIsUnique` | crates/supervisor-core/src/worker_token.rs:72-90 | the decoder's contract leaves it one answer |
| `Base64Url.Encode` | crates/supervisor-core/src/worker_token.rs:97-112 | unpadded symbols whose bit string is the bytes', filled up with zeros |
| `Base64Url.DecodeInvertsEncode` | crates/supervisor-core/src/worker_token.rs:72-112 | decoding an encoding, with or without padding, gives the bytes and nothing else |
| `Base64Url.RoundTrip` | crates/supervisor-core/src/worker_token.rs:72-112 | the same, of the two loops run one after the other |
| `KeyValueText.ReadText` | bins/decent/src/main.rs:232-238 | the map of the lines, the later of two with one key counting |
| `KeyValueText.TextRoundTrip` | bins/decent/src/main.rs:230-238 | pairs without newlines come back from their text, each value without the carriage return that may have ended it |
| `KeyValueText.CutParses` | bins/decent/src/main.rs:230-238 | any cut of a text reads as its whole rows and, at most, a prefix of the next value |
| `StatusSnapshot.WriteSnapshot` | bins/decent/src/main.rs:929-978 | the lines in order, the time last |
| `StatusSnapshot.SnapshotRoundTrip` | bins/decent/src/main.rs:230-269 | a whole file of values without newlines reads as the status it was written from, each text without the carriage return that may have ended it |
| `StatusSnapshot.SnapshotRoundTripIff` | bins/decent/src/main.rs:230-269 | a whole file reads as the very status it was written from if and only if no text a reader is shown ends in a carriage return |
| `StatusSnapshot.CutSnapshot` | bins/decent/src/main.rs:226-269 | every strict prefix reads as nothing or as the whole status with its time cut short |
| `StatusSnapshot.TornFilesAreHarmless` | bins/decent/src/main.rs:205-269 | from 16,667 ms on a strict prefix reads as nothing, as stale, or as the complete status |
| `StatusSnapshot.TornFilesHarmlessIff` | bins/decent/src/main.rs:205-269 | torn files never mislead if and only if the time has one digit or is at least 16,667 ms |
| `Liveness.Timer.Tick` | packages/runner-core/src/index.ts:167-171 | a heartbeat is written exactly when nothing was since the last callback |
| `Liveness.Timer.Report` | packages/runner-core/src/index.ts:177-184 | a report always writes its line and counts as activity |
| `Liveness.SilenceIsBounded` | packages/runner-core/src/index.ts:167-185 | for every progress pattern consecutive lines, and the end of the render, are at most two intervals and two blocks of the event loop apart |
| `Liveness.SilenceBoundIsExact` | packages/runner-core/src/index.ts:167-171 | a gap bounds the silence of every run if and only if it is at least two intervals and two blocks |
| `Liveness.NeverSilentIff` | crates/supervisor-core/src/runner.rs:18-18 | at the production interval no run is silent for 120 s if and only if every block of the event loop is below 30 s |

## Left out

- WebSocket, TLS, HTTP, process spawning, signals: each is a step that succeeds or fails.
- Status bus, log lines, terminal and desktop interfaces, doctor checks, service installation: text and plumbing.
- Close frames, control frames and unparseable server frames: the session ignores them or leaves through a modelled exit.
- Reconnect backoff, connect retries, URL and environment parsing: single branches.
- Failures of the handshake itself (`run_until_exit` returning an error): they end the run before a session starts.
- The cache keys a session protects across reconnects: the sweep takes its protected set as a parameter.
- Last-use markers as text, directory sizes: parameters of the listing.
- Byte totals as 64-bit integers: sums are unbounded in the model.
- `ensure_bundle`, the retry and upload guards, ffprobe checks of the runner: not part of this model.
- Contents of the ledger file that do not parse: a ledger holds a record or none.
- A ledger removed or edited by the operator between passes: not part of this model.
- Two downloads of one archive at once, or by two supervisors sharing a cache: one writer per entry.
- An eviction and a download of the same entry overlapping within a supervisor: its loop does one after the other.
- gzip and sha256: the archive is modelled before compression, and the hash and the unpacking are arbitrary functions.
- UTF-8: archive paths are the bytes of their text, and a field is never cut inside a character of an accepted path.
- The order in which a directory walk sorts names: the model takes each directory in its sorted order.
- Time bounds on a drain: downloads and the final wait are not watched for cancel or deadline, so none is claimed.
- A silent runner being killed at 120 s: the timeout is rebuilt on every wake, the disk sampler's included, so it is not claimed.
- WorkDirSafety.LiveDirsSurvive: says nothing of names drawn with a failed clock, which the age gate may reclaim after seven days.
- WorkDirSafety.OnlyItsOwnerRemoves: assumes no live process is about to remove a name as it is drawn; `CreationIsSafeIff` shows that nothing weaker will do, and `ClockSetBackLosesALiveDir` how it can fail.
- Publication.MarkerMeansComplete: a top-level file of an archive named `artifact.tar.gz` or `.last-use` is not counted, because the supervisor removes the one and rewrites the other.
- Publication: the stepwise `ensure_artifact` is modelled as transitions on values, so that a crash can fall between any two of them, and not as a method.
- The process loop around upgrades, and `run_session` as one loop: a history of passes and a machine over events, so that a crash or any order of events can be taken; the parts that change state are methods of `Ledger`, `Session` and `AutoUpgradeGate`.
- The disk sampler's walk: it has the shape of `SweepDir.NewestMtime`, and a sample is a number the environment gives.
- StatusSnapshot.SnapshotRoundTrip: progress is carried as its text and not as a floating-point number, and no text holds a newline, which the writer would split into two lines.
- RunnerReport: reasons are constructors and not the message texts; an event sequence nothing ends is ended by the deadline, which is armed once.
