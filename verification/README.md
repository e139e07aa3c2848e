# DeepSonar: verified models of its stateful cores

DeepSonar has no single algorithm. Its difficulty sits in several small cores: lease tables and locks
that concurrent code shares, protocols that survive lost messages and crashes, logs that are compacted,
and bounded or redacted views of data. Each module here models one of them in Dafny and proves what its
code, comments and documentation promise, or the exact condition under which the code meets the promise.

| file | core |
|---|---|
| `DeviceLeases.dfy` | the device broker's lease table, with the await inside `acquire` |
| `DeviceRegistry.dfy` | the broker's register of pushed devices and its copy on disk |
| `CompletionClient.dfy` | the completion client's retry protocol against an arbitrary server |
| `AttemptLease.dfy` | heartbeats that renew a Job's lease, against finalizations and other writers |
| `LockOrder.dfy`, `Finalization.dfy` | row locks and the guarded terminal transition of a Job |
| `AuditGate.dfy` | scoring, aggregation and comparison of evaluation runs |
| `CanvasDelta.dfy`, `CanvasBody.dfy` | log compaction for canvas clients; bounded node bodies |
| `CanvasBroadcast.dfy` | the at-most-once delivery ledger |
| `UpgradeLock.dfy`, `PrivateFile.dfy` | the Windows upgrade lock and crash-atomic file replacement |
| `RecallBounds.dfy`, `UiRedaction.dfy`, `ObjectGraphs.dfy` | bounding and redacting recall results over object graphs |
| `PromptCompaction.dfy` | one compaction of an overlong prompt |
| `ImageTrust.dfy` | trust of runtime image versions under scans, failures and operators |
| `MaintenanceGate.dfy` | the gate that starts and stops background loops |
| `SecretAssignments.dfy`, `SecretProjection.dfy` | redacting and restoring secrets in texts and settings |
| `JobPriority.dfy` | lanes and fixed priorities of Jobs |
| `Options.dfy`, `OrderedMaps.dfy`, `Jsons.dfy`, `Texts.dfy` | shared datatypes and text functions |

Concurrent code is a state machine: `Enabled` and `Next` give the steps, every await, transaction or row
lock being a boundary, and `Run` gives the state after a sequence of steps. The theorems quantify over all
such sequences. Code that updates variables is a method or a class whose contract ties it to the functions
the theorems are about. Nothing was executed.

## Where the code and its promise part

Each of these is proved, with a concrete run or an exact condition:

- Two overlapping `acquire` calls can both be granted a device (`DeviceLeases.CommitKeepsExclusionIff`).
- A push that admits no device opens all of them, where the comment in
  `apps/device-broker/src/registry.ts:12-18` closes them (`DeviceRegistry.EmptyPushOpensEverything`,
  `DeviceRegistry.UsableAsPromisedIff`). An older push is refused only as far as the file remembers: after a
  missed or torn save and a restart it is accepted (`DeviceRegistry.GoesBackIff`).
- A Job is finalized at most once only if it succeeds. One that failed can be resumed, legally, and finalized
  again (`AttemptLease.FinalizedAgainIff`; `MayBecome` follows
  `apps/scheduler/src/domains/job-lifecycle/transition-policy.ts:39-50`). Events that are merely late never
  overwrite a terminal state, as the comment on `finalizeJob` says (`AttemptLease.LateFinalizationIsIgnored`).
- A compacted delta keeps a stale full copy of a node that was deleted and came back
  (`CanvasDelta.CompactionIsReplayIff`), and so a client that catches up in one request may end elsewhere than
  one that does it in two (`CanvasDelta.DeltasComposeIff`).
- Environment noise in a middle run lets a real regression through two accepted upgrades
  (`AuditGate.HidesRegressionIffNoisy`).
- Trust written to an official image while a scan runs is lost when the scan fails
  (`ImageTrust.OfficialLosesTrustIff`), and a success whose acknowledgement is lost turns into a failure
  (`ImageTrust.VerdictChangesIff`).
- A scan orphaned by the death of its worker ends the periodic rescan of its version
  (`ImageTrust.AbandonedClaimIsOrphan`, `ImageTrust.RescanReachesIff`).
- Assignments to one name with different values, and empty ones, do not survive redact and restore
  (`SecretAssignments.TextRoundTripIff`).
- Creation compares Job types untrimmed, normalization trimmed: a public Job whose type is a system type
  with white space around it changes lane on restart (`JobPriority.PublicJobsStayInDiscovery`).

## Assumptions

- Row locks have the database's meaning: a locked row is changed by its holder only. Adding an attempt or
  a node that references a Job needs the Job row unlocked (foreign keys in `database/schema.sql:107-146` and
  `database/schema.sql:1107-1110`). An ended attempt is not activated again, settling a terminal Job leaves
  no attempt active, and a node's type and an image's source kind never change.
- Fresh identifiers (leases, attempts, scans, temporary names) are fresh. Clock readings do not decrease.
- A crash keeps flushed file data and turns the rest into anything; a directory entry not yet written
  through may be rolled back, each name on its own.
- `start` of the maintenance gate runs without interruption, a loop it launches is alive exactly from its
  registration, and stopping a loop succeeds.

## Model

| member | source | states |
|---|---|---|
| `DeviceLeases.LeaseStore.PurgeExpired` | apps/device-broker/src/leases.ts:90-100 | the table afterwards has every unreleased lease past its expiry released as expired, nothing else changed, and the count says how many |
| `DeviceLeases.LeaseStore.ActiveLeaseFor` | apps/device-broker/src/leases.ts:79-87 | finds a lease exactly when the device is busy, and then one that is in force on that device |
| `DeviceLeases.LeaseStore.BeginAcquire` | apps/device-broker/src/leases.ts:106-136 | `acquire` up to its await: granted is the first device in the list that has the transport, is the one asked for by key or else by model, and is on the whitelist, if no lease is in force on it; each refusal is given exactly when it is due: no device asked for, none of those on the whitelist, that first one held |
| `DeviceLeases.LeaseStore.CommitAcquire` | apps/device-broker/src/leases.ts:146-160 | after the await the lease is appended without another look at the table |
| `DeviceLeases.LeaseStore.Release` | apps/device-broker/src/leases.ts:164-176 | releases after purging; releasing twice or an unknown lease changes nothing |
| `DeviceLeases.LeaseStore.Session` | apps/device-broker/src/leases.ts:179-191 | purges, and answers exactly the leases still in force |
| `DeviceLeases.RunKeepsInv` | apps/device-broker/src/leases.ts:102-161 | in every interleaving of check steps, commits, releases, sessions and purges every lease and every pending ticket traces back to the window of its acquire, and leases whose windows do not overlap never hold one device together |
| `DeviceLeases.SimultaneousLeasesOverlap` | apps/device-broker/src/leases.ts:102-161 | two leases in force on one device at the same moment come from acquires whose check-to-commit windows overlapped |
| `DeviceLeases.SequentialRunsAreExclusive` | apps/device-broker/src/leases.ts:12-18 | if no two acquire windows overlap, a device never has two leases in force |
| `DeviceLeases.FreeAfterTtl` | apps/device-broker/src/leases.ts:128-136 | in every run a lease is out of force ttlMaxSec after it was granted |
| `DeviceLeases.CommitKeepsExclusionIff` | apps/device-broker/src/leases.ts:125-159 | one commit keeps "one unfinished lease per device" if and only if no other lease is in force on the device at that moment, or the new one is already expired; the code does not test this again |
| `DeviceLeases.OverlappingAcquiresDoubleGrant` | apps/device-broker/src/leases.ts:125-159 | a concrete run of two overlapping acquires grants one device twice, so the promise of lines 12-18 fails without that condition |
| `CompletionClient.Preflight` | agent-harness/opensandbox/om-provider-headers-completion.py:55-65 | one state read decides whether to begin; it begins only on the word of the scheduler about a running Job and its attempt, at revision 0, with attempts left, no terminal accepted and correcting or reconciling allowed; nothing is sent yet |
| `CompletionClient.Restore` | agent-harness/opensandbox/om-provider-headers-completion.py:92-108 | after a receipt of acceptance the same proposal is re-sent once exactly if the state read next invites it, and accepted is reported exactly if that POST is accepted |
| `CompletionClient.Correct` | agent-harness/opensandbox/om-provider-headers-completion.py:137-154 | the next revision is sent exactly if the state read next invites it, its key is new and time is left; a state that only does not list it is waited for |
| `CompletionClient.Judge` | agent-harness/opensandbox/om-provider-headers-completion.py:109-136 | a receipt without acceptance leads to a proposal exactly if it is a recoverable rejection of this very proposal, with repair attempts, time and tokens left, attempts left, a revision below seven and newer evidence; it is waited for exactly if only the evidence is missing; every other one stops the run, as rejected exactly if it is no recoverable rejection |
| `CompletionClient.Advise` | agent-harness/opensandbox/om-provider-headers-completion.py:138-151 | the second state leads to the proposal exactly if the attempt runs, the revision is the next, attempts are left, nothing blocks and the correction is listed; it is waited for exactly if only one of the last two is missing |
| `CompletionClient.ReadBoth` | agent-harness/opensandbox/om-provider-headers-completion.py:77-88 | a round begins with a receipt read and a state read and stops as the replies require |
| `CompletionClient.Round` | agent-harness/opensandbox/om-provider-headers-completion.py:75-155 | one round keeps the record within the protocol, adds at most five exchanges, and ends as its two reads say: stopped, waited for, restored or corrected |
| `CompletionClient.Run` | agent-harness/opensandbox/om-provider-headers-completion.py:29-156 | against any server and any clock `run` terminates with a disciplined record: the first POST stands behind a state that licenses it, the protocol is never left, and what is reported follows from the record |
| `CompletionClient.DisciplineBoundsPosts` | agent-harness/opensandbox/om-provider-headers-completion.py:67-151 | at most nine POSTs; revisions 0, 1, 2, ... with pairwise distinct keys, except that the last POST may repeat the one before it |
| `CompletionClient.EveryLaterPostIsLicensed` | agent-harness/opensandbox/om-provider-headers-completion.py:92-151 | every POST after the first stands directly behind a receipt of the previous proposal, a state that sustains the attempt and an inviting state; it is the next revision after an identity-matched recoverable rejection within its budget and with newer evidence, or the same proposal after an accepted receipt |
| `CompletionClient.EveryNextRevisionIsFunded` | agent-harness/opensandbox/om-provider-headers-completion.py:125-150 | in numbers: every further revision is one of 1 to 7 and stands behind a receipt whose repair budget has attempts and time above zero and tokens not zero, and behind two states with attempts left |
| `CompletionClient.AcceptedIffServerAccepted` | agent-harness/opensandbox/om-provider-headers-completion.py:23-26 | accepted is reported exactly when some POST got a 200 acceptance of its own revision |
| `CompletionClient.PrefixInOrder` | agent-harness/opensandbox/om-provider-headers-completion.py:29-156 | every prefix of a disciplined record is within the protocol |
| `AttemptLease.RunKeepsInv` | apps/scheduler/src/attempt-lease.ts:32-74 | registrations, timers, ticks, row locks and the log of committed writes stay consistent over every interleaving with finalizations and other writers |
| `AttemptLease.ExtensionsAreRightful` | apps/scheduler/src/attempt-lease.ts:16-27 | every committed extension happened while the Job ran in that sandbox and the attempt was the latest, active and uncancelled |
| `AttemptLease.LockedExtensionCommits` | apps/scheduler/src/attempt-lease.ts:19-27 | once the attempt row is locked and checked the guarded UPDATE cannot miss |
| `AttemptLease.OneTickPerRegistration` | apps/scheduler/src/attempt-lease.ts:56-68 | each registration has at most one tick in flight, each key at most one live timer |
| `AttemptLease.StopIsPrivate` | apps/scheduler/src/attempt-lease.ts:49-54 | an old stop closure leaves every other registration and timer as they were |
| `AttemptLease.StartReplaces` | apps/scheduler/src/attempt-lease.ts:41-70 | a start takes over from an earlier registration of the same owner, whose timer stops, and from nobody else |
| `AttemptLease.StaleTickEnds` | apps/scheduler/src/attempt-lease.ts:16-27 | a tick whose registration is no longer current ends with its next step and lets go of its rows |
| `AttemptLease.StoppedNeverRenews` | apps/scheduler/src/attempt-lease.ts:49-62 | a registration stopped before its tick locked the attempt row never extends a lease again, over every continuation |
| `AttemptLease.SuccessIsFinal` | apps/scheduler/src/core.ts:1405-1412 | after a committed success there is no later finalization, resumption or renewal of the Job |
| `AttemptLease.FinalizedOncePerResumption` | apps/scheduler/src/core.ts:1405-1412 | two finalizations of a Job have a resumption between them and the earlier one was a failure |
| `AttemptLease.NoRenewalAfterFinalization` | apps/scheduler/src/attempt-lease.ts:14-28 | an attempt that existed when its Job was finalized is never renewed afterwards, even if the Job is resumed |
| `AttemptLease.UndisturbedTick` | apps/scheduler/src/attempt-lease.ts:14-68 | one heartbeat from end to end, in any reachable state: with the sandbox alive the lease is extended exactly if the Job runs in it and the attempt is its latest, active and uncancelled, and otherwise the registration stops itself; no row lock is left behind |
| `AttemptLease.OwnershipEnds` | apps/scheduler/src/attempt-lease.ts:18-23 | a newer attempt, a cancellation, another sandbox or another status takes the Job from its owner at once |
| `AttemptLease.FinalizedAgainIff` | apps/scheduler/src/core.ts:1405-1412 | "finalized at most once", exactly: after any finalization that commits, in any reachable state, some continuation finalizes the Job again if and only if it ended as failed |
| `AttemptLease.LateFinalizationIsIgnored` | apps/scheduler/src/core.ts:1348-1355 | a late event never overwrites a terminal state: until the Job is resumed a further finalization changes nothing |
| `AttemptLease.FinalizationClosesAttempts` | apps/scheduler/src/core.ts:1405-1430 | a finalization that commits ends the Job and every attempt it has |
| `LockOrder.RunKeepsInv` | apps/scheduler/src/core.ts:1366-1412 | every transaction holds and queues for rows in one rank order: Canvas, Job, then nodes by id or attempts by number |
| `LockOrder.NoCyclicWait` | apps/scheduler/src/core.ts:1225-1229 | no reachable state of any number of finalize, verify-recovery, renewal and publish-check transactions has a cyclic wait |
| `LockOrder.SomeoneMoves` | apps/scheduler/src/core.ts:1545-1552 | whenever transactions are open one of them can go on |
| `LockOrder.WaitsAscend` | apps/scheduler/src/attempt-lease.ts:16-21 | along a chain of waits the rows waited for ascend in the rank order |
| `LockOrder.UndisturbedLocks` | apps/scheduler/src/core.ts:1366-1412 | a transaction that finds its rows free comes to hold exactly the rows of its statements, in their order, until it ends; no two transactions ever hold one row |
| `Finalization.RunKeepsInv` | apps/scheduler/src/core.ts:1356-1435 | what a finalization has read and locked stays true under all other writers |
| `Finalization.FinalizedInsideOneCanvas` | apps/scheduler/src/core.ts:1366-1435 | every committed finalization found the Job running and wrote Job and nodes inside the one Canvas it had locked |
| `Finalization.WritesExactlyTheLockedNodes` | apps/scheduler/src/core.ts:1393-1435 | the rows the unguarded node UPDATE hits are exactly the rows locked before |
| `Finalization.OneFinalizerAtATime` | apps/scheduler/src/core.ts:1387-1412 | two finalizations of one Job never hold its row together |
| `Finalization.UndisturbedFinalization` | apps/scheduler/src/core.ts:1356-1435 | one finalization from end to end, in any reachable state: the Job and exactly its converging nodes get the status if the Job runs and agrees with them on a Canvas that exists, or none; otherwise no row changes |
| `Finalization.DroppedCanvasAborts` | apps/scheduler/src/core.ts:1385-1385 | a Canvas dropped after the reads ends the finalization without a trace |
| `Finalization.MovedJobAborts` | apps/scheduler/src/core.ts:1387-1392 | so does a Job moved to another Canvas before it is locked |
| `Finalization.MovedNodeAborts` | apps/scheduler/src/core.ts:1393-1403 | and a node moved or dropped before the nodes are locked |
| `Finalization.SuccessIsLast` | apps/scheduler/src/core.ts:1405-1412 | no finalization of a Job commits after a success |
| `AuditGate.ScoreSample` | apps/scheduler/src/audit-regression-gate.ts:157-214 | confirmation matches exactly the two vulnerable labels, refutation the four settled ones, an open outcome the two undecided ones; a false confirmation is one on a label not vulnerable, a false miss anything else on a vulnerable one; disputed, failed and incomplete results are unscored |
| `AuditGate.OneClassMatches` | apps/scheduler/src/audit-regression-gate.ts:157-173 | no outcome matches labels of two classes |
| `AuditGate.Aggregate` | apps/scheduler/src/audit-regression-gate.ts:234-260 | the counting loop adds up the shares of the samples, of two results for a sample the later one |
| `AuditGate.BuildReport` | apps/scheduler/src/audit-regression-gate.ts:216-290 | the report holds the totals over all samples and the rate that follows from them |
| `AuditGate.CompareSamples` | apps/scheduler/src/audit-regression-gate.ts:315-378 | the comparison loop files every sample under the verdict of its two results |
| `AuditGate.CompareRuns` | apps/scheduler/src/audit-regression-gate.ts:296-413 | accepted exactly when every sample passes; each of the reasons, environment noise, lost quality and incomplete evaluation among them, is given exactly when it applies |
| `AuditGate.AcceptedRunIsNoWorse` | apps/scheduler/src/audit-regression-gate.ts:234-391 | acceptance without environment noise implies no fewer matches, no more false confirms and no more false misses |
| `AuditGate.AcceptanceIsTransitive` | apps/scheduler/src/audit-regression-gate.ts:315-391 | acceptance composes through a middle run without environment noise |
| `AuditGate.ComposesIffQuiet` | apps/scheduler/src/audit-regression-gate.ts:315-391 | a finished middle run composes all acceptances through it if and only if it had no noise on a labeled sample |
| `AuditGate.HidesRegressionIffNoisy` | apps/scheduler/src/audit-regression-gate.ts:315-391 | a finished middle run lets a real regression through two accepted upgrades - a matched sample that no longer matches, fewer matches in all - if and only if it had environment noise on a labeled sample |
| `AuditGate.ChainAccepts` | apps/scheduler/src/audit-regression-gate.ts:315-391 | in a chain of any length whose inner runs are quiet, the first run accepts the last |
| `CanvasDelta.BuildDelta` | apps/scheduler/src/canvas-delta.ts:155-198 | the loops compute the delta in which each entity appears with its final operation, in order of first change |
| `CanvasDelta.ReduceTidy` | apps/scheduler/src/canvas-delta.ts:167-187 | the change maps have each key once with the value under its own id |
| `CanvasDelta.CompactionIsReplayIff` | apps/scheduler/src/canvas-delta.ts:145-198 | applying the delta equals replaying the rows one by one if and only if no node the client holds a full copy of was deleted and came back within the rows |
| `CanvasDelta.CompactionIsReplay` | apps/scheduler/src/canvas-delta.ts:145-198 | for a snapshot without full copies the two always agree |
| `CanvasDelta.ReplayIsOutcome` | apps/web/src/canvas-sync.ts:105-170 | replaying ends in the final operation of each entity, and loses the full copy of every node deleted on the way |
| `CanvasDelta.ClientHoldsLastNode` | apps/web/src/canvas-sync.ts:85-135 | after a delta the client holds each node as the last row to speak of it says: gone with its full copy, or the summary of that row with the body of the full copy, if it keeps one; other nodes stay |
| `CanvasDelta.ClientHoldsLastEdge` | apps/web/src/canvas-sync.ts:127-131 | and each edge likewise |
| `CanvasDelta.TombstonesWin` | apps/web/src/canvas-sync.ts:110-131 | of any delta, one that names an entity twice included, a deletion wins |
| `CanvasDelta.UpsertsAndDeletesDisjoint` | apps/scheduler/src/canvas-delta.ts:188-195 | upsert and delete ids are disjoint and no id is upserted twice |
| `CanvasDelta.DeltasComposeIff` | apps/scheduler/src/canvas-delta.ts:155-198 | for every client, one delta over two row ranges equals the two deltas in order if and only if no node it holds a full copy of is left deleted by the first range and brought back by the second |
| `CanvasDelta.ApplyTwice` | apps/web/src/canvas-sync.ts:105-170 | applying a delta a second time changes nothing |
| `CanvasBody.BoundedIsWithinBounds` | apps/scheduler/src/canvas-delta.ts:4-60 | every text of a bounded body is within its limit, and nodes other than human ones show no question |
| `CanvasBody.BoundedSummaryIs` | apps/scheduler/src/canvas-delta.ts:9-32 | the summary is the beginning of the first text among summary, description and message, the description of the first among description and summary |
| `CanvasBody.BoundedTextsAre` | apps/scheduler/src/canvas-delta.ts:32-41 | severity, role and type are kept if they are texts, the reason on human nodes only |
| `CanvasBody.BoundedProgressIs` | apps/scheduler/src/canvas-delta.ts:20-28 | progress is kept if it is an object, its texts cut to their limits |
| `CanvasBody.BoundedSubjectIs` | apps/scheduler/src/canvas-delta.ts:40-56 | a human node asks about the finding its subject names, else about a platform blocker, else about the finding the node names |
| `CanvasBody.BoundedColorIs` | apps/scheduler/src/canvas-delta.ts:57-59 | the color is kept in lower case exactly if it is a number sign and six hexadecimal digits |
| `CanvasBody.WithinBoundsIsKept` | apps/scheduler/src/canvas-delta.ts:4-60 | a body within bounds passes through unchanged |
| `CanvasBody.BoundingTwice` | apps/scheduler/src/canvas-delta.ts:3-60 | bounding a bounded body changes nothing, so snapshot and deltas agree on it |
| `CanvasBroadcast.RunKeepsInv` | apps/scheduler/src/canvas-updates.ts:85-155 | each planned row has at most one delivery that may still send, over any number of schedulers, notifications and crashes |
| `CanvasBroadcast.AtMostOneSend` | apps/scheduler/src/canvas-updates.ts:85-131 | `send` is called at most once per source node, target Job and attempt, and a row that is no longer planned left planned exactly once |
| `CanvasBroadcast.InjectedMeansSent` | apps/scheduler/src/canvas-updates.ts:7-20 | a row marked injected means that its send resolved |
| `CanvasBroadcast.SettledStaysForever` | apps/scheduler/src/canvas-updates.ts:133-148 | a row that left planned never changes again |
| `CanvasBroadcast.DeliveryEndsAs` | apps/scheduler/src/canvas-updates.ts:7-155 | what becomes of a message for every outcome of the steps of its delivery: injected exactly if the send resolved and its settlement committed, seen or not; unknown or still planned otherwise; never sent if the plan or its acknowledgement failed |
| `CanvasBroadcast.SendableIff` | apps/scheduler/src/canvas-updates.ts:85-141 | in every reachable state a message not yet sent can still be sent if and only if its row is not planned or the delivery that planned it has yet to call `send` |
| `DeviceRegistry.Normalize` | apps/device-broker/src/registry.ts:48-62 | the loop computes the normal form: admitted entries, the last for a key in the place of the first |
| `DeviceRegistry.Registry.Load` | apps/device-broker/src/registry.ts:81-104 | a readable document replaces the register by its normal form; an unreadable one empties it; a malformed one changes nothing |
| `DeviceRegistry.Registry.Apply` | apps/device-broker/src/registry.ts:129-150 | ok exactly for finite revisions that are no older; an equal revision after a push changes nothing |
| `DeviceRegistry.Registry.IsUsable` | apps/device-broker/src/registry.ts:153-162 | every device while nothing is pushed; otherwise exactly the pushed devices of the same transport that are within the ceiling, or any of them without a ceiling if the platform is trusted |
| `DeviceRegistry.Registry.CurrentMode` | apps/device-broker/src/registry.ts:110-114 | the four modes are those of an empty set, a ceiling, a trusted platform and none of these |
| `DeviceRegistry.UsableAfterPush` | apps/device-broker/src/registry.ts:48-62 | after a push that is taken and offers some device, usable are exactly the devices whose last offer - keyed, on an implemented transport, not disabled - names the transport, as far as the rig allows them |
| `DeviceRegistry.UsableAsPromisedIff` | apps/device-broker/src/registry.ts:12-18 | after any pushes the rule of the module comment is kept if and only if no push was valid or the one the registry holds admits a device |
| `DeviceRegistry.EmptyPushOpensEverything` | apps/device-broker/src/registry.ts:106-114 | a concrete push of an empty set, which should close every device, opens them all |
| `DeviceRegistry.ListedRoundTrip` | apps/device-broker/src/registry.ts:116-123 | normalizing a snapshot gives back the same devices in the same order |
| `DeviceRegistry.RegistryHoldsWinner` | apps/device-broker/src/registry.ts:129-150 | after any pushes in any order with repetitions the registry holds the earliest one among those with the greatest revision |
| `DeviceRegistry.SaveLoadRoundTrip` | apps/device-broker/src/registry.ts:164-176 | save then load is the identity on a normalized state |
| `DeviceRegistry.RunKeepsFileBehind` | apps/device-broker/src/registry.ts:135-150 | the file never runs ahead of memory, whatever saves fail or tear |
| `DeviceRegistry.RestartAndReplayRestores` | apps/device-broker/src/registry.ts:81-150 | after a restart, re-applying the latest push restores set and revision |
| `DeviceRegistry.GoesBackIff` | apps/device-broker/src/registry.ts:125-150 | in every reachable state a restart can make the registry accept an older push if and only if the file does not hold the current revision |
| `UpgradeLock.RunKeepsInv` | deploy/platform-upgrade-windows.cs:102-143 | open numbers are never reused and all live handles on the lock come from one open |
| `UpgradeLock.OneAcquisition` | deploy/platform-upgrade-windows.cs:116-142 | all live handles on the lock, in whatever processes, belong to one acquisition |
| `UpgradeLock.AcquireWaitsForAllHolders` | deploy/platform-upgrade-windows.cs:116-143 | a later acquisition opens the lock only after host and all borrowers of the earlier one have closed or died |
| `UpgradeLock.FreeLockCanBeOpened` | deploy/platform-upgrade-windows.cs:53-66 | over every continuation that does not hand the lock on, whatever ids and handle values are reused, a live process can open it if and only if every handle on the lock was closed or its process died |
| `UpgradeLock.ParentIsTheStarter` | deploy/platform-upgrade-windows.cs:102-115 | a successful parent check found the process that started the caller, not a later one under the same id |
| `UpgradeLock.LeaseDiesWithHost` | deploy/platform-upgrade-windows.cs:102-142 | once the host is gone nobody borrows or releases a handle on its word, whatever process bears its id by then |
| `UpgradeLock.AcquireHandsOver` | deploy/platform-upgrade-windows.cs:116-125 | the steps of Acquire leave the lock with the host, whenever the helper dies |
| `UpgradeLock.BorrowerKeepsTheLock` | deploy/platform-upgrade-windows.cs:135-143 | a later child can borrow the lock, which then outlives the host until the child closes it or dies |
| `UpgradeLock.ReleaseFreesTheLock` | deploy/platform-upgrade-windows.cs:126-134 | a release takes the handle from the host, and closing what was taken frees the lock |
| `PrivateFile.RunKeepsInv` | deploy/platform-upgrade-windows.cs:159-183 | whatever stands under a private path is flushed and complete, over any number of writers, failures and crashes |
| `PrivateFile.ReplacementIsAtomic` | deploy/platform-upgrade-windows.cs:159-183 | after any run a private path holds its initial content or the complete content of some write to it, and is absent only if it was |
| `PrivateFile.OldOrNew` | deploy/platform-upgrade-windows.cs:159-174 | while one content is being written, a crash at any point leaves the complete old or the complete new content |
| `PrivateFile.FinishedIsDurable` | deploy/platform-upgrade-windows.cs:175-183 | once the rename has returned, its file or one placed after it stands under the path, whatever crashes follow |
| `PrivateFile.UndisturbedWrite` | deploy/platform-upgrade-windows.cs:159-183 | a write nobody disturbs, from any reachable state, leaves exactly the new content under its path, flushed and written through, no temporary name, and every other path as it was |
| `PrivateFile.FailureLeavesNoTrace` | deploy/platform-upgrade-windows.cs:159-174 | a writer that fails before its move and cleans up leaves every other name as it was |
| `RecallBounds.Utf8LenIsEncodedLength` | agent-harness/pi-observational-memory-governed.ts:148-149 | the lengths reckoned with are those of the text encoded in UTF-8, byte by byte |
| `RecallBounds.OneMoreUnit` | agent-harness/pi-observational-memory-governed.ts:149-156 | the UTF-8 length a unit adds: one byte completes a pair, otherwise what the unit takes alone |
| `RecallBounds.LongerTakesMore` | agent-harness/pi-observational-memory-governed.ts:151-157 | UTF-8 length is strictly monotone over UTF-16 prefixes, which the binary search needs |
| `RecallBounds.LongestFitting` | agent-harness/pi-observational-memory-governed.ts:151-157 | the binary search finds the longest prefix, in units, that takes no more than the budget |
| `RecallBounds.Utf8Prefix` | agent-harness/pi-observational-memory-governed.ts:148-161 | the binary search computes the longest fitting prefix, cut back by a trailing high surrogate, and the marker |
| `RecallBounds.WithinBudgetIff` | agent-harness/pi-observational-memory-governed.ts:148-161 | the result is within the budget if and only if the text was, or the budget has room for the marker |
| `RecallBounds.BoundedIsWellFormed` | agent-harness/pi-observational-memory-governed.ts:158-160 | well-formed text stays well formed |
| `RecallBounds.BoundedKeepsTheMost` | agent-harness/pi-observational-memory-governed.ts:151-160 | no longer well-formed prefix would have fitted |
| `RecallBounds.Walk.BoundRecallValue` | agent-harness/pi-observational-memory-governed.ts:163-184 | the walk over any object graph, cycles included, computes the bounded tree, restores its set of seen objects and raises `changed` exactly when something was cut |
| `RecallBounds.BoundTreeIsWithinLimits` | agent-harness/pi-observational-memory-governed.ts:163-184 | every string of the result is within 16 KiB and every array within 32 items |
| `RecallBounds.BoundTreeKeepsBeginnings` | agent-harness/pi-observational-memory-governed.ts:163-184 | a string over 16384 bytes keeps a beginning with the marker, an array its first 32 items, an object every field in its place; everything else is kept |
| `RecallBounds.BoundingTwice` | agent-harness/pi-observational-memory-governed.ts:163-184 | bounding again changes nothing |
| `RecallBounds.ChangedIffLost` | agent-harness/pi-observational-memory-governed.ts:163-170 | something was cut if and only if the result differs from the value as data |
| `UiRedaction.Walk.RedactUiMemoryContent` | agent-harness/pi-observational-memory-governed.ts:220-238 | the walk in memory content computes the redaction of the graph |
| `UiRedaction.Walk.RedactUiMemoryTree` | agent-harness/pi-observational-memory-governed.ts:240-257 | the walk outside memory content computes the redaction of the graph |
| `UiRedaction.HidesExactlyContent` | agent-harness/pi-observational-memory-governed.ts:220-261 | two results redact to the same tree if and only if they differ in strings of memory content only |
| `UiRedaction.IdempotentIff` | agent-harness/pi-observational-memory-governed.ts:220-257 | as functions on any tree: redacting twice equals redacting once if and only if no circle was cut directly in memory content |
| `UiRedaction.RedactingBoundedTwice` | agent-harness/pi-observational-memory-governed.ts:687-694 | on what the interface is given, a bounded result, redaction is idempotent without exception |
| `UiRedaction.KeepsTheRest` | agent-harness/pi-observational-memory-governed.ts:220-261 | for every tree, everything but the strings of memory content is kept, circles read as the marker they become |
| `UiRedaction.KeepsShape` | agent-harness/pi-observational-memory-governed.ts:226-237 | kinds, lengths and keys are kept for every value |
| `PromptCompaction.CompactFits` | apps/scheduler/src/context-window-exceeded.ts:98-148 | the estimate is at most the target and the budget; a compacted prompt is strictly shorter and is a head, the marker, a disjoint tail and the whole contract |
| `PromptCompaction.CompactionInNumbers` | apps/scheduler/src/context-window-exceeded.ts:81-138 | the whole outcome in numbers: the target 55 percent of the budget and at least 1024, head and tail 40 and 20 percent of the room and at least 128 and 64 characters, failure below 256 |
| `PromptCompaction.FailsIff` | apps/scheduler/src/context-window-exceeded.ts:123-129 | the call fails exactly when the prompt overruns and contract and marker leave less than 256 characters |
| `PromptCompaction.CompactingTwice` | apps/scheduler/src/context-window-exceeded.ts:98-117 | compacting the result again changes nothing |
| `PromptCompaction.MarkerIsShort` | apps/scheduler/src/context-window-exceeded.ts:119-120 | the marker of an overrunning prompt has at most 160 characters |
| `PromptCompaction.LargerWindowKeepsMore` | apps/scheduler/src/context-window-exceeded.ts:81-138 | with a larger window a prompt still passes, stays whole if it was, and keeps at least as much at both ends |
| `ImageTrust.Database.ClaimScan` | apps/image-admission/src/index.ts:151-191 | the claim transaction: scan claimed, version shown as scanning unless trusted, revoked or retired, row read |
| `ImageTrust.Database.RecordSuccess` | apps/image-admission/src/index.ts:300-317 | the success transaction: digest recorded, trust kept or restored, otherwise quarantined; revoked versions untouched |
| `ImageTrust.Database.Fail` | apps/image-admission/src/index.ts:367-399 | the failure transaction: nothing for retired keys, official trust the task saw is kept, otherwise rejected or revoked |
| `ImageTrust.Database.ConcludeScan` | apps/image-admission/src/index.ts:280-399 | from the findings to the end of the scan: the policy and the unique index on digests decide between the two transactions |
| `ImageTrust.Database.CancelPinnedJobs` | apps/image-admission/src/index.ts:406-413 | exactly the jobs pinned to the revoked version become inactive |
| `ImageTrust.VerdictOfFindings` | apps/image-admission/src/trust-policy.ts:8-34 | a scan succeeds exactly if it ran to its end on an image still offered, found neither a critical finding nor a secret unless the image is official, and brought no digest another version of the image has; what becomes of the version follows, in every case |
| `ImageTrust.RevokedIsFinal` | apps/image-admission/src/index.ts:161-171 | no worker step moves a version out of revoked |
| `ImageTrust.TrustHasASource` | apps/image-admission/src/index.ts:300-312 | in every run a version, one that appears in it included, is trusted only if it was, an operator trusted it, it was imported as trusted, or a scan queued to restore official trust succeeded |
| `ImageTrust.TrustNeedsAnOperator` | apps/image-admission/src/index.ts:436-478 | in particular no work of scanners makes a third-party version trusted, and a digest discovered behind a tag does not take over the trust of the version it follows |
| `ImageTrust.OfficialIsNotRevoked` | apps/image-admission/src/trust-policy.ts:21-34 | workers never revoke an official version |
| `ImageTrust.OfficialLosesTrustIff` | apps/image-admission/src/index.ts:385-399 | a worker step lowers a trusted official version if and only if it is a failure of a task that did not see it trusted |
| `ImageTrust.OfficialTrustIsKept` | apps/image-admission/src/trust-policy.ts:21-25 | an official version trusted with no earlier claim under way stays trusted until an operator decides otherwise |
| `ImageTrust.ApprovalDuringAScanIsLost` | apps/image-admission/src/index.ts:385-399 | a registration that writes `trusted` while a scan runs is overwritten by its failure |
| `ImageTrust.ApprovalOfADoubtedSuccessIsLost` | apps/image-admission/src/index.ts:300-317 | an approval given after a success whose acknowledgement its worker never saw is overwritten as well |
| `ImageTrust.FailureRevokesForGood` | apps/image-admission/src/trust-policy.ts:8-34 | a critical finding, a secret, a digest already taken or an error in a scan that saw a third-party version trusted revokes it until an operator acts, and stops its jobs once the worker has carried that out |
| `ImageTrust.OfficialJobsRunOn` | apps/image-admission/src/index.ts:406-413 | workers never cancel a job of an official image |
| `ImageTrust.RunKeepsBooks` | apps/image-admission/src/index.ts:153-163 | each scan is claimed once, digests stay unique within an image, and the rescan never opens a second scan of a version |
| `ImageTrust.VerdictChangesIff` | apps/image-admission/src/index.ts:300-317 | a concluded scan can still change its verdict if and only if it is a success whose task lost the acknowledgement of the commit |
| `ImageTrust.DiscoverAdds` | apps/image-admission/src/index.ts:436-478 | a new digest behind the tag of a trusted version becomes a version of its own, in quarantine and queued, unless the image has it already |
| `ImageTrust.RescanPicks` | apps/image-admission/src/index.ts:480-501 | one pass queues one scan for exactly the versions due, trusted, still offered and without a scan queued or under way |
| `ImageTrust.AbandonedClaimIsOrphan` | apps/image-admission/src/index.ts:151-191 | a worker that claims a scan and goes away leaves an orphaned scan, which nothing takes up again |
| `ImageTrust.OrphanedScanStopsRescans` | apps/image-admission/src/index.ts:480-501 | an orphaned scan stays open over every run, and the periodic rescan passes its version over |
| `ImageTrust.RescanReachesIff` | apps/image-admission/src/index.ts:480-501 | the work of scanners alone can bring a trusted, unretired version to its periodic rescan if and only if no orphaned scan of it is open |
| `SecretAssignments.ScanIsLossless` | apps/scheduler/src/credential-secret-projection.ts:13-13 | the text is the concatenation of its literals and assignments |
| `SecretAssignments.ScanStable` | apps/scheduler/src/credential-secret-projection.ts:13-13 | replacing values of assignments by other texts without quotes leaves all matches of the pattern where they were |
| `SecretAssignments.SecretWordsAre` | apps/scheduler/src/credential-secret-projection.ts:12-13 | the secret words are those of the pattern: halves joined by an underscore, a hyphen or nothing, and six whole ones |
| `SecretAssignments.MasksAssignment` | apps/scheduler/src/credential-secret-projection.ts:13-18 | every assignment of a quoted value to a secret name, with an equals sign or a colon, any white space around it and either quote, is masked, whatever stands before and after |
| `SecretAssignments.KeepsOtherText` | apps/scheduler/src/credential-secret-projection.ts:13-18 | all other text stays: text without quotes, and text up to a quote that opens no assignment or that no quote follows |
| `SecretAssignments.RedactTextTwice` | apps/scheduler/src/credential-secret-projection.ts:16-18 | redacting a text twice is redacting it once |
| `SecretAssignments.HidesExactlyValues` | apps/scheduler/src/credential-secret-projection.ts:16-18 | two texts redact to the same if and only if they differ in values of secret assignments only |
| `SecretAssignments.RestoreSecretAssignments` | apps/scheduler/src/credential-secret-projection.ts:47-58 | the map of original values and the replacement compute the restored text |
| `SecretAssignments.RestoreTouchesBlanksOnly` | apps/scheduler/src/credential-secret-projection.ts:47-58 | restoring changes only masked or empty assignments, and fills them with the last value of the name in the original |
| `SecretAssignments.FillsBlank` | apps/scheduler/src/credential-secret-projection.ts:47-58 | a value left masked or empty gets the value that the same name, in whatever case, has last in the original |
| `SecretAssignments.KeepsNewValue` | apps/scheduler/src/credential-secret-projection.ts:47-58 | a value that was edited is kept, whatever the original held |
| `SecretAssignments.TextRoundTripIff` | apps/scheduler/src/credential-secret-projection.ts:16-58 | redact then restore gives the text back if and only if assignments to one name agree and none is empty |
| `SecretAssignments.DistinctNamesRoundTrip` | apps/scheduler/src/credential-secret-projection.ts:16-58 | in particular for distinct names and non-empty values |
| `SecretProjection.RedactTwice` | apps/scheduler/src/credential-secret-projection.ts:61-72 | redaction of a settings tree is idempotent |
| `SecretProjection.FieldsAreMaskedByName` | apps/scheduler/src/credential-secret-projection.ts:61-94 | a text field is masked whole exactly if its name contains a secret word and it is not empty, and redacted as a text otherwise; a mask under such a name comes back from the original |
| `SecretProjection.HidesExactlySecrets` | apps/scheduler/src/credential-secret-projection.ts:61-72 | two trees redact to the same if and only if they differ in secret fields and secret assignments only |
| `SecretProjection.RoundTripIff` | apps/scheduler/src/credential-secret-projection.ts:61-94 | restoring a redacted tree against its original gives the original if and only if its texts outside secret fields are restorable |
| `SecretProjection.RestoreRespectsEdits` | apps/scheduler/src/credential-secret-projection.ts:74-94 | restoring an edited tree changes only masked secret fields and masked or emptied assignments, to the original's values at the same path |
| `MaintenanceGate.Gate.Stop` | apps/image-admission/src/maintenance.ts:27-31 | every registered loop is stopped |
| `MaintenanceGate.Gate.Begin` | apps/image-admission/src/maintenance.ts:33-35 | a refresh starts one read unless one is under way, and none once closed |
| `MaintenanceGate.Gate.Answer` | apps/image-admission/src/maintenance.ts:23-26 | the read allows work exactly if it succeeds, names this process and the gate was not closed meanwhile |
| `MaintenanceGate.Gate.GoOn` | apps/image-admission/src/maintenance.ts:35-41 | the rest of a refresh after its answer: a refusal stops every loop, a running or closed gate is left alone, otherwise one set is started, and a start that throws leaves none of it |
| `MaintenanceGate.Gate.CloseGate` | apps/image-admission/src/maintenance.ts:44-44 | closing stops every loop and refuses from then on |
| `MaintenanceGate.RunKeepsInv` | apps/image-admission/src/maintenance.ts:14-46 | the loops alive are those the gate can stop, and a gate that is not running has none |
| `MaintenanceGate.OneSetOfLoops` | apps/image-admission/src/maintenance.ts:33-43 | in every interleaving at most one set of loops is alive |
| `MaintenanceGate.NoLoopsUnlessStarted` | apps/image-admission/src/maintenance.ts:35-41 | a refusal, an unreadable state or a start that throws leaves no loop alive |
| `MaintenanceGate.ClosedStaysQuiet` | apps/image-admission/src/maintenance.ts:44-44 | after close no loop is alive and none is started |
| `MaintenanceGate.StartIsLicensed` | apps/image-admission/src/maintenance.ts:23-41 | loops start only on the latest answer, one that allows this process, and never after close |
| `MaintenanceGate.AnswerStartsIff` | apps/image-admission/src/maintenance.ts:23-41 | an answer licenses a start exactly if it was read, is active and of this generation, role and version, and the gate is neither closed nor running |
| `MaintenanceGate.StopsAndStartsAgain` | apps/image-admission/src/maintenance.ts:27-43 | in any reachable state a gate that is not closed can be stopped by a missing state and started again by one that is for this process |
| `MaintenanceGate.StartersAgree` | apps/image-admission/src/maintenance.ts:4-8 | two processes that both start loops on one platform state are of one generation and, if it is named, one version |
| `JobPriority.Jobs.NormalizePending` | apps/scheduler/src/core.ts:536-562 | the pass normalizes exactly the pending rows, and updates none exactly when all were normal |
| `JobPriority.NormalizingTwice` | apps/scheduler/src/core.ts:509-529 | for every row normalizing twice equals normalizing once |
| `JobPriority.ChangedIff` | apps/scheduler/src/core.ts:526-528 | an update is issued exactly when it would change the row |
| `JobPriority.StrippedIsUnmarked` | apps/scheduler/src/core.ts:491-507 | stripping takes the trusted markers from the payload and from its follow-up, keeps everything else, and is idempotent |
| `JobPriority.PublicJobsStayInDiscovery` | apps/scheduler/src/core.ts:935-975 | a public Job is made exactly if no priority other than that of roles is asked for; it starts in discovery at role priority and keeps that priority through all normalizations; it keeps the lane if and only if its type, trimmed, is no system type |
| `JobPriority.ConvergenceIff` | apps/scheduler/src/core.ts:452-489 | outside the system types a normalized row is in the convergence lane, at its priority, if and only if the scheduler owns its follow-up |
| `JobPriority.SystemJobsKeepTheirLane` | apps/scheduler/src/core.ts:469-489 | a Job of a system type stays in the lane of its type through all normalizations, whatever lane its payload names; its priority follows the severity of its finding or payload |
| `JobPriority.PriorityIsThatOfTheLane` | apps/scheduler/src/core.ts:509-525 | the priority of a normalized row is that of its lane, except exactly for system types written with surrounding white space |
| `JobPriority.NormalizedPriorityIs` | apps/scheduler/src/core.ts:398-529 | the priority of every normalized row in numbers, from its type, its severity however written, and whether its follow-up is the scheduler's; outside types that only trimming makes system types |
| `JobPriority.QueueFollowsLanes` | apps/scheduler/src/core.ts:365-377 | outside types that only trimming makes system types, one normalized row has a higher priority than another exactly if its class is ahead: hub, report, urgent verification, convergence evidence, roles, other verification |

## Left out

- HTTP routes, processes, SQL text, schema parsing, timers' periods and logging; only the row updates, their guards and the order of steps are modelled.
- Tokens, HMAC, hashes and UUIDs: opaque values. The configuration fingerprint of a run is an arbitrary string.
- What called but unmodelled code does beyond the assumptions above: `settleAttemptTerminal`, `closeVerifyRound`, hub, plan and report ports, the dispatcher.
- DeviceLeases.LeaseStore.PurgeExpired: one clock reading for the whole loop, where the code reads the clock at every lease.
- DeviceLeases.LeaseStore.ActiveLeaseFor: one clock reading for the whole loop, likewise.
- CompletionClient.Run: replies are the fields the client reads; Python's comparisons of values of unexpected types, which raise, are replies without those fields. The HTTP worker process is left out.
- AuditGate.CompareRuns: the reasons are a set of kinds, not texts; the per-sample list is modelled by the verdict lists.
- CanvasDelta.BuildDelta: what the projections of nodes, edges and canvases compute is opaque here (for bodies see `CanvasBody`); a row is projectable or not. The lifecycle rollup of a delta is left out.
- CanvasBody.BoundingTwice: the body only; coordinates and titles of a node, and edges, are left out.
- RecallBounds.Walk.BoundRecallValue: numbers and other primitives are opaque; getters, prototypes and the order of integer-like keys are left out.
- RecallBounds.BoundTreeIsWithinLimits: the 128 KiB cap on whole results, whose fallback the code does not bound, is not claimed.
- UiRedaction.RedactingBoundedTwice: the partial marks and the fallback of a result over 128 KiB, neither of which puts in a circle, are left out.
- PromptCompaction.CompactFits: the ratios 0.55, 0.4 and 0.2 are exact fractions rounded down, where the code multiplies binary floating-point numbers; prompt and contract together are shorter than 2^53 characters, as JavaScript strings are.
- PromptCompaction.LargerWindowKeepsMore: with the exact fractions, likewise.
- PromptCompaction.CompactionInNumbers: with the exact fractions, likewise.
- SecretAssignments.ScanStable: letters are folded in ASCII; the two further letters that a case-insensitive Unicode pattern folds to `s` and `k` are left out. Collecting secret values for error messages uses another pattern and is left out.
- SecretAssignments.MasksAssignment: letters are folded in ASCII, likewise.
- SecretProjection.RestoreRespectsEdits: names inherited from an object's prototype count as absent.
- JobPriority.PublicJobsStayInDiscovery: the agent snapshot and the review request of a new Job enter as extra payload entries.
- ImageTrust.RunKeepsBooks: `checkTrackedTags` and `queueContinuousRescans` are steps of the machine, not methods; each statement is one step, so two rescans never run inside each other.
- ImageTrust.Database.RecordSuccess: metadata columns other than digest and trust are left out.
- MaintenanceGate.StartIsLicensed: the tasks launched beside the timers ask `authorized` themselves and are left out.
- UpgradeLock.OneAcquisition: access control lists and path checks are left out; a handle is what it refers to.
- PrivateFile.ReplacementIsAtomic: `ReadPrivate`, `Probe` and access checks are left out.
- Grants in the registry's `platform` mode with an empty environment list: `LeaseStore` still requires its own keys, so only usability is claimed.
- `config.ts`, `credentials.ts`, `credential-test.ts`, `compose-scope.ts`, `registry-ref.ts`, `cosign-verify.ts`, `ci-test-hook-gate.ts`: validators and table lookups that would add only easy members.
