# Lumenos sandbox: a verified model

This project models the parts of the Lumenos sandbox that must not go wrong when
something else does: the life of an isolation bunker on a hypervisor host, the
one-shot analysis cycle built on it, and the services around them. Each component
is a Dafny class or method that changes its state step by step as the program
does, proved equal to a function on values; whole-run properties are proved about
those functions.

| module | what it models |
|---|---|
| `Basics` | reply kinds, lifecycle states and their transition table |
| `Host`, `Store` | the hypervisor host as sets of VMs, switches and files; the persisted rows |
| `Monitoring`, `Decontamination` | integrity baselines; the seven decontamination steps and their report |
| `Lifecycle`, `BunkerClass`, `LifecycleRuns` | the four bunker operations as functions, in place, and over whole runs |
| `Sessions`, `Manager` | two bunkers that take turns |
| `Analysis`, `Deadline`, `HashSample` | the one-shot cycle, its deadline arithmetic and the streaming hash |
| `Reaping`, `Reaper`, `Orphans` | reaping abandoned rows and resources; what no reaping can reach |
| `Placement`, `ClusterIndex`, `MultiHost` | placement, rebalancing and the two-way host/VM index |
| `Package` | the `.lva` container |
| `Admission` | the bounded admission protocol of the synchronous endpoint |
| `Evidence`, `Monitor` | from scanned text and monitor records to indicators, score and verdict |
| `Registry`, `Api` | the API's registry of bunkers over the store |

A call into the hypervisor, the guest, the store or the operating system is a
parameter: an answer that says what was reported, whether the effect happened, and
whether the disk was touched. Theorems quantify over all answers; where one needs
an honest backend it says so. Clocks are given by predicates (`late(k)`: the
deadline is spent at the k-th check) or by real numbers. Hash functions, the JSON
codec and character folding are function parameters with only the properties used.

## What the code does that its documentation does not say

- The reported `success` of the fallback decontamination is unconditional
  (lumenos_sandbox/inspect.py:566), so it is also claimed when a removal failed:
  `Analysis.FallbackClaimsSuccess`, with the exact condition in
  `Analysis.SuccessWithLeakIff`.
- The cycle is not leak free on every answer; the exact conditions, among them a
  call that raises between leaving ACTIVE and the decontamination steps, are in
  `Analysis.LeakFreeIff`.
- The reaper's confinement of disks is containment, not ownership: an abandoned
  id such as `x/../b` takes the disk of the live bunker `b`:
  `Reaping.AliasReapsLiveDisk`, `Reaping.DiskSurvivesIff`.
- `start_session` says it rotates the bunkers if needed, but never ends a running
  one: `Sessions.StartNeverTerminates`. The quarantine after a failed termination
  is refused: `Sessions.FailedRetirementIsError`. One failed start, rotation or
  end of a session can leave the manager unable to start any session again:
  `Sessions.StartSticksIff`, `Sessions.RotationSticksIff`, `Sessions.EndSticksIff`;
  exactly when is in `Sessions.RestartableIff`.
- What a failed initialize could not remove is out of the reaper's reach for good,
  because both names are forgotten: `Orphans.FailedInitializeOrphans`.
- A restored bunker cannot be stopped successfully: `Registry.StopAfterRestart`,
  `LifecycleRuns.RestoredNeverTerminates`; the API's restore drops stamps and
  signing key: `Registry.RebuildThenPersist`.
- The row of an ACTIVE bunker does not carry the stamp of its activation, because
  it was saved before: `LifecycleRuns.ActivateStamps`.
- A failed activation can leave all five layers, the monitor and the session on in
  ERROR: `LifecycleRuns.FailedActivationLayers`, `LifecycleRuns.FailedActivationFlags`.
- A detected escape attempt is said to be deduplicated with its event
  (lumenos_sandbox/inspect.py:477), but both count: `Evidence.DetectedAttempt`.
- The streaming size guard lets one chunk more than the limit through:
  `HashSample.ToleratedIsOneChunkMore`.
- A phase under a deadline can end almost a second late: `Deadline.BoundIsTight`.
- `find_best_host` can pass over the only host with the GPUs asked for:
  `Placement.GpuCanBePassedOver`, with the exact condition in
  `Placement.PassedOverIff`. It can also choose a host that is full:
  `Placement.FullHostChosenIff`.
- Re-registering a VM on another host, and re-adding a host that holds VMs, break
  the index: `ClusterIndex.RegisterAgreesIff`, `ClusterIndex.AddHostAgreesIff`.
- The checksum of a package does not cover version, flags and manifest length:
  `Package.VersionAndFlagsAreUncovered`, `Package.LengthIsUncovered`.
- Admission is exact only if submitting to the pool is atomic:
  `Admission.TornSubmitBreaks`.

## Model

| member | source | states |
|---|---|---|
| `BunkerClass.Bunker.constructor` | lumenos_sandbox/bunker.py:68-123 | a new bunker is DESTROYED, names no VM or switch, has no active layer, no baseline and no stamp |
| `BunkerClass.Bunker.PersistState` | lumenos_sandbox/bunker.py:168-188 | writes the whole row, or, when the save fails, leaves the store as it was; never raises and changes nothing else |
| `BunkerClass.Bunker.EnterState` | lumenos_sandbox/bunker.py:147-166 | a repeated state is a no-op, a transition outside the table is refused without effect, any other is entered and persisted |
| `BunkerClass.Bunker.SetBaselines` | lumenos_sandbox/bunker.py:465-470 | every critical component gets its own digest as baseline; other baselines stay |
| `BunkerClass.Bunker.TryLoadBaseImage` | lumenos_sandbox/bunker.py:443-446 | names the switch before asking for it and ignores the answer unless the call raises |
| `BunkerClass.Bunker.TryAllocateResources` | lumenos_sandbox/bunker.py:448-463 | names the VM only when its creation reports success |
| `BunkerClass.Bunker.TryBringUp` | lumenos_sandbox/bunker.py:199-222 | the guarded part of initialize, call by call with its six deadline checks, equals Lifecycle.BringUp |
| `BunkerClass.Bunker.CleanUpOnFailure` | lumenos_sandbox/bunker.py:235-266 | removes VM, switch and confined disk in that order, forgets both names even when a removal fails |
| `BunkerClass.Bunker.Initialize` | lumenos_sandbox/bunker.py:190-233 | the method in place equals Lifecycle.Initialize: bunker, host, store and the way it ends |
| `BunkerClass.Bunker.ActivateLayers` | lumenos_sandbox/bunker.py:277-286 | all five layers on, or exactly those up to the first failing one off and the later ones untouched |
| `BunkerClass.Bunker.Activate` | lumenos_sandbox/bunker.py:268-309 | the method in place equals Lifecycle.Activate |
| `BunkerClass.Bunker.DeactivateLayers` | lumenos_sandbox/bunker.py:323-327 | every layer is off afterwards, whatever its hook answers |
| `BunkerClass.Bunker.RunPurge` | lumenos_sandbox/bunker.py:344-363 | runs the seven steps, keeps the report, and enters DESTROYED or ERROR by its success |
| `BunkerClass.Bunker.Terminate` | lumenos_sandbox/bunker.py:311-368 | the method in place equals Lifecycle.Terminate |
| `BunkerClass.Bunker.ForceQuarantine` | lumenos_sandbox/bunker.py:370-393 | the method in place equals Lifecycle.ForceQuarantine; an invalid transition is swallowed |
| `Lifecycle.Initialize` | lumenos_sandbox/bunker.py:190-233 | True means READY with both names and every baseline; from DESTROYED it is True exactly when every call comes in time; every other end, from any state, is in ERROR |
| `Lifecycle.TransitionTo` | lumenos_sandbox/bunker.py:147-166 | refused exactly off the table, without effect; otherwise state and own row change and nothing else |
| `Lifecycle.BringUp` | lumenos_sandbox/bunker.py:199-222 | completes exactly when every call comes in time, and then holds both names and every baseline |
| `Lifecycle.FirstFailure` | lumenos_sandbox/bunker.py:277-286 | the first layer whose hook does not report success |
| `Lifecycle.FailToError` | lumenos_sandbox/bunker.py:298-309 | the handler ends in ERROR with False, or raises without effect from DESTROYED |
| `Lifecycle.Wind` | lumenos_sandbox/bunker.py:314-342 | layers and monitor are off and the state left ACTIVE however this part ends; it faults exactly when a call raises |
| `Lifecycle.Purge` | lumenos_sandbox/bunker.py:344-363 | from DECONTAMINATING it ends DESTROYED or ERROR by the report, with the host as the seven steps leave it |
| `Lifecycle.Terminate` | lumenos_sandbox/bunker.py:311-368 | an ACTIVE bunker ends without active layers; configuration stays and no deadline applies |
| `Lifecycle.CleanUp` | lumenos_sandbox/bunker.py:235-266 | afterwards neither name is set and no row has changed |
| `LifecycleRuns.InitializeKeepsRest` | lumenos_sandbox/bunker.py:190-233 | from rest initialize ends READY (exactly when it answers True) or ERROR |
| `LifecycleRuns.ActivateKeepsRest` | lumenos_sandbox/bunker.py:268-309 | from rest activate ends ACTIVE with five layers, or ERROR; it raises exactly on a DESTROYED bunker, without effect |
| `LifecycleRuns.TerminateKeepsRest` | lumenos_sandbox/bunker.py:311-368 | from rest terminate ends DESTROYED exactly when it answers True, else ERROR; it raises exactly on a DESTROYED bunker |
| `LifecycleRuns.RunKeepsRest` | lumenos_sandbox/bunker.py:190-393 | in every run of the four operations, whatever backend, store, guest and layers answer: at rest the state is DESTROYED, READY, ACTIVE, QUARANTINE or ERROR; DESTROYED and READY have no active layer, ACTIVE has all five, names and baselines |
| `LifecycleRuns.ErrorIsAbsorbing` | lumenos_sandbox/types.py:79 | no sequence of lifecycle calls leaves ERROR; without initialize nothing at all changes |
| `LifecycleRuns.StepTouchesOwnRow` | lumenos_sandbox/bunker.py:168-188 | an operation writes no row but the bunker's own |
| `LifecycleRuns.TerminateTrueIff` | lumenos_sandbox/bunker.py:341-363 | terminate answers True exactly when it ends in DESTROYED, and exactly when the bunker was ACTIVE, no call before the steps raised, all seven steps passed and all six baselines match |
| `LifecycleRuns.TerminateNeeds` | lumenos_sandbox/decontamination.py:62-83 | terminate answers True exactly when the bunker was ACTIVE with every baseline, no call before the steps raised, VM status and host integrity answered True, and disk, switch and VM removal did too |
| `LifecycleRuns.RestoredNeverTerminates` | lumenos_sandbox/bunker.py:125-145 | a bunker without baselines, as any restored one, never terminates with True |
| `LifecycleRuns.TrueMeansDestroyed` | lumenos_sandbox/bunker.py:341-363 | from any state, a True answer of terminate means DESTROYED |
| `LifecycleRuns.ActivateIff` | lumenos_sandbox/bunker.py:268-309 | a READY bunker becomes ACTIVE exactly when every layer and both threads start |
| `LifecycleRuns.ActivateLayersAre` | lumenos_sandbox/bunker.py:276-283 | after an activation of a READY bunker: five active layers when every hook succeeds; else each layer up to the failing one is off, the earlier ones rolled back, and each later one as it was |
| `LifecycleRuns.FailedActivationLayers` | lumenos_sandbox/bunker.py:276-309 | a bunker at rest whose activation fails ends in ERROR, with no active layer if a hook failed and all five if only a thread did |
| `LifecycleRuns.FailedActivationFlags` | lumenos_sandbox/bunker.py:285-309 | what else a failed activation leaves on: the monitor exactly when every hook succeeded, the session exactly when the monitor thread started as well; names and baselines stay |
| `LifecycleRuns.StrandedTermination` | lumenos_sandbox/bunker.py:311-368 | a call that raises before the seven steps: False, ERROR, host untouched, layers and monitor off; the session is closed and stamped only if it was the credentials call |
| `LifecycleRuns.InitializeStamps` | lumenos_sandbox/bunker.py:220-221 | a bunker that came up carries the stamp of that call, and so does its row if the save succeeds |
| `LifecycleRuns.ActivateStamps` | lumenos_sandbox/bunker.py:268-296 | an ACTIVE bunker carries the stamp of that call; its row, saved on entering ACTIVE, carries the one from before |
| `LifecycleRuns.TerminateStamps` | lumenos_sandbox/bunker.py:335-363 | a terminated bunker and its row carry the stamp of that call, and the row the stamp of the activation |
| `LifecycleRuns.InitializeLateIff` | lumenos_sandbox/bunker.py:190-233 | from DESTROYED the deadline is reported exactly when a check finds it spent before any call has failed |
| `LifecycleRuns.InitializeFootprint` | lumenos_sandbox/bunker.py:190-266 | for all answers, with nothing of the id's names or disk on the host before: exactly which VM, switch and disk an initialize leaves, completed or failed, and which names it holds |
| `LifecycleRuns.RunKeepsNames` | lumenos_sandbox/bunker.py:443-463 | in every run of one bunker it and the rows it writes name no VM and switch but its own |
| `LifecycleRuns.TerminateTrueCleans` | lumenos_sandbox/decontamination.py:34-61 | a True answer means VM, switch and disk are gone, if a reported removal is a real one |
| `LifecycleRuns.TraceFollowsTable` | lumenos_sandbox/types.py:71-80 | for any sequence of requested transitions the states visited form a path of the table |
| `LifecycleRuns.ActiveOnlyAfterReady` | lumenos_sandbox/types.py:71-80 | from DESTROYED every entry to ACTIVE is immediately preceded by DESTROYED, INITIALIZING, READY |
| `Basics.ParseState` | lumenos_sandbox/reaper.py:138-141 | a name denotes a state exactly when it is that state's name |
| `Reaper.AnySpelling` | lumenos_sandbox/reaper.py:42-44 | a state's name denotes it in any letter case and with ASCII whitespace around it |
| `Reaper.OnlySpellings` | lumenos_sandbox/reaper.py:42-44 | and whatever denotes a state is its name in some letter case, with ASCII whitespace around it |
| `Host.PlainIdIsConfined` | lumenos_sandbox/bunker.py:258-260 | with POSIX paths an id without a slash names a disk directly in the snapshots directory |
| `Host.ClimbingIdIsNotConfined` | lumenos_sandbox/bunker.py:258-260 | an id that climbs out names a disk outside, which the guard then leaves alone |
| `Host.AliasSharesDisk` | lumenos_sandbox/bunker.py:258-260 | the id "x/../b" resolves to the disk of "b" and passes the guard |
| `Host.NamesAreInjective` | lumenos_sandbox/bunker.py:443-462 | two ids never share a VM or switch name, and two without a slash never share a disk on a case-sensitive POSIX file system |
| `Store.StateStore.Save` | lumenos_sandbox/state.py:81-132 | upserts exactly one row |
| `Store.StateStore.ListAll` | lumenos_sandbox/state.py:176-185 | lists every row once, with its state and update stamp, newest first in the order of the stamps |
| `Store.StateStore.Delete` | lumenos_sandbox/state.py:187-192 | removes exactly one row and reports whether it was there |
| `Decontamination.DecontaminationRunner.Step` | lumenos_sandbox/decontamination.py:62-85 | each step calls the backend it names, or none, and passes unasked where it needs a VM and there is none |
| `Decontamination.DecontaminationRunner.Run` | lumenos_sandbox/decontamination.py:34-61 | runs all seven steps whatever fails; success exactly when every step passed and every baseline matches; records each check in the history |
| `Decontamination.StepsMerge` | lumenos_sandbox/decontamination.py:37-50 | completed and failed steps merge, in order, to the steps run so far |
| `Decontamination.ReportPartition` | lumenos_sandbox/decontamination.py:37-50 | the two lists of a report are disjoint, cover the seven steps and keep their order |
| `Decontamination.WarningsMatchFailures` | lumenos_sandbox/decontamination.py:38-50 | one warning per failed step, in order; nothing failed exactly when every step passed |
| `Decontamination.WarningsSayHow` | lumenos_sandbox/decontamination.py:38-50 | a warning is there exactly for a step that answered False or raised, and says which of the two |
| `Decontamination.StepsClean` | lumenos_sandbox/decontamination.py:67-73 | each removal that takes effect clears its own resource and no other |
| `Monitoring.IntegrityVerifier.SetBaseline` | lumenos_sandbox/monitoring.py:60-64 | sets one component's baseline |
| `Monitoring.IntegrityVerifier.VerifyComponent` | lumenos_sandbox/monitoring.py:66-86 | passes exactly on a nonempty baseline equal to the hash, and appends the check to the history |
| `Monitoring.IntegrityVerifier.VerifyAll` | lumenos_sandbox/monitoring.py:88-100 | checks the components that have a hash, in order; passes exactly when all of those match |
| `Monitoring.MatchesCurrentIffFull` | lumenos_sandbox/monitoring.py:66-100 | the current hashes pass exactly when all six baselines are set to them |
| `Monitoring.ChecksAre` | lumenos_sandbox/monitoring.py:88-100 | a verification checks exactly the listed components that have a hash, each against its own baseline |
| `Analysis.WorkInPlace` | lumenos_sandbox/inspect.py:641-668 | the guarded part of the cycle on the bunker object equals Analysis.Work |
| `Analysis.TearDownInPlace` | lumenos_sandbox/inspect.py:541-566 | the fallback teardown: a name survives only a raising removal |
| `Analysis.DecontaminateInPlace` | lumenos_sandbox/inspect.py:508-574 | termination or fallback, then the row is deleted; the reported success as the source computes it |
| `Analysis.RunCycle` | lumenos_sandbox/inspect.py:581-700 | the whole cycle on a new bunker object equals Analysis.Cycle: host, store, way out and reported success |
| `Analysis.DecontaminateFootprint` | lumenos_sandbox/inspect.py:508-574 | for all answers, from rest and before any report: the host as termination or the fallback leaves it, the reported success exactly, and no row but the own one changed, which is gone if its delete does not raise |
| `Analysis.TearDownClears` | lumenos_sandbox/inspect.py:545-565 | the fallback removes exactly what the bunker names and what takes effect, and the disk |
| `Analysis.TearDownForgets` | lumenos_sandbox/inspect.py:545-559 | the fallback forgets a name exactly when its removal was called and did not raise |
| `Analysis.MonitorStops` | lumenos_sandbox/inspect.py:508-574 | on every way out the monitor of the bunker is stopped |
| `Analysis.TerminationClears` | lumenos_sandbox/decontamination.py:62-73 | a termination of an ACTIVE bunker leaves the host alone when a call before the steps raises, and otherwise exactly what the three removals missed |
| `Analysis.ReportIsAnswer` | lumenos_sandbox/inspect.py:528-537 | the report of a first termination says what the call answered |
| `Analysis.CycleRows` | lumenos_sandbox/inspect.py:568-572 | the cycle changes no row but its own, which is gone if its delete does not raise |
| `Analysis.CycleFootprint` | lumenos_sandbox/inspect.py:641-685 | for a fresh id and all answers, on every way out: the host is as before plus exactly the VM, switch and disk given by conditions on the answers; no other row changed, and the own row is gone if its delete does not raise |
| `Analysis.LeakFreeIff` | lumenos_sandbox/inspect.py:641-685 | for a fresh id and all answers the host is exactly as found if and only if none of the three leak conditions on the answers holds |
| `Analysis.HonestBackendLeavesNothing` | lumenos_sandbox/inspect.py:641-685 | for a fresh id, a backend whose removals take effect, that reports every VM it makes and does not raise while winding down, and a store whose delete does not raise: every exit leaves host and store as at entry |
| `Analysis.CollectedIff` | lumenos_sandbox/inspect.py:641-671 | indicators are collected exactly when the bunker ran, both guest commands worked and no checkpoint was late |
| `Analysis.StopsIff` | lumenos_sandbox/inspect.py:641-685 | exactly when the cycle ends with a missing file, with a failure, or over the deadline: by the first call that fails or checkpoint that is late |
| `Analysis.SuccessWithLeakIff` | lumenos_sandbox/inspect.py:566 | for a fresh id and all answers: exactly when success is reported although something is left behind |
| `Analysis.SuccessIff` | lumenos_sandbox/inspect.py:526-566 | success is reported exactly when there was a bunker and, if it went ACTIVE, its termination ran all steps without a failure |
| `Analysis.ActiveSuccessIsHonest` | lumenos_sandbox/inspect.py:528-537 | for a bunker that went ACTIVE a reported success leaves nothing, if reported removals are real |
| `Analysis.FallbackClaimsSuccess` | lumenos_sandbox/inspect.py:545-566 | the input where the unconditional success is wrong: an honest backend, a deadline spent after initialize, a remove_vm that reports failure |
| `Analysis.ObserveIsPhase` | lumenos_sandbox/inspect.py:652-668 | the checkpoints of the cycle and the timed phase agree: with working commands the cycle is overdue exactly when the phase aborts |
| `Sessions.RunKeepsExclusive` | lumenos_sandbox/manager.py:49-142 | in every run of start, rotate, end and emergency at most one bunker is ACTIVE and it is the one pointed at, the pointers are both None or the two bunkers, rotations stay below sessions |
| `Sessions.FreshIsExclusive` | lumenos_sandbox/manager.py:22-47 | a new manager starts in that invariant, so it holds from the start |
| `Sessions.EmergencyStops` | lumenos_sandbox/manager.py:165-173 | after an emergency shutdown no bunker is ACTIVE: one that was is in QUARANTINE with its monitor stopped, and every other state, the host, pointers and counters are as before |
| `Sessions.EmergencyStopsPointed` | lumenos_sandbox/manager.py:165-173 | in any state of the manager, each bunker pointed at that was ACTIVE is in QUARANTINE with its monitor stopped |
| `Sessions.RotationCounts` | lumenos_sandbox/manager.py:116-128 | a successful rotation swaps the pointers, adds one to both counters and leaves the new bunker ACTIVE; any other outcome leaves pointers and counters alone |
| `Sessions.StartCounts` | lumenos_sandbox/manager.py:49-76 | a successful first start points at bunker 1, ACTIVE, and counts one session; a failed one counts none; a running session is left alone |
| `Sessions.EndClears` | lumenos_sandbox/manager.py:130-142 | an end that returns clears both pointers and answers what the termination answered; one that raises changes nothing |
| `Sessions.RunKeepsNames` | lumenos_sandbox/manager.py:49-173 | in every run of the manager both bunkers and the rows they write name only their own VMs and switches |
| `Sessions.RetireKeepsRest` | lumenos_sandbox/manager.py:90-103 | the old bunker ends neither ACTIVE nor READY; a running one lets the rotation go on exactly when it ends DESTROYED |
| `Sessions.StartNeverTerminates` | lumenos_sandbox/manager.py:49-76 | start_session never terminates a bunker: its result does not depend on any decontamination answer |
| `Sessions.FailedRetirementIsError` | lumenos_sandbox/manager.py:92-95 | a rotation whose termination fails leaves the old bunker in ERROR; the quarantine asked for changes nothing |
| `Sessions.RetiresIff` | lumenos_sandbox/manager.py:90-103 | a running bunker is retired exactly when its calls and seven steps succeed, and is then DESTROYED, else in ERROR: the state check after the wait never fails |
| `Sessions.OnlineIff` | lumenos_sandbox/manager.py:107-115 | a bunker comes up exactly from DESTROYED with every answer it needs |
| `Sessions.StartSucceedsIff` | lumenos_sandbox/manager.py:49-76 | start_session answers True exactly when a session runs, or the manager is not stuck and the bunker gets its answers |
| `Sessions.StuckForever` | lumenos_sandbox/manager.py:49-173 | a stuck manager stays stuck through every run: no start or rotation succeeds and no counter moves |
| `Sessions.RestartableIff` | lumenos_sandbox/manager.py:49-173 | without a running session, some calls and answers lead to a successful start exactly when the manager is not stuck, a condition on the two bunkers' states |
| `Sessions.StartSticksIff` | lumenos_sandbox/manager.py:49-76 | without a running session a start leaves the manager stuck exactly when it was, or an answer fails |
| `Sessions.EndSticksIff` | lumenos_sandbox/manager.py:130-142 | ending a running session leaves the manager stuck exactly when the first bunker was the one ended and did not end well, or was not DESTROYED before |
| `Sessions.FailedFirstStartSticks` | lumenos_sandbox/manager.py:55-64 | a first start leaves a new manager stuck exactly when one of its answers fails |
| `Sessions.RotationSticksIff` | lumenos_sandbox/manager.py:78-128 | rotating from a running bunker leaves the manager stuck exactly when the other one is not DESTROYED, or the old one ends well and the new one lacks an answer |
| `Sessions.RotationWedgesIff` | lumenos_sandbox/manager.py:107-115 | rotating from a running bunker leaves the pointers on a DESTROYED and an ERROR bunker exactly when the old one's calls and seven steps succeed and the other one is not DESTROYED or lacks an answer it needs to start |
| `Sessions.WedgedForever` | lumenos_sandbox/manager.py:49-142 | from there no sequence of calls starts a session again or moves a counter, and end_session raises |
| `Manager.DualBunkerManager.constructor` | lumenos_sandbox/manager.py:22-47 | two fresh bunkers, no pointer set, counters at zero |
| `Manager.DualBunkerManager.RetireOld` | lumenos_sandbox/manager.py:89-105 | terminate, quarantine on a False answer, and the polling wait, which sleeps zero times |
| `Manager.AwaitDecontamination` | lumenos_sandbox/manager.py:97-99 | the wait ends with the first poll that does not read DECONTAMINATING |
| `Manager.DualBunkerManager.RotateBunkers` | lumenos_sandbox/manager.py:78-128 | the rotation on the two objects equals Sessions.Rotate |
| `Manager.DualBunkerManager.StartSession` | lumenos_sandbox/manager.py:49-76 | the method in place equals Sessions.StartSession |
| `Manager.DualBunkerManager.EndSession` | lumenos_sandbox/manager.py:130-142 | the method in place equals Sessions.EndSession; a raising terminate leaves the pointers set |
| `Manager.DualBunkerManager.EmergencyShutdown` | lumenos_sandbox/manager.py:165-173 | quarantines what the pointers name |
| `Reaper.SelectStates` | lumenos_sandbox/reaper.py:32-50 | the default for an empty selection, all requested states, or an error: the first unknown name, else exactly the forbidden states |
| `Reaper.SelectionIsReapable` | lumenos_sandbox/reaper.py:26-50 | a selection that is accepted is a nonempty part of ERROR, TERMINATING, DECONTAMINATING |
| `Reaper.TearDown` | lumenos_sandbox/reaper.py:107-120 | VM, switch and confined disk are torn down in order, each call recorded as removed or residual |
| `Reaper.VisitEntry` | lumenos_sandbox/reaper.py:135-161 | one listed row in place equals Reaping.Visit |
| `Reaper.ReapRow` | lumenos_sandbox/reaper.py:153-160 | reloads the row, tears it down, and keeps or deletes it |
| `Reaper.Reap` | lumenos_sandbox/reaper.py:123-162 | the pass in place equals Reaping.ReapPass over a listing of the store |
| `Reaping.CandidateMeans` | lumenos_sandbox/reaper.py:134-151 | candidates are exactly the rows in ERROR, TERMINATING or DECONTAMINATING that were selected and, if an age is asked for, are known to be at least that old |
| `Reaping.TornAccountsForAll` | lumenos_sandbox/reaper.py:92-120 | each named VM and switch, and the existing confined disk unless remove_vm took it, ends up removed or residual; no residual exactly when every call made answered True |
| `Reaping.TornReports` | lumenos_sandbox/reaper.py:92-120 | exactly the resources a call is made for are reported: removed on True, residual as not removed on False and as raised on an exception |
| `Reaping.RecordedAccounts` | lumenos_sandbox/reaper.py:92-104 | a recorded step lists its resource, keeps everything listed before, and adds a residual exactly when the answer is not True |
| `Reaping.PassAccounting` | lumenos_sandbox/reaper.py:132-161 | scanned = skipped by state + skipped as recent + candidates, and the candidates are the eligible rows in listing order |
| `Reaping.PassCounts` | lumenos_sandbox/reaper.py:132-147 | each counter counts exactly the rows of its kind |
| `Reaping.PassedOverMeans` | lumenos_sandbox/reaper.py:136-147 | a row is passed over for its state exactly when that is unknown, never reaped or not selected, and as recent exactly when only its age speaks against it |
| `Reaping.CandidatesDescribe` | lumenos_sandbox/reaper.py:148-151 | in every pass each candidate shows id, state, stamp and age of its row, and -1 where the age is unknown |
| `Reaping.DryRunIsInert` | lumenos_sandbox/reaper.py:128-129 | a dry run touches neither store nor backend and reports nothing removed |
| `Reaping.ExecutedPass` | lumenos_sandbox/reaper.py:152-160 | an executing pass removes exactly the rows marked deleted; each candidate was selected, old enough and reapable, and its named VM and switch and its existing confined disk, if no other candidate's id resolves to it and remove_vm did not take it, are removed or residual |
| `Reaping.CandidatesAreEligibleRows` | lumenos_sandbox/reaper.py:134-151 | an id is a candidate exactly when its row is eligible |
| `Reaping.SecondPass` | lumenos_sandbox/reaper.py:134-162 | a second pass considers exactly the candidates whose rows were not deleted; none if deletes succeed and rows are not kept |
| `Reaping.TornHost` | lumenos_sandbox/reaper.py:107-120 | the host after tearing a row down, exactly: only what the row names and the id's disk can go, the disk with the VM or by a confined delete |
| `Reaping.TornListsOwn` | lumenos_sandbox/reaper.py:107-120 | removed and residual name nothing but the row's VM, switch and confined disk |
| `Reaping.CleanReap` | lumenos_sandbox/reaper.py:123-162 | after an executing pass a candidate without residuals has no VM, switch or confined disk left, if True answers are real removals |
| `Reaping.DiskSurvivesIff` | lumenos_sandbox/reaper.py:114-120 | a file survives a pass exactly when no reaped row whose id resolves to it deletes it |
| `Reaping.DiskIsSafeIff` | lumenos_sandbox/reaper.py:114-120 | from the rows alone: a file survives a pass under all answers exactly when no reaped row whose id resolves to it names a VM or has its disk in the snapshots directory |
| `Reaping.OthersKeepNames` | lumenos_sandbox/reaper.py:134-162 | any pass leaves row, VM and switch of a bunker that is no candidate alone, if rows name only their own |
| `Reaping.OthersAreSpared` | lumenos_sandbox/reaper.py:134-162 | and its disk, if no candidate's id resolves to the same disk |
| `Reaping.LiveBunkersAreSpared` | lumenos_sandbox/reaper.py:26-29 | so for every bunker in a never-reap state, whatever was asked for, if rows name only their own and no candidate's id resolves to its disk |
| `Reaping.PlainIdsOwnDisks` | lumenos_sandbox/reaper.py:114-118 | on a case-sensitive POSIX file system, ids without a slash never share a disk |
| `Reaping.AliasReapsLiveDisk` | lumenos_sandbox/reaper.py:114-120 | reaping the abandoned id "x/../b" deletes the disk of the live bunker "b" |
| `Orphans.FailureIsNameless` | lumenos_sandbox/bunker.py:224-250 | an initialize that does not complete leaves neither the bunker nor its row with a name |
| `Orphans.OrphansStay` | lumenos_sandbox/reaper.py:107-162 | a pass removes no VM and no switch that no row names, and none becomes named, so no sequence of passes removes it |
| `Orphans.FailedInitializeOrphans` | lumenos_sandbox/bunker.py:235-250 | a VM or switch left by a failed initialize, with only own names in the store and none of the id before, is named by no row and survives every reaping |
| `Deadline.TimeoutFitsIff` | lumenos_sandbox/inspect.py:268-277 | a command timeout is at least a second, never above the configured one unless it is that second, and fits the budget exactly when a second is left |
| `Deadline.TimeoutIs` | lumenos_sandbox/inspect.py:268-277 | the largest whole number of seconds that exceeds neither the configured timeout nor the budget, where that is at least one; else one second; without a deadline the configured timeout |
| `Deadline.WaitLasts` | lumenos_sandbox/inspect.py:280-301 | a phase that reaches the wait unspent waits the full monitor length if that fits the budget, and else until the deadline |
| `Deadline.PhaseBound` | lumenos_sandbox/inspect.py:652-668 | if the guest keeps its timeouts the phase completes strictly before the deadline, or aborts less than a second after it plus two clock gaps |
| `Deadline.BoundIsTight` | lumenos_sandbox/inspect.py:268-301 | an abort can come as close to that full second late as one likes |
| `Deadline.UnboundedNeverAborts` | lumenos_sandbox/inspect.py:247-301 | without a deadline nothing aborts and the phase lasts as long as its parts |
| `HashSample.MaxSampleBytes` | lumenos_sandbox/inspect.py:317-331 | a multiple of 1 MiB: the setting when it is positive, else exactly 524288000 bytes |
| `HashSample.HashFile` | lumenos_sandbox/inspect.py:349-377 | digest and size are those of the whole content; the guard raises exactly beyond the tolerated length and never hashes more; a late stop comes at a multiple of 64 chunks |
| `HashSample.ToleratedIsOneChunkMore` | lumenos_sandbox/inspect.py:369-376 | the streaming guard tolerates exactly one chunk of 8192 bytes beyond the limit |
| `Placement.FindBest` | lumenos_sandbox/multi_host.py:198-230 | the first host of maximal score, if that score is positive |
| `Placement.ScoreSeparates` | lumenos_sandbox/multi_host.py:204-227 | without GPUs a fitting host with room scores 80 to 100 and any other at most 70; the bands with GPUs |
| `Placement.PlacementGuarantee` | lumenos_sandbox/multi_host.py:198-230 | if some online host fits and has room the chosen one does; one is chosen exactly when some host has room |
| `Placement.GpuPlacement` | lumenos_sandbox/multi_host.py:198-230 | with GPUs, if some host meets the whole need, the chosen host fits and has room, and lacks GPUs only on an exact memory fit |
| `Placement.PassedOverIff` | lumenos_sandbox/multi_host.py:198-230 | a host without the GPUs is chosen over one that meets the need exactly when some host lacking only GPUs fits the memory exactly and every host that meets the need comes later with over twenty times the memory |
| `Placement.BonusEnds` | lumenos_sandbox/multi_host.py:208-212 | the whole bonus goes to an exact fit and none to a host over twenty times as large |
| `Placement.BonusIsTwentieths` | lumenos_sandbox/multi_host.py:208-212 | the bonus is the whole number of twentieths of the memory that the need takes |
| `Placement.TighterScoresNoLess` | lumenos_sandbox/multi_host.py:208-212 | of two hosts that fit the memory the tighter one has no smaller bonus |
| `Placement.MemoryBeatsCores` | lumenos_sandbox/multi_host.py:208-216 | of two hosts with room the one that only fits the memory beats the one that only fits the cores |
| `Placement.FullHostChosenIff` | lumenos_sandbox/multi_host.py:220-230 | a host without room is still chosen, alone, exactly when it meets the whole need, GPUs included, and at least eleven twentieths of its memory are asked for |
| `Placement.GpuCanBePassedOver` | lumenos_sandbox/multi_host.py:210-218 | a concrete cluster where the GPU host loses |
| `Placement.Balance` | lumenos_sandbox/multi_host.py:232-258 | computes the plan: each overloaded host, first underloaded partner, the smaller of excess and deficit |
| `Placement.IdealIsMeanShare` | lumenos_sandbox/multi_host.py:240-242 | the ideal is the whole part of the mean share of VMs per host, and one when there are fewer VMs than hosts |
| `Placement.MeanShareStays` | lumenos_sandbox/multi_host.py:240-258 | a host that holds no more than the mean share is never in the plan |
| `Placement.PlanEntries` | lumenos_sandbox/multi_host.py:245-256 | every entry is a nonempty prefix of its host's VMs that leaves it at or above the ideal |
| `Placement.PlanNonEmptyIff` | lumenos_sandbox/multi_host.py:244-258 | the plan moves something exactly when one host is above the ideal and another below |
| `Placement.DeficitForcesExcess` | lumenos_sandbox/multi_host.py:240-242 | pigeonhole: with at least as many VMs as hosts a deficit forces an excess |
| `Placement.PlanEmptyIff` | lumenos_sandbox/multi_host.py:232-258 | with at least as many VMs as hosts the plan is empty exactly when no host is below the ideal; with fewer, exactly when no host holds two |
| `ClusterIndex.AgreementBothWays` | lumenos_sandbox/multi_host.py:285-290 | under agreement a VM is in a host's list exactly when it is mapped to that host |
| `ClusterIndex.RegisterAgreesIff` | lumenos_sandbox/multi_host.py:262-271 | registering keeps the agreement exactly when the host is unknown or not ONLINE, or the VM is not on another host |
| `ClusterIndex.AddHostAgreesIff` | lumenos_sandbox/multi_host.py:101-113 | adding a host keeps it exactly when the name is not empty and no host holding VMs is replaced |
| `ClusterIndex.AdditionIsExact` | lumenos_sandbox/multi_host.py:101-113 | the added host is known, ONLINE and empty; no VM is unmapped |
| `ClusterIndex.RegistrationIsExact` | lumenos_sandbox/multi_host.py:262-271 | True exactly for a known ONLINE host, which then lists the VM, and the map gives it; no other host or VM changes |
| `ClusterIndex.EmptyNameStrands` | lumenos_sandbox/multi_host.py:273-283 | a VM registered on a host of the empty name can never be unregistered, which is why that name is excluded |
| `ClusterIndex.RemoveHostAgrees` | lumenos_sandbox/multi_host.py:115-124 | removing a host always keeps it |
| `ClusterIndex.RemovalIsExact` | lumenos_sandbox/multi_host.py:115-124 | True exactly for a known name; afterwards it is unknown, exactly its VMs are unmapped and the other hosts stay |
| `ClusterIndex.RefreshAgrees` | lumenos_sandbox/multi_host.py:176-194 | a heartbeat keeps it |
| `ClusterIndex.RefreshIsExact` | lumenos_sandbox/multi_host.py:176-194 | the named host has the reported status and resources and keeps its VMs; every other host stays |
| `ClusterIndex.UnregisterAgrees` | lumenos_sandbox/multi_host.py:273-283 | unregistering takes the VM off its host and out of the map, and touches nothing else |
| `ClusterIndex.EvictionIsExact` | lumenos_sandbox/multi_host.py:294-304 | eviction returns exactly the VMs of the OFFLINE hosts, unmaps them and empties those hosts; everything else stays |
| `ClusterIndex.CountsMatchMap` | lumenos_sandbox/multi_host.py:262-304 | the hosts' counters add up to the number of mapped VMs |
| `ClusterIndex.RunAgrees` | lumenos_sandbox/multi_host.py:101-304 | in every run with fresh host names that registers a VM only when it is on no other host: agreement, lists without repeats, counters equal to lengths, sums equal to the map |
| `MultiHost.MultiHostManager.AddHost` | lumenos_sandbox/multi_host.py:101-113 | the method in place equals ClusterIndex.AddHost |
| `MultiHost.MultiHostManager.RemoveHost` | lumenos_sandbox/multi_host.py:115-124 | the method in place, with its loop over the host's VMs, equals ClusterIndex.RemoveHost |
| `MultiHost.MultiHostManager.Refresh` | lumenos_sandbox/multi_host.py:176-194 | status and resources of one host object change, and nothing else |
| `MultiHost.MultiHostManager.RegisterVm` | lumenos_sandbox/multi_host.py:262-271 | the method in place equals ClusterIndex.Register |
| `MultiHost.MultiHostManager.UnregisterVm` | lumenos_sandbox/multi_host.py:273-283 | the method in place equals ClusterIndex.Unregister |
| `MultiHost.MultiHostManager.EvictOfflineVms` | lumenos_sandbox/multi_host.py:294-304 | the loop over mutating host objects equals ClusterIndex.Evict |
| `MultiHost.MultiHostManager.FindBestHost` | lumenos_sandbox/multi_host.py:198-230 | returns one of the host objects, the first online one of maximal positive score |
| `MultiHost.MultiHostManager.BalanceVms` | lumenos_sandbox/multi_host.py:232-258 | empty below two online hosts, else a plan over the online hosts |
| `Package.ManifestRoundTrip` | lumenos_sandbox/package_engine.py:71-95 | from_dict of any dictionary that extends to_dict's gives the manifest back |
| `Package.BareManifest` | lumenos_sandbox/package_engine.py:40-95 | a dictionary of name and version alone, unknown keys aside, gives the manifest with every default; without one of the two there is none |
| `Package.FieldDecidesItself` | lumenos_sandbox/package_engine.py:92-95 | one field set decides its own value and no other's; an unknown key decides nothing |
| `Package.Le32RoundTrip` | lumenos_sandbox/package_engine.py:311 | decoding an encoded length gives it back |
| `Package.Le32Onto` | lumenos_sandbox/package_engine.py:221 | every four bytes are the encoding of the length they decode to |
| `Package.LittleEndian` | lumenos_sandbox/package_engine.py:311 | the least significant byte of the length comes first |
| `Package.RoundTrip` | lumenos_sandbox/package_engine.py:210-241 | whatever was packed verifies and reports the manifest's own name, version, layer count and size |
| `Package.PackageLayout` | lumenos_sandbox/package_engine.py:30-31 | magic, version 1, no flags, length, digest, manifest and payload lie at bytes 0, 4, 6, 8, 12, 44 and after the manifest |
| `Package.PayloadJoins` | lumenos_sandbox/package_engine.py:318-325 | the archives follow one another in order and a missing one leaves no trace |
| `Package.AcceptedIff` | lumenos_sandbox/package_engine.py:210-241 | a file is accepted exactly when it has a whole header with the magic, everything after the header hashes to the checksum, and the manifest cut out by the length field parses to an object with countable layers |
| `Package.RefusedIff` | lumenos_sandbox/package_engine.py:210-241 | bad magic exactly without the four bytes; checksum mismatch exactly when magic and manifest are fine and the digest differs; every other refusal is a failure |
| `Package.SummaryIs` | lumenos_sandbox/package_engine.py:233-239 | a parsed manifest is accepted exactly when it is an object whose layers, if given, have a length; the defaults of its report |
| `Package.AcceptedIsPackage` | lumenos_sandbox/package_engine.py:210-241 | an accepted file of version 1 without flags whose length field fits is the package of its own manifest and payload |
| `Package.VersionAndFlagsAreUncovered` | lumenos_sandbox/package_engine.py:214-241 | the verdict does not depend on the version and flag bytes |
| `Package.LengthIsUncovered` | lumenos_sandbox/package_engine.py:221-231 | an accepted file whose length field is replaced is accepted again exactly when the other cut parses to an object with countable layers |
| `Package.BodyIsBound` | lumenos_sandbox/package_engine.py:225-231 | two accepted files with the same checksum have the same body, or exactly their two bodies collide under the digest |
| `Package.BinaryFile.Write` | lumenos_sandbox/package_engine.py:316-319 | overwrites from the position, growing the file only past its end |
| `Package.BinaryFile.Read` | lumenos_sandbox/package_engine.py:213-222 | returns up to the bytes asked for and moves the position past them |
| `Package.Seal` | lumenos_sandbox/package_engine.py:327-335 | hashes what follows the header and overwrites exactly the checksum field |
| `Package.BuildLva` | lumenos_sandbox/package_engine.py:300-335 | writes and patches the package in place; fails exactly on a manifest of 2^32 bytes or more, before touching the file |
| `Package.Verify` | lumenos_sandbox/package_engine.py:210-241 | the streaming reader equals Package.VerifyBytes and leaves the file alone |
| `Admission.RunConserves` | lumenos_sandbox/api.py:478-543 | in every interleaving free slots plus requests holding one make four, and at most four workers are busy |
| `Admission.OneReleaseEach` | lumenos_sandbox/api.py:507-543 | an admitted request acquires once, releases at most once, and holds a slot exactly in between; the others never do |
| `Admission.RunTellsRight` | lumenos_sandbox/api.py:478-535 | in every interleaving a caller has been told only what its stage allows: a refusal 400, 401, 403, 413, 422 or 503, a full house 503, a failed submission 500, a request under way 504, a finished one 200, 500 or 504 |
| `Admission.EachAnswer` | lumenos_sandbox/api.py:507-535 | exactly which event tells which status: 200 or 500 for a settled analysis, 504 for one still under way, 503 when no slot is free, 500 when the submission raises |
| `Admission.AnswersAreFinal` | lumenos_sandbox/api.py:518-535 | in every run a caller that was told something is never told anything else |
| `Admission.CallersChangeNoSlot` | lumenos_sandbox/api.py:518-535 | an answer or a 504 changes no slot and no request's progress |
| `Admission.RejectedIffFull` | lumenos_sandbox/api.py:507-511 | a request gets 503 exactly when four requests hold the slots |
| `Admission.TurnedAwayNeverHolds` | lumenos_sandbox/api.py:478-511 | a refused or rejected request stays so and never acquires |
| `Admission.QueuedCanStart` | lumenos_sandbox/api.py:169-172 | a queued request can start unless a thread has yet to settle a finished one |
| `Admission.QuietMeansFree` | lumenos_sandbox/api.py:538-543 | once all workers have finished all four slots are free |
| `Admission.CanDrain` | lumenos_sandbox/api.py:538-543 | from every reachable state the workers can finish without a new admission, and then four slots are free |
| `Admission.TornSubmitBreaks` | lumenos_sandbox/api.py:512-516 | a submit that queues and then raises always leaves one slot too many |
| `Admission.FifthIsAdmitted` | lumenos_sandbox/api.py:507-516 | from there five requests hold a slot at once, by admissions alone |
| `Evidence.PrintParse` | lumenos_sandbox/inspect.py:453-454 | parsing a printed finding recovers category and pattern exactly when the category has no separator |
| `Evidence.FindingRecovered` | lumenos_sandbox/inspect.py:453-464 | its indicator carries the stripped pattern, the category's type and severity and the printed line |
| `Monitor.OwnFindingsAreRecovered` | lumenos_sandbox/monitoring.py:128-151 | every finding of the monitor's own table is recovered |
| `Monitor.PatternIndicator` | lumenos_sandbox/inspect.py:69-75 | type and severity of a pattern's indicator, category by category |
| `Monitor.TextVerdict` | lumenos_sandbox/monitoring.py:128-151 | with nothing recorded a text decides the verdict: malicious exactly on a VM escape, exfiltration or injection pattern, else suspicious exactly on a persistence pattern, else clean |
| `Monitor.PatternDecides` | lumenos_sandbox/inspect.py:151-163 | whatever else was recorded, such a pattern gives at least that verdict, or an error |
| `Monitor.PatternAlone` | lumenos_sandbox/inspect.py:453-464 | one pattern alone gives one indicator, with 1, 10, 50 or 100 points by its category |
| `Evidence.FindingsExact` | lumenos_sandbox/monitoring.py:424-434 | a line is found exactly when it prints a pattern of the table that occurs in the text, case folded |
| `Evidence.ContainsMeans` | lumenos_sandbox/monitoring.py:424-434 | a pattern occurs exactly when the text is that pattern between two others |
| `Evidence.CaseDoesNotMatter` | lumenos_sandbox/monitoring.py:424-434 | texts that are equal when case folded have the same findings |
| `Evidence.FindingsMonotone` | lumenos_sandbox/monitoring.py:424-434 | a longer text yields at least the same findings |
| `Evidence.DedupIsExact` | lumenos_sandbox/inspect.py:438-445 | every indicator once, in the order of first occurrence |
| `Evidence.ScoreMonotone` | lumenos_sandbox/inspect.py:214 | over distinct indicators the score grows with the set, strictly if the set does |
| `Evidence.ScoreOfSet` | lumenos_sandbox/inspect.py:214 | order and repetition of indicators do not matter to the score |
| `Evidence.ScoreOfVerdict` | lumenos_sandbox/inspect.py:151-163 | the score brackets of each verdict |
| `Evidence.ErrorNeedsText` | lumenos_sandbox/inspect.py:151-163 | the verdict is an error exactly with a nonempty error text |
| `Evidence.MoreEvidence` | lumenos_sandbox/inspect.py:436-487 | a larger text and more records never lower score or verdict rank |
| `Evidence.ErrorIff` | lumenos_sandbox/inspect.py:680-700 | the verdict is an error exactly when the cycle failed or some telemetry was unavailable once decontamination was over; a failed cycle reports no indicator, missing telemetry keeps them, the cycle's own error wins |
| `Evidence.EventDecides` | lumenos_sandbox/inspect.py:468-475 | a HIGH or CRITICAL event makes the verdict malicious, a MEDIUM one at least suspicious, unless it is an error |
| `Evidence.AttemptIsMalicious` | lumenos_sandbox/inspect.py:477-485 | with a recorded escape attempt the verdict is malicious or error |
| `Evidence.EventAlone` | lumenos_sandbox/inspect.py:468-475 | one event alone: the type of its indicator by the layer, and 1, 10, 50 or 100 points by the threat |
| `Evidence.AttemptAlone` | lumenos_sandbox/inspect.py:477-485 | one escape attempt alone: the type of its indicator, and 50 points for file persistence and side channels, 100 for the others |
| `Evidence.UnknownCategoryIsMalicious` | lumenos_sandbox/inspect.py:77-82 | a finding of a category the program does not know alone makes the verdict malicious, with 50 points |
| `Evidence.DetectedAttempt` | lumenos_sandbox/inspect.py:467-485 | a detected attempt is reported twice, through its event and by itself, with 150 or 200 points; the types of both |
| `Evidence.TelemetrySays` | lumenos_sandbox/inspect.py:490-505 | missing telemetry is named in the error, each capability once |
| `Monitor.SecurityMonitor.RecordUnavailable` | lumenos_sandbox/monitoring.py:331-343 | a capability is recorded once |
| `Monitor.SecurityMonitor.DetectEscapeAttempt` | lumenos_sandbox/monitoring.py:364-386 | records the attempt and a critical event on its layer |
| `Monitor.AnalyzePatterns` | lumenos_sandbox/monitoring.py:424-434 | the nested loops compute Evidence.Findings |
| `Monitor.Add` | lumenos_sandbox/inspect.py:441-445 | one indicator more, deduplicated through the seen set |
| `Monitor.CollectIocs` | lumenos_sandbox/inspect.py:436-487 | the three loops compute the deduplicated candidates |
| `Registry.LoadThenPersist` | lumenos_sandbox/bunker.py:125-188 | for a row that loads, restoring and persisting changes the update stamp only, exactly when the row has a signing key (or the drawn one is empty) |
| `Registry.RebuildThenPersist` | lumenos_sandbox/api.py:204-212 | the API's own restore keeps the row only without stamps and unknown keys and with the same key |
| `Registry.CreateIsAtomic` | lumenos_sandbox/api.py:308-345 | a failed create leaves registry and, if its delete succeeds, store exactly as before; 409 exactly when the row exists |
| `Registry.CreateFootprint` | lumenos_sandbox/api.py:308-345 | with nothing of the id's names on the host before, a create leaves there exactly what its initialize leaves, for all answers |
| `Registry.RunAgrees` | lumenos_sandbox/api.py:185-391 | in every sequential run of get, create, start, activate and stop with successful saves each registered bunker has a row with its configuration, state and resource names |
| `Registry.RunKeepsNames` | lumenos_sandbox/api.py:185-391 | in every sequential run, whether saves succeed or not, bunkers and rows name only their own VMs and switches |
| `Registry.StatusIsTruthful` | lumenos_sandbox/api.py:308-391 | a request answered OK has reached the state it asked for; a 404 or 409 has touched neither host nor store |
| `Registry.StartAnswers` | lumenos_sandbox/api.py:355-365 | 404, 409 and success each exactly when they should come: success exactly from DESTROYED with every answer of the initialisation; a start that fails leaves ERROR |
| `Registry.ActivateAnswers` | lumenos_sandbox/api.py:381-391 | the same for activate: success exactly from READY with five hooks and two threads |
| `Registry.StopAnswers` | lumenos_sandbox/api.py:368-378 | the same for stop: success exactly for a registered ACTIVE bunker with every baseline and every answer a termination takes |
| `Registry.CreateAnswers` | lumenos_sandbox/api.py:308-345 | a create succeeds exactly for an id without a row and with every answer of the initialisation |
| `Registry.StopAfterRestart` | lumenos_sandbox/api.py:368-378 | after a restart stopping an ACTIVE bunker never succeeds and leaves it in ERROR |
| `Registry.ApiIdsAreConfined` | lumenos_sandbox/api.py:91 | on a case-sensitive POSIX file system, ids accepted at creation have confined disks of their own |
| `Api.RestoreFromStore` | lumenos_sandbox/bunker.py:125-145 | the rebuilt object carries state, names, stamps and key of the row; raises exactly on an unknown configuration key, an unknown state or a stamp that is no time |
| `Api.BunkerApi.GetBunker` | lumenos_sandbox/api.py:185-212 | the registered bunker or one rebuilt from its row; 404 without a row |
| `Api.BunkerApi.CreateBunker` | lumenos_sandbox/api.py:308-345 | the handler in place equals Registry.Create |
| `Api.BunkerApi.StartBunker` | lumenos_sandbox/api.py:355-365 | the handler in place equals Registry.Start |
| `Api.BunkerApi.ActivateBunker` | lumenos_sandbox/api.py:381-391 | the handler in place equals Registry.ActivateBunker |
| `Api.BunkerApi.StopBunker` | lumenos_sandbox/api.py:368-378 | the handler in place equals Registry.Stop |

## Left out

- `terminate()` builds its decontamination runner without its own backend (lumenos_sandbox/bunker.py:345-353); the model assumes both resolve to the same host.
- Hypervisor backends, PowerShell and virsh: kept only as answers; a `remove_vm` that deletes storage deletes the bunker's own disk and no other file.
- SQLite, Fernet, keyring, SHA and HMAC: the store holds decrypted rows; signing keys are taken to be hexadecimal, so signing a report never raises.
- Persisted configuration: an id, settings kept verbatim and the set of keys the program does not know; a row without an id or a name, and the string keys of the failure probabilities, are not modelled.
- Symbolic links: paths are resolved by their text only.
- Host.PlainIdIsConfined: POSIX paths only; a Windows host also splits at a backslash.
- Host.NamesAreInjective: POSIX paths only; a file system that folds case gives ids that differ in case the same disk.
- Reaping.PlainIdsOwnDisks: POSIX paths only, for the same two reasons.
- Registry.ApiIdsAreConfined: POSIX paths only; accepted ids hold no backslash, but two that differ in case share a disk where case is folded.
- Store.StateStore.Load: never raises; a configuration column that is not JSON makes the source raise.
- Reaper.ReapRow: a load that raises, which aborts the source's whole pass, is not modelled.
- Registry.LoadThenPersist: keeps a stamp as a time, so a stamp text that isoformat would write differently is not seen.
- Reaper.OnlySpellings: ASCII only; the source also strips other Unicode whitespace and folds letters whose upper case is ASCII.
- Unicode: stripping and upper-casing are ASCII; case folding is per character, so the context-dependent final sigma is not modelled. The scan starts from the decoded first 64 KiB.
- Placement.FindBest: computes the fit bonus by exact division, because binary rounding is not the point; the truncated float product can differ only for memory sizes of 2^40 MB and more.
- Placement.PlacementGuarantee: takes requests for a non-negative amount of memory; a negative request has no meaning.
- Layer objects: only the `active` flag, since a layer's own fields and log lines take no part in the protocol; the layers' verification hooks and the metrics thread are not modelled.
- Analysis.RunCycle: starts after the sample was hashed, takes the creation of the bunker object as never raising, and ends with the way out; the verdict follows in module Evidence, and the hash in module HashSample.
- Evidence.ErrorIff: takes the sorted, comma-separated list of unavailable capabilities as a function of their set.
- Monitor events from the guest (event log, processes, network, memory) arrive as arbitrary records; the polling thread and analyze_event_log are not modelled.
- Locks and real threads: operations of one object are taken one after the other; concurrent initialize() calls on one bunker are not covered. The manager's wait polls a state that nothing else changes while its lock is held.
- Admission: authorisation and the sample checks before admission are one refusing step; discarding the queue at interpreter exit is not modelled.
- Package.Verify: takes the JSON parser and the digest as parameters; archive contents are opaque bytes, and a failing write or archive is not modelled. Collecting layer sizes in create and deploying a package are left out.
- Registry.RunAgrees: assumes saves and deletes succeed and requests come one at a time; the response bodies, metrics, report and evidence routes are not modelled.
- Confidence values, chain-of-custody hash and step texts of the report: constant tables and formatting.
- GPU ledger, resource manager, compliance, forensics, escape probabilities, image builder, phone support, analysis agent and platform detection: they would only add easy members.
