# Verification of the development, test and release scripts

A Dafny model of the scripts whose correctness depends on order, interleaving or crashes, with proofs of what
they promise. `dafny verify dfyconfig.toml` checks all of it.

## What is modelled

**The development lock** (`DevLock`, `DevLockInvariant`, `DevLockSafety`, `DevLockWalk`, `DevLockReclaim`,
`DevLockExamples`). Any number of processes
share a lock file through atomic `link`, `rename` and `unlink`. The lock of a crashed owner is reclaimed through a
chain of claim files that are never deleted. The model is a step relation: a state holds the lock file, the claim
files, the live processes and process groups, the tokens drawn so far and one program point per acquisition call;
a step is one file operation or liveness probe of one call, a call that throws, a birth (perhaps with the pid of a
dead process), a death, or a change of the live groups. A run starts from any leftover lock file and any leftover
chains of claims. The assumptions: the three file operations are atomic, a UUID is never drawn twice,
`contentIdentity` is injective (a generation is the chain it was computed from), a probe says "not live" only when
no process or group has the number, and calls on one handle are made one after another. The main results are
mutual exclusion, the uniqueness of the reclaimer, that nobody's record is lost or stolen, and orphan protection,
each over every reachable state or every run, and the exact
condition under which a stale lock is taken.

**The launcher** (`DevLauncher`, `DevSystem`, `DevSystemSafety`). One run of `scripts/dev.ts` is an event-driven
machine whose phases are the points where it awaits something. Any number of launchers are composed with two copies
of the lock protocol: the lock of the instance and the allocator lock of the machine. Launchers of other instances
take part in the allocator lock; other clients of either lock may do anything the protocol allows. The invariant
relates each phase to the state of the launcher's lock calls; the results hold over every order of lock operations,
signals, child exits, failed attempts, settled and failed terminations, and crashes.

**Ports and startup attempts** (`DevPorts`), **process trees** (`ProcessTree`), **bounded termination**
(`DevTermination`, `ProcessCleanup`). The operating system is an oracle: any answers to port requests, any sequence
of process tables and working directories, any liveness probes, any clock that does not run backward. The loops are
methods with their own local sets and maps, proved against independent definitions (chains of parents, logs of
signals).

**Release publication** (`PublicationOrder`, `ReleaseVersion`, `Publication`, `Channels`, `ChannelHistory`,
`ReleaseExamples`). The registry maps a name to its versions with their content and to its channels. It accepts any
publication, also of a version that exists: only the plan protects history. Publishing may stop anywhere, also after a
publication that npm accepted and then reported as failed. During the channel repair others may change the registry
before each lookup, and again between a lookup and the command that follows from it. The version order is defined on strings and
compared with a separate definition of SemVer 2.0.0, sections 9 to 11.

**The test run** (`TestSignals`, `TestRun`). The signal controller is a class proved against the history of its
events; the nested cleanup of a run is proved for any outcome of every awaited call.

## What turned out not to hold

- A stale lock is not always taken. A call that starts on a dead record and runs alone takes the lock exactly if the
  end of the claim chain carries no claim, that is, if no live process (not even its own) has claimed the record before
  (`TakenExactlyIfFree`, `TakenExactlyIfUnclaimed`). A call leaves such a claim behind exactly if it throws after it
  published the claim, or if its recheck finds the recorded pid or group live again (`LeavingBlocks`); the record then
  stays for as long as the process of the claim runs (`ReclaimBlocked`), and `BlockedIsReachable` is a run that ends
  so. Safety is not affected.
- The channel repair can remove a stable `latest`: the command does not look again. It takes away only the accidental
  tag exactly if, since its lookup, nobody has moved `latest` and nobody has published a stable version
  (`RemovalIsRight`); `StableLatestIsRemoved` is a round in which it takes the stable one.
- `withDisposablePostgres` succeeds although stopping the container failed, exactly if the stop threw `undefined`
  and nothing else failed (`SucceedsExactlyIf`, `UndefinedStopIsSwallowed`).
- The first error of the cleanup in `runLoggedProcess` is in what is thrown exactly if `TestSignalController.activate`
  did not throw (`CleanupReportedExactlyIf`); `CleanupErrorIsLost` is a phase that loses it.
- After a complete release the final verification passes for every alpha release; for a stable one it fails for
  those packages that were already registered at this version while `latest` was elsewhere
  (`CompleteReleaseVerifies` gives the exact condition, `HeldBackReleaseFails` such a release).
- A release does not always free the lock. While the process of a call that no longer has the lock runs, the lock file
  carries its record exactly if its release threw (`LeftBehindExactlyIf`; for the port allocator lock over all runs of
  the launchers `AllocatorLetGo`); `LeftBehindIsReachable` is a run that ends so, with nobody holding the lock.
- `latest` can fall after a repair that removed it from an entry where it stood above `alpha` (`StableLatestFalls`). A
  removal remembers what it takes away exactly if `latest` was not above `alpha` (`GentleExactlyIf`), and as long as all
  removals are so, no channel falls (`ChannelsNeverFall`); `alpha` never falls in any case.

## Model

| member | source | states |
|---|---|---|
| DevLockSafety.MutualExclusion | scripts/dev-runtime.ts:253-388 | In every reachable state at most one live acquisition holds the lock, and the lock file carries its pid, its token and the group it last bound |
| DevLockSafety.RefinesMutex | scripts/dev-runtime.ts:253-388 | Every step of the protocol is a step of a mutex with one owner: the lock passes on only after a release by the holder or its death |
| DevLockSafety.UniqueReclaimer | scripts/dev-runtime.ts:119-149 | For each stale content at most one running call is entitled to the unlink; every claim but the last of a chain belongs to a dead process; the re-read content is still there at the unlink |
| DevLockSafety.LockChangesAreOwn | scripts/dev-runtime.ts:151-186 | Every change of the lock file is an acquisition of a free lock, a reclaim of a dead owner's record, or a rebind or release by the owner of the record |
| DevLockSafety.ReclaimedNeverReturns | scripts/dev-runtime.ts:372-386 | A record that was reclaimed never reappears in the lock file in the rest of the run |
| DevLockSafety.OrphanProtection | scripts/dev-runtime.ts:69-75 | Once a group is bound into the lock, nobody else holds the lock while the group stays live and the owner does not itself rebind or release, even after the owner died; and so from the start for a record left by an earlier run |
| DevLockSafety.ReplaceAwaitsDeath | scripts/dev-runtime.ts:322-360 | A call that met a live owner with `replaceExisting` gets past it only after a probe saw the group gone and, after that, one saw the recorded process gone |
| DevLockSafety.LeavingBlocks | scripts/dev-runtime.ts:361-386 | The next step of a call that claimed the stale record leaves the record blocked exactly if the call throws in it or its recheck finds the recorded pid or group live |
| DevLockReclaim.TakenExactlyIfFree | scripts/dev-runtime.ts:119-149 | A call that starts on a dead record and runs alone takes the lock exactly if the end of the claim chain carries no claim |
| DevLockReclaim.TakenExactlyIfUnclaimed | scripts/dev-runtime.ts:312-386 | The same without naming the end: exactly if the chain has a free end |
| DevLockReclaim.EndExists | scripts/dev-runtime.ts:124-148 | The walk along the claims of dead processes has an end |
| DevLockExamples.BlockedIsReachable | scripts/dev-runtime.ts:361-386 | A concrete run after which a call on a dead record never takes the lock by itself |
| DevLockSafety.LeftBehindExactlyIf | scripts/dev-runtime.ts:295-311 | While its process runs, a call that no longer has the lock has its record in the file exactly if its release threw |
| DevLockExamples.LeftBehindIsReachable | scripts/dev-runtime.ts:295-311 | A concrete run that ends with the record of a live process in the file and nobody holding the lock |
| DevLockSafety.ReclaimBlocked | scripts/dev-runtime.ts:141-146 | While the process of the last claim runs, the stale record stays and no call ever takes the lock |
| DevLockInvariant.StepKeepsInv | scripts/dev-runtime.ts:253-388 | Every step keeps the protocol invariant: what each program point knows of the past and relies on about the lock file |
| DevLockInvariant.ReachableInv | scripts/dev-runtime.ts:253-388 | The invariant holds in every state of every run, from any leftover files |
| DevLockInvariant.InitInv | scripts/dev-runtime.ts:119-149 | Leftover lock files and claim chains, with pids that may be in use again, satisfy the invariant |
| DevLockInvariant.NoBranch | scripts/dev-runtime.ts:119-149 | The claim chain of one stale content does not branch |
| DevLockInvariant.UniqueClaimant | scripts/dev-runtime.ts:119-149 | Two running calls that both published a claim for the same stale content are the same call |
| DevLockInvariant.Undisturbed | scripts/dev-runtime.ts:361-386 | While a call holds the lock or is about to unlink it, or the file is missing, no other running call holds the lock or has re-read the content that it claimed |
| DevLockWalk.ClaimStaleLock | scripts/dev-runtime.ts:119-149 | Without interference the walk ends, at the one end of the chain that the files determine: it wins exactly with a new claim there, and loses exactly to a live claim there |
| DevLockWalk.EndIsUnique | scripts/dev-runtime.ts:124-148 | The claim files determine where the walk ends |
| DevLauncher.EventKeepsLauncherOk | scripts/dev.ts:221-379 | After every event at most one child group has not been observed gone, and the launcher knows it as its active one |
| DevLauncher.FirstSignalOnly | scripts/dev.ts:225-237 | Over any run of the launcher nothing is forwarded before the first signal, and that signal stays the forwarded one |
| DevLauncher.SecondSignalPasses | scripts/dev.ts:225-241 | A later signal that the launcher handles is of the other kind and leaves it as it is, but for its own handler |
| DevLauncher.EachKindOnce | scripts/dev.ts:238-241 | Each kind of signal is handled at most once, because its handler is installed with `once` |
| DevSystem.MoveKeepsInv | scripts/dev.ts:216-379 | Every move of the composed system keeps the relation between each launcher's phase and its calls of both locks |
| DevSystemSafety.UsesAreEnabled | scripts/dev.ts:254-335 | What a launcher asks of a lock is always possible in the protocol, so the guards of the model block none of its events |
| DevSystemSafety.HeldUntilGone | scripts/dev.ts:368-379 | While a running launcher has a child group that no termination has observed gone, it holds the instance lock and has not begun to release it, and there is no second such group |
| DevSystemSafety.FailureRetains | scripts/dev.ts:368-379 | The last termination leaves the launcher done and still holding the lock exactly if it failed |
| DevSystemSafety.RetainedForLife | scripts/dev-runtime.ts:503-507 | After a failed last termination the lock is retained for as long as the launcher lives |
| DevSystemSafety.NoSecondInstance | scripts/dev.ts:331-379 | From the bind of the child's group on, for as long as the group lives, no other launcher holds the instance lock, whatever signals, failures and crashes happen |
| DevSystemSafety.DisjointWindows | scripts/dev.ts:254-276 | Across all launchers at most one is between its port reservation and the moment its listeners are ready or its attempt is abandoned |
| DevSystemSafety.AllocatorLetGo | scripts/dev-runtime.ts:237-250 | Outside its window and its releases no call of a running launcher holds the allocator lock, however its acquisitions ended, and the lock file carries the record of such a call exactly if the release of that call threw |
| DevPorts.PortReserver.Next | scripts/dev-ports.ts:45-59 | The first answer that is not in use is returned; all earlier ones collided; only the first request names the preference and only while it is unused; an error means an invalid answer or that every attempt collided |
| DevPorts.PortReserver.ReserveDevPorts | scripts/dev-ports.ts:39-67 | For any oracle the four ports are distinct, valid and outside the exclusions, and each is reserved in turn with the preference of its field |
| DevPorts.RunDevStartupAttempts | scripts/dev-ports.ts:165-192 | However it ends, each call of allocate was followed by one of start and one of release before the next, the ports of all attempts are valid and pairwise disjoint, every attempt but the last failed in the way that permits another, and the outcome is the one of the last attempt |
| DevTermination.TerminateDevProcessGroup | scripts/dev-runtime.ts:474-508 | Normal return means that the group itself and every group of the snapshot was observed gone; each group gets the signal once and SIGKILL at most once after the grace period; a group observed gone is never probed or signalled again; failure names groups observed live after the kill deadline |
| DevTermination.AwaitGone | scripts/dev-runtime.ts:492-494 | Waiting ends with no group left or with the deadline passed, and what left the set was observed gone |
| DevTermination.StillRunning | scripts/dev-runtime.ts:481-486 | Exactly groups observed gone leave the set, the others were observed live |
| ProcessTree.GrowOwned | scripts/test-processes.ts:175-186 | The loop ends with exactly the seeds and their descendants in the table |
| ProcessTree.DescendantsAreLeast | scripts/dev-runtime.ts:442-453 | The descendants are contained in every set that holds the seeds and is closed under "the parent is in the set" |
| ProcessTree.OrderDoesNotMatter | scripts/test-processes.ts:181-186 | Tables with the same rows, in any order and with any repetition, have the same descendants |
| ProcessTree.DevProcessGroups | scripts/dev-runtime.ts:423-462 | The group itself and every group with a member that descends from one of its members |
| ProcessTree.ProcessTreeOf | scripts/desktop-soak.ts:34-40 | The rows of the root and its descendants, in table order |
| ProcessCleanup.SettleTestProcesses | scripts/test-processes.ts:155-240 | For any process tables: no signal to the controller's group or a group of 1 or less, each group gets each signal at most once, SIGKILL escalates only from the grace deadline on; normal return only when nothing runs in a tracked group or the ownership closure; refused arguments inspect and signal nothing |
| ProcessCleanup.Poll | scripts/test-processes.ts:211-239 | Polling ends by the kill deadline; the tracked groups are those of the ownership closures so far; every round but the last sent its signal to all of them that ran; and what the last inspection showed |
| ProcessCleanup.Round | scripts/test-processes.ts:211-238 | What is known at each way a round can end the polling, and that a round that does not end it has signalled every tracked group that runs |
| ProcessCleanup.SignalLive | scripts/test-processes.ts:222-236 | After the round every running tracked group has been sent the signal, and no group the same signal twice |
| ProcessCleanup.Inspect | scripts/test-processes.ts:168-198 | The tracked groups grow by exactly the groups of the ownership closure; the inspection is refused exactly if the controller is missing or an owned process is unsafe |
| ProcessCleanup.NotSentBefore | scripts/test-processes.ts:210-236 | A signal that is not a group's last one was never sent to it, because the clock does not run backward |
| ReleaseVersion.AgreesWithSemVer | scripts/release-packages.ts:670-689 | On the accepted strings the order is the precedence of SemVer 2.0.0, section 11 |
| ReleaseVersion.ZeroMeansIdentical | scripts/release-packages.ts:670-689 | Two accepted strings compare equal exactly if they are the same string |
| ReleaseVersion.TotalOrder | scripts/release-packages.ts:670-689 | The order is total, antisymmetric and transitive on the accepted strings and throws on all others |
| ReleaseVersion.NumeralsInjective | scripts/desktop-release.ts:5-6 | Numerals without leading zeros with the same value are the same string |
| PublicationOrder.PublicationOrder | scripts/release-packages.ts:107-132 | On uniquely named packages it throws exactly if the runtime dependency graph has a cycle, and otherwise returns a permutation with every dependency before its dependent |
| PublicationOrder.OrderedHasNoCycle | scripts/release-packages.ts:107-132 | An order with dependencies first exists only without a cycle |
| PublicationOrder.Sorter.Visit | scripts/release-packages.ts:114-129 | A visit that ends leaves the package visited, only extends the order and keeps every dependency before its dependent; it fails only if there is a cycle |
| PublicationOrder.Sorter.VisitDependencies | scripts/release-packages.ts:120-125 | The loop over the dependencies leaves all that are in the release visited |
| Publication.PlanHolds | scripts/release-packages.ts:691-718 | A plan is made exactly if no package is refused, and holds exactly the packages that are not registered at their version |
| Publication.PlanIsOrdered | scripts/release-packages.ts:691-718 | The plan of a first part of the inventory is a first part of the plan: the filter keeps the order |
| Publication.RerunResumes | scripts/release-packages.ts:992-1023 | However many planned publications were accepted when a run stopped, a rerun is not refused and plans exactly the rest in the same order |
| Publication.NeverOverwrites | scripts/release-packages.ts:709-716 | Whenever a planned package is about to be published, the registry does not have its version |
| Publication.HistoryIsImmutable | scripts/release-packages.ts:709-716 | Wherever a run of a plan stops, every version that was published before has its content |
| Publication.DependenciesRegistered | scripts/release-packages.ts:998-1020 | Whenever a planned package is about to be published, its runtime dependencies within the release are registered at that version |
| Publication.PublishAllPublishes | scripts/release-packages.ts:998-1020 | Each accepted publication adds its version with its content and moves its channel, and later ones leave it alone |
| Channels.NpmRegistry.PublishPending | scripts/release-packages.ts:998-1020 | Wherever the loop stops, exactly a first part of the plan has been accepted, up to one more than was reported |
| Channels.NpmRegistry.ReconcileBootstrapChannels | scripts/release-packages.ts:744-779 | A refusal of the whole-inventory check comes before the first removal; otherwise the registry is what the rounds made of it, whatever others did before each lookup and each command; success without interference leaves no alpha release as `latest` |
| Channels.NpmRegistry.RepairOne | scripts/release-packages.ts:753-778 | The command is issued exactly if the lookup found the package still to be repaired, and removes whatever `latest` it meets |
| Channels.RemovalIsRight | scripts/release-packages.ts:755-772 | A command takes away only the accidental `latest` exactly if since its lookup nobody has moved `latest` and nobody has published a stable version |
| Channels.RoundsRemoveAccidental | scripts/release-packages.ts:753-778 | In any repair each command follows a lookup that found the entry to be repaired, and takes only the accidental tag if nobody changed the entry in between |
| Channels.ToRepairMeans | scripts/release-packages.ts:720-742 | What is to be repaired is exactly an alpha release that is published with its content, stands in both channels, and has no stable version beside it |
| Channels.RepairResumes | scripts/release-packages.ts:744-779 | After an undisturbed repair that stopped anywhere the inventory passes the check again and nothing is to be published |
| ReleaseExamples.StableLatestIsRemoved | scripts/release-packages.ts:755-772 | A concrete round in which the command removes a stable `latest` |
| Channels.RefusesAsAWhole | scripts/release-packages.ts:720-742 | The check of the inventory passes exactly if every package is published as it is here and repairable, and then selects exactly those with an accidental `latest` |
| ChannelHistory.ChannelsNeverFall | scripts/release-packages.ts:698-708 | Over any history of releases and removals of `latest` no package's `alpha` ever moves to a lower version or goes away; and `latest` never moves to a lower version if every removal met an entry whose `latest` was not above its `alpha` |
| ChannelHistory.GentleExactlyIf | scripts/release-packages.ts:760-772 | A removal keeps a channel at or above the version that it takes away exactly if `latest` was not above `alpha` |
| ChannelHistory.RepairIsGentle | scripts/release-packages.ts:753-772 | A command that meets an entry still to be repaired loses nothing |
| ReleaseExamples.StableLatestFalls | scripts/release-packages.ts:755-772 | A concrete history in which `latest` moves down after a stable tag was removed |
| ChannelHistory.VerifyPublishedRelease | scripts/release-packages.ts:1025-1047 | It passes exactly if every package has its content, its channel, and no alpha release is `latest` |
| ChannelHistory.CompleteReleaseVerifies | scripts/release-packages.ts:1025-1047 | The exact condition under which the verification passes after a complete release |
| ReleaseExamples.HeldBackReleaseFails | scripts/release-packages.ts:1025-1047 | A concrete stable release with nothing to publish or repair whose verification fails |
| ChannelHistory.PublishReleasePackages | scripts/release-packages.ts:992-1023 | The plan is refused before the first write; a failed publication leaves a state from which a rerun plans the rest; an undisturbed repair that stopped leaves nothing to publish and the rest free to repair; success means that the release is verified |
| TestSignals.OnlyTheFirstSignal | scripts/test.ts:78-127 | Over any run only the first signal is sent: once to the group whose activation is in force when it arrives, and once at each later activation |
| TestSignals.SendsWhatIsDue | scripts/test.ts:100-126 | The signals sent are exactly those that are due by the order of activations, clears and signals, each once |
| TestSignals.NoSignalNoDelivery | scripts/test.ts:119-126 | Without a signal while the handlers are installed nothing is sent |
| TestSignals.OneInForce | scripts/test.ts:100-112 | At any point of a run the active group of the controller is the one whose activation is in force there |
| TestSignals.TestSignalController.Activate | scripts/test.ts:100-106 | The fields stay what the history of events makes of them; it throws exactly for a group that is not a positive safe integer, and when the system refuses a forwarded signal |
| TestSignals.TestSignalController.Clear | scripts/test.ts:108-112 | The same for a clear |
| TestSignals.TestSignalController.Arrive | scripts/test.ts:119-126 | The same for a signal, whether or not the handlers are installed |
| TestSignals.TestSignalController.Close | scripts/test.ts:114-117 | The same for the removal of the handlers |
| TestRun.RunLoggedProcess | scripts/test.ts:189-326 | A started group is settled and cleared however the phase ends; the phase returns exactly if neither the child nor the cleanup failed, with the child's code or that of the signal; otherwise both failures are in what is thrown |
| TestRun.RunPhases | scripts/test.ts:405-423 | The commands run in order until one does not succeed, and its failure is what is thrown |
| TestRun.NoSpawnOnceSignalled | scripts/test.ts:199-204 | Once the signal controller has forwarded a signal, no phase that begins afterwards spawns a group, and the loop ends with the code of the signal |
| TestRun.WithTestProcessCleanup | scripts/test-processes.ts:243-267 | Once the root is accepted, the settling is the last step however the phases end, and both failures are reported |
| TestRun.WithDisposablePostgres | scripts/test-postgres.ts:152-205 | The outcome and the order of the steps for any outcome of every awaited call |
| TestRun.StopComesLast | scripts/test-postgres.ts:186-192 | Every activated group is settled and cleared first, then what is left beneath the root, then the container is stopped, exactly once, also if it never started |
| TestRun.EveryFailureIsReported | scripts/test-postgres.ts:193-204 | The failures of the startup, the phase, the last settling and the stop are all in the thrown error tree, except a stop that threw `undefined` |
| TestRun.SucceedsExactlyIf | scripts/test-postgres.ts:193-204 | The run succeeds exactly if everything did, or only the stop failed and threw `undefined` |
| TestRun.UndefinedStopIsSwallowed | scripts/test-postgres.ts:187-191 | A concrete run whose stop fails and which succeeds |
| TestRun.CleanupReportedExactlyIf | scripts/test.ts:242-326 | The first error of the cleanup of a started phase is in what is thrown exactly if the activation did not throw |
| TestRun.CleanupErrorIsLost | scripts/test.ts:242-262 | A concrete phase whose cleanup error is lost |
| TestRun.RunTests | scripts/test.ts:375-441 | The exit code is 0 exactly if the run and the removal of its directory succeeded; the directory is removed last and only if the run succeeded; if the removal throws, main throws its error |

## Left out

- Waiting and fairness: nothing is claimed about how long an acquisition waits. Timeouts of acquisitions are calls that throw; the delays between retries are not modelled.
- The clock is any nondecreasing sequence of values; delays and intervals have no other meaning.
- File contents: JSON parsing is reduced to the fields it finds; candidate files, directory creation and permissions are not part of this model, and an error of one of these operations is a call that throws.
- An I/O error during release leaves the handle released and the record in place, as in the code; retrying is not possible there.
- The gap between the spawn of a child and the bind of its group: a launcher that dies in it leaves a group that no lock records.
- Descendants of a group leader that has already gone are not found by the snapshot of `terminateDevProcessGroup`; the result is about the groups of the snapshot.
- Termination inside the `replaceExisting` path is a probe of the recorded group that is repeated until it sees the group gone, or throws; that a normal return of `terminateDevProcessGroup` includes such a probe is part of `TerminateDevProcessGroup`.
- A launcher of another instance shares only the allocator lock; its own instance lock is not part of the composed state. The `--print` mode is one of the other clients.
- `waitForDevListeners`, `migrateDevData` and the plan of the child process are oracles for success or failure.
- A launcher that is killed dies at any point. So does one that gets a signal for which no handler is installed: before the handlers are, after the finally block has removed them, or a second time, since each handler is installed with `once`. Handlers run only at the points where the launcher awaits something.
- Windows: only the behaviour with process groups is modelled.
- DevTermination.TerminateDevProcessGroup: the parsing of the `ps` output is left out; the table is given.
- ProcessCleanup.SettleTestProcesses: a failing `ps`, `lsof` or `/proc` is one outcome of an inspection; the parsing of their output and the resolution of symbolic links are left out.
- The order in which the groups of one round are signalled: the code goes through a set, the model through the table, which is the order of insertion.
- TestSignals.TestSignalController.Arrive: when the system refuses the signal, the handler throws outside any caller; what the process does then is not modelled.
- TestRun.RunLoggedProcess: a thrown `null` is not distinguished from other errors; output mirroring and log files are outcomes of `closed` and `closeLog` only.
- Reading container logs after a failed startup cannot fail the run and is left out.
- Others change the registry only during a repair, not between the plan and the publications; npm applies a publication or a removal as one step.
- PublicationOrder.PublicationOrder: the result for packages that share a name is not characterised beyond dependencies first; workspace names are unique.
- Packing, inspecting and smoke-testing archives, trust configuration, the repair workflow's checks of GitHub runs, and release metadata rendering.
- The desktop end-to-end tests, the planning, sharding, pruning and build scripts, and all configuration: they would add only easy members.
- Windows of time in which a port is reserved but not yet bound by the child: the oracle answers each request, and nothing holds the port afterwards.
