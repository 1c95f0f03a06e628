# Codexhost process ownership, lease and bridge model

A Dafny model of the parts of codexhost that are algorithms or protocols, with proofs over every input and
every run. Each state machine of one program is written twice: as a step function on values, and as a class or
method that updates the same fields in place and is proved to take exactly that step. The lease protocol, whose state
is shared between processes, is a step function only. The theorems are
about the step functions, and so hold of the classes and methods.

* **Owned process tree.** The four closure loops over parent links compute the same least closure
  (`ProcessLineage`). The ledger of owned instances is characterised frame by frame and over whole runs
  (`OwnershipLedger`, `LedgerSafety`, `LedgerOutcomes`). The filtered macOS scan cannot be told apart from the full scan in any
  run (`MacosScan`). The Linux launch loop hands over only what belongs to its own launch, and waits,
  succeeds and refuses exactly by the frames it was shown (`LinuxLaunch`, `LaunchDecisions`).
* **Local Host Runtime lease.** Any number of lock-using Shims run against an operating system that starts,
  kills, reparents and reuses processes between any two steps (`LeaseProtocol`, `LeaseSafety`, `LeaseReuse`). No owner
  is signalled or removed without a reason found in that very takeover, and a live owner keeps its record
  (`LeaseDecisions`, `LeaseSteps`, `LeaseOutcomes`). The owner record text is read back exactly (`OwnerRecords`, `Decimals`).
* **Renderer bridge.** The bridge output stream (`BridgeStream`), server-request ids (`ServerRequests`), thread
  ownership and routing (`ThreadOwnership`, `ThreadReports`), one policy per native connection (`HostRouting`,
  `HostRoutingSafety`, `HostRoutingRuns`, `HostRoutingAnswers`) and replies kept for a retired client (`ResponseRetention`).
* **Graph and text algorithms.** The search for committed React ancestors (`ReactAncestors`), Windows command
  lines and environment blocks (`WindowsCommandLine`, `EnvironmentBlock`) and proxy normalization (`ProxyLists`, `ProxyTokens`,
  `ProxyEnvironment`, `ProxyExceptions`, `ProxyFixedPoint`).
* **Supervision and activity.** The Unix supervision loop (`Supervision`, `SupervisionCalls`) and the accounting of native session
  records (`SessionActivity`).

`Processes`, `Sequences`, `TextLines` and `Options` hold shared definitions. `dafny verify dfyconfig.toml` checks everything.

Outside calls are inputs of the model: process enumerations, executable paths, clock readings, results of
operating-system calls, decoded text, native registries, and the order in which callbacks and microtasks run.

Results that differ from what a reader might expect:

* Force-killing the process group of a recorded child compares start times with `>=`, so a later process of that
  group that reused the child's PID is a target too. `LeaseReuse.ChildSignalsHitRecordedChild` gives the exact
  condition over runs and `LeaseReuse.ReusedChildCanBeTargeted` a run.
* How bridge output is cut into chunks is irrelevant if and only if no complete line follows a bad one
  (`BridgeStream.ChunkingIrrelevantExactly`). A bad line ends the round, and the rest waits for the next chunk.
* A retained reply can be delivered twice when the native client completes later than its result handler
  (`ResponseRetention.LateCompletionDeliversTwice`; `ResponseRetention.SecondDeliveryExactly` says exactly when).
* Two hosts that share one native bridge leave the wrapper of a disposed policy behind
  (`HostRoutingRuns.SharedBridgeKeepsDisposedWrapper`; `HostRoutingRuns.DisposalRestoresExactly` says exactly when).
* A system proxy exception that contains a comma makes the first normalization unstable; the second never is
  (`ProxyFixedPoint.CommaExceptionMoves`, `ProxyFixedPoint.TwiceNormalizedIsStable`).

## Model

| member | source | states |
|---|---|---|
| `ProcessLineage.DescendantSnapshots` | crates/platform/src/process.rs:198-217 | the repeat-until-unchanged loop terminates, cycles included, and returns the closure, in adoption order |
| `ProcessLineage.DescendantsExact` | crates/platform/src/process.rs:198-217 | the closure lists every non-root PID reachable from the roots by parent links, each PID once, and nothing else |
| `ProcessLineage.DescendantsMembership` | crates/platform/src/process.rs:198-217 | in a frame with unique PIDs a process is listed if and only if it is reachable and not a root |
| `ProcessLineage.RemoteDescendants` | crates/shim/src/remote_lifecycle.rs:314-331 | the second implementation returns its root followed by the very same closure |
| `ProcessLineage.WindowsOwnedIds` | crates/platform/src/process.rs:726-737 | the Windows loop collects the root first and then exactly the reachable PIDs, without duplicates |
| `OwnershipLedger.ObservedProcessTree.constructor` | crates/platform/src/process.rs:308-328 | a new tree knows the root instance, adding it only when no given entry is that instance |
| `OwnershipLedger.ObservedProcessTree.FollowingRootExec` | crates/platform/src/process.rs:284-293 | a tree that follows its root knows exactly the root, and has its group only when the root leads it |
| `OwnershipLedger.ObservedProcessTree.CheckRoot` | crates/platform/src/process.rs:351-371 | a reused root PID or a forbidden exec is an error that leaves the root alone; a followed exec changes only its executable |
| `OwnershipLedger.ObservedProcessTree.RefreshKnown` | crates/platform/src/process.rs:378-391 | the in-place pass that forgets exited and replaced instances and keeps the root entry |
| `OwnershipLedger.ObservedProcessTree.AdoptObserved` | crates/platform/src/process.rs:433-437 | the in-place pass that adds observed processes, first entry per PID winning |
| `OwnershipLedger.ObservedProcessTree.ObserveSnapshots` | crates/platform/src/process.rs:347-448 | one observation in place, its early error returns and the state they leave behind included, is one step of the ledger |
| `OwnershipLedger.ObservedProcessTree.Escaped` | crates/platform/src/process.rs:473-485 | asking for escaped processes is an observation followed by removal of the root and its current descendants |
| `LedgerSafety.NewLedgerIsValid` | crates/platform/src/process.rs:308-328 | construction gives one entry per PID with the root instance among them |
| `LedgerSafety.RefreshExact` | crates/platform/src/process.rs:378-391 | after the refresh the known PIDs are the root PID, if recorded, and those whose recorded instance is still in the frame, once each, every entry but the root being the frame's own snapshot of a known instance |
| `LedgerSafety.ObserveKeepsLedgerValid` | crates/platform/src/process.rs:347-448 | every observation, refused or not, keeps one entry per PID and the root instance, and changes nothing but the root's executable and the known list |
| `LedgerSafety.ObserveReturnsExactlyTheOwned` | crates/platform/src/process.rs:347-448 | a successful observation returns, once each, exactly the processes that were owned as the same instance, are in the owned lineage of this frame, or (macOS only) are late group members |
| `LedgerSafety.LinuxRefusesExactlyForeignMembers` | crates/platform/src/process.rs:414-431 | on Linux the frame is refused if and only if some late group member is neither an owned instance nor in the owned lineage, so group membership alone never grants ownership |
| `LedgerSafety.ObserveFailsExactly` | crates/platform/src/process.rs:347-431 | an observation fails if and only if the root's PID shows another instance, a fixed root shows another executable, or (Linux) a late group member is not owned |
| `LedgerSafety.FollowedExecIsNotRefused` | crates/platform/src/process.rs:289-293 | a tree that follows its root is refused for its root if and only if the PID was reused, never for an exec |
| `LedgerSafety.EscapedExact` | crates/platform/src/process.rs:473-485 | the escaped processes are exactly the owned ones that the root no longer reaches |
| `LedgerSafety.LedgerStaysValid` | crates/platform/src/process.rs:347-448 | over any run of frames the root instance stays the same and is never lost |
| `LedgerSafety.OwnershipHasProvenance` | crates/platform/src/process.rs:347-448 | over any run every owned instance other than the root was adopted at some frame by lineage (or, on macOS, by group) and was present in every accepted frame since, so a reused PID is never owned by its history |
| `LedgerOutcomes.NewLedgersAreExact` | crates/platform/src/process.rs:283-328 | what a new tree holds: group members count from the root's start unless a time is given, and the group is the root's own only when the root leads it |
| `LedgerOutcomes.RootEntryIsCurrent` | crates/platform/src/process.rs:378-391 | the known entry of the root's PID becomes what the frame shows, if anything |
| `LedgerOutcomes.ErrorsAreExact` | crates/platform/src/process.rs:347-431 | which error an observation ends with, from PIDs, start times and executables; a root error leaves the ledger as it was, and the first foreign group member of the frame is reported after the refresh and before any adoption |
| `LedgerOutcomes.RootIsFollowed` | crates/platform/src/process.rs:351-371 | after an accepted frame the root's executable is the one that frame shows |
| `LedgerOutcomes.DescendantsFollowTheirParents` | crates/platform/src/process.rs:198-217 | every listed descendant comes after its parent, unless the parent is a root |
| `MacosScan.GrowCandidates` | crates/platform/src/macos_process_observation.rs:61-86 | the candidate loop terminates with exactly the ids reachable from the seeds, through unreadable processes too |
| `MacosScan.ResolveTreeCandidates` | crates/platform/src/macos_process_observation.rs:51-104 | the filtered scan is the readable scan restricted to the candidates, and paths are read for candidates only |
| `MacosScan.CandidatesAreConnected` | crates/platform/src/macos_process_observation.rs:51-86 | the candidates are exactly the processes that parent links connect to the root, a known process or a late group member |
| `MacosScan.ObserveKept` | crates/platform/src/process.rs:347-448 | observing any restriction that keeps the root, the known PIDs, the late group members and is closed under parent links gives the same ledger and result |
| `MacosScan.FilteredScanRefinesFullScan` | crates/platform/src/macos_process_observation.rs:51-104 | one frame: the filtered scan gives the same ledger, the same processes in the same order and the same error as all readable processes |
| `MacosScan.FilteredRunRefinesFullRun` | crates/platform/src/macos_process_observation.rs:51-104 | every run, from every ledger, root policy, known set, group and set of unreadable paths: same results and same ledger at every frame |
| `MacosScan.ObserveFrame` | crates/platform/src/process.rs:334-345 | the macOS observation in place equals an observation of everything readable |
| `LinuxLaunch.DesktopRootsExact` | crates/platform/src/process.rs:220-255 | on every frame, cycles included, the Desktop roots are exactly the processes of the executable whose parent is not one and that are below no such process |
| `LinuxLaunch.DesktopRootsWithoutCycles` | crates/platform/src/process.rs:220-255 | on frames without cycles they are exactly the processes of the executable without an ancestor of the same executable |
| `LinuxLaunch.RememberProcesses` | crates/platform/src/desktop_launch.rs:474-482 | the in-place update of the remembered list |
| `LinuxLaunch.RememberExact` | crates/platform/src/desktop_launch.rs:474-482 | the latest snapshot of every PID wins, other entries stay, and PIDs stay unique |
| `LinuxLaunch.TakeTurn` | crates/platform/src/desktop_launch.rs:772-862 | one iteration of the launch loop with all of its refusals is one turn of the launch; LaunchDecisions.FramesDecide says which turn waits, succeeds or refuses |
| `LinuxLaunch.LaunchLoop` | crates/platform/src/desktop_launch.rs:772-862 | the loop ends with the first decision and reports it |
| `LinuxLaunch.LaunchStaysAttributed` | crates/platform/src/desktop_launch.rs:772-862 | after any number of turns everything remembered is the launcher instance or was seen below the live launcher |
| `LinuxLaunch.SessionOwnsOnlyItsLaunch` | crates/platform/src/desktop_launch.rs:509-563 | a session is created only for a frame whose Desktop roots are one process in the launcher's group, not older than it, that is the launcher or was seen below it; its initial ledger is valid and holds only such instances |
| `LaunchDecisions.ManagedIsOurs` | crates/platform/src/desktop_launch.rs:509-526 | a root is claimed if and only if it is in the launcher's group, not older than it, and the launcher instance or the instance last seen below the live launcher under its PID |
| `LaunchDecisions.FramesDecide` | crates/platform/src/desktop_launch.rs:772-862 | a waiting launch decides by the next frame, each outcome with its own if-and-only-if: failed enumeration, reused launcher PID, launcher gone without a trace, two roots of its own, a root not its own, no root and no time left, no root and time left (it waits), exactly one root of its own (it takes the session) |
| `LaunchDecisions.WaitsExactly` | crates/platform/src/desktop_launch.rs:772-862 | after any number of turns a launch still waits if and only if every frame so far could be looked at, had no Desktop root and left time |
| `LaunchDecisions.SeenAreRemembered` | crates/platform/src/desktop_launch.rs:795-819 | of what was seen below the launcher exactly the latest snapshot under every PID is remembered for the session or the cleanup |
| `OwnerRecords.DecodeOfEncode` | crates/shim/src/local_runtime_lease.rs:66-115 | reading a written record gives that very exact record if and only if child id and child start are both present or both absent; otherwise the text is rejected |
| `OwnerRecords.ReleasedDecodeOfEncode` | crates/shim/src/local_runtime_lease.rs:779-793 | the released version-one decoder reads the same text as the projection of the record |
| `OwnerRecords.DecodersAgreeOnReleasedText` | crates/shim/src/local_runtime_lease.rs:66-115 | on version-one text without a start time the new decoder reads exactly what the released one reads |
| `OwnerRecords.DecodesExactly` | crates/shim/src/local_runtime_lease.rs:80-115 | which texts are exact records, versions 1 and 2, which are released ones, and that nothing else is read |
| `Decimals.ParseDecimal` | crates/shim/src/local_runtime_lease.rs:80-115 | a number within the width parses back from its decimal text |
| `Decimals.DecimalTextIsRead` | crates/shim/src/local_runtime_lease.rs:80-115 | decimal text parses if and only if its number is within the width, with or without a plus sign or leading zero |
| `LeaseSafety.InitEstablishesInv` | crates/shim/src/local_runtime_lease.rs:164-190 | the invariant holds before any Shim runs, whatever directory was left behind, as long as the start times in a readable record lie in the past |
| `LeaseSafety.NextKeepsInv` | crates/shim/src/local_runtime_lease.rs:164-323 | every step of every Shim and every process event keeps it: one lock holder, what each phase has established about directory and processes, retired owners dead |
| `LeaseSafety.RunKeepsInv` | crates/shim/src/local_runtime_lease.rs:164-323 | the invariant holds at every point of every interleaving, crashes and PID reuse included |
| `LeaseSafety.OthersStayOk` | crates/shim/src/local_runtime_lease.rs:164-170 | a step of one Shim disturbs nothing that another Shim has established, because it holds the lock if it changed the directory |
| `LeaseSafety.EnvironmentKeepsShimOk` | crates/shim/src/local_runtime_lease.rs:589-607 | processes that start, exit, are reparented, regrouped or exec disturb nothing that a Shim has established |
| `LeaseSafety.DirectoryChangesAreExact` | crates/shim/src/local_runtime_lease.rs:164-323 | the owner directory changes only by a step of the lock holder: created empty, filled with the creator's record, completed with a live child, or removed (perhaps only in part) after that record compared equal |
| `LeaseSafety.UnpublishedLeaseIsExclusive` | crates/shim/src/local_runtime_lease.rs:189-299 | from creation to publication the live creator holds the lock and the directory holds its own record, so its comparison before publication succeeds and no other live Shim is in its critical section |
| `LeaseSafety.DeadStaysDead` | crates/shim/src/local_runtime_lease.rs:734-756 | an instance that was seen dead is dead for the rest of the run |
| `LeaseSafety.TakeoverIsCarriedThrough` | crates/shim/src/local_runtime_lease.rs:246-279 | once a takeover has begun to stop an owner it retires that owner stopped, ends, or is still under way; LeaseDecisions says when it may begin |
| `LeaseSafety.NewLeaseFollowsStoppedOwner` | crates/shim/src/local_runtime_lease.rs:226-279 | a Shim that met an exact record whose Shim was valid, missing or reused and later holds a record of its own leaves the recorded Shim and the recorded child dead |
| `LeaseSafety.SignalsHitTheirTarget` | crates/platform/src/process.rs:487-535 | in every run the process that is signalled is the targeted instance: the recorded Shim, or one not older than the recorded child |
| `LeaseReuse.ScanTargetsRecordedChild` | crates/platform/src/process_termination.rs:49-85 | a group scan targets the child's PID only as the recorded child if and only if the PID was not reused inside the group |
| `LeaseReuse.ChildTargetsAreRecordedExactly` | crates/platform/src/process_termination.rs:49-85 | the same if and only if for every target still pending at any point of any run, from right after the scan on |
| `LeaseReuse.ReusedChildCanBeTargeted` | crates/platform/src/process_termination.rs:59-85 | a run of the protocol that ends with a live Shim about to signal another process at the recorded child's PID, reused between the re-read and the scan |
| `LeaseReuse.ChildSignalsHitRecordedChild` | crates/shim/src/local_runtime_lease.rs:691-732 | in every run the process signalled at the recorded child's PID is the recorded child if and only if the latest scan of that takeover did not meet the PID reused inside the child's group |
| `LeaseDecisions.TakeoversAreWarranted` | crates/shim/src/local_runtime_lease.rs:236-279 | in every run each phase of a takeover rests on findings about the owner made by steps of that very takeover, read off the worlds those steps met |
| `LeaseDecisions.SignalsAreWarranted` | crates/shim/src/local_runtime_lease.rs:246-276 | in every run a live Shim is told to stop only after it was found valid and its Desktop was the contender's, PID 1 or not live; force follows only an expired grace period; the child of a missing or reused Shim is stopped at once |
| `LeaseDecisions.RemovalsAreWarranted` | crates/shim/src/local_runtime_lease.rs:246-279 | in every run a record is removed only after its Shim was found gone, foreign, or valid and not another live Desktop's |
| `LeaseDecisions.OtherDesktopsOwnerIsLeftAlone` | crates/shim/src/local_runtime_lease.rs:269-276 | while an owner's Shim is live and a Shim and its Desktop is another live one, the contender never gets to signal it, await it or remove its record |
| `LeaseSteps.DesktopDecides` | crates/shim/src/local_runtime_lease.rs:661-674 | another live Desktop's owner ends the attempt with the lock free and the directory and all processes as they were; any other Desktop lets the takeover go on |
| `LeaseSteps.JudgeDecides` | crates/shim/src/local_runtime_lease.rs:589-607 | a missing or reused Shim, a foreign executable and a valid Shim lead to the three different continuations |
| `LeaseSteps.WaitDecides` | crates/shim/src/local_runtime_lease.rs:691-756 | waiting ends when Shim and child are gone; an expired graceful wait is followed by force, an expired forced one by giving up |
| `LeaseSteps.GroupDecides` | crates/platform/src/process_termination.rs:59-85 | a scan lists exactly the live processes of the child's group that are not older than the child |
| `LeaseSteps.ReadDecides` | crates/shim/src/local_runtime_lease.rs:222-239 | a readable record is judged unless it names the reader's own PID, and an unreadable one is discarded only after its grace period |
| `LeaseSteps.PublishDecides` | crates/shim/src/local_runtime_lease.rs:282-299 | publication stores the instance that runs under the child's PID and frees the lock |
| `LeaseSteps.EndsExactly` | crates/shim/src/local_runtime_lease.rs:164-323 | a step ends an attempt or a lease if and only if it is one of the listed ways to end, and a Shim that has ended takes no further step |
| `LeaseOutcomes.EndedStaysEnded` | crates/shim/src/local_runtime_lease.rs:164-323 | over any run an ended attempt stays ended and its Shim takes no step |
| `LeaseOutcomes.DesktopIsTheParent` | crates/shim/src/local_runtime_lease.rs:170-187 | in every run the Desktop a Shim records and compares with is its parent, not 0, at the step that took the lock |
| `LeaseOutcomes.LiveOwnerKeepsItsRecord` | crates/shim/src/local_runtime_lease.rs:164-323 | from its publication on the directory holds the record of a Shim for as long as it lives, is a Shim and has not given its lease up, whatever everybody else does |
| `LeaseOutcomes.StagesSignalEveryTarget` | crates/platform/src/process_termination.rs:64-85 | a stage that is left for the next one has signalled each of its targets, or found its PID free when it came to it |
| `BridgeStream.OutputBuffer.ConsumeOutput` | packages/desktop-control/src/renderer-draft-prewarm-runtime.ts:247-270 | the splitting loop on the buffer delivers the frames of one round and leaves its remainder, and reports failure if and only if a complete line is bad |
| `BridgeStream.SplitConcat` | packages/desktop-control/src/renderer-draft-prewarm-runtime.ts:255-260 | splitting a concatenation is splitting its first part and going on with the unfinished line |
| `BridgeStream.FramesDependOnTextOnly` | packages/desktop-control/src/renderer-draft-prewarm-runtime.ts:247-270 | when no complete line is bad the frames and the leftover are those of the whole text, for every way of chunking it |
| `BridgeStream.ChunkingIrrelevantExactly` | packages/desktop-control/src/renderer-draft-prewarm-runtime.ts:247-270 | chunking is irrelevant if and only if no complete line follows a bad one |
| `BridgeStream.ChunkingCanMatter` | packages/desktop-control/src/renderer-draft-prewarm-runtime.ts:262-269 | a text with a bad line before a good one for which two chunkings differ |
| `ServerRequests.OuterIdIsInjective` | packages/desktop-control/src/renderer-draft-prewarm-runtime.ts:228 | outer ids determine the process handle and the ordinal, slashes in handles included |
| `ServerRequests.ServerRequestMap.ForwardRequest` | packages/desktop-control/src/renderer-draft-prewarm-runtime.ts:227-233 | forwarding in place issues the next outer id and remembers the inner one |
| `ServerRequests.ServerRequestMap.DispatchResponse` | packages/desktop-control/src/renderer-draft-prewarm-runtime.ts:609-625 | dispatching in place answers, swallows or passes on, and forgets what it answered |
| `ServerRequests.ServerRequestMap.DisposeBridge` | packages/desktop-control/src/renderer-draft-prewarm-runtime.ts:700-700 | disposal in place forgets all requests |
| `ServerRequests.ServerRequestMap.ResetFailedBridge` | packages/desktop-control/src/renderer-draft-prewarm-runtime.ts:140-154 | a reset in place forgets all requests and starts counting again under a new handle |
| `ServerRequests.RequestsAreAnsweredAtMostOnce` | packages/desktop-control/src/renderer-draft-prewarm-runtime.ts:227-233 | over a whole run with fresh handles, resets included, outer ids never repeat, each answer carries the inner id its outer id was issued for since the last reset, and no request is answered twice |
| `ServerRequests.StaleIdsAreSwallowed` | packages/desktop-control/src/renderer-draft-prewarm-runtime.ts:609-625 | a response is answered if and only if its request is outstanding, swallowed if and only if it has the bridge prefix and is not, and left to the stock dispatcher if and only if it lacks the prefix |
| `ServerRequests.RequestsAreNumbered` | packages/desktop-control/src/renderer-draft-prewarm-runtime.ts:227-233 | requests are numbered from 1 under the handle of the latest reset, and a disposal does not start over |
| `ThreadOwnership.ThreadRouter.ResolveThreadOwnership` | packages/desktop-control/src/renderer-draft-prewarm-runtime.ts:421-462 | a lookup in flight for the thread is shared, otherwise one is started |
| `ThreadOwnership.ThreadRouter.RoutedSend` | packages/desktop-control/src/renderer-draft-prewarm-runtime.ts:501-538 | a send in place goes direct, over the bridge, or is parked on the lookup of its thread |
| `ThreadOwnership.ThreadRouter.SettleLookup` | packages/desktop-control/src/renderer-draft-prewarm-runtime.ts:432-453 | a resolved lookup moves its thread into the set of its owner and out of the other; a rejected one moves nothing (what the sets mean is ThreadReports.OwnershipIsTheLatestReport) |
| `ThreadOwnership.ThreadRouter.ContinueSend` | packages/desktop-control/src/renderer-draft-prewarm-runtime.ts:512-536 | a parked send continues by the outcome of its lookup, with the one recovery path |
| `ThreadOwnership.ThreadRouter.ClearResolution` | packages/desktop-control/src/renderer-draft-prewarm-runtime.ts:455-461 | a settled lookup is forgotten only if it is still the registered one |
| `ThreadOwnership.ThreadRouter.RememberExternal` | packages/desktop-control/src/renderer-draft-prewarm-runtime.ts:155-161 | a result or notification moves its thread to the external set |
| `ThreadOwnership.ThreadRouter.RememberOfficial` | packages/desktop-control/src/renderer-draft-prewarm-runtime.ts:527-531 | a successful recovery moves its thread to the official set |
| `ThreadOwnership.ThreadRouter.ObserveInspection` | packages/desktop-control/src/renderer-draft-prewarm-runtime.ts:179-192 | an inspection moves its thread to the set it reports |
| `ThreadOwnership.ThreadRouter.ForgetThread` | packages/desktop-control/src/renderer-draft-prewarm-runtime.ts:193-200 | a deleted thread leaves both sets |
| `ThreadOwnership.ThreadRouter.SelectModel` | packages/desktop-control/src/renderer-draft-prewarm-runtime.ts:653-664 | selecting a model changes nothing but that choice |
| `ThreadOwnership.ThreadRouter.DisposeRouter` | packages/desktop-control/src/renderer-draft-prewarm-runtime.ts:701-704 | disposal clears all ownership knowledge |
| `ThreadOwnership.RunKeepsInv` | packages/desktop-control/src/renderer-draft-prewarm-runtime.ts:155-201 | in every interleaving of sends, results, notifications, failures and disposal each parked send waits for a lookup of the very thread it names |
| `ThreadOwnership.OwnershipIsConsistent` | packages/desktop-control/src/renderer-draft-prewarm-runtime.ts:421-462 | over every run no thread is both external and official, and until disposal no thread has two lookups in flight |
| `ThreadOwnership.ImmediateRouteIsByOwnership` | packages/desktop-control/src/renderer-draft-prewarm-runtime.ts:463-494 | a request naming a thread is direct if and only if the thread is known official, bridged if and only if known external, and parked on a lookup of that thread otherwise |
| `ThreadOwnership.DirectRoutesAreJustified` | packages/desktop-control/src/renderer-draft-prewarm-runtime.ts:501-538 | in every run such a request goes direct only if its thread is known official at that moment, or it was parked and the very lookup it was parked on, one of its thread, resolved to codex or, for a read or resume, failed with the spawn error |
| `ThreadReports.OwnershipIsTheLatestReport` | packages/desktop-control/src/renderer-draft-prewarm-runtime.ts:432-453 | over every run a thread is known as external (official) if and only if the latest event that reports or forgets it reports external (codex): resolved lookups of it, results, notifications, inspections, recoveries, deletion, disposal |
| `ThreadReports.LookupsAskWhatSendsName` | packages/desktop-control/src/renderer-draft-prewarm-runtime.ts:421-462 | every lookup asks about the thread named by the send that started it |
| `ThreadReports.ResolutionsAnswer` | packages/desktop-control/src/renderer-draft-prewarm-runtime.ts:421-462 | the registered lookup of a thread is the one started for it that was neither forgotten nor disposed of |
| `ThreadReports.ModelIsTheLatestChoice` | packages/desktop-control/src/renderer-draft-prewarm-runtime.ts:653-664 | a model is chosen if and only if the latest choice since disposal chose one |
| `ThreadReports.SendsAreRouted` | packages/desktop-control/src/renderer-draft-prewarm-runtime.ts:463-538 | the whole route table over runs: which sends wait, on which lookup and when one is started, which go over the bridge and which go direct, from the reports and the request alone |
| `ThreadReports.ParkedSendsFollowTheirLookup` | packages/desktop-control/src/renderer-draft-prewarm-runtime.ts:512-536 | a parked send goes direct if and only if its own lookup resolved to codex, or failed with the spawn error and it is a read or resume; over the bridge if and only if it resolved to external; and fails otherwise |
| `HostRouting.HostRouter.DisposeRoutePolicy` | packages/desktop-control/src/renderer-draft-prewarm-runtime.ts:671-687 | disposal happens once and puts each of the four wrapped members back only while the policy's wrapper is the installed one |
| `HostRouting.HostRouter.RetireHost` | packages/desktop-control/src/renderer-host-routing.ts:75-79 | a retired host loses its entry and its policy is disposed |
| `HostRouting.HostRouter.RouteForHost` | packages/desktop-control/src/renderer-host-routing.ts:80-119 | the cache lookup in place: reuse, or retire, wrap the native members and create |
| `HostRouting.HostRouter.ForHost` | packages/desktop-control/src/renderer-host-routing.ts:146-148 | no host gives no route; otherwise the cache answers |
| `HostRouting.HostRouter.ForComposer` | packages/desktop-control/src/renderer-host-routing.ts:157-183 | the composer's route in place: a sweep only for the page's own composer, then the cache lookup of the active host; HostRoutingAnswers.ComposersAreAnswered says which route that is |
| `HostRouting.HostRouter.RetireStaleHosts` | packages/desktop-control/src/renderer-host-routing.ts:168-178 | the in-place sweep over the map in its own order |
| `HostRouting.HostRouter.DisposeRouting` | packages/desktop-control/src/renderer-host-routing.ts:184-195 | disposal happens once and retires every route in the order of the map |
| `HostRoutingSafety.RouteKeepsInv` | packages/desktop-control/src/renderer-host-routing.ts:80-119 | looking a route up keeps entries and policies in step, and every undisposed policy the route of its host |
| `HostRoutingSafety.RouteIsCorrect` | packages/desktop-control/src/renderer-host-routing.ts:80-119 | a route comes back if and only if native resolution yields a manager, for that manager, bridge and prewarm owner, with a live policy; otherwise the host has no route left |
| `HostRoutingSafety.RouteIsStable` | packages/desktop-control/src/renderer-host-routing.ts:80-119 | asking again changes nothing, and other hosts keep their routes |
| `HostRoutingSafety.RetireStaleIsExact` | packages/desktop-control/src/renderer-host-routing.ts:168-178 | the sweep over the whole map removes exactly the routes whose native owner was replaced or disconnected, and changes no other |
| `HostRoutingSafety.OrderListsRoutes` | packages/desktop-control/src/renderer-host-routing.ts:42-49 | the iteration order lists the hosts of the map and nothing else |
| `HostRoutingSafety.DisposalIsExact` | packages/desktop-control/src/renderer-host-routing.ts:184-195 | disposal leaves no route and no live policy, and a wrapped member is native again if and only if it was native or exactly one live wrapper sat on the native one |
| `HostRoutingAnswers.HostsAreAnswered` | packages/desktop-control/src/renderer-host-routing.ts:80-119 | a host has a route if and only if the routing is not disposed and its manager resolves; the route serves that manager, bridge and prewarm owner with a live policy, is new exactly when the old entry does not, and other hosts keep theirs |
| `HostRoutingAnswers.NewRoutesWrap` | packages/desktop-control/src/renderer-draft-prewarm-runtime.ts:585-627 | a new route wraps send, prewarm and dispatch, and notifications unless the host is remote on a page with window messages, and nothing else |
| `HostRoutingAnswers.ComposersAreAnswered` | packages/desktop-control/src/renderer-host-routing.ts:157-183 | a composer has a route if and only if the routing is not disposed, discovery succeeded, a host is active and it resolves; that route is live and up to date; every other host keeps its entry, except that the page's own composer retires exactly the outdated ones |
| `HostRoutingRuns.PoliciesAreAccountedFor` | packages/desktop-control/src/renderer-host-routing.ts:75-119 | in every run each policy ever created is disposed or is the route of its host |
| `HostRoutingRuns.WrappersNeverNest` | packages/desktop-control/src/renderer-draft-prewarm-runtime.ts:585-586 | while each native member belongs to one host, every one of them is its own or one wrapper over it, that of its one live policy |
| `HostRoutingRuns.DisposedRoutingIsFrozen` | packages/desktop-control/src/renderer-host-routing.ts:184-195 | a disposed routing was disposed at one point of its run and nothing has changed since |
| `HostRoutingRuns.DisposalRestoresExactly` | packages/desktop-control/src/renderer-draft-prewarm-runtime.ts:671-687 | at every later point of every run, sharing or not, a member is native again if and only if, when disposal began, it was native or exactly one live wrapper sat on the native one |
| `HostRoutingRuns.DisposeRestoresNativeSends` | packages/desktop-control/src/renderer-host-routing.ts:184-195 | under the same condition, at every later point of the run no policy is alive and every native member is its own again |
| `HostRoutingRuns.SharedBridgeKeepsDisposedWrapper` | packages/desktop-control/src/renderer-draft-prewarm-runtime.ts:671-687 | two hosts on one bridge: a run that ends with a disposed wrapper installed |
| `ResponseRetention.ResponseRetainer.Receive` | packages/desktop-control/src/renderer-host-response-ownership.ts:38-64 | a window message queues a reply only if it is trusted, well formed, for this host and for a pending id |
| `ResponseRetention.ResponseRetainer.Lifecycle` | packages/desktop-control/src/renderer-host-response-ownership.ts:66-81 | lifecycle events add own starts before retirement, remove finished ids, and detach when the last one goes |
| `ResponseRetention.ResponseRetainer.RunMicrotask` | packages/desktop-control/src/renderer-host-response-ownership.ts:59-63 | a microtask delivers only if the id is still pending |
| `ResponseRetention.ResponseRetainer.RetireClient` | packages/desktop-control/src/renderer-host-response-ownership.ts:82-86 | retirement detaches at once only when nothing is pending |
| `ResponseRetention.ListenersFollowOutstanding` | packages/desktop-control/src/renderer-host-response-ownership.ts:31-86 | in every interleaving the retained ids are exactly the requests started by this client before retirement and not finished since, and the listeners are off if and only if it is retired with none of them left |
| `ResponseRetention.QueuesExactly` | packages/desktop-control/src/renderer-host-response-ownership.ts:38-64 | a reply is queued if and only if a response for this host, from the page itself or from nobody in particular and with a matching origin, carries it as error or result while a codexhost request with its id is open; the queue is worked off oldest first |
| `ResponseRetention.DeliversExactlyOutstanding` | packages/desktop-control/src/renderer-host-response-ownership.ts:38-64 | a reply is delivered if and only if a microtask runs while its request is outstanding, and it came from a trusted message that arrived while that request was outstanding |
| `ResponseRetention.SecondDeliveryExactly` | packages/desktop-control/src/renderer-host-response-ownership.ts:56-63 | once a reply was delivered, a further queued reply for the same id is delivered too if and only if completion was not reported in between or the id was started anew |
| `ResponseRetention.DeliversAtMostOnce` | packages/desktop-control/src/renderer-host-response-ownership.ts:56-63 | with fresh ids and a client that completes synchronously no request is answered twice |
| `ResponseRetention.LateCompletionDeliversTwice` | packages/desktop-control/src/renderer-host-response-ownership.ts:59-63 | without synchronous completion two copies of one reply are both delivered |
| `ReactAncestors.WalkReturns` | packages/desktop-control/src/renderer-react-ownership.ts:16-22 | the return walk terminates on any pointer graph; it gives the complete, duplicate-free chain, or gives up only if no complete chain fits the visit bound |
| `ReactAncestors.SearchPublished` | packages/desktop-control/src/renderer-react-ownership.ts:34-53 | the explicit-stack loop terminates within the visit bound and computes the search |
| `ReactAncestors.CommittedReactAncestors` | packages/desktop-control/src/renderer-react-ownership.ts:7-54 | for every complete chain: nothing past the visit bound, the chain when no root is published, nothing when the root has no tree; in a published tree a parent path of the fiber or its alternate, on a finite one that of the preorder-first match, or nothing; and nothing without a complete chain |
| `ReactAncestors.CompleteChainIsUnique` | packages/desktop-control/src/renderer-react-ownership.ts:18-22 | a fiber has at most one complete return chain |
| `ReactAncestors.PublishedPathIsCommitted` | packages/desktop-control/src/renderer-react-ownership.ts:34-53 | on any pointer graph a non-empty answer is a duplicate-free parent path of child links from the fiber or its alternate to the current root |
| `ReactAncestors.PublishedTreeIsSearchedInPreorder` | packages/desktop-control/src/renderer-react-ownership.ts:34-53 | on a finite published tree the answer is the path of the preorder-first match when that is within the visit bound and no node repeats before it, and nothing otherwise |
| `ReactAncestors.PreorderPathsAreParentPaths` | packages/desktop-control/src/renderer-react-ownership.ts:48-51 | every path the preorder search can answer is the parent path of its node |
| `WindowsCommandLine.QuoteArgument` | crates/platform/src/windows_desktop.rs:236-261 | the backslash-counting loop computes the quoted form of the argument |
| `WindowsCommandLine.CommandLine` | crates/platform/src/windows_desktop.rs:236-269 | arguments are quoted one by one and joined by single spaces |
| `WindowsCommandLine.ReadQuoted` | crates/platform/src/windows_desktop.rs:236-261 | reading a quoted argument by the documented rules gives the argument and stops at the separator after it |
| `WindowsCommandLine.ParseOfJoined` | crates/platform/src/windows_desktop.rs:236-269 | parsing the command line returns exactly the arguments: empty ones, embedded quotes, trailing backslashes and blanks included |
| `WindowsCommandLine.JoinedIsInjective` | crates/platform/src/windows_desktop.rs:236-269 | different argument lists never share a command line |
| `WindowsCommandLine.PlainArgumentsStayPlain` | crates/platform/src/windows_desktop.rs:236-244 | an argument is passed unquoted if and only if it is not empty and has no blank, tab or quote |
| `WindowsCommandLine.QuotingIsVerbatim` | crates/platform/src/windows_desktop.rs:236-261 | quoting adds only the two quotes to an argument without quotes and without trailing backslash |
| `EnvironmentBlock.BuildBlock` | crates/platform/src/windows_desktop.rs:271-306 | a block is built if and only if every name is non-empty without `=` and NUL and every value is without NUL, and the empty environment still ends in two NULs |
| `EnvironmentBlock.SortIsStable` | crates/platform/src/windows_desktop.rs:287-293 | sorting by folded name is an ordered permutation that keeps the order of equal names |
| `EnvironmentBlock.LexLeExact` | crates/platform/src/windows_desktop.rs:287-293 | the order is lexicographic: a prefix first, otherwise the first difference decides |
| `EnvironmentBlock.DecodeOfBlock` | crates/platform/src/windows_desktop.rs:287-305 | decoding the block gives back the environment as a stable, name-sorted permutation |
| `EnvironmentBlock.DoubleNulIsTheEnd` | crates/platform/src/windows_desktop.rs:294-305 | two NULs in a row are the end of the block and occur nowhere else |
| `Supervision.ObserveTree` | crates/shim/src/lib.rs:176-215 | the first half of a pass: reap, take a snapshot if one is due, return if all is gone |
| `Supervision.TakeGracefulAction` | crates/shim/src/lib.rs:216-231 | the graceful half of a pass; which pass acts, and how, is SupervisionCalls.CallsAreExact |
| `Supervision.WaitForChild` | crates/shim/src/lib.rs:161-238 | the polling loop over any answers and clock readings takes exactly the modelled passes and stops with the first verdict |
| `Supervision.EscalationIsOrderly` | crates/shim/src/lib.rs:216-235 | in every run with a monotone clock terminate, forward and force are each called at most once, force only after a graceful action and at least the grace period after every one before it, and the outcome's flags say which calls were made |
| `Supervision.SuccessMeansGone` | crates/shim/src/lib.rs:177-215 | success returns the root's first exit status, and the last thing the loop did was a fresh snapshot after that exit that found nothing alive |
| `Supervision.ExitedRootIsOnADeadline` | crates/shim/src/lib.rs:227-235 | an exited root with live members always has a graceful action behind it, and the loop never goes past the grace period after the latest one without having forced the tree |
| `Supervision.ShutdownSignalIsForwarded` | crates/shim/src/lib.rs:216-227 | a pending shutdown signal is forwarded within two passes unless one was forwarded before or the loop returned |
| `Supervision.SnapshotsAreThrottled` | crates/shim/src/lib.rs:149-158 | while the root lives, snapshots are at least the refresh interval apart |
| `SupervisionCalls.CallsAreExact` | crates/shim/src/lib.rs:216-235 | a running loop has made exactly the calls its answers give: terminate at the first closed input of a live root, forward the newest pending signal at the first other pass, terminate at the root's exit if neither came before, and force once at the end of the grace period after the latest of these |
| `SupervisionCalls.ClosedInputEndsTheTree` | crates/shim/src/lib.rs:216-222 | when the loop goes on after a pass that finds the Desktop input closed while the root lives, the tree has been told to terminate from that pass on |
| `SupervisionCalls.LiveRootEndsOnlyByClosedInput` | crates/shim/src/lib.rs:216-231 | while the root lives its tree has been told to terminate if and only if some pass found the input closed |
| `SupervisionCalls.VerdictIsExact` | crates/shim/src/lib.rs:176-235 | the loop returns if and only if the root has exited and nothing of its tree is alive, and fails if and only if the wait, a due snapshot, a called graceful action or the forced one fails |
| `ProxyLists.RetainFirst` | crates/platform/src/proxy_environment.rs:124-125 | the deduplication loop with its set of lowered values keeps first occurrences |
| `ProxyTokens.KeepFromGrows` | crates/platform/src/proxy_environment.rs:124-125 | the kept list is distinct up to ASCII case, covers every value, and adds only given values that were missing |
| `ProxyTokens.TokensOfJoin` | crates/platform/src/proxy_environment.rs:104-130 | reading back a joined list gives the tokens of its values in order |
| `ProxyEnvironment.AppendProxyPair` | crates/platform/src/proxy_environment.rs:143-170 | both spellings are appended together or not at all |
| `ProxyEnvironment.ProxyEnvironmentFrom` | crates/platform/src/proxy_environment.rs:70-140 | the imperative form builds the normalized list |
| `ProxyEnvironment.OutputValues` | crates/platform/src/proxy_environment.rs:70-170 | explicit values win, empty ones included; both spellings are set, to one value unless both were inherited; NO_PROXY is set if and only if a proxy is active or it was inherited; nothing else is passed |
| `ProxyExceptions.SplitIsExact` | crates/platform/src/proxy_environment.rs:104-115 | the pieces have no comma and joined by commas give the text back |
| `ProxyExceptions.TrimIsExact` | crates/platform/src/proxy_environment.rs:121-123 | trimming removes white space at both ends and nothing else |
| `ProxyExceptions.ExceptionsAreFirstOffered` | crates/platform/src/proxy_environment.rs:104-125 | the exceptions are the first occurrences, in any ASCII case and in this order, of those in NO_PROXY, those in no_proxy, the system's and the local addresses |
| `ProxyExceptions.SystemValuesByKind` | crates/platform/src/proxy_environment.rs:76-96 | a proxy inherited in neither spelling is the system's of that kind, in both spellings |
| `ProxyExceptions.ExceptionsAreSetExactly` | crates/platform/src/proxy_environment.rs:98-139 | NO_PROXY and NODE_USE_ENV_PROXY are set if and only if they were inherited or some upper-case proxy variable ends up set and not empty |
| `ProxyExceptions.OutputIsOrdered` | crates/platform/src/proxy_environment.rs:70-140 | the variables are listed in one fixed order, each once |
| `ProxyFixedPoint.NormalizationIsIdempotent` | crates/platform/src/proxy_environment.rs:70-140 | normalizing a normalized environment with the same system settings returns the identical list when no system exception has a comma |
| `ProxyFixedPoint.TwiceNormalizedIsStable` | crates/platform/src/proxy_environment.rs:70-140 | for every input and every system setting the second normalization is a fixed point |
| `ProxyFixedPoint.CommaExceptionMoves` | crates/platform/src/proxy_environment.rs:104-132 | with the system exception `,` the first normalization is not yet a fixed point |
| `SessionActivity.ActivityCounter.RecordActivity` | packages/harness-adapter/src/native-session-summary.ts:58-68 | recording a timestamp in place, out-of-order ones included |
| `SessionActivity.ActivityCounter.StartTurn` | packages/harness-adapter/src/native-session-summary.ts:71-75 | a new turn closes the previous one and counts it if it edited |
| `SessionActivity.ActivityCounter.RecordEdit` | packages/harness-adapter/src/native-session-summary.ts:78-80 | the open turn is marked as editing |
| `SessionActivity.ActiveTimeIsAccounted` | packages/harness-adapter/src/native-session-summary.ts:58-68 | first and last are minimum and maximum of all timestamps, and active time plus the over-30-minute jumps between successive running maxima is last minus the first recorded time |
| `SessionActivity.ActiveTimeWithinSpan` | packages/harness-adapter/src/native-session-summary.ts:58-68 | active time is never negative and never exceeds the span |
| `SessionActivity.EditedTurnsAreBounded` | packages/harness-adapter/src/native-session-summary.ts:71-85 | turns are the number of turn starts, closed edited turns never exceed them, and edited turns exceed them by at most one |
| `SessionActivity.EditsCountEditedStretches` | packages/harness-adapter/src/native-session-summary.ts:71-85 | edited turns are exactly the stretches between turn starts that contain an edit |
| `SessionActivity.SaveAndContinue` | packages/harness-adapter/src/native-session-summary.ts:36-55 | saved activity is accepted again if and only if all times are safe non-negative integers and the turns fit, and then continuing from it at any split gives the totals of one uninterrupted read |

## Left out

- Supervision.ExitedRootIsOnADeadline: bounds the wait from the latest graceful action, not from the root's exit, because a late shutdown signal moves the deadline once more.
- ProxyFixedPoint.NormalizationIsIdempotent: goes one way only; a list with a comma exception can read back as the same text by coincidence, as with the one exception `localhost,127.0.0.1,::1`, so no simple guard is exact.
- ResponseRetention.DeliversAtMostOnce: its two premises are about the environment and are sufficient; what decides each single repetition is exact in ResponseRetention.SecondDeliveryExactly.
- HostRoutingRuns.DisposeRestoresNativeSends: its premise is sufficient; HostRoutingRuns.DisposalRestoresExactly is the exact condition.
- LeaseSafety.InitEstablishesInv: excludes a left-behind record whose start times lie in the future, because such an instance could still start.
- The lease protocol is a state machine on values, because its state is shared between processes; each read of one process or of the record is one step, and reading an existing record does not fail.
- Lease migration from version one, the childless version-one record and the legacy mapping-store owner: released Shims ignore the lock, so exclusion does not extend to them.
- Signalling is modelled with Linux process handles; macOS signals by PID after re-reading the process, and Windows terminates by handle.
- A Shim killed between spawning its child and publishing it leaves a record without a child; nothing is claimed about such a child.
- Executable names, lossy path text and their comparison: `isShim` stands for the file-name check of an owner.
- Text that is not valid Unicode: arguments, environment values and proxy values are sequences of characters or code units.
- The rule by which Windows parses the program name as the first argument of a command line, and its treatment of two quotes inside a quoted part, which the quoted form never contains.
- Lowercasing of environment names for sorting: any folding function, so the result holds for all of them.
- The bounded tail of the bridge's error stream, which only feeds error messages.
- JSON, base64 and text decoding: a complete line is read by any function to nothing, a frame or a failure.
- Bridge start-up, its timeout, the write queue and the pending client requests of the bridge: states of one promise each.
- A late ready frame sets the bridge state to ready after failure or disposal; no claim is made that those states are absorbing.
- The check of a policy's own operations that its manager is still current, and calls on a retired policy.
- What a chosen model changes in the parameters of a thread/start beyond the route they take.
- Policy publication, the window-message listener of a policy, draft workspaces and prewarm generations.
- Host discovery itself and the retained last discovery: each call sees some native registries, which may differ from call to call.
- Disposing a policy of an earlier installation when host routing is installed, and the published event.
- The test-only observation counter and the Windows form of the supervision loop, which has no process group to wait for.
- Timestamps that are not integers, and activity saved by anything but this code.
- The updater, the attachment server, controller backoff, the pending map of the debugging connection, command-catalog merging and usage or question validation: straight-line code or simpler state.
- Installation discovery, path layout, option parsing, dialogs and file permissions.
