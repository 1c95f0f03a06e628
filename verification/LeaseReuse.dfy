/** Force-killing the process group of a recorded child, and what a reused child PID does to it. */
module LeaseReuse {
  import opened Options
  import opened OwnerRecords
  import opened LeaseProtocol
  import opened LeaseSafety

  // ----- One scan -----

  /** The child's PID was taken by a later process of the same group number before the scan. */
  predicate ReusedInGroup(w: World, child: Instance, groupId: nat) {
    child.pid in w.processes && w.processes[child.pid].groupId == groupId
    && w.processes[child.pid].startedAt > child.startedAt
  }

  /** A group scan targets the child's PID only as the recorded instance exactly when the PID has not been
      reused inside the group since the child was last seen. */
  lemma ScanTargetsRecordedChild(w: World, child: Instance, groupId: nat, members: seq<Instance>)
    requires GroupScan(w, child, groupId, members)
    ensures (forall t | t in members && t.pid == child.pid :: t == child) <==> !ReusedInGroup(w, child, groupId)
  {
    assert forall t :: t in members <==> t in GroupOf(w, child, groupId) by {
      forall t ensures t in members <==> t in GroupOf(w, child, groupId) {
        assert t in members <==> t in set m | m in members;
      }
    }
    if ReusedInGroup(w, child, groupId) {
      assert Instance(child.pid, w.processes[child.pid].startedAt) in members;
    }
  }

  /** The targets still to be signalled. */
  function PendingTargets(phase: Phase): seq<Instance> {
    if phase.Signalling? || phase.Confirming? || phase.Sending? then phase.targets else []
  }

  // ----- Whole runs -----

  /** Event `i` is the latest group scan of `s` among the first `n` events, made for this owner. */
  ghost predicate LatestScan(worlds: seq<World>, events: seq<Event>, i: nat, n: nat, s: Instance, owner: OwnerRecord) {
    && i < n <= |events| && |worlds| == |events| + 1
    && ScansGroup(events[i], s)
    && (forall k | i < k < n :: !ScansGroup(events[k], s))
    && s in worlds[i].shims
    && worlds[i].shims[s].phase.ScanningGroup? && worlds[i].shims[s].phase.owner == owner
  }

  predicate ScansGroup(event: Event, s: Instance) {
    event.Step? && event.shim == s && event.action.ScanGroup?
  }

  /** The child's PID was reused inside its group when this scan read the process table. */
  ghost predicate ScanMetReuse(worlds: seq<World>, i: nat, s: Instance, child: Instance)
    requires i < |worlds| && s in worlds[i].shims && worlds[i].shims[s].phase.ScanningGroup?
  {
    ReusedInGroup(worlds[i], child, worlds[i].shims[s].phase.groupId)
  }

  /** In every run a pending target at the recorded child's PID is the recorded child if and only if the scan
      that found it did not meet that PID reused inside the child's group. */
  lemma {:induction false} ChildTargetsAreRecordedExactly(
      worlds: seq<World>, events: seq<Event>, n: nat, s: Instance, t: Instance) returns (i: nat)
    requires Run(worlds, events) && Init(worlds[0]) && n < |worlds|
    requires s in worlds[n].shims && Alive(worlds[n], s)
    requires var phase := worlds[n].shims[s].phase;
             Stops(phase) && t in PendingTargets(phase) && phase.stage.KillChild?
             && ChildOf(phase.owner).Some? && t.pid == ChildOf(phase.owner).value.pid
    ensures var owner := worlds[n].shims[s].phase.owner;
            && LatestScan(worlds, events, i, n, s, owner)
            && (t == ChildOf(owner).value <==> !ScanMetReuse(worlds, i, s, ChildOf(owner).value))
  {
    hide Next, Act, PendingTargets, Init, Inv, Alive, ReusedInGroup, LatestScan;
    NoShimInitially(worlds[0]);
    RunKeepsInv(worlds, events, n - 1);
    RunStep(worlds, events, n - 1);
    PendingStep(worlds[n - 1], events[n - 1], worlds[n], s, t);
    if ScansGroup(events[n - 1], s) {
      i := n - 1;
    } else {
      i := ChildTargetsAreRecordedExactly(worlds, events, n - 1, s, t);
    }
    LatestScanAfter(worlds, events, i, n, s, worlds[n].shims[s].phase.owner);
  }

  lemma NoShimInitially(w: World)
    requires Init(w)
    ensures w.shims == map[]
  {
  }

  lemma RunStep(worlds: seq<World>, events: seq<Event>, n: nat)
    requires Run(worlds, events) && n < |events|
    ensures Next(worlds[n], events[n]) == Some(worlds[n + 1])
  {
  }

  lemma LatestScanAfter(worlds: seq<World>, events: seq<Event>, i: nat, n: nat, s: Instance, owner: OwnerRecord)
    requires 0 < n <= |events| && |worlds| == |events| + 1
    requires if ScansGroup(events[n - 1], s) then
               i == n - 1 && s in worlds[i].shims && worlds[i].shims[s].phase.ScanningGroup?
               && worlds[i].shims[s].phase.owner == owner
             else
               LatestScan(worlds, events, i, n - 1, s, owner)
    ensures LatestScan(worlds, events, i, n, s, owner)
  {
  }

  /** A pending target comes from this very scan, or it was pending before. */
  lemma PendingStep(w: World, event: Event, w': World, s: Instance, t: Instance)
    requires Inv(w) && Next(w, event) == Some(w')
    requires s in w'.shims && Alive(w', s)
    requires var phase := w'.shims[s].phase;
             Stops(phase) && t in PendingTargets(phase) && phase.stage.KillChild?
             && ChildOf(phase.owner).Some? && t.pid == ChildOf(phase.owner).value.pid
    ensures s in w.shims && Alive(w, s)
    ensures var before, owner := w.shims[s].phase, w'.shims[s].phase.owner;
            if ScansGroup(event, s) then
              && before.ScanningGroup? && before.owner == owner
              && (t == ChildOf(owner).value <==> !ReusedInGroup(w, ChildOf(owner).value, before.groupId))
            else
              Stops(before) && t in PendingTargets(before) && before.stage.KillChild? && before.owner == owner
  {
    hide Act, PendingTargets, Stops;
    if event.Step? && event.shim == s && w.shims[s].phase.ScanningGroup? {
      ScanStep(w, s, event.action, t);
    } else {
      PendingTargetWasPending(w, event, w', s, t);
    }
  }

  /** Right after the scan, a target at the child's PID is the child exactly when the PID was not reused. */
  lemma ScanStep(w: World, s: Instance, action: Action, t: Instance)
    requires s in w.shims && Alive(w, s) && w.shims[s].phase.ScanningGroup? && Act(w, s, action).Some?
    requires var phase := Act(w, s, action).value.shim.phase;
             Stops(phase) && t in PendingTargets(phase) && ChildOf(phase.owner).Some?
             && t.pid == ChildOf(phase.owner).value.pid
    ensures var before := w.shims[s].phase;
            && action.ScanGroup? && before.owner == Act(w, s, action).value.shim.phase.owner
            && (t == ChildOf(before.owner).value <==> !ReusedInGroup(w, ChildOf(before.owner).value, before.groupId))
  {
    var before := w.shims[s].phase;
    var child := ChildOf(before.owner).value;
    ScanTargetsRecordedChild(w, child, before.groupId, action.members);
    assert t in (set m | m in action.members);
    assert t in GroupOf(w, child, before.groupId);
  }

  /** What a run delivers: the process that is signalled at the recorded child's PID is the recorded child if and
      only if the scan before it did not meet that PID reused inside the child's group. */
  lemma ChildSignalsHitRecordedChild(worlds: seq<World>, events: seq<Event>, n: nat, s: Instance) returns (i: nat)
    requires Run(worlds, events) && Init(worlds[0]) && n < |worlds|
    requires s in worlds[n].shims && Alive(worlds[n], s)
    requires var phase := worlds[n].shims[s].phase;
             phase.Sending? && phase.stage.KillChild?
             && ChildOf(phase.owner).Some? && phase.handle.pid == ChildOf(phase.owner).value.pid
    ensures var phase := worlds[n].shims[s].phase;
            && LatestScan(worlds, events, i, n, s, phase.owner)
            && (phase.handle == ChildOf(phase.owner).value
                <==> !ScanMetReuse(worlds, i, s, ChildOf(phase.owner).value))
  {
    SignalsHitTheirTarget(worlds, events, n, s);
    i := ChildTargetsAreRecordedExactly(worlds, events, n, s, worlds[n].shims[s].phase.handle);
  }

  lemma PendingTargetWasPending(w: World, event: Event, w': World, s: Instance, t: Instance)
    requires Inv(w) && Next(w, event) == Some(w')
    requires s in w'.shims && Alive(w', s)
    requires var phase := w'.shims[s].phase;
             Stops(phase) && t in PendingTargets(phase) && phase.stage.KillChild?
    requires !(event.Step? && event.shim == s && w.shims[s].phase.ScanningGroup?)
    ensures s in w.shims && Alive(w, s)
    ensures var phase := w.shims[s].phase;
            Stops(phase) && t in PendingTargets(phase) && phase.stage.KillChild?
                && phase.owner == w'.shims[s].phase.owner
    ensures event.Step? && event.shim == s ==> !event.action.ScanGroup?
  {
    hide Act, PendingTargets;
    if event.Step? && event.shim == s {
      StepTargetWasPending(w, s, event.action, t);
    }
  }

  lemma StepTargetWasPending(w: World, s: Instance, action: Action, t: Instance)
    requires s in w.shims && Alive(w, s) && Act(w, s, action).Some? && !w.shims[s].phase.ScanningGroup?
    requires var phase := Act(w, s, action).value.shim.phase;
             Stops(phase) && t in PendingTargets(phase) && phase.stage.KillChild?
    ensures var phase := w.shims[s].phase;
            && Stops(phase) && t in PendingTargets(phase) && phase.stage.KillChild?
            && phase.owner == Act(w, s, action).value.shim.phase.owner && !action.ScanGroup?
  {
    hide Signal, Takeover, Own, PendingTargets;
    var shim := w.shims[s];
    if !(action.Fail? && Acquiring(shim.phase)) && Stops(shim.phase) {
      SignalTargetWasPending(w, shim, action, t);
    } else if !(action.Fail? && Acquiring(shim.phase)) && TakingOver(shim.phase) {
      TakeoverHasNoTargets(w, shim, action);
    } else if !(action.Fail? && Acquiring(shim.phase)) {
      OwnHasNoTargets(w, s, shim, action);
    }
  }

  lemma SignalTargetWasPending(w: World, shim: Shim, action: Action, t: Instance)
    requires Stops(shim.phase) && !shim.phase.ScanningGroup? && Signal(w, shim, action).Some?
    requires var phase := Signal(w, shim, action).value.shim.phase;
             Stops(phase) && t in PendingTargets(phase) && phase.stage.KillChild?
    ensures var phase := shim.phase;
            && t in PendingTargets(phase) && phase.stage.KillChild?
            && phase.owner == Signal(w, shim, action).value.shim.phase.owner && !action.ScanGroup?
  {
    hide GroupOf, GroupScan;
  }

  lemma TakeoverHasNoTargets(w: World, shim: Shim, action: Action)
    requires Takeover(w, shim, action).Some?
    ensures PendingTargets(Takeover(w, shim, action).value.shim.phase) == []
  {
  }

  lemma OwnHasNoTargets(w: World, s: Instance, shim: Shim, action: Action)
    requires Alive(w, s) && Own(w, s, shim, action).Some?
    ensures PendingTargets(Own(w, s, shim, action).value.shim.phase) == []
  {
  }

  // ----- A run that signals another process -----

  const CHILD := Instance(50, 700)
  const REUSED := Instance(50, 900)
  const OWNER := OwnerRecord(40, 600, 9, Some(50), Some(700))
  const SHIM := Instance(2, 800)
  const SHIM_PROCESS := Process(800, 9, 2, true)
  const CHILD_PROCESS := Process(700, 1, 50, false)
  const REUSED_PROCESS := Process(900, 1, 50, false)

  /** The recorded Shim is dead and its child runs in a process group of its own. */
  function Orphaned(): World {
    World(map[50 := CHILD_PROCESS], {Instance(40, 600), CHILD}, None, Stored(OWNER), map[], {})
  }

  /** The new Shim runs and the child is still there. */
  function WithChild(phase: Phase): World {
    World(map[50 := CHILD_PROCESS, 2 := SHIM_PROCESS], {Instance(40, 600), CHILD, SHIM}, Some(SHIM), Stored(OWNER),
          map[SHIM := Shim(phase, OwnRecord(SHIM, 9))], {})
  }

  function Started(): World {
    WithChild(Starting).(lock := None, shims := map[SHIM := Shim(Starting, OwnRecord(SHIM, 0))])
  }

  function ChildGone(phase: Phase): World {
    WithChild(phase).(processes := map[2 := SHIM_PROCESS])
  }

  /** A later process has the child's PID and leads a group with the old number. */
  function Reused(phase: Phase): World {
    World(map[2 := SHIM_PROCESS, 50 := REUSED_PROCESS], {Instance(40, 600), CHILD, SHIM, REUSED}, Some(SHIM),
          Stored(OWNER), map[SHIM := Shim(phase, OwnRecord(SHIM, 9))], {})
  }

  /** A step that only changes the phase. */
  lemma Moves(w: World, action: Action, phase: Phase)
    requires w.shims.Keys == {SHIM} && Alive(w, SHIM)
    requires Act(w, SHIM, action) == Some(Move(w, w.shims[SHIM], phase))
    ensures Next(w, Step(SHIM, action)) == Some(w.(shims := map[SHIM := w.shims[SHIM].(phase := phase)]))
  {
    assert w.shims[SHIM := w.shims[SHIM].(phase := phase)] == map[SHIM := w.shims[SHIM].(phase := phase)];
  }

  lemma ShimStarts()
    ensures Next(Orphaned(), Start(2, SHIM_PROCESS, true)) == Some(Started())
  {
    assert Orphaned().processes[2 := SHIM_PROCESS] == Started().processes;
    assert Orphaned().used + {SHIM} == Started().used;
  }

  lemma ShimLocks()
    ensures Next(Started(), Step(SHIM, Lock)) == Some(WithChild(Looking))
  {
    assert Acquire(Started(), SHIM, Started().shims[SHIM], Lock)
      == Some(Effect(Shim(Looking, OwnRecord(SHIM, 9)), Stored(OWNER), Some(SHIM), {}));
    assert Started().shims[SHIM := Shim(Looking, OwnRecord(SHIM, 9))] == WithChild(Looking).shims;
  }

  lemma ShimMeetsDirectory()
    ensures Next(WithChild(Looking), Step(SHIM, Create(true))) == Some(WithChild(Reading))
  {
    var w := WithChild(Looking);
    assert Acquire(w, SHIM, w.shims[SHIM], Create(true)) == Some(Move(w, w.shims[SHIM], Reading));
    Moves(w, Create(true), Reading);
  }

  lemma ShimReads()
    ensures Next(WithChild(Reading), Step(SHIM, Read(false))) == Some(WithChild(Judging(OWNER)))
  {
    var w := WithChild(Reading);
    assert Acquire(w, SHIM, w.shims[SHIM], Read(false)) == Some(Move(w, w.shims[SHIM], Judging(OWNER)));
    Moves(w, Read(false), Judging(OWNER));
  }

  lemma ShimJudges()
    ensures Next(WithChild(Judging(OWNER)), Step(SHIM, Judge)) == Some(WithChild(Stopping(OWNER, KillChild(true))))
  {
    var w := WithChild(Judging(OWNER));
    assert Takeover(w, w.shims[SHIM], Judge) == Some(Move(w, w.shims[SHIM], Stopping(OWNER, KillChild(true))));
    Moves(w, Judge, Stopping(OWNER, KillChild(true)));
  }

  lemma ShimFindsChild()
    ensures Next(WithChild(Stopping(OWNER, KillChild(true))), Step(SHIM, LookUp))
         == Some(WithChild(ReadingGroup(OWNER, true)))
  {
    var w := WithChild(Stopping(OWNER, KillChild(true)));
    assert Target(w, OWNER, KillChild(true)) == Some(CHILD);
    assert Signal(w, w.shims[SHIM], LookUp) == Some(Move(w, w.shims[SHIM], ReadingGroup(OWNER, true)));
    Moves(w, LookUp, ReadingGroup(OWNER, true));
  }

  lemma ShimReadsGroup()
    ensures Next(WithChild(ReadingGroup(OWNER, true)), Step(SHIM, ReadGroup))
         == Some(WithChild(ScanningGroup(OWNER, true, 50)))
  {
    var w := WithChild(ReadingGroup(OWNER, true));
    assert ChildAlive(w, OWNER) && w.processes[50] == CHILD_PROCESS;
    assert Signal(w, w.shims[SHIM], ReadGroup) == Some(Move(w, w.shims[SHIM], ScanningGroup(OWNER, true, 50)));
    Moves(w, ReadGroup, ScanningGroup(OWNER, true, 50));
  }

  lemma ChildPidIsReused(phase: Phase)
    ensures Next(WithChild(phase), Exit(50)) == Some(ChildGone(phase))
    ensures Next(ChildGone(phase), Start(50, REUSED_PROCESS, false)) == Some(Reused(phase))
  {
    assert WithChild(phase).processes - {50} == ChildGone(phase).processes;
    assert ChildGone(phase).processes[50 := REUSED_PROCESS] == Reused(phase).processes;
    assert ChildGone(phase).used + {REUSED} == Reused(phase).used;
  }

  lemma ShimScans()
    ensures Next(Reused(ScanningGroup(OWNER, true, 50)), Step(SHIM, ScanGroup([REUSED])))
         == Some(Reused(Signalling(OWNER, KillChild(true), [REUSED])))
  {
    var w := Reused(ScanningGroup(OWNER, true, 50));
    ScanFindsReused(w.shims[SHIM].phase);
    assert Signal(w, w.shims[SHIM], ScanGroup([REUSED]))
      == Some(Move(w, w.shims[SHIM], Signalling(OWNER, KillChild(true), [REUSED])));
    Moves(w, ScanGroup([REUSED]), Signalling(OWNER, KillChild(true), [REUSED]));
  }

  lemma ScanFindsReused(phase: Phase)
    ensures GroupScan(Reused(phase), CHILD, 50, [REUSED])
  {
    var w := Reused(phase);
    assert w.processes[50] == REUSED_PROCESS && w.processes[2] == SHIM_PROCESS;
    assert forall i :: i in GroupOf(w, CHILD, 50) <==> i == REUSED;
    assert (set m | m in [REUSED]) == {REUSED};
  }

  lemma ShimOpens()
    ensures Next(Reused(Signalling(OWNER, KillChild(true), [REUSED])), Step(SHIM, Open))
         == Some(Reused(Confirming(OWNER, KillChild(true), [REUSED], REUSED)))
  {
    var w := Reused(Signalling(OWNER, KillChild(true), [REUSED]));
    assert At(w, 50) == Some(REUSED);
    assert Signal(w, w.shims[SHIM], Open)
      == Some(Move(w, w.shims[SHIM], Confirming(OWNER, KillChild(true), [REUSED], REUSED)));
    Moves(w, Open, Confirming(OWNER, KillChild(true), [REUSED], REUSED));
  }

  lemma ShimConfirms()
    ensures Next(Reused(Confirming(OWNER, KillChild(true), [REUSED], REUSED)), Step(SHIM, Confirm))
         == Some(Reused(Sending(OWNER, KillChild(true), [REUSED], REUSED)))
  {
    var w := Reused(Confirming(OWNER, KillChild(true), [REUSED], REUSED));
    assert At(w, 50) == Some(REUSED);
    assert Signal(w, w.shims[SHIM], Confirm)
      == Some(Move(w, w.shims[SHIM], Sending(OWNER, KillChild(true), [REUSED], REUSED)));
    Moves(w, Confirm, Sending(OWNER, KillChild(true), [REUSED], REUSED));
  }

  lemma OrphanedIsInitial()
    ensures Init(Orphaned())
  {
  }

  /** A run of the protocol in which a live Shim is about to signal another process than the recorded child at
      the child's PID: the child exits and its PID is reused between the re-read and the scan. */
  lemma ReusedChildCanBeTargeted() returns (worlds: seq<World>, events: seq<Event>)
    ensures Run(worlds, events) && Init(worlds[0])
    ensures var last := worlds[|events|];
            && SHIM in last.shims && Alive(last, SHIM) && last.shims[SHIM].phase.Sending?
            && ChildOf(last.shims[SHIM].phase.owner) == Some(CHILD)
            && last.shims[SHIM].phase.handle == REUSED && REUSED.pid == CHILD.pid && REUSED != CHILD
            && Alive(last, REUSED)
  {
    hide Next, Init, Orphaned, Started, WithChild, ChildGone;
    var stage := KillChild(true);
    var scanning := ScanningGroup(OWNER, true, 50);
    worlds := [
      Orphaned(), Started(), WithChild(Looking), WithChild(Reading), WithChild(Judging(OWNER)),
      WithChild(Stopping(OWNER, stage)), WithChild(ReadingGroup(OWNER, true)), WithChild(scanning),
      ChildGone(scanning), Reused(scanning), Reused(Signalling(OWNER, stage, [REUSED])),
      Reused(Confirming(OWNER, stage, [REUSED], REUSED)), Reused(Sending(OWNER, stage, [REUSED], REUSED))];
    events := [
      Start(2, SHIM_PROCESS, true), Step(SHIM, Lock), Step(SHIM, Create(true)), Step(SHIM, Read(false)),
      Step(SHIM, Judge), Step(SHIM, LookUp), Step(SHIM, ReadGroup), Exit(50), Start(50, REUSED_PROCESS, false),
      Step(SHIM, ScanGroup([REUSED])), Step(SHIM, Open), Step(SHIM, Confirm)];
    OrphanedIsInitial();
    ShimStarts();
    ShimLocks();
    ShimMeetsDirectory();
    ShimReads();
    ShimJudges();
    ShimFindsChild();
    ShimReadsGroup();
    ChildPidIsReused(scanning);
    ShimScans();
    ShimOpens();
    ShimConfirms();
  }
}
