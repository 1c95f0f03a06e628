/** Safety of the lease over every run. */
module LeaseSafety {
  import opened Options
  import opened OwnerRecords
  import opened LeaseProtocol

  // ----- The invariant -----

  /** The instance has lived and is gone; by uniqueness of start times it is gone for good. */
  predicate Dead(w: World, i: Instance) {
    i in w.used && !Alive(w, i)
  }

  predicate Stopped(w: World, owner: OwnerRecord) {
    Dead(w, ShimOf(owner)) && (ChildOf(owner).Some? ==> Dead(w, ChildOf(owner).value))
  }

  /** Created by this Shim, not yet published. */
  predicate Unpublished(phase: Phase) {
    phase.Wrote? || phase.Held? || phase.Checked?
  }

  ghost predicate TargetsOk(w: World, owner: OwnerRecord, stage: Stage, targets: seq<Instance>) {
    forall t | t in targets ::
      && t in w.used
      && if stage.KillChild? then ChildOf(owner).Some? && t.startedAt >= ChildOf(owner).value.startedAt
         else t == ShimOf(owner)
  }

  ghost predicate SignalOk(w: World, phase: Phase) {
    match phase
    case Signalling(owner, stage, targets) => TargetsOk(w, owner, stage, targets)
    case Confirming(owner, stage, targets, handle) =>
      && targets != [] && TargetsOk(w, owner, stage, targets)
      && handle.pid == targets[0].pid
      && (Alive(w, targets[0]) ==> handle == targets[0])
    case Sending(owner, stage, targets, handle) =>
      targets != [] && TargetsOk(w, owner, stage, targets) && handle == targets[0]
    case _ => true
  }

  /** What a phase has established about the directory and the processes. */
  ghost predicate PhaseOk(w: World, directory: Directory, phase: Phase, record: OwnerRecord) {
    && (phase.Made? || phase.Discarding? ==> directory == Unreadable)
    && (phase.Reading? ==> directory != Absent)
    && (Unpublished(phase) || phase.DropRemoving? ==> directory == Stored(record))
    && (|| phase.Looking? || phase.Made? || Unpublished(phase) || phase.Reading? || phase.Discarding?
        || TakingOver(phase) ==>
          record.childProcessId.None? && record.childStartedAt.None?)
    && (TakingOver(phase) ==> directory == Stored(phase.owner))
    && (phase.AwaitingChild? ==> Dead(w, ShimOf(phase.owner)))
    && ((phase.Comparing? || phase.Removing?) && phase.stopped ==> Stopped(w, phase.owner))
    && SignalOk(w, phase)
  }

  ghost predicate ShimOk(w: World, s: Instance)
    requires s in w.shims
  {
    Alive(w, s) ==>
      && (Holding(w.shims[s].phase) ==> w.lock == Some(s))
      && ShimOf(w.shims[s].record) == s
      && Recorded(w, w.shims[s].record)
      && PhaseOk(w, w.directory, w.shims[s].phase, w.shims[s].record)
  }

  ghost predicate Inv(w: World) {
    && (forall pid | pid in w.processes :: Instance(pid, w.processes[pid].startedAt) in w.used)
    && w.shims.Keys <= w.used
    && (w.lock.Some? ==> w.lock.value in w.shims && Alive(w, w.lock.value) && Holding(w.shims[w.lock.value].phase))
    && (w.directory.Stored? ==> Recorded(w, w.directory.owner))
    && (forall s | s in w.shims :: ShimOk(w, s))
    && (forall owner | owner in w.retired :: Stopped(w, owner))
  }

  lemma InitEstablishesInv(w: World)
    requires Init(w)
    ensures Inv(w)
  {
  }

  // ----- Preservation -----

  ghost predicate EffectOk(w: World, s: Instance, e: Effect) {
    && (e.lock == w.lock || (w.lock == Some(s) && e.lock == None) || (w.lock == None && e.lock == Some(s)))
    && (e.lock == Some(s) <==> Holding(e.shim.phase))
    && (e.directory != w.directory ==> w.lock == Some(s))
    && ShimOf(e.shim.record) == s
    && Recorded(w, e.shim.record)
    && PhaseOk(w, e.directory, e.shim.phase, e.shim.record)
    && (e.directory.Stored? ==> Recorded(w, e.directory.owner))
    && w.retired <= e.retired
    && (forall owner | owner in e.retired :: Stopped(w, owner))
  }

  lemma AcquireStepIsOk(w: World, s: Instance, action: Action, e: Effect)
    requires Inv(w) && s in w.shims && Alive(w, s) && !TakingOver(w.shims[s].phase)
    requires Acquire(w, s, w.shims[s], action) == Some(e)
    ensures EffectOk(w, s, e)
  {
    assert ShimOk(w, s);
    RetiredAreStopped(w);
    hide Inv, Stopped, SignalOk;
  }

  lemma HoldStepIsOk(w: World, s: Instance, action: Action, e: Effect)
    requires Inv(w) && s in w.shims && Alive(w, s) && !TakingOver(w.shims[s].phase)
    requires Hold(w, s, w.shims[s], action) == Some(e)
    ensures EffectOk(w, s, e)
  {
    assert ShimOk(w, s);
    RetiredAreStopped(w);
    hide Inv, Stopped, SignalOk;
  }

  lemma RetiredAreStopped(w: World)
    requires Inv(w)
    ensures forall owner | owner in w.retired :: Stopped(w, owner)
    ensures w.directory.Stored? ==> Recorded(w, w.directory.owner)
    ensures forall pid | pid in w.processes :: Instance(pid, w.processes[pid].startedAt) in w.used
  {
  }

  lemma TakeoverStepIsOk(w: World, s: Instance, action: Action, e: Effect)
    requires Inv(w) && s in w.shims && Alive(w, s) && TakingOver(w.shims[s].phase)
    requires Takeover(w, w.shims[s], action) == Some(e)
    ensures EffectOk(w, s, e)
  {
    assert ShimOk(w, s);
    RetiredAreStopped(w);
    hide Inv;
  }

  lemma SignalStepIsOk(w: World, s: Instance, action: Action, e: Effect)
    requires Inv(w) && s in w.shims && Alive(w, s) && Stops(w.shims[s].phase)
    requires Signal(w, w.shims[s], action) == Some(e)
    ensures EffectOk(w, s, e)
  {
    assert ShimOk(w, s);
    RetiredAreStopped(w);
    SignalsStayOk(w, w.shims[s], action, e);
    SignalOnlyMoves(w, w.shims[s], action, e);
    hide Inv, SignalOk, Stopped, Signal;
  }

  /** Signalling changes nothing but the phase, which stays with the same owner or ends. */
  lemma SignalOnlyMoves(w: World, shim: Shim, action: Action, e: Effect)
    requires Stops(shim.phase) && Signal(w, shim, action) == Some(e)
    ensures e.directory == w.directory && e.retired == w.retired && e.shim.record == shim.record
    ensures var phase := e.shim.phase;
            || (phase.Done? && e.lock == None)
            || ((Stops(phase) || phase.AwaitingShim?) && phase.owner == shim.phase.owner && e.lock == w.lock)
  {
    hide GroupOf, GroupScan, Target;
  }

  lemma SignalsStayOk(w: World, shim: Shim, action: Action, e: Effect)
    requires Inv(w) && Stops(shim.phase) && SignalOk(w, shim.phase)
    requires Recorded(w, shim.phase.owner)
    requires Signal(w, shim, action) == Some(e)
    ensures SignalOk(w, e.shim.phase)
  {
    var phase := shim.phase;
    if phase.ScanningGroup? {
      ScanTargetsAreOk(w, phase.owner, phase.orphan, phase.groupId, action.members);
    } else if phase.Stopping? {
      assert e.shim.phase.Signalling? ==> e.shim.phase.targets == [Target(w, phase.owner, phase.stage).value];
    } else if phase.Signalling? || phase.Confirming? || phase.Sending? {
      var targets := phase.targets;
      assert targets != [] ==> targets[0] in targets && forall t | t in targets[1..] :: t in targets;
    }
    hide Inv;
  }

  lemma ScanTargetsAreOk(w: World, owner: OwnerRecord, orphan: bool, groupId: nat, members: seq<Instance>)
    requires Inv(w) && ChildOf(owner).Some? && GroupScan(w, ChildOf(owner).value, groupId, members)
    ensures TargetsOk(w, owner, KillChild(orphan), members)
  {
    forall t | t in members ensures t in GroupOf(w, ChildOf(owner).value, groupId) {
      assert t in set m | m in members;
    }
  }

  lemma OwnStepIsOk(w: World, s: Instance, action: Action)
    requires Inv(w) && s in w.shims && Alive(w, s) && !TakingOver(w.shims[s].phase)
    requires Own(w, s, w.shims[s], action).Some?
    ensures EffectOk(w, s, Own(w, s, w.shims[s], action).value)
  {
    if Acquire(w, s, w.shims[s], action).Some? {
      AcquireStepIsOk(w, s, action, Acquire(w, s, w.shims[s], action).value);
    } else {
      HoldStepIsOk(w, s, action, Hold(w, s, w.shims[s], action).value);
    }
  }

  lemma StepIsOk(w: World, s: Instance, action: Action)
    requires Inv(w) && s in w.shims && Alive(w, s) && Act(w, s, action).Some?
    ensures EffectOk(w, s, Act(w, s, action).value)
  {
    assert ShimOk(w, s);
    if !(action.Fail? && Acquiring(w.shims[s].phase)) {
      if Stops(w.shims[s].phase) {
        SignalStepIsOk(w, s, action, Act(w, s, action).value);
      } else if TakingOver(w.shims[s].phase) {
        TakeoverStepIsOk(w, s, action, Act(w, s, action).value);
      } else {
        OwnStepIsOk(w, s, action);
      }
    }
  }

  /** Another Shim's step is invisible: if it changed the directory it held the lock, so we did not. */
  lemma OthersStayOk(w: World, s: Instance, e: Effect, t: Instance)
    requires Inv(w) && s in w.shims && Alive(w, s) && EffectOk(w, s, e)
    requires t in w.shims && t != s
    ensures ShimOk(Commit(w, s, e), t)
  {
    assert ShimOk(w, t) && ShimOk(w, s);
  }

  lemma StepKeepsInv(w: World, s: Instance, e: Effect)
    requires Inv(w) && s in w.shims && Alive(w, s) && EffectOk(w, s, e)
    ensures Inv(Commit(w, s, e))
  {
    var w' := Commit(w, s, e);
    assert ShimOk(w, s);
    forall t | t in w'.shims ensures ShimOk(w', t) {
      if t != s {
        OthersStayOk(w, s, e, t);
      }
    }
  }

  /** Instances are only added, and none of the old ones comes back to life. */
  ghost predicate Ages(w: World, w': World) {
    w.used <= w'.used && forall i | i in w.used && Alive(w', i) :: Alive(w, i)
  }

  lemma PhaseStaysOk(w: World, w': World, phase: Phase, record: OwnerRecord)
    requires Ages(w, w') && PhaseOk(w, w.directory, phase, record)
    ensures PhaseOk(w', w.directory, phase, record)
  {
    hide Alive;
  }

  /** Processes may come, go and change under a Shim without disturbing what it has established. */
  lemma EnvironmentKeepsShimOk(w: World, event: Event, w': World, t: Instance)
    requires Inv(w) && !event.Step? && Next(w, event) == Some(w')
    requires t in w'.shims
    ensures ShimOk(w', t)
  {
    assert Ages(w, w');
    if t in w.shims {
      assert ShimOk(w, t);
      if Alive(w', t) {
        PhaseStaysOk(w, w', w.shims[t].phase, w.shims[t].record);
      }
      hide PhaseOk;
    }
  }

  lemma EnvironmentKeepsInv(w: World, event: Event, w': World)
    requires Inv(w) && !event.Step? && Next(w, event) == Some(w')
    ensures Inv(w')
    ensures w'.directory == w.directory
  {
    forall t | t in w'.shims ensures ShimOk(w', t) {
      EnvironmentKeepsShimOk(w, event, w', t);
    }
  }

  lemma NextKeepsInv(w: World, event: Event, w': World)
    requires Inv(w) && Next(w, event) == Some(w')
    ensures Inv(w')
  {
    if event.Step? {
      StepIsOk(w, event.shim, event.action);
      StepKeepsInv(w, event.shim, Act(w, event.shim, event.action).value);
    } else {
      EnvironmentKeepsInv(w, event, w');
    }
  }

  lemma {:induction false} RunKeepsInv(worlds: seq<World>, events: seq<Event>, n: nat)
    requires Run(worlds, events) && Init(worlds[0]) && n < |worlds|
    ensures Inv(worlds[n])
  {
    if n == 0 {
      InitEstablishesInv(worlds[0]);
    } else {
      RunKeepsInv(worlds, events, n - 1);
      NextKeepsInv(worlds[n - 1], events[n - 1], worlds[n]);
    }
  }

  // ----- Who may change the directory, and how -----

  /** How one event may change the owner directory. */
  ghost predicate DirectoryChange(w: World, event: Event, w': World) {
    && event.Step? && event.shim in w.shims && event.shim in w'.shims
    && w.lock == Some(event.shim)
    && var before := w.shims[event.shim];
       var after := w'.shims[event.shim];
       match (w.directory, w'.directory)
       case (Absent, Unreadable) => after.phase.Made?
       case (Unreadable, Stored(owner)) => before.phase.Made? && owner == before.record
       case (Unreadable, Absent) => before.phase.Made? || before.phase.Discarding?
       case (Stored(prior), Stored(owner)) =>
         && before.phase.Checked? && prior == before.record && after.phase.Published? && owner == after.record
         && prior == owner.(childProcessId := None, childStartedAt := None)
         && ChildAlive(w, owner)
       case (Stored(prior), _) => // a removal, or one that failed after the record was gone
         || (before.phase.Removing? && before.phase.owner == prior)
         || (before.phase.DropRemoving? && before.record == prior)
       case _ => false
  }

  /** The directory changes only by a step of the Shim that holds the mutation lock: it is created empty,
      filled with the creator's own record, completed with a live child, or removed after that very record
      compared equal. Nothing else ever replaces or removes a record. */
  lemma DirectoryChangesAreExact(worlds: seq<World>, events: seq<Event>, n: nat)
    requires Run(worlds, events) && Init(worlds[0]) && n < |events|
    requires worlds[n + 1].directory != worlds[n].directory
    ensures DirectoryChange(worlds[n], events[n], worlds[n + 1])
  {
    RunKeepsInv(worlds, events, n);
    var w := worlds[n];
    if !events[n].Step? {
      EnvironmentKeepsInv(w, events[n], worlds[n + 1]);
    } else {
      var s := events[n].shim;
      assert ShimOk(w, s);
      StepIsOk(w, s, events[n].action);
    }
  }

  /** While a lease is unpublished its live creator holds the lock and the directory holds its own record,
      whatever all the other Shims and processes do; so the comparison before publication always succeeds,
      and at most one such Shim exists. */
  lemma UnpublishedLeaseIsExclusive(worlds: seq<World>, events: seq<Event>, n: nat, s: Instance)
    requires Run(worlds, events) && Init(worlds[0]) && n < |worlds|
    requires s in worlds[n].shims && Alive(worlds[n], s)
    requires worlds[n].shims[s].phase.Made? || Unpublished(worlds[n].shims[s].phase)
    ensures worlds[n].lock == Some(s)
    ensures Unpublished(worlds[n].shims[s].phase) ==>
              && worlds[n].directory == Stored(worlds[n].shims[s].record)
              && ShimOf(worlds[n].shims[s].record) == s
              && worlds[n].shims[s].record.childProcessId.None?
    ensures forall childPid | worlds[n].shims[s].phase.Held? ::
              Act(worlds[n], s, Check(childPid)).value.shim.phase == Checked(childPid)
    ensures forall t | t in worlds[n].shims && Alive(worlds[n], t) && Holding(worlds[n].shims[t].phase) :: t == s
  {
    RunKeepsInv(worlds, events, n);
    assert ShimOk(worlds[n], s);
    forall t | t in worlds[n].shims && Alive(worlds[n], t) && Holding(worlds[n].shims[t].phase) ensures t == s {
      assert ShimOk(worlds[n], t);
    }
  }

  // ----- Predecessors are dead before a new record exists -----

  lemma DeadStaysDead(w: World, event: Event, w': World, i: Instance)
    requires Inv(w) && Next(w, event) == Some(w')
    requires Dead(w, i)
    ensures Dead(w', i)
  {
    if event.Step? {
      StepIsOk(w, event.shim, event.action);
    }
  }

  /** How far the takeover of `owner` by `s` has come. */
  ghost predicate TakeoverUnderWay(w: World, s: Instance, owner: OwnerRecord)
    requires s in w.shims
  {
    var phase := w.shims[s].phase;
    || !Alive(w, s)
    || phase.Done?
    || owner in w.retired
    || (TakingOver(phase) && !phase.Judging? && phase.owner == owner
        && (phase.Comparing? || phase.Removing? ==> phase.stopped))
  }

  lemma TakeoverAdvances(w: World, s: Instance, owner: OwnerRecord, event: Event, w': World)
    requires Inv(w) && Next(w, event) == Some(w') && s in w.shims
    requires TakeoverUnderWay(w, s, owner)
    ensures s in w'.shims && TakeoverUnderWay(w', s, owner)
  {
    if !Alive(w, s) {
      assert Dead(w, s);
      DeadStaysDead(w, event, w', s);
    } else if event.Step? {
      StepIsOk(w, event.shim, event.action);
      if event.shim == s {
        assert ShimOk(w, s);
        OwnTakeoverAdvances(w, s, owner, event.action);
      }
      hide Act, Inv, TakingOver, Stops;
    }
  }

  lemma OwnTakeoverAdvances(w: World, s: Instance, owner: OwnerRecord, action: Action)
    requires s in w.shims && Alive(w, s) && Act(w, s, action).Some?
    requires TakeoverUnderWay(w, s, owner)
    requires TakingOver(w.shims[s].phase) ==> w.directory == Stored(w.shims[s].phase.owner)
    requires w.retired <= Act(w, s, action).value.retired
    ensures TakeoverUnderWay(Commit(w, s, Act(w, s, action).value), s, owner)
  {
    hide Own, Signal, Takeover;
    var shim := w.shims[s];
    if owner !in w.retired && !(action.Fail? && Acquiring(shim.phase)) {
      if Stops(shim.phase) {
        SignalOnlyMoves(w, shim, action, Signal(w, shim, action).value);
      } else if TakingOver(shim.phase) {
        TakeoverStaysUnderWay(w, shim, action);
      } else if shim.phase.Done? {
        OwnStaysDone(w, s, shim, action);
      }
    }
  }

  lemma TakeoverStaysUnderWay(w: World, shim: Shim, action: Action)
    requires TakingOver(shim.phase) && !shim.phase.Judging? && Takeover(w, shim, action).Some?
    requires shim.phase.Comparing? || shim.phase.Removing? ==> shim.phase.stopped
    requires w.directory == Stored(shim.phase.owner)
    ensures var e := Takeover(w, shim, action).value;
            || e.shim.phase.Done?
            || shim.phase.owner in e.retired
            || (TakingOver(e.shim.phase) && !e.shim.phase.Judging? && e.shim.phase.owner == shim.phase.owner
                && (e.shim.phase.Comparing? || e.shim.phase.Removing? ==> e.shim.phase.stopped))
  {
  }

  lemma OwnStaysDone(w: World, s: Instance, shim: Shim, action: Action)
    requires Alive(w, s) && shim.phase.Done?
    ensures Own(w, s, shim, action).None?
  {
  }

  lemma {:induction false} TakeoverIsCarriedThrough(
      worlds: seq<World>, events: seq<Event>, i: nat, j: nat, s: Instance, owner: OwnerRecord)
    requires Run(worlds, events) && Init(worlds[0]) && i <= j < |worlds|
    requires s in worlds[i].shims && TakeoverUnderWay(worlds[i], s, owner)
    ensures s in worlds[j].shims && TakeoverUnderWay(worlds[j], s, owner)
  {
    if i < j {
      TakeoverIsCarriedThrough(worlds, events, i, j - 1, s, owner);
      RunKeepsInv(worlds, events, j - 1);
      TakeoverAdvances(worlds[j - 1], s, owner, events[j - 1], worlds[j]);
    }
  }

  /** A Shim that judged an exact record whose Shim was valid, missing or reused, and later has a record of
      its own, has left the recorded Shim and the recorded child dead; and dead they stay. */
  lemma NewLeaseFollowsStoppedOwner(worlds: seq<World>, events: seq<Event>, i: nat, j: nat, s: Instance)
    requires Run(worlds, events) && Init(worlds[0]) && i < j < |worlds|
    requires events[i] == Step(s, Judge) && s in worlds[i].shims && worlds[i].shims[s].phase.Judging?
    requires !worlds[i + 1].shims[s].phase.Comparing?
    requires s in worlds[j].shims && Alive(worlds[j], s)
    requires worlds[j].shims[s].phase.Made? || Unpublished(worlds[j].shims[s].phase)
      || worlds[j].shims[s].phase.Published?
    ensures Stopped(worlds[j], worlds[i].shims[s].phase.owner)
  {
    var owner := worlds[i].shims[s].phase.owner;
    TakeoverIsCarriedThrough(worlds, events, i + 1, j, s, owner);
    RunKeepsInv(worlds, events, j);
    assert owner in worlds[j].retired;
  }

  // ----- Signals reach only what was recorded -----

  /** The handle that is signalled pins the very instance that was targeted; the Shim stages target the
      recorded Shim instance, the child stage targets processes not older than the recorded child. */
  lemma SignalsHitTheirTarget(worlds: seq<World>, events: seq<Event>, n: nat, s: Instance)
    requires Run(worlds, events) && Init(worlds[0]) && n < |worlds|
    requires s in worlds[n].shims && Alive(worlds[n], s) && worlds[n].shims[s].phase.Sending?
    ensures var phase := worlds[n].shims[s].phase;
            && phase.targets != [] && phase.handle == phase.targets[0]
            && (!phase.stage.KillChild? ==> phase.handle == ShimOf(phase.owner))
            && (phase.stage.KillChild? ==>
                  ChildOf(phase.owner).Some? && phase.handle.startedAt >= ChildOf(phase.owner).value.startedAt)
  {
    RunKeepsInv(worlds, events, n);
    assert ShimOk(worlds[n], s);
  }
}
