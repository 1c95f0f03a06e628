/** When the lease protocol stops an owner, when it leaves it alone, and when an acquisition ends: read off the
    worlds and events of a run. */
module LeaseDecisions {
  import opened Options
  import opened OwnerRecords
  import opened LeaseProtocol
  import opened LeaseSafety

  // ----- What a Shim has found out about the owner in its way -----

  datatype Finding =
    | Gone      // its Shim instance is not live: missing, or its PID reused
    | Foreign   // its Shim instance is live and runs something else
    | Valid     // its Shim instance is live and is a Shim
    | Allowed   // no other live Desktop owns it
    | GraceOver // told to stop, and still not gone when the grace period ended

  /** The owner's Desktop is live and is not that of the Shim `s`; PID 1 only adopts orphans. */
  predicate OtherDesktopLives(w: World, s: Instance, owner: OwnerRecord)
    requires s in w.shims
  {
    owner.desktopId in w.processes && owner.desktopId != 1 && owner.desktopId != w.shims[s].record.desktopId
  }

  /** The step with which a Shim makes a finding, and the world it meets there. */
  predicate Finds(w: World, s: Instance, action: Action, owner: OwnerRecord, finding: Finding)
    requires s in w.shims
  {
    var phase := w.shims[s].phase;
    match finding
    case Gone => action.Judge? && phase == Judging(owner) && !Alive(w, ShimOf(owner))
    case Foreign =>
      action.Judge? && phase == Judging(owner) && Alive(w, ShimOf(owner)) && !w.processes[owner.processId].isShim
    case Valid =>
      action.Judge? && phase == Judging(owner) && Alive(w, ShimOf(owner)) && w.processes[owner.processId].isShim
    case Allowed => action.CheckDesktop? && phase == CheckingDesktop(owner) && !OtherDesktopLives(w, s, owner)
    case GraceOver =>
      action == Observe(true) &&
      ((phase == AwaitingShim(owner, false) && Alive(w, ShimOf(owner)))
       || (phase == AwaitingChild(owner, false) && ChildAlive(w, owner)))
  }

  ghost predicate FoundAt(
    worlds: seq<World>, events: seq<Event>, i: nat, s: Instance, owner: OwnerRecord, finding: Finding)
    requires i < |worlds| && i < |events|
  {
    && events[i].Step? && events[i].shim == s && s in worlds[i].shims
    && Finds(worlds[i], s, events[i].action, owner, finding)
  }

  /** Found in the takeover under way at `n`: no owner was judged afresh since. */
  ghost predicate Found(
    worlds: seq<World>, events: seq<Event>, n: nat, s: Instance, owner: OwnerRecord, finding: Finding)
    requires n < |worlds| && n <= |events|
  {
    exists i: nat | i < n :: FoundAt(worlds, events, i, s, owner, finding)
                             && forall k | i < k < n :: events[k] != Step(s, Judge)
  }

  /** What must have been found before a phase of a takeover. */
  predicate Warranted(phase: Phase, found: set<Finding>) {
    if Stops(phase) then
      match StageOf(phase)
      case TerminateShim => {Valid, Allowed} <= found
      case KillChild(orphan) => if orphan then Gone in found else {Valid, Allowed, GraceOver} <= found
      case KillShim => {Valid, Allowed, GraceOver} <= found
    else if phase.AwaitingShim? || phase.AwaitingChild? then
      if phase.forced then Gone in found || {Valid, Allowed, GraceOver} <= found else {Valid, Allowed} <= found
    else if phase.Comparing? || phase.Removing? then
      if phase.stopped then Gone in found || {Valid, Allowed} <= found else Foreign in found
    else phase.CheckingDesktop? ==> Valid in found
  }

  function StageOf(phase: Phase): Stage
    requires Stops(phase)
  {
    match phase
    case ReadingGroup(_, orphan) => KillChild(orphan)
    case ScanningGroup(_, orphan, _) => KillChild(orphan)
    case _ => phase.stage
  }

  /** What has been found about the owner that the Shim's phase is about. */
  ghost function FoundSet(worlds: seq<World>, events: seq<Event>, n: nat, s: Instance, owner: OwnerRecord): set<Finding>
    requires n < |worlds| && n <= |events|
  {
    set finding | Found(worlds, events, n, s, owner, finding)
  }

  lemma OwnStepIsWarranted(w: World, s: Instance, action: Action, found: set<Finding>, found': set<Finding>)
    requires s in w.shims && Alive(w, s) && Act(w, s, action).Some?
    requires Warranted(w.shims[s].phase, found)
    requires action.Judge? || found <= found'
    requires TakingOver(w.shims[s].phase) ==>
               forall f | Finds(w, s, action, w.shims[s].phase.owner, f) :: f in found'
    ensures Warranted(Act(w, s, action).value.shim.phase, found')
    ensures var phase := Act(w, s, action).value.shim.phase;
            TakingOver(phase) && !phase.Judging? ==>
              TakingOver(w.shims[s].phase) && phase.owner == w.shims[s].phase.owner
  {
    hide Own, Signal, Takeover;
    var shim := w.shims[s];
    if action.Fail? && Acquiring(shim.phase) {
    } else if Stops(shim.phase) {
      SignalKeepsStage(w, shim, action, Signal(w, shim, action).value);
    } else if TakingOver(shim.phase) {
      JudgementIsWarranted(w, s, action, found, found');
    } else {
      OwnOnlyReads(w, s, shim, action);
    }
  }

  lemma JudgementIsWarranted(w: World, s: Instance, action: Action, found: set<Finding>, found': set<Finding>)
    requires s in w.shims && TakingOver(w.shims[s].phase) && !Stops(w.shims[s].phase)
    requires Takeover(w, w.shims[s], action).Some?
    requires Warranted(w.shims[s].phase, found) && (action.Judge? || found <= found')
    requires forall f | Finds(w, s, action, w.shims[s].phase.owner, f) :: f in found'
    ensures var phase := Takeover(w, w.shims[s], action).value.shim.phase;
            && Warranted(phase, found')
            && (TakingOver(phase) ==> phase.owner == w.shims[s].phase.owner)
  {
    var owner := w.shims[s].phase.owner;
    assert Finds(w, s, action, owner, Gone) ==> Gone in found';
    assert Finds(w, s, action, owner, Foreign) ==> Foreign in found';
    assert Finds(w, s, action, owner, Valid) ==> Valid in found';
    assert Finds(w, s, action, owner, Allowed) ==> Allowed in found';
    assert Finds(w, s, action, owner, GraceOver) ==> GraceOver in found';
  }

  lemma OwnOnlyReads(w: World, s: Instance, shim: Shim, action: Action)
    requires Alive(w, s) && !TakingOver(shim.phase) && Own(w, s, shim, action).Some?
    ensures var phase := Own(w, s, shim, action).value.shim.phase;
            TakingOver(phase) ==> phase.Judging?
  {
  }

  /** Signalling stays in its stage, or goes on to what follows that stage, or ends. */
  lemma SignalKeepsStage(w: World, shim: Shim, action: Action, e: Effect)
    requires Stops(shim.phase) && Signal(w, shim, action) == Some(e)
    ensures !action.Judge?
    ensures var phase := e.shim.phase; var stage := StageOf(shim.phase);
            || phase.Done?
            || (Stops(phase) && phase.owner == shim.phase.owner && StageOf(phase) == stage)
            || (stage.TerminateShim? && phase == AwaitingShim(shim.phase.owner, false))
            || (stage == KillChild(false) && phase == Stopping(shim.phase.owner, KillShim))
            || ((stage == KillChild(true) || stage.KillShim?) && phase == AwaitingShim(shim.phase.owner, true))
  {
    hide GroupOf, GroupScan, Target;
  }

  lemma FoundGrows(
      worlds: seq<World>, events: seq<Event>, n: nat, s: Instance, owner: OwnerRecord, finding: Finding)
    requires n < |worlds| - 1 && n < |events|
    requires (Found(worlds, events, n, s, owner, finding) && events[n] != Step(s, Judge))
      || FoundAt(worlds, events, n, s, owner, finding)
    ensures Found(worlds, events, n + 1, s, owner, finding)
  {
    if FoundAt(worlds, events, n, s, owner, finding) {
    } else {
      var i: nat :| i < n && FoundAt(worlds, events, i, s, owner, finding)
                    && forall k | i < k < n :: events[k] != Step(s, Judge);
      assert FoundAt(worlds, events, i, s, owner, finding);
      assert forall k | i < k < n + 1 :: events[k] != Step(s, Judge);
    }
  }

  /** In every run the phase of a takeover rests on findings of that very takeover. */
  lemma {:induction false} TakeoversAreWarranted(worlds: seq<World>, events: seq<Event>, n: nat, s: Instance)
    requires Run(worlds, events) && Init(worlds[0]) && n < |worlds|
    requires s in worlds[n].shims && TakingOver(worlds[n].shims[s].phase)
    ensures Warranted(worlds[n].shims[s].phase, FoundSet(worlds, events, n, s, worlds[n].shims[s].phase.owner))
    decreases n, 0
  {
    hide Warranted, Act, TakingOver, Stops, Inv, FoundSet;
    RunKeepsInv(worlds, events, n - 1);
    var event := events[n - 1];
    if event.Step? && event.shim == s {
      OwnFindingsCarryOver(worlds, events, n - 1, s, event.action);
    } else {
      OthersLeavePhase(worlds[n - 1], event, worlds[n], s);
      TakeoversAreWarranted(worlds, events, n - 1, s);
      OtherFindingsCarryOver(worlds, events, n - 1, s, worlds[n].shims[s].phase);
    }
  }

  lemma OtherFindingsCarryOver(worlds: seq<World>, events: seq<Event>, n: nat, s: Instance, phase: Phase)
    requires n < |worlds| - 1 && n < |events| && TakingOver(phase)
    requires events[n].Step? ==> events[n].shim != s
    requires Warranted(phase, FoundSet(worlds, events, n, s, phase.owner))
    ensures Warranted(phase, FoundSet(worlds, events, n + 1, s, phase.owner))
  {
    var found, found' := FoundSet(worlds, events, n, s, phase.owner), FoundSet(worlds, events, n + 1, s, phase.owner);
    forall f | f in found ensures f in found' {
      FoundGrows(worlds, events, n, s, phase.owner, f);
    }
    WarrantsGrow(phase, found, found');
    hide Warranted;
  }

  lemma WarrantsGrow(phase: Phase, found: set<Finding>, found': set<Finding>)
    requires Warranted(phase, found) && found <= found'
    ensures Warranted(phase, found')
  {
  }

  lemma OthersLeavePhase(w: World, event: Event, w': World, s: Instance)
    requires Inv(w) && Next(w, event) == Some(w') && s in w'.shims && TakingOver(w'.shims[s].phase)
    requires event.Step? ==> event.shim != s
    ensures s in w.shims && w'.shims[s] == w.shims[s]
  {
    hide Act;
  }

  lemma OwnFindingsCarryOver(worlds: seq<World>, events: seq<Event>, n: nat, s: Instance, action: Action)
    requires Run(worlds, events) && Init(worlds[0]) && n < |events| && events[n] == Step(s, action)
    requires TakingOver(worlds[n + 1].shims[s].phase)
    ensures Warranted(worlds[n + 1].shims[s].phase,
              FoundSet(worlds, events, n + 1, s, worlds[n + 1].shims[s].phase.owner))
    decreases n, 1
  {
    var w := worlds[n];
    var before, after := w.shims[s].phase, worlds[n + 1].shims[s].phase;
    assert worlds[n + 1].shims[s] == Act(w, s, action).value.shim;
    if TakingOver(before) {
      var found := FoundSet(worlds, events, n, s, before.owner);
      var found' := FoundSet(worlds, events, n + 1, s, before.owner);
      TakeoversAreWarranted(worlds, events, n, s);
      forall f | Finds(w, s, action, before.owner, f) || (!action.Judge? && f in found) ensures f in found' {
        FoundGrows(worlds, events, n, s, before.owner, f);
      }
      OwnStepIsWarranted(w, s, action, found, found');
    } else {
      OwnStepIsWarranted(w, s, action, {}, {});
    }
  }

  // ----- Whom a takeover may signal, and what it may remove -----

  /** A Shim about to signal, or on its way to signal, in one stage of a takeover. */
  predicate InStage(phase: Phase, owner: OwnerRecord, stage: Stage) {
    Stops(phase) && phase.owner == owner && StageOf(phase) == stage
  }

  /** No process of an owner is signalled before the takeover has found a reason. A live Shim is asked to stop
      only when it is valid and no other live Desktop owns it; force follows only an expired grace period; the
      child of a missing Shim is stopped at once, whatever the recorded Desktop. */
  lemma SignalsAreWarranted(
      worlds: seq<World>, events: seq<Event>, n: nat, s: Instance, owner: OwnerRecord, stage: Stage)
    requires Run(worlds, events) && Init(worlds[0]) && n < |worlds|
    requires s in worlds[n].shims && InStage(worlds[n].shims[s].phase, owner, stage)
    ensures stage == KillChild(true) ==> Found(worlds, events, n, s, owner, Gone)
    ensures stage != KillChild(true) ==>
              Found(worlds, events, n, s, owner, Valid) && Found(worlds, events, n, s, owner, Allowed)
    ensures stage == KillChild(false) || stage == KillShim ==> Found(worlds, events, n, s, owner, GraceOver)
  {
    TakeoversAreWarranted(worlds, events, n, s);
    var found := FoundSet(worlds, events, n, s, owner);
    assert Gone in found ==> Found(worlds, events, n, s, owner, Gone);
    assert Valid in found ==> Found(worlds, events, n, s, owner, Valid);
    assert Allowed in found ==> Found(worlds, events, n, s, owner, Allowed);
    assert GraceOver in found ==> Found(worlds, events, n, s, owner, GraceOver);
    hide Found, Run, Init;
  }

  /** No record is removed before the takeover has found its Shim gone, or foreign, or valid and not another
      live Desktop's. */
  lemma RemovalsAreWarranted(worlds: seq<World>, events: seq<Event>, n: nat, s: Instance)
    requires Run(worlds, events) && Init(worlds[0]) && n < |worlds| && s in worlds[n].shims
    requires worlds[n].shims[s].phase.Comparing? || worlds[n].shims[s].phase.Removing?
    ensures var owner := worlds[n].shims[s].phase.owner;
            if worlds[n].shims[s].phase.stopped then
              Found(worlds, events, n, s, owner, Gone)
              || (Found(worlds, events, n, s, owner, Valid) && Found(worlds, events, n, s, owner, Allowed))
            else Found(worlds, events, n, s, owner, Foreign)
  {
    TakeoversAreWarranted(worlds, events, n, s);
    var owner := worlds[n].shims[s].phase.owner;
    var found := FoundSet(worlds, events, n, s, owner);
    assert Gone in found ==> Found(worlds, events, n, s, owner, Gone);
    assert Foreign in found ==> Found(worlds, events, n, s, owner, Foreign);
    assert Valid in found ==> Found(worlds, events, n, s, owner, Valid);
    assert Allowed in found ==> Found(worlds, events, n, s, owner, Allowed);
    hide Found, Run, Init;
  }

  /** Another Desktop's owner is left alone: while its Shim instance is live and a Shim, and its Desktop is live
      and not the contender's, the contender never gets to signal it, await it or remove its record. */
  lemma OtherDesktopsOwnerIsLeftAlone(
      worlds: seq<World>, events: seq<Event>, n: nat, s: Instance, owner: OwnerRecord)
    requires Run(worlds, events) && Init(worlds[0]) && n < |worlds| && s in worlds[n].shims
    requires forall k | 0 <= k < n && s in worlds[k].shims ::
               && Alive(worlds[k], ShimOf(owner)) && worlds[k].processes[owner.processId].isShim
               && OtherDesktopLives(worlds[k], s, owner)
    ensures TakingOver(worlds[n].shims[s].phase) && worlds[n].shims[s].phase.owner == owner ==>
              worlds[n].shims[s].phase.Judging? || worlds[n].shims[s].phase.CheckingDesktop?
  {
    if TakingOver(worlds[n].shims[s].phase) && worlds[n].shims[s].phase.owner == owner {
      TakeoversAreWarranted(worlds, events, n, s);
      forall finding | finding in {Gone, Foreign, Allowed} ensures !Found(worlds, events, n, s, owner, finding) {
        assert forall i: nat | i < n :: !FoundAt(worlds, events, i, s, owner, finding);
      }
    }
  }
}
