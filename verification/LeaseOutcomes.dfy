/** What comes of a lease over whole runs: whose record survives, who is signalled, and what stays ended. */
module LeaseOutcomes {
  import opened Options
  import opened OwnerRecords
  import opened LeaseProtocol
  import opened LeaseSafety
  import opened LeaseDecisions
  import opened LeaseSteps

  // ----- An ended attempt stays ended -----

  lemma {:induction false} EndedStaysEnded(worlds: seq<World>, events: seq<Event>, i: nat, j: nat, s: Instance)
    requires Run(worlds, events) && Init(worlds[0]) && i <= j < |worlds|
    requires s in worlds[i].shims && worlds[i].shims[s].phase.Done?
    ensures s in worlds[j].shims && worlds[j].shims[s].phase.Done?
    ensures forall k | i <= k < j && events[k].Step? :: events[k].shim != s
  {
    if i < j {
      hide Act, EndsWith, Inv;
      EndedStaysEnded(worlds, events, i, j - 1, s);
      RunKeepsInv(worlds, events, j - 1);
      var event := events[j - 1];
      assert Next(worlds[j - 1], event) == Some(worlds[j]);
      hide Next, Run, Init;
      if event.Step? && event.shim == s {
        EndsExactly(worlds[j - 1], s, event.action, worlds[j]);
      }
      KnownShimsStay(worlds[j - 1], event, worlds[j], s);
    }
  }

  lemma KnownShimsStay(w: World, event: Event, w': World, s: Instance)
    requires Inv(w) && Next(w, event) == Some(w') && s in w.shims
    ensures s in w'.shims && (!(event.Step? && event.shim == s) ==> w'.shims[s] == w.shims[s])
  {
    hide Act;
  }

  // ----- The Desktop of a Shim -----

  /** The Desktop that a Shim records, and compares with, is its parent at the moment it took the lock. */
  lemma {:induction false} DesktopIsTheParent(worlds: seq<World>, events: seq<Event>, n: nat, s: Instance)
    requires Run(worlds, events) && Init(worlds[0]) && n < |worlds|
    requires s in worlds[n].shims && !worlds[n].shims[s].phase.Starting? && !worlds[n].shims[s].phase.Done?
    ensures exists l: nat | l < n && events[l] == Step(s, Lock) ::
              && s.pid in worlds[l].processes && worlds[l].processes[s.pid].parentId != 0
              && worlds[n].shims[s].record.desktopId == worlds[l].processes[s.pid].parentId
  {
    hide Act, Inv;
    RunKeepsInv(worlds, events, n - 1);
    var w, event := worlds[n - 1], events[n - 1];
    assert Next(w, event) == Some(worlds[n]);
    if event.Step? && event.shim == s {
      RecordKeepsDesktop(w, s, event.action);
      if !w.shims[s].phase.Starting? {
        DesktopIsTheParent(worlds, events, n - 1, s);
      }
    } else {
      assert s in w.shims;
      KnownShimsStay(w, event, worlds[n], s);
      DesktopIsTheParent(worlds, events, n - 1, s);
    }
  }

  lemma RecordKeepsDesktop(w: World, s: Instance, action: Action)
    requires s in w.shims && Alive(w, s) && Act(w, s, action).Some?
    ensures var before, after := w.shims[s], Act(w, s, action).value.shim;
            || after.phase.Done?
            || (!before.phase.Starting? && !before.phase.Done? && after.record.desktopId == before.record.desktopId)
            || (before.phase.Starting? && action.Lock? && w.processes[s.pid].parentId != 0
                && after.record.desktopId == w.processes[s.pid].parentId)
    ensures !Act(w, s, action).value.shim.phase.Starting?
  {
    hide Own, Signal, Takeover;
    var shim := w.shims[s];
    if action.Fail? && Acquiring(shim.phase) {
    } else if Stops(shim.phase) {
      SignalOnlyMoves(w, shim, action, Signal(w, shim, action).value);
    } else if TakingOver(shim.phase) {
      TakeoverKeepsRecord(w, shim, action);
    } else {
      OwnKeepsDesktop(w, s, action);
    }
  }

  lemma TakeoverKeepsRecord(w: World, shim: Shim, action: Action)
    requires Takeover(w, shim, action).Some?
    ensures var after := Takeover(w, shim, action).value.shim;
            after.record == shim.record && !after.phase.Starting?
  {
  }

  lemma OwnKeepsDesktop(w: World, s: Instance, action: Action)
    requires s in w.shims && Alive(w, s) && Own(w, s, w.shims[s], action).Some?
    ensures var before, after := w.shims[s], Own(w, s, w.shims[s], action).value.shim;
            && !before.phase.Done? && !after.phase.Starting?
            && (|| after.phase.Done?
                || (!before.phase.Starting? && after.record.desktopId == before.record.desktopId)
                || (before.phase.Starting? && action.Lock? && w.processes[s.pid].parentId != 0
                    && after.record.desktopId == w.processes[s.pid].parentId))
  {
  }

  // ----- A live owner keeps its record -----

  /** No other live Shim is about to remove a record of `s` as foreign. */
  ghost predicate Spared(w: World, s: Instance) {
    forall t | t in w.shims && Alive(w, t) && (w.shims[t].phase.Comparing? || w.shims[t].phase.Removing?) ::
      !w.shims[t].phase.stopped ==> ShimOf(w.shims[t].phase.owner) != s
  }

  lemma ForeignIsJudged(w: World, t: Instance, action: Action)
    requires t in w.shims && Alive(w, t) && Act(w, t, action).Some?
    ensures var before, after := w.shims[t].phase, Act(w, t, action).value.shim.phase;
            (after.Comparing? || after.Removing?) && !after.stopped ==>
              || (before.Comparing? && before.owner == after.owner && !before.stopped)
              || (before.Judging? && before.owner == after.owner && !w.processes[after.owner.processId].isShim)
  {
    hide Own, Signal;
    var shim := w.shims[t];
    if action.Fail? && Acquiring(shim.phase) {
    } else if Stops(shim.phase) {
      SignalOnlyMoves(w, shim, action, Signal(w, shim, action).value);
    } else if TakingOver(shim.phase) {
    } else {
      OwnOnlyReads(w, t, shim, action);
    }
  }

  lemma ShimsAreSpared(w: World, event: Event, w': World, s: Instance)
    requires Inv(w) && Next(w, event) == Some(w')
    requires Alive(w, s) && w.processes[s.pid].isShim && Spared(w, s)
    ensures Spared(w', s)
  {
    forall t | t in w'.shims && Alive(w', t) && (w'.shims[t].phase.Comparing? || w'.shims[t].phase.Removing?)
      ensures !w'.shims[t].phase.stopped ==> ShimOf(w'.shims[t].phase.owner) != s
    {
      if event.Step? && event.shim == t {
        ForeignIsJudged(w, t, event.action);
      }
      hide Act;
    }
  }

  /** Everyone else's removals spare the record of a live Shim, unless they found it foreign. */
  lemma RecordStays(w: World, event: Event, w': World, s: Instance)
    requires Inv(w) && Next(w, event) == Some(w') && Spared(w, s)
    requires s in w.shims && Alive(w, s) && w.shims[s].phase.Published?
    requires s in w'.shims && w'.shims[s].phase.Published?
    requires w.directory == Stored(w.shims[s].record)
    requires w'.directory != w.directory ==> DirectoryChange(w, event, w')
    ensures w'.directory == w.directory && w'.shims[s] == w.shims[s]
  {
    assert ShimOk(w, s);
    if event.Step? {
      var t := event.shim;
      assert ShimOk(w, t);
      if t == s {
        PublishedOnlyLeaves(w, s, event.action);
      }
      hide Act, Inv;
    } else {
      EnvironmentKeepsInv(w, event, w');
    }
  }

  lemma PublishedOnlyLeaves(w: World, s: Instance, action: Action)
    requires s in w.shims && Alive(w, s) && w.shims[s].phase.Published? && Act(w, s, action).Some?
    ensures !Act(w, s, action).value.shim.phase.Published?
  {
  }

  /** From publication on, the directory holds the record of a Shim for as long as that Shim lives, is a Shim
      and has not given its lease up: nobody else removes or replaces it, whatever the other Shims, Desktops and
      processes do meanwhile. */
  lemma {:induction false} LiveOwnerKeepsItsRecord(
      worlds: seq<World>, events: seq<Event>, i: nat, j: nat, s: Instance)
    requires Run(worlds, events) && Init(worlds[0]) && i < j < |worlds| && events[i] == Step(s, Publish(true))
    requires forall k | i < k <= j ::
               && s in worlds[k].shims && worlds[k].shims[s].phase.Published?
               && Alive(worlds[k], s) && worlds[k].processes[s.pid].isShim
    ensures worlds[j].directory == Stored(worlds[j].shims[s].record)
    ensures worlds[j].shims[s] == worlds[i + 1].shims[s] && Spared(worlds[j], s)
  {
    hide Inv, DirectoryChange, Act, Spared;
    RunKeepsInv(worlds, events, j);
    if j == i + 1 {
      assert Next(worlds[i], events[i]) == Some(worlds[j]);
      PublicationFreesTheLock(worlds[i], s, worlds[j]);
    } else {
      LiveOwnerKeepsItsRecord(worlds, events, i, j - 1, s);
      RunKeepsInv(worlds, events, j - 1);
      if worlds[j].directory != worlds[j - 1].directory {
        DirectoryChangesAreExact(worlds, events, j - 1);
      }
      hide Next, Init;
      RecordStays(worlds[j - 1], events[j - 1], worlds[j], s);
      ShimsAreSpared(worlds[j - 1], events[j - 1], worlds[j], s);
    }
  }

  lemma PublicationFreesTheLock(w: World, s: Instance, w': World)
    requires Next(w, Step(s, Publish(true))) == Some(w') && Inv(w') && w'.shims[s].phase.Published?
    ensures w'.directory == Stored(w'.shims[s].record) && Spared(w', s)
  {
    assert w'.lock == None;
    forall t | t in w'.shims && Alive(w', t) ensures !Holding(w'.shims[t].phase) {
      assert ShimOk(w', t);
    }
  }

  // ----- Every target of a stage is signalled or gone -----

  predicate Pins(phase: Phase) {
    phase.Signalling? || phase.Confirming? || phase.Sending?
  }

  /** At step `k` the target was signalled, or its PID was found free. */
  ghost predicate DealtWith(worlds: seq<World>, events: seq<Event>, k: nat, s: Instance, target: Instance)
    requires k < |worlds| && k < |events|
  {
    && s in worlds[k].shims && Pins(worlds[k].shims[s].phase)
    && worlds[k].shims[s].phase.targets != [] && worlds[k].shims[s].phase.targets[0] == target
    && (|| (events[k] == Step(s, Send) && worlds[k].shims[s].phase.Sending?)
        || ((events[k] == Step(s, Open) || events[k] == Step(s, Confirm))
            && target.pid !in worlds[k].processes))
  }

  function Pending(phase: Phase): seq<Instance> {
    if Pins(phase) then phase.targets else []
  }

  lemma PinningDropsOne(w: World, s: Instance, action: Action, w': World)
    requires Next(w, Step(s, action)) == Some(w') && Pins(w.shims[s].phase)
    ensures var before, after := w.shims[s].phase, w'.shims[s].phase;
            || after.Done?
            || Pending(after) == before.targets
            || (&& before.targets != [] && Pending(after) == before.targets[1..]
                && ((action.Send? && before.Sending?)
                    || ((action.Open? || action.Confirm?) && before.targets[0].pid !in w.processes)))
  {
    hide GroupOf, GroupScan;
  }

  lemma {:induction false} TargetsAreWorkedOff(
      worlds: seq<World>, events: seq<Event>, i: nat, j: nat, s: Instance, target: Instance)
    requires Run(worlds, events) && Init(worlds[0]) && i <= j < |worlds|
    requires forall k | i <= k <= j :: s in worlds[k].shims
    requires forall k | i <= k < j :: Pins(worlds[k].shims[s].phase)
    requires Pins(worlds[i].shims[s].phase) && target in worlds[i].shims[s].phase.targets
    requires !worlds[j].shims[s].phase.Done?
    ensures || target in Pending(worlds[j].shims[s].phase)
            || exists k: nat | i <= k < j :: DealtWith(worlds, events, k, s, target)
  {
    if i < j {
      hide Act, Inv;
      TargetsAreWorkedOff(worlds, events, i, j - 1, s, target);
      RunKeepsInv(worlds, events, j - 1);
      var w, event := worlds[j - 1], events[j - 1];
      var targets := w.shims[s].phase.targets;
      assert Next(w, event) == Some(worlds[j]);
      hide Next, Run, Init;
      if event.Step? && event.shim == s {
        PinningDropsOne(w, s, event.action, worlds[j]);
        if target in targets && target !in Pending(worlds[j].shims[s].phase) {
          assert targets == [targets[0]] + targets[1..];
          assert DealtWith(worlds, events, j - 1, s, target);
        }
      } else {
        KnownShimsStay(w, event, worlds[j], s);
      }
    }
  }

  /** A stage that is left for the next one has dealt with every one of its targets: each was signalled, or its
      PID was free when the Shim came to it. */
  lemma StagesSignalEveryTarget(worlds: seq<World>, events: seq<Event>, i: nat, j: nat, s: Instance)
    requires Run(worlds, events) && Init(worlds[0]) && i < j < |worlds|
    requires forall k | i <= k <= j :: s in worlds[k].shims
    requires forall k | i <= k < j :: Pins(worlds[k].shims[s].phase)
    requires !Pins(worlds[j].shims[s].phase) && !worlds[j].shims[s].phase.Done?
    ensures forall target | target in Pending(worlds[i].shims[s].phase) ::
              exists k: nat | i <= k < j :: DealtWith(worlds, events, k, s, target)
  {
    forall target | target in Pending(worlds[i].shims[s].phase)
      ensures exists k: nat | i <= k < j :: DealtWith(worlds, events, k, s, target)
    {
      TargetsAreWorkedOff(worlds, events, i, j, s, target);
    }
  }
}
