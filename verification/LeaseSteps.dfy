/** What every step of a Shim does in every world it can meet, and when an acquisition or a lease ends. */
module LeaseSteps {
  import opened Options
  import opened OwnerRecords
  import opened LeaseProtocol
  import opened LeaseSafety
  import opened LeaseDecisions

  /** A live Shim in some phase. */
  predicate In(w: World, s: Instance, phase: Phase) {
    s in w.shims && Alive(w, s) && w.shims[s].phase == phase
  }

  function After(w: World, s: Instance, action: Action): Option<World> {
    Next(w, Step(s, action))
  }

  /** Only the phase of the Shim changes. */
  function Moved(w: World, s: Instance, phase: Phase): World
    requires s in w.shims
  {
    w.(shims := w.shims[s := Shim(phase, w.shims[s].record)])
  }

  /** The attempt or the lease ends: the lock is free, nobody is signalled, the directory is as given. */
  function Ended(w: World, s: Instance, directory: Directory): World
    requires s in w.shims
  {
    Moved(w, s, Done).(lock := None, directory := directory)
  }

  // ----- Taking over -----

  lemma JudgeDecides(w: World, s: Instance, owner: OwnerRecord)
    requires In(w, s, Judging(owner))
    ensures !Alive(w, ShimOf(owner)) ==> After(w, s, Judge) == Some(Moved(w, s, Stopping(owner, KillChild(true))))
    ensures Alive(w, ShimOf(owner)) && !w.processes[owner.processId].isShim ==>
              After(w, s, Judge) == Some(Moved(w, s, Comparing(owner, false)))
    ensures Alive(w, ShimOf(owner)) && w.processes[owner.processId].isShim ==>
              After(w, s, Judge) == Some(Moved(w, s, CheckingDesktop(owner)))
  {
  }

  /** Another live Desktop's owner: the attempt ends at once, the directory and all processes as they were. */
  lemma DesktopDecides(w: World, s: Instance, owner: OwnerRecord)
    requires In(w, s, CheckingDesktop(owner))
    ensures OtherDesktopLives(w, s, owner) ==> After(w, s, CheckDesktop) == Some(Ended(w, s, w.directory))
    ensures !OtherDesktopLives(w, s, owner) ==>
              After(w, s, CheckDesktop) == Some(Moved(w, s, Stopping(owner, TerminateShim)))
  {
  }

  /** Waiting ends when Shim and child are both gone; a graceful wait that expires is followed by force, a
      forced one by giving up. */
  lemma WaitDecides(w: World, s: Instance, owner: OwnerRecord, forced: bool, expired: bool, shimGone: bool)
    requires In(w, s, if shimGone then AwaitingChild(owner, forced) else AwaitingShim(owner, forced))
    ensures var live := if shimGone then ChildAlive(w, owner) else Alive(w, ShimOf(owner));
            After(w, s, Observe(expired)) == Some(
              if live && !expired then Moved(w, s, AwaitingShim(owner, forced))
              else if live && forced then Ended(w, s, w.directory)
              else if live then Moved(w, s, Stopping(owner, KillChild(false)))
              else if shimGone then Moved(w, s, Comparing(owner, true))
              else Moved(w, s, AwaitingChild(owner, forced)))
  {
  }

  /** Only the very record that was judged is removed... */
  lemma CompareDecides(w: World, s: Instance, owner: OwnerRecord, stopped: bool)
    requires In(w, s, Comparing(owner, stopped))
    ensures After(w, s, Compare)
            == Some(Moved(w, s, if w.directory == Stored(owner) then Removing(owner, stopped) else Looking))
  {
  }

  /** ...and a removal that fails ends the attempt. */
  lemma RemovalDecides(w: World, s: Instance, owner: OwnerRecord, stopped: bool, result: Removal)
    requires In(w, s, Removing(owner, stopped))
    ensures var retired := if stopped then w.retired + {owner} else w.retired;
            After(w, s, Remove(result)) == Some(
              match result
              case Removed => Moved(w, s, Looking).(directory := Absent, retired := retired)
              case Kept => Ended(w, s, w.directory)
              case Emptied => Ended(w, s, Unreadable))
  {
  }

  // ----- Signalling -----

  /** A recorded instance is looked up by its PID and its start time; one that is gone is passed over. */
  lemma LookUpDecides(w: World, s: Instance, owner: OwnerRecord, stage: Stage)
    requires In(w, s, Stopping(owner, stage))
    ensures stage == TerminateShim || stage == KillShim ==>
              After(w, s, LookUp) == Some(Moved(w, s,
                if Alive(w, ShimOf(owner)) then Signalling(owner, stage, [ShimOf(owner)])
                else AwaitingShim(owner, stage == KillShim)))
    ensures stage.KillChild? ==>
              After(w, s, LookUp) == Some(Moved(w, s,
                if ChildAlive(w, owner) then ReadingGroup(owner, stage.orphan)
                else if stage.orphan then AwaitingShim(owner, true)
                else Stopping(owner, KillShim)))
  {
  }

  /** The child's group is read once more, and then scanned for its live members not older than the child. */
  lemma GroupDecides(w: World, s: Instance, owner: OwnerRecord, orphan: bool, groupId: nat, members: seq<Instance>)
    ensures In(w, s, ReadingGroup(owner, orphan)) ==>
              After(w, s, ReadGroup) == Some(Moved(w, s,
                if ChildAlive(w, owner) then
                  ScanningGroup(owner, orphan, w.processes[owner.childProcessId.value].groupId)
                else if orphan then AwaitingShim(owner, true)
                else Stopping(owner, KillShim)))
    ensures In(w, s, ScanningGroup(owner, orphan, groupId)) && ChildOf(owner).Some? ==>
              (After(w, s, ScanGroup(members)).Some? <==>
                forall i :: i in members <==>
                  && Alive(w, i) && w.processes[i.pid].groupId == groupId
                  && i.startedAt >= owner.childStartedAt.value)
    ensures In(w, s, ScanningGroup(owner, orphan, groupId)) && After(w, s, ScanGroup(members)).Some? ==>
              After(w, s, ScanGroup(members)).value == Moved(w, s, Signalling(owner, KillChild(orphan), members))
  {
    if In(w, s, ScanningGroup(owner, orphan, groupId)) && ChildOf(owner).Some? {
      GroupScanLists(w, ChildOf(owner).value, groupId, members);
      hide GroupScan;
    }
  }

  lemma GroupScanLists(w: World, child: Instance, groupId: nat, members: seq<Instance>)
    ensures GroupScan(w, child, groupId, members) <==>
            forall i :: i in members <==>
              Alive(w, i) && w.processes[i.pid].groupId == groupId && i.startedAt >= child.startedAt
  {
    var listed := set m | m in members;
    forall i ensures i in GroupOf(w, child, groupId) <==>
        Alive(w, i) && w.processes[i.pid].groupId == groupId && i.startedAt >= child.startedAt
    {
    }
    assert forall i :: i in listed <==> i in members;
    if forall i :: i in members <==> i in GroupOf(w, child, groupId) {
      assert listed == GroupOf(w, child, groupId);
    } else {
      var i :| !(i in members <==> i in GroupOf(w, child, groupId));
      assert i in listed <==> i in members;
    }
  }

  /** A target is signalled through a handle on whatever runs under its PID... */
  lemma OpenDecides(w: World, s: Instance, owner: OwnerRecord, stage: Stage, targets: seq<Instance>)
    requires In(w, s, Signalling(owner, stage, targets)) && targets != []
    ensures var pid := targets[0].pid;
            After(w, s, Open) == Some(Moved(w, s,
              if pid in w.processes then Confirming(owner, stage, targets, Instance(pid, w.processes[pid].startedAt))
              else Signalling(owner, stage, targets[1..])))
  {
    hide GroupOf, GroupScan;
  }

  /** ...once that is confirmed to be the target; another process under its PID ends the attempt. */
  lemma ConfirmDecides(
      w: World, s: Instance, owner: OwnerRecord, stage: Stage, targets: seq<Instance>, handle: Instance)
    requires In(w, s, Confirming(owner, stage, targets, handle)) && targets != []
    ensures After(w, s, Confirm) == Some(
              if Alive(w, targets[0]) then Moved(w, s, Sending(owner, stage, targets, handle))
              else if targets[0].pid in w.processes then Ended(w, s, w.directory)
              else Moved(w, s, Signalling(owner, stage, targets[1..])))
  {
    hide GroupOf, GroupScan;
  }

  /** After the signal comes the next target, and after the last one the stage that follows. */
  lemma SendDecides(
      w: World, s: Instance, owner: OwnerRecord, stage: Stage, targets: seq<Instance>, handle: Instance)
    ensures In(w, s, Sending(owner, stage, targets, handle)) && targets != [] ==>
              After(w, s, Send) == Some(Moved(w, s, Signalling(owner, stage, targets[1..])))
    ensures In(w, s, Signalling(owner, stage, [])) ==>
              After(w, s, Open) == Some(Moved(w, s,
                match stage
                case TerminateShim => AwaitingShim(owner, false)
                case KillChild(orphan) => if orphan then AwaitingShim(owner, true) else Stopping(owner, KillShim)
                case KillShim => AwaitingShim(owner, true)))
  {
    hide GroupOf, GroupScan;
  }

  // ----- The own lease -----

  /** The Desktop of a Shim is its parent when it takes the lock; without one the attempt ends. */
  lemma LockDecides(w: World, s: Instance)
    requires In(w, s, Starting)
    ensures After(w, s, Lock).Some? <==> w.lock == None
    ensures w.lock == None && w.processes[s.pid].parentId != 0 ==>
              var record := OwnerRecord(s.pid, s.startedAt, w.processes[s.pid].parentId, None, None);
              After(w, s, Lock) == Some(w.(lock := Some(s), shims := w.shims[s := Shim(Looking, record)]))
    ensures w.lock == None && w.processes[s.pid].parentId == 0 ==>
              After(w, s, Lock) == Some(Ended(w, s, w.directory))
  {
  }

  /** Creating the directory... */
  lemma CreateDecides(w: World, s: Instance, ok: bool)
    requires In(w, s, Looking)
    ensures After(w, s, Create(ok)) == Some(
              if !ok then Ended(w, s, w.directory)
              else if w.directory == Absent then Moved(w, s, Made).(directory := Unreadable)
              else Moved(w, s, Reading))
  {
  }

  /** ...and writing the own record into it. */
  lemma WriteDecides(w: World, s: Instance, ok: bool, cleaned: bool)
    ensures In(w, s, Made) ==>
              After(w, s, WriteOwn(ok, cleaned)) == Some(
                if ok then Moved(w, s, Wrote).(directory := Stored(w.shims[s].record))
                else Ended(w, s, if cleaned then Absent else w.directory))
    ensures In(w, s, Wrote) ==> After(w, s, RetireLegacy(ok)) == Some(Moved(w, s, if ok then Held else Dropping))
  {
  }

  /** A readable record is judged unless it names the reader's own PID; an unreadable one is discarded only
      when the grace period has ended. */
  lemma ReadDecides(w: World, s: Instance, expired: bool)
    ensures In(w, s, Reading) && w.directory.Stored? ==>
              After(w, s, Read(expired)) == Some(
                if w.directory.owner.processId == s.pid then Ended(w, s, w.directory)
                else Moved(w, s, Judging(w.directory.owner)))
    ensures In(w, s, Reading) && !w.directory.Stored? ==>
              After(w, s, Read(expired)) == Some(Moved(w, s, if expired then Discarding else Reading))
    ensures In(w, s, Discarding) ==> After(w, s, Discard) == Some(Moved(w, s, Looking).(directory := Absent))
  {
  }

  /** Publication stores the own record with the instance that runs under the child's PID, and frees the lock. */
  lemma PublishDecides(w: World, s: Instance, childPid: nat, ok: bool)
    ensures In(w, s, Held) ==>
              After(w, s, Check(childPid)) == Some(Moved(w, s,
                if w.directory == Stored(w.shims[s].record) then Checked(childPid) else Dropping))
    ensures In(w, s, Checked(childPid)) && childPid !in w.processes ==>
              After(w, s, Publish(ok)) == Some(Moved(w, s, Dropping))
    ensures In(w, s, Checked(childPid)) && childPid in w.processes ==>
              var record := w.shims[s].record.(childProcessId := Some(childPid),
                childStartedAt := Some(w.processes[childPid].startedAt));
              After(w, s, Publish(ok)) == Some(
                if ok then
                  w.(shims := w.shims[s := Shim(Published, record)], directory := Stored(record), lock := None)
                else w.(shims := w.shims[s := Shim(Dropping, record)]))
  {
  }

  /** Giving the lease up: under the lock, and without waiting for it. */
  lemma DropDecides(w: World, s: Instance)
    ensures In(w, s, Held) ==> After(w, s, Fail) == Some(Moved(w, s, Dropping))
    ensures In(w, s, Published) ==>
              After(w, s, Fail)
              == Some(if w.lock == None then Moved(w, s, Dropping).(lock := Some(s)) else Moved(w, s, Done))
  {
  }

  /** A lease given up never takes another owner's record with it. */
  lemma DropCompareDecides(w: World, s: Instance)
    requires In(w, s, Dropping)
    ensures After(w, s, Compare)
            == Some(if w.directory == Stored(w.shims[s].record) then Moved(w, s, DropRemoving)
                    else Ended(w, s, w.directory))
  {
  }

  lemma DropRemovalDecides(w: World, s: Instance, result: Removal)
    requires In(w, s, DropRemoving)
    ensures After(w, s, Remove(result)) == Some(Ended(w, s,
              match result case Removed => Absent case Kept => w.directory case Emptied => Unreadable))
  {
  }

  // ----- When an attempt or a lease ends -----

  /** Every way an attempt or a lease can end. */
  predicate EndsWith(w: World, s: Instance, action: Action)
    requires s in w.shims && Alive(w, s)
  {
    var phase := w.shims[s].phase;
    || (phase.Starting? && action.Lock? && w.lock == None && w.processes[s.pid].parentId == 0)
    || (action.Fail? && (phase.Looking? || phase.Reading? || phase.Discarding? || TakingOver(phase)))
    || (phase.Looking? && action == Create(false))
    || (phase.Made? && action.WriteOwn? && !action.ok)
    || (phase.Reading? && action.Read? && w.directory.Stored? && w.directory.owner.processId == s.pid)
    || (phase.CheckingDesktop? && action.CheckDesktop? && OtherDesktopLives(w, s, phase.owner))
    || (phase.Confirming? && action.Confirm? && phase.targets != [] && phase.targets[0].pid in w.processes
        && !Alive(w, phase.targets[0]))
    || (phase.AwaitingShim? && phase.forced && action == Observe(true) && Alive(w, ShimOf(phase.owner)))
    || (phase.AwaitingChild? && phase.forced && action == Observe(true) && ChildAlive(w, phase.owner))
    || (phase.Removing? && action.Remove? && !action.result.Removed?)
    || (phase.Published? && action.Fail? && w.lock.Some?)
    || (phase.Dropping? && action.Compare? && w.directory != Stored(w.shims[s].record))
    || (phase.DropRemoving? && action.Remove?)
  }

  lemma OwnEndsExactly(w: World, s: Instance, action: Action)
    requires s in w.shims && Alive(w, s) && !TakingOver(w.shims[s].phase)
    requires !(action.Fail? && Acquiring(w.shims[s].phase))
    ensures EndsWith(w, s, action) <==>
            Own(w, s, w.shims[s], action).Some? && Own(w, s, w.shims[s], action).value.shim.phase.Done?
  {
  }

  lemma TakeoverEndsExactly(w: World, s: Instance, action: Action)
    requires s in w.shims && Alive(w, s) && TakingOver(w.shims[s].phase) && !Stops(w.shims[s].phase) && !action.Fail?
    ensures EndsWith(w, s, action) <==>
            Takeover(w, w.shims[s], action).Some? && Takeover(w, w.shims[s], action).value.shim.phase.Done?
  {
  }

  lemma SignalEndsExactly(w: World, s: Instance, action: Action)
    requires s in w.shims && Alive(w, s) && Stops(w.shims[s].phase) && !action.Fail?
    ensures EndsWith(w, s, action) <==>
            Signal(w, w.shims[s], action).Some? && Signal(w, w.shims[s], action).value.shim.phase.Done?
  {
    hide GroupOf, GroupScan;
  }

  /** Attempts and leases end in exactly these ways, and a Shim whose attempt has ended takes no further step. */
  lemma EndsExactly(w: World, s: Instance, action: Action, w': World)
    requires Next(w, Step(s, action)) == Some(w')
    ensures w'.shims[s].phase.Done? <==> EndsWith(w, s, action)
    ensures !w.shims[s].phase.Done?
  {
    hide Own, Signal, Takeover, EndsWith;
    var phase := w.shims[s].phase;
    if phase.Done? {
      OwnStaysDone(w, s, w.shims[s], action);
    } else if action.Fail? && Acquiring(phase) {
      FailureEnds(w, s);
    } else if Stops(phase) {
      SignalEndsExactly(w, s, action);
    } else if TakingOver(phase) {
      TakeoverEndsExactly(w, s, action);
    } else {
      OwnEndsExactly(w, s, action);
    }
  }

  lemma FailureEnds(w: World, s: Instance)
    requires s in w.shims && Alive(w, s) && Acquiring(w.shims[s].phase)
    ensures EndsWith(w, s, Fail)
  {
  }
}
