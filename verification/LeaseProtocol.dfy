/** The Local Host Runtime lease as a protocol between any number of lock-using Shims and the operating
    system: processes start, exit and have their PIDs reused at any point between two Shim steps. */
module LeaseProtocol {
  import opened Options
  import opened OwnerRecords

  // ----- State -----

  datatype Instance = Instance(pid: nat, startedAt: nat)

  /** A live process. `isShim` says that its executable has the Shim's file name. */
  datatype Process = Process(startedAt: nat, parentId: nat, groupId: nat, isShim: bool)

  /** The owner directory: no directory, a directory without a decodable record, or a record. */
  datatype Directory = Absent | Unreadable | Stored(owner: OwnerRecord)

  /** The signals of a takeover, in the order they are sent. An orphaned child needs only the second. */
  datatype Stage = TerminateShim | KillChild(orphan: bool) | KillShim

  datatype Phase =
    | Starting                                       // has not asked for the lock
    | Looking                                        // holds the lock, about to create the directory
    | Made                                           // created the directory, no record yet
    | Wrote                                          // own record written, legacy owner not yet retired
    | Held                                           // acquire has returned; no child published
    | Checked(childPid: nat)                         // own record compared, child about to be published
    | Published                                      // child published and lock released
    | Reading                                        // the directory exists; reading it with grace
    | Discarding                                     // the directory stayed undecodable
    | Judging(owner: OwnerRecord)                    // record read, Shim state not yet known
    | CheckingDesktop(owner: OwnerRecord)            // valid Shim; is its Desktop another live one?
    | Stopping(owner: OwnerRecord, stage: Stage)     // about to look up the stage's target
    | ReadingGroup(owner: OwnerRecord, orphan: bool) // child matched; re-reading it for its group
    | ScanningGroup(owner: OwnerRecord, orphan: bool, groupId: nat)
    | Signalling(owner: OwnerRecord, stage: Stage, targets: seq<Instance>)
    | Confirming(owner: OwnerRecord, stage: Stage, targets: seq<Instance>, handle: Instance)
    | Sending(owner: OwnerRecord, stage: Stage, targets: seq<Instance>, handle: Instance)
    | AwaitingShim(owner: OwnerRecord, forced: bool)
    | AwaitingChild(owner: OwnerRecord, forced: bool)
    | Comparing(owner: OwnerRecord, stopped: bool)   // about to compare before removal
    | Removing(owner: OwnerRecord, stopped: bool)    // compared equal, about to remove
    | Dropping                                       // giving the lease up under the lock
    | DropRemoving                                   // compared equal to the own record
    | Done

  datatype Shim = Shim(phase: Phase, record: OwnerRecord)

  datatype World = World(
    processes: map<nat, Process>,
    used: set<Instance>,        // instances that cannot start any more: their start time lies in the past
    lock: Option<Instance>,
    directory: Directory,
    shims: map<Instance, Shim>,
    retired: set<OwnerRecord>)  // history: every owner removed after it was stopped

  function ShimOf(owner: OwnerRecord): Instance {
    Instance(owner.processId, owner.processStartedAt)
  }

  function ChildOf(owner: OwnerRecord): Option<Instance> {
    if owner.childProcessId.Some? && owner.childStartedAt.Some?
    then Some(Instance(owner.childProcessId.value, owner.childStartedAt.value))
    else None
  }

  predicate Alive(w: World, i: Instance) {
    i.pid in w.processes && w.processes[i.pid].startedAt == i.startedAt
  }

  function At(w: World, pid: nat): Option<Instance> {
    if pid in w.processes then Some(Instance(pid, w.processes[pid].startedAt)) else None
  }

  predicate ChildAlive(w: World, owner: OwnerRecord) {
    ChildOf(owner).Some? && Alive(w, ChildOf(owner).value)
  }

  /** The phases in which a Shim holds the mutation lock. */
  predicate Holding(phase: Phase) {
    !phase.Starting? && !phase.Published? && !phase.Done?
  }

  // ----- Shim steps -----

  datatype Action =
    | Lock
    | Fail                                          // an error return, or the lease is dropped
    | Create(ok: bool)
    | WriteOwn(ok: bool, cleaned: bool)             // a failed write tries to remove the directory again
    | RetireLegacy(ok: bool)
    | Check(childPid: nat)
    | Publish(ok: bool)
    | Read(expired: bool)
    | Discard
    | Judge
    | CheckDesktop
    | LookUp
    | ReadGroup
    | ScanGroup(members: seq<Instance>)
    | Open
    | Confirm
    | Send
    | Observe(expired: bool)
    | Compare
    | Remove(result: Removal)

  /** How a recursive removal ends: done, or failed with the record still there or already gone. */
  datatype Removal = Removed | Kept | Emptied

  function AfterRemoval(directory: Directory, result: Removal): Directory {
    match result
    case Removed => Absent
    case Kept => directory
    case Emptied => Unreadable
  }

  /** What one step leaves behind: the Shim's own state, the directory, the lock and the history. */
  datatype Effect = Effect(shim: Shim, directory: Directory, lock: Option<Instance>, retired: set<OwnerRecord>)

  function Move(w: World, shim: Shim, phase: Phase): Effect {
    Effect(shim.(phase := phase), w.directory, w.lock, w.retired)
  }

  function Release(w: World, shim: Shim): Effect {
    Move(w, shim, Done).(lock := None)
  }

  function AfterStage(owner: OwnerRecord, stage: Stage): Phase {
    match stage
    case TerminateShim => AwaitingShim(owner, false)
    case KillChild(orphan) => if orphan then AwaitingShim(owner, true) else Stopping(owner, KillShim)
    case KillShim => AwaitingShim(owner, true)
  }

  function OwnRecord(s: Instance, desktopId: nat): OwnerRecord {
    OwnerRecord(s.pid, s.startedAt, desktopId, None, None)
  }

  /** One recorded-process lookup: the stage's target, when its PID still has the recorded start time. */
  function Target(w: World, owner: OwnerRecord, stage: Stage): Option<Instance> {
    var recorded := if stage.KillChild? then ChildOf(owner) else Some(ShimOf(owner));
    if recorded.Some? && Alive(w, recorded.value) then recorded else None
  }

  /** The live processes of a group that are not older than the child. */
  function GroupOf(w: World, child: Instance, groupId: nat): set<Instance> {
    set pid | pid in w.processes && w.processes[pid].groupId == groupId && w.processes[pid].startedAt >= child.startedAt
      :: Instance(pid, w.processes[pid].startedAt)
  }

  /** A scan lists them in some order. */
  predicate GroupScan(w: World, child: Instance, groupId: nat, members: seq<Instance>) {
    (set m | m in members) == GroupOf(w, child, groupId)
  }

  /** Phases in which an I/O or inspection error simply ends acquisition. */
  predicate Acquiring(phase: Phase) {
    phase.Looking? || phase.Reading? || phase.Discarding? || TakingOver(phase)
  }

  /** Phases that act on another owner's record. */
  predicate TakingOver(phase: Phase) {
    || Stops(phase) || phase.Judging? || phase.CheckingDesktop? || phase.AwaitingShim? || phase.AwaitingChild?
      || phase.Comparing? || phase.Removing?
  }

  /** The grace period ends: force after a graceful wait, give up after a forced one. */
  function Expire(w: World, shim: Shim, owner: OwnerRecord, forced: bool, expired: bool): Effect {
    if !expired then Move(w, shim, AwaitingShim(owner, forced))
    else if forced then Release(w, shim)
    else Move(w, shim, Stopping(owner, KillChild(false)))
  }

  /** The Shim's actions on its own lease; None when the action is not possible now. */
  function Own(w: World, s: Instance, shim: Shim, action: Action): Option<Effect>
    requires Alive(w, s)
  {
    var acquired := Acquire(w, s, shim, action);
    if acquired.Some? then acquired else Hold(w, s, shim, action)
  }

  /** Acquiring: the lock, the directory, the own record, or somebody else's record to read. */
  function Acquire(w: World, s: Instance, shim: Shim, action: Action): Option<Effect>
    requires Alive(w, s)
  {
    match (shim.phase, action)
    case (Starting, Lock) =>
      if w.lock.Some? then None
      else if w.processes[s.pid].parentId == 0 then Some(Move(w, shim, Done))
      else Some(Effect(Shim(Looking, OwnRecord(s, w.processes[s.pid].parentId)), w.directory, Some(s), w.retired))
    case (Looking, Create(ok)) =>
      if !ok then Some(Release(w, shim))
      else if w.directory.Absent? then Some(Move(w, shim, Made).(directory := Unreadable))
      else Some(Move(w, shim, Reading))
    case (Made, WriteOwn(ok, cleaned)) =>
      if ok then Some(Move(w, shim, Wrote).(directory := Stored(shim.record)))
      else Some(Release(w, shim).(directory := if cleaned then Absent else w.directory))
    case (Wrote, RetireLegacy(ok)) => Some(Move(w, shim, if ok then Held else Dropping))
    case (Reading, Read(expired)) =>
      if w.directory.Stored? then
        Some(if w.directory.owner.processId == s.pid then Release(w, shim)
            else Move(w, shim, Judging(w.directory.owner)))
      else Some(if expired then Move(w, shim, Discarding) else Move(w, shim, Reading))
    case (Discarding, Discard) => Some(Move(w, shim, Looking).(directory := Absent))
    case _ => None
  }

  /** Publishing the child and giving the lease up. */
  function Hold(w: World, s: Instance, shim: Shim, action: Action): Option<Effect>
    requires Alive(w, s)
  {
    match (shim.phase, action)
    case (Held, Check(childPid)) =>
      Some(Move(w, shim, if w.directory == Stored(shim.record) then Checked(childPid) else Dropping))
    case (Held, Fail) => Some(Move(w, shim, Dropping))
    case (Checked(childPid), Publish(ok)) =>
      if At(w, childPid).None? then Some(Move(w, shim, Dropping))
      else
        var startedAt := At(w, childPid).value.startedAt;
        var record := shim.record.(childProcessId := Some(childPid), childStartedAt := Some(startedAt));
        Some(if ok then Effect(Shim(Published, record), Stored(record), None, w.retired)
             else Effect(Shim(Dropping, record), w.directory, w.lock, w.retired))
    case (Published, Fail) =>
      Some(if w.lock.None? then Move(w, shim, Dropping).(lock := Some(s)) else Move(w, shim, Done))
    case (Dropping, Compare) =>
      Some(if w.directory == Stored(shim.record) then Move(w, shim, DropRemoving) else Release(w, shim))
    case (DropRemoving, Remove(result)) => Some(Release(w, shim).(directory := AfterRemoval(w.directory, result)))
    case _ => None
  }

  /** Finding the targets of one stage and signalling each through a handle that pins its process. */
  function Signal(w: World, shim: Shim, action: Action): Option<Effect> {
    match (shim.phase, action)
    case (Stopping(owner, stage), LookUp) =>
      var target := Target(w, owner, stage);
      if target.None? then Some(Move(w, shim, AfterStage(owner, stage)))
      else if stage.KillChild? then Some(Move(w, shim, ReadingGroup(owner, stage.orphan)))
      else Some(Move(w, shim, Signalling(owner, stage, [target.value])))
    case (ReadingGroup(owner, orphan), ReadGroup) =>
      if ChildAlive(w, owner) then
        Some(Move(w, shim, ScanningGroup(owner, orphan, w.processes[ChildOf(owner).value.pid].groupId)))
      else Some(Move(w, shim, AfterStage(owner, KillChild(orphan))))
    case (ScanningGroup(owner, orphan, groupId), ScanGroup(members)) =>
      if ChildOf(owner).Some? && GroupScan(w, ChildOf(owner).value, groupId, members) then
        Some(Move(w, shim, Signalling(owner, KillChild(orphan), members)))
      else None
    case (Signalling(owner, stage, targets), Open) =>
      if targets == [] then Some(Move(w, shim, AfterStage(owner, stage)))
      else if At(w, targets[0].pid).None? then Some(Move(w, shim, Signalling(owner, stage, targets[1..])))
      else Some(Move(w, shim, Confirming(owner, stage, targets, At(w, targets[0].pid).value)))
    case (Confirming(owner, stage, targets, handle), Confirm) =>
      if targets == [] then None
      else if At(w, targets[0].pid).None? then Some(Move(w, shim, Signalling(owner, stage, targets[1..])))
      else if At(w, targets[0].pid).value != targets[0] then Some(Release(w, shim))
      else Some(Move(w, shim, Sending(owner, stage, targets, handle)))
    case (Sending(owner, stage, targets, handle), Send) =>
      if targets == [] then None else Some(Move(w, shim, Signalling(owner, stage, targets[1..])))
    case _ => None
  }

  predicate Stops(phase: Phase) {
    || phase.Stopping? || phase.ReadingGroup? || phase.ScanningGroup?
    || phase.Signalling? || phase.Confirming? || phase.Sending?
  }

  /** Judging, awaiting and removing the owner that is in the way. */
  function Takeover(w: World, shim: Shim, action: Action): Option<Effect> {
    match (shim.phase, action)
    case (Judging(owner), Judge) =>
      if !Alive(w, ShimOf(owner)) then Some(Move(w, shim, Stopping(owner, KillChild(true))))
      else if !w.processes[owner.processId].isShim then Some(Move(w, shim, Comparing(owner, false)))
      else Some(Move(w, shim, CheckingDesktop(owner)))
    case (CheckingDesktop(owner), CheckDesktop) =>
      if owner.desktopId != shim.record.desktopId && owner.desktopId != 1 && owner.desktopId in w.processes then
        Some(Release(w, shim))
      else Some(Move(w, shim, Stopping(owner, TerminateShim)))
    case (AwaitingShim(owner, forced), Observe(expired)) =>
      if !Alive(w, ShimOf(owner)) then Some(Move(w, shim, AwaitingChild(owner, forced)))
      else Some(Expire(w, shim, owner, forced, expired))
    case (AwaitingChild(owner, forced), Observe(expired)) =>
      if !ChildAlive(w, owner) then Some(Move(w, shim, Comparing(owner, true)))
      else Some(Expire(w, shim, owner, forced, expired))
    case (Comparing(owner, stopped), Compare) =>
      Some(Move(w, shim, if w.directory == Stored(owner) then Removing(owner, stopped) else Looking))
    case (Removing(owner, stopped), Remove(result)) =>
      if !result.Removed? then Some(Release(w, shim).(directory := AfterRemoval(w.directory, result)))
      else
        var retired := if stopped then w.retired + {owner} else w.retired;
        Some(Move(w, shim, Looking).(directory := Absent, retired := retired))
    case _ => None
  }

  /** One action of a live Shim. */
  function Act(w: World, s: Instance, action: Action): Option<Effect>
    requires s in w.shims && Alive(w, s)
  {
    var shim := w.shims[s];
    if action.Fail? && Acquiring(shim.phase) then Some(Release(w, shim))
    else if Stops(shim.phase) then Signal(w, shim, action)
    else if TakingOver(shim.phase) then Takeover(w, shim, action)
    else Own(w, s, shim, action)
  }

  function Commit(w: World, s: Instance, effect: Effect): World {
    w.(shims := w.shims[s := effect.shim], directory := effect.directory, lock := effect.lock,
      retired := effect.retired)
  }

  // ----- Environment steps -----

  datatype Event =
    | Step(shim: Instance, action: Action)
    | Start(pid: nat, process: Process, runsShim: bool) // any process starts; some of them are contenders
    | Exit(pid: nat)                                    // exit or crash; the system releases its lock
    | Change(pid: nat, parentId: nat, groupId: nat, isShim: bool) // reparenting, regrouping, exec

  function Next(w: World, event: Event): Option<World> {
    match event
    case Step(s, action) =>
      if s in w.shims && Alive(w, s) && Act(w, s, action).Some?
      then Some(Commit(w, s, Act(w, s, action).value)) else None
    case Start(pid, process, runsShim) =>
      var i := Instance(pid, process.startedAt);
      if pid in w.processes || i in w.used then None
      else Some(w.(
        processes := w.processes[pid := process],
        used := w.used + {i},
        shims := if runsShim then w.shims[i := Shim(Starting, OwnRecord(i, 0))] else w.shims))
    case Exit(pid) =>
      if pid !in w.processes then None
      else Some(w.(processes := w.processes - {pid}, lock := if w.lock == At(w, pid) then None else w.lock))
    case Change(pid, parentId, groupId, isShim) =>
      if pid !in w.processes then None
      else Some(w.(processes := w.processes[pid := Process(w.processes[pid].startedAt, parentId, groupId, isShim)]))
  }

  /** A run that takes every one of its events. */
  ghost predicate Run(worlds: seq<World>, events: seq<Event>) {
    && |worlds| == |events| + 1
    && forall i | 0 <= i < |events| :: Next(worlds[i], events[i]) == Some(worlds[i + 1])
  }

  /** No Shim runs yet; an owner record left behind has start times in the past, whether or not the instances
      it names ever lived. */
  ghost predicate Init(w: World) {
    && w.lock == None
    && w.shims == map[]
    && w.retired == {}
    && (forall pid | pid in w.processes :: Instance(pid, w.processes[pid].startedAt) in w.used)
    && (w.directory.Stored? ==> Recorded(w, w.directory.owner))
  }

  ghost predicate Recorded(w: World, owner: OwnerRecord) {
    && ShimOf(owner) in w.used
    && (ChildOf(owner).Some? ==> ChildOf(owner).value in w.used)
  }
}
