/** The ledger of owned process instances, refreshed frame by frame. */
module OwnershipLedger {
  import opened Options
  import opened Processes
  import opened ProcessLineage

  datatype Platform = MacOS | Linux

  datatype RootExecutablePolicy = Fixed | FollowSameProcess

  datatype ObserveError =
    | RootReused(id: nat)
    | RootExecutableChanged(id: nat)
    | UnattributedGroupMember(id: nat)

  type Observation = Result<seq<ProcessSnapshot>, ObserveError>

  /** The fields of one observed process tree. */
  datatype Ledger = Ledger(
    root: ProcessSnapshot,
    known: seq<ProcessSnapshot>,
    group: Option<nat>,
    groupStartedAt: nat,
    policy: RootExecutablePolicy)

  // ----- Construction -----

  function NewWithOwnedProcesses(
      root: ProcessSnapshot, group: Option<nat>, groupStartedAt: Option<nat>, known: seq<ProcessSnapshot>): Ledger
  {
    Ledger(
      root,
      if FindInstance(known, root).Some? then known else known + [root],
      group,
      if groupStartedAt.Some? then groupStartedAt.value else root.startedAt,
      Fixed)
  }

  function New(root: ProcessSnapshot): Ledger {
    NewWithOwnedProcesses(root, if root.groupId == root.id then Some(root.groupId) else None, None, [])
  }

  function NewFollowingRootExec(root: ProcessSnapshot): Ledger {
    New(root).(policy := FollowSameProcess)
  }

  // ----- One observation, as a function of the ledger and the frame -----

  /** Exited and replaced instances are forgotten; the root entry is kept even when it is absent. */
  function Refresh(known: seq<ProcessSnapshot>, rootId: nat, snapshots: seq<ProcessSnapshot>): seq<ProcessSnapshot> {
    if known == [] then []
    else
      var rest := Refresh(known[1..], rootId, snapshots);
      if known[0].id == rootId then
        [if FindId(snapshots, rootId).Some? then FindId(snapshots, rootId).value else known[0]] + rest
      else if FindInstance(snapshots, known[0]).Some? then
        [FindInstance(snapshots, known[0]).value] + rest
      else rest
  }

  predicate LateGroupMember(group: nat, startedAt: nat, s: ProcessSnapshot) {
    s.startedAt >= startedAt && s.groupId == group
  }

  function GroupMembers(group: nat, startedAt: nat, snapshots: seq<ProcessSnapshot>): seq<ProcessSnapshot> {
    if snapshots == [] then []
    else
      var rest := GroupMembers(group, startedAt, snapshots[1..]);
      if LateGroupMember(group, startedAt, snapshots[0]) then [snapshots[0]] + rest else rest
  }

  /** The first group member that is neither an owned instance nor in the permitted lineage. */
  function FirstForeign(
      members: seq<ProcessSnapshot>, known: seq<ProcessSnapshot>, permitted: seq<ProcessSnapshot>)
    : (foreign: Option<ProcessSnapshot>)
    ensures foreign.Some? ==> foreign.value in members && FindInstance(known, foreign.value).None?
                              && FindInstance(permitted, foreign.value).None?
    ensures foreign.None? ==> forall m | m in members ::
              FindInstance(known, m).Some? || FindInstance(permitted, m).Some?
  {
    if members == [] then None
    else if FindInstance(known, members[0]).None? && FindInstance(permitted, members[0]).None? then Some(members[0])
    else FirstForeign(members[1..], known, permitted)
  }

  /** First entry per PID wins. */
  function Adopt(known: seq<ProcessSnapshot>, observed: seq<ProcessSnapshot>): seq<ProcessSnapshot>
    decreases observed
  {
    if observed == [] then known
    else if FindId(known, observed[0].id).Some? then Adopt(known, observed[1..])
    else Adopt(known + [observed[0]], observed[1..])
  }

  function Live(known: seq<ProcessSnapshot>, snapshots: seq<ProcessSnapshot>): seq<ProcessSnapshot> {
    if known == [] then []
    else
      var rest := Live(known[1..], snapshots);
      if FindInstance(snapshots, known[0]).Some? then [FindInstance(snapshots, known[0]).value] + rest else rest
  }

  function RootCheck(ledger: Ledger, snapshots: seq<ProcessSnapshot>): Option<ObserveError> {
    var current := FindId(snapshots, ledger.root.id);
    if current.None? then None
    else if !SameInstance(ledger.root, current.value) then Some(RootReused(ledger.root.id))
    else if current.value.executable != ledger.root.executable && ledger.policy.Fixed? then
      Some(RootExecutableChanged(ledger.root.id))
    else None
  }

  function FollowRoot(root: ProcessSnapshot, snapshots: seq<ProcessSnapshot>): ProcessSnapshot {
    var current := FindId(snapshots, root.id);
    if current.Some? then root.(executable := current.value.executable) else root
  }

  function GroupCandidates(ledger: Ledger, snapshots: seq<ProcessSnapshot>): seq<ProcessSnapshot> {
    if ledger.group.Some? then GroupMembers(ledger.group.value, ledger.groupStartedAt, snapshots) else []
  }

  function Observe(ledger: Ledger, platform: Platform, snapshots: seq<ProcessSnapshot>): (Ledger, Observation) {
    var rootError := RootCheck(ledger, snapshots);
    if rootError.Some? then (ledger, Failure(rootError.value))
    else
      var refreshed := Refresh(ledger.known, ledger.root.id, snapshots);
      var ledger' := ledger.(root := FollowRoot(ledger.root, snapshots), known := refreshed);
      var lineage := Descendants(IdSet(refreshed), snapshots);
      var members := GroupCandidates(ledger, snapshots);
      var foreign := FirstForeign(members, refreshed, lineage);
      if platform.Linux? && ledger.group.Some? && foreign.Some? then
        (ledger', Failure(UnattributedGroupMember(foreign.value.id)))
      else
        var known := Adopt(refreshed, members + lineage);
        (ledger'.(known := known), Success(Live(known, snapshots)))
  }

  function Ids(snapshots: seq<ProcessSnapshot>): (ids: seq<nat>)
    ensures AsSet(ids) == IdSet(snapshots)
  {
    var ids := seq(|snapshots|, i requires 0 <= i < |snapshots| => snapshots[i].id);
    assert forall s | s in snapshots :: s.id in ids by {
      forall s | s in snapshots ensures s.id in ids {
        var i :| 0 <= i < |snapshots| && snapshots[i] == s;
        assert ids[i] == s.id;
      }
    }
    ids
  }

  // ----- The class that is updated in place -----

  class ObservedProcessTree {
    var root: ProcessSnapshot
    var known: seq<ProcessSnapshot>
    var group: Option<nat>
    var groupStartedAt: nat
    var policy: RootExecutablePolicy

    function State(): Ledger
      reads this
    {
      Ledger(root, known, group, groupStartedAt, policy)
    }

    constructor (root: ProcessSnapshot, group: Option<nat>, groupStartedAt: Option<nat>, known: seq<ProcessSnapshot>)
      ensures State() == NewWithOwnedProcesses(root, group, groupStartedAt, known)
    {
      this.root := root;
      this.group := group;
      this.groupStartedAt := if groupStartedAt.Some? then groupStartedAt.value else root.startedAt;
      this.known := if FindInstance(known, root).Some? then known else known + [root];
      this.policy := Fixed;
    }

    /** A tree that follows its root across exec. */
    constructor FollowingRootExec(root: ProcessSnapshot)
      ensures State() == NewFollowingRootExec(root)
    {
      this.root := root;
      group := if root.groupId == root.id then Some(root.groupId) else None;
      groupStartedAt := root.startedAt;
      known := [root];
      policy := FollowSameProcess;
    }

    /** The root check: an error leaves the tree alone, a followed exec updates the root in place. */
    method CheckRoot(currentRoot: Option<ProcessSnapshot>) returns (error: Option<ObserveError>)
      modifies this`root
      ensures currentRoot.None? ==> error.None? && root == old(root)
      ensures currentRoot.Some? && !SameInstance(old(root), currentRoot.value) ==>
                error == Some(RootReused(root.id)) && root == old(root)
      ensures currentRoot.Some? && SameInstance(old(root), currentRoot.value) ==>
                if currentRoot.value.executable != old(root).executable && policy.Fixed?
                then error == Some(RootExecutableChanged(root.id)) && root == old(root)
                else error.None? && root == old(root).(executable := currentRoot.value.executable)
    {
      if currentRoot.Some? {
        if !SameInstance(root, currentRoot.value) {
          return Some(RootReused(root.id));
        }
        if currentRoot.value.executable != root.executable {
          if policy.Fixed? {
            return Some(RootExecutableChanged(root.id));
          }
          root := root.(executable := currentRoot.value.executable);
        }
      }
      return None;
    }

    method RefreshKnown(snapshots: seq<ProcessSnapshot>)
      modifies this`known
      ensures known == Refresh(old(known), root.id, snapshots)
    {
      var currentRoot := FindId(snapshots, root.id);
      var refreshed := [];
      for i := 0 to |known|
        invariant known == old(known)
        invariant Refresh(known, root.id, snapshots) == refreshed + Refresh(known[i..], root.id, snapshots)
      {
        var expected := known[i];
        assert known[i..][1..] == known[i + 1..];
        if expected.id == root.id {
          refreshed := refreshed + [if currentRoot.Some? then currentRoot.value else expected];
        } else {
          var current := FindInstance(snapshots, expected);
          if current.Some? {
            refreshed := refreshed + [current.value];
          }
        }
      }
      known := refreshed;
    }

    method AdoptObserved(observed: seq<ProcessSnapshot>)
      modifies this`known
      ensures known == Adopt(old(known), observed)
    {
      for i := 0 to |observed|
        invariant Adopt(old(known), observed) == Adopt(known, observed[i..])
      {
        assert observed[i..][1..] == observed[i + 1..];
        if FindId(known, observed[i].id).None? {
          known := known + [observed[i]];
        }
      }
    }

    method ObserveSnapshots(platform: Platform, snapshots: seq<ProcessSnapshot>) returns (observation: Observation)
      modifies this
      ensures (State(), observation) == Observe(old(State()), platform, snapshots)
    {
      var rootError := CheckRoot(FindId(snapshots, root.id));
      if rootError.Some? {
        return Failure(rootError.value);
      }
      assert RootCheck(old(State()), snapshots).None?;
      assert root == FollowRoot(old(root), snapshots);
      RefreshKnown(snapshots);
      var knownIds := Ids(known);
      var observed := if group.Some? then GroupMembers(group.value, groupStartedAt, snapshots) else [];
      if platform.Linux? && group.Some? {
        var permitted := DescendantSnapshots(knownIds, snapshots);
        var foreign := FirstForeign(observed, known, permitted);
        if foreign.Some? {
          return Failure(UnattributedGroupMember(foreign.value.id));
        }
      }
      var descendants := DescendantSnapshots(knownIds, snapshots);
      AdoptObserved(observed + descendants);
      return Success(Live(known, snapshots));
    }

    /** Owned processes that can no longer be reached from the root by parent links. */
    method Escaped(platform: Platform, snapshots: seq<ProcessSnapshot>) returns (escaped: Observation)
      modifies this
      ensures (State(), escaped) == (Observe(old(State()), platform, snapshots).0,
                                     EscapedFrom(old(State()), platform, snapshots))
    {
      var live := ObserveSnapshots(platform, snapshots);
      ghost var (after, observation) := Observe(old(State()), platform, snapshots);
      assert root.id == old(root.id) && after == State() && observation == live;
      if live.Failure? {
        return live;
      }
      var descendants := DescendantSnapshots([root.id], live.value);
      assert AsSet([root.id]) == {root.id};
      return Success(Without(live.value, root.id, descendants));
    }
  }

  function Without(
      live: seq<ProcessSnapshot>, rootId: nat, descendants: seq<ProcessSnapshot>): (kept: seq<ProcessSnapshot>)
    ensures forall s :: s in kept <==> s in live && s.id != rootId && s.id !in IdSet(descendants)
  {
    if live == [] then []
    else
      var rest := Without(live[1..], rootId, descendants);
      if live[0].id != rootId && FindId(descendants, live[0].id).None? then [live[0]] + rest else rest
  }

  function EscapedFrom(ledger: Ledger, platform: Platform, snapshots: seq<ProcessSnapshot>): Observation {
    var (_, observation) := Observe(ledger, platform, snapshots);
    if observation.Failure? then observation
    else Success(Without(observation.value, ledger.root.id, Descendants({ledger.root.id}, observation.value)))
  }
}
