/** How a ledger starts out, which error an observation ends with, and what an error leaves behind. */
module LedgerOutcomes {
  import opened Options
  import opened Processes
  import opened ProcessLineage
  import opened OwnershipLedger
  import opened LedgerSafety

  /** A new ledger has the given fields; the time from which group members count is that of its root unless one is
      given, and the root is added to the known processes only when its instance is not among them. */
  lemma NewLedgersAreExact(
      root: ProcessSnapshot, group: Option<nat>, groupStartedAt: Option<nat>, known: seq<ProcessSnapshot>)
    ensures var ledger := NewWithOwnedProcesses(root, group, groupStartedAt, known);
            && ledger.root == root && ledger.group == group && ledger.policy == Fixed
            && (groupStartedAt.Some? ==> ledger.groupStartedAt == groupStartedAt.value)
            && (groupStartedAt.None? ==> ledger.groupStartedAt == root.startedAt)
            && (Contains(known, root) ==> ledger.known == known)
            && (!Contains(known, root) ==> ledger.known == known + [root])
    ensures var ledger := New(root);
            && ledger.root == root && ledger.known == [root] && ledger.groupStartedAt == root.startedAt
            && ledger.group == (if root.groupId == root.id then Some(root.id) else None)
            && ledger.policy == Fixed && NewFollowingRootExec(root) == ledger.(policy := FollowSameProcess)
  {
  }

  /** The entries of the root's PID become what the frame shows under it, if anything. */
  lemma {:induction false} RootEntryIsCurrent(
      known: seq<ProcessSnapshot>, rootId: nat, snapshots: seq<ProcessSnapshot>, e: ProcessSnapshot)
    requires UniqueIds(snapshots) && e in Refresh(known, rootId, snapshots) && e.id == rootId
    ensures e in snapshots || (e in known && forall s | s in snapshots :: s.id != rootId)
    ensures forall s | s in snapshots && s.id == rootId :: e == s
  {
    var tail := Refresh(known[1..], rootId, snapshots);
    if e in tail {
      RootEntryIsCurrent(known[1..], rootId, snapshots, e);
    } else {
      assert known[0].id == rootId;
    }
  }

  /** The frame shows another instance under the root's PID. */
  predicate RootWasReused(ledger: Ledger, snapshots: seq<ProcessSnapshot>) {
    exists r | r in snapshots :: r.id == ledger.root.id && r.startedAt != ledger.root.startedAt
  }

  /** The frame shows the root running something else, and the ledger does not follow that. */
  predicate RootChanged(ledger: Ledger, snapshots: seq<ProcessSnapshot>) {
    ledger.policy.Fixed? &&
    exists r | r in snapshots ::
      r.id == ledger.root.id && r.startedAt == ledger.root.startedAt && r.executable != ledger.root.executable
  }

  ghost predicate IsForeign(ledger: Ledger, snapshots: seq<ProcessSnapshot>, s: ProcessSnapshot) {
    && ledger.group == Some(s.groupId) && s.startedAt >= ledger.groupStartedAt
    && !Owned(ledger, Linux, snapshots, s)
  }

  /** The first foreign group member of the frame. */
  ghost predicate FirstForeignAt(ledger: Ledger, snapshots: seq<ProcessSnapshot>, i: nat) {
    && i < |snapshots| && IsForeign(ledger, snapshots, snapshots[i])
    && forall j | 0 <= j < i :: !IsForeign(ledger, snapshots, snapshots[j])
  }

  lemma RootErrorsAreExact(ledger: Ledger, snapshots: seq<ProcessSnapshot>)
    requires UniqueIds(snapshots)
    ensures RootCheck(ledger, snapshots) ==
            if RootWasReused(ledger, snapshots) then Some(RootReused(ledger.root.id))
            else if RootChanged(ledger, snapshots) then Some(RootExecutableChanged(ledger.root.id))
            else None
  {
    var current := FindId(snapshots, ledger.root.id);
    forall r | r in snapshots && r.id == ledger.root.id ensures current == Some(r) {
    }
  }

  /** A group member that is neither known nor permitted. */
  predicate Strange(
      group: nat, startedAt: nat, known: seq<ProcessSnapshot>, permitted: seq<ProcessSnapshot>, s: ProcessSnapshot)
  {
    LateGroupMember(group, startedAt, s) && FindInstance(known, s).None? && FindInstance(permitted, s).None?
  }

  lemma {:induction false} FirstForeignIsFirst(
      group: nat, startedAt: nat, snapshots: seq<ProcessSnapshot>, known: seq<ProcessSnapshot>,
      permitted: seq<ProcessSnapshot>) returns (i: nat)
    requires FirstForeign(GroupMembers(group, startedAt, snapshots), known, permitted).Some?
    ensures i < |snapshots|
    ensures snapshots[i] == FirstForeign(GroupMembers(group, startedAt, snapshots), known, permitted).value
    ensures Strange(group, startedAt, known, permitted, snapshots[i])
    ensures forall j | 0 <= j < i :: !Strange(group, startedAt, known, permitted, snapshots[j])
  {
    var rest := snapshots[1..];
    var members, later := GroupMembers(group, startedAt, snapshots), GroupMembers(group, startedAt, rest);
    if LateGroupMember(group, startedAt, snapshots[0]) {
      assert members == [snapshots[0]] + later && members[1..] == later;
    }
    if Strange(group, startedAt, known, permitted, snapshots[0]) {
      i := 0;
    } else {
      i := FirstForeignIsFirst(group, startedAt, rest, known, permitted);
      i := i + 1;
      assert forall j | 0 < j < i :: snapshots[j] == rest[j - 1];
    }
  }

  lemma StrangeIsForeign(ledger: Ledger, snapshots: seq<ProcessSnapshot>, s: ProcessSnapshot)
    requires Valid(ledger) && UniqueIds(snapshots) && s in snapshots && RootCheck(ledger, snapshots).None?
    requires ledger.group.Some?
    ensures var refreshed := Refresh(ledger.known, ledger.root.id, snapshots);
            Strange(ledger.group.value, ledger.groupStartedAt, refreshed, Descendants(IdSet(refreshed), snapshots), s)
            <==> IsForeign(ledger, snapshots, s)
  {
    hide Refresh, Descendants;
    InLineageByMembership(ledger, snapshots, s);
    var refreshed := Refresh(ledger.known, ledger.root.id, snapshots);
    var found := FindInstance(Descendants(IdSet(refreshed), snapshots), s);
    DescendantsExact(IdSet(refreshed), snapshots);
  }

  /** Which error an observation ends with, and what it leaves: a root error leaves the ledger as it was; a foreign
      member, the first of the frame, is reported after the known processes were brought up to date and before
      any new one is adopted. */
  lemma ErrorsAreExact(ledger: Ledger, platform: Platform, snapshots: seq<ProcessSnapshot>)
    requires Valid(ledger) && UniqueIds(snapshots)
    ensures var (ledger', observation) := Observe(ledger, platform, snapshots);
            && (observation == Failure(RootReused(ledger.root.id)) <==> RootWasReused(ledger, snapshots))
            && (observation == Failure(RootExecutableChanged(ledger.root.id))
                <==> !RootWasReused(ledger, snapshots) && RootChanged(ledger, snapshots))
            && (observation.Failure? && observation.error.UnattributedGroupMember? ==>
                  && platform == Linux && !RootWasReused(ledger, snapshots) && !RootChanged(ledger, snapshots)
                  && (exists i: nat | FirstForeignAt(ledger, snapshots, i) :: snapshots[i].id == observation.error.id)
                  && IdSet(ledger'.known) == Survivors(ledger.known, ledger.root.id, snapshots))
            && (observation.Failure? && !observation.error.UnattributedGroupMember? ==> ledger' == ledger)
  {
    RootErrorsAreExact(ledger, snapshots);
    RefreshExact(ledger.known, ledger.root.id, snapshots);
    if platform.Linux? && RootCheck(ledger, snapshots).None? && ledger.group.Some? {
      ForeignMemberIsFirst(ledger, snapshots);
    }
    hide Refresh, Descendants, GroupMembers, Survivors, FirstForeignAt, RootWasReused, RootChanged, Valid, UniqueIds;
  }

  lemma ForeignMemberIsFirst(ledger: Ledger, snapshots: seq<ProcessSnapshot>)
    requires Valid(ledger) && UniqueIds(snapshots) && RootCheck(ledger, snapshots).None? && ledger.group.Some?
    ensures var refreshed := Refresh(ledger.known, ledger.root.id, snapshots);
            var foreign := FirstForeign(GroupCandidates(ledger, snapshots), refreshed,
                                        Descendants(IdSet(refreshed), snapshots));
            foreign.Some? ==>
              exists i: nat | FirstForeignAt(ledger, snapshots, i) :: snapshots[i].id == foreign.value.id
  {
    var refreshed := Refresh(ledger.known, ledger.root.id, snapshots);
    var lineage := Descendants(IdSet(refreshed), snapshots);
    hide Refresh, Descendants;
    if FirstForeign(GroupCandidates(ledger, snapshots), refreshed, lineage).Some? {
      var i := FirstForeignIsFirst(ledger.group.value, ledger.groupStartedAt, snapshots, refreshed, lineage);
      forall j | 0 <= j <= i
        ensures Strange(ledger.group.value, ledger.groupStartedAt, refreshed, lineage, snapshots[j])
                <==> IsForeign(ledger, snapshots, snapshots[j])
      {
        StrangeIsForeign(ledger, snapshots, snapshots[j]);
      }
      hide Strange, IsForeign;
      assert FirstForeignAt(ledger, snapshots, i);
    }
  }

  /** The root follows what the frame shows its instance running, and stays as it was while it is absent. */
  lemma RootIsFollowed(ledger: Ledger, platform: Platform, snapshots: seq<ProcessSnapshot>)
    requires UniqueIds(snapshots) && !RootWasReused(ledger, snapshots) && !RootChanged(ledger, snapshots)
    ensures var root := Observe(ledger, platform, snapshots).0.root;
            && (forall r | r in snapshots && r.id == ledger.root.id ::
                  root == ledger.root.(executable := r.executable))
            && ((forall r | r in snapshots :: r.id != ledger.root.id) ==> root == ledger.root)
  {
    RootErrorsAreExact(ledger, snapshots);
    hide Refresh, Descendants, GroupMembers, Adopt, Live;
    var current := FindId(snapshots, ledger.root.id);
    forall r | r in snapshots && r.id == ledger.root.id ensures current == Some(r) {
    }
  }

  // ----- The order of what is adopted -----

  /** Every listed process comes after its parent, unless the parent is a root. */
  lemma {:induction false} DescendantsFollowTheirParents(roots: set<nat>, snapshots: seq<ProcessSnapshot>, k: nat)
    requires k < |Descendants(roots, snapshots)|
    ensures var descendants := Descendants(roots, snapshots);
            descendants[k].parentId in roots || exists j | 0 <= j < k :: descendants[j].id == descendants[k].parentId
    decreases IdSet(snapshots) - roots
  {
    var adopted := Sweep(roots, snapshots);
    var descendants := Descendants(roots, snapshots);
    SweepAdoptsNewIds(roots, snapshots);
    if k < |adopted| {
      SweepFollowsParents(roots, snapshots, k);
      assert descendants[..|adopted|] == adopted;
      if j :| 0 <= j < k && adopted[j].id == adopted[k].parentId {
        assert descendants[j].id == descendants[k].parentId;
      }
    } else {
      assert adopted[0].id in IdSet(snapshots) && adopted[0].id in IdSet(adopted);
      var rest := Descendants(roots + IdSet(adopted), snapshots);
      assert descendants == adopted + rest;
      DescendantsFollowTheirParents(roots + IdSet(adopted), snapshots, k - |adopted|);
      var parentId := descendants[k].parentId;
      if parentId in IdSet(adopted) {
        var j :| 0 <= j < |adopted| && adopted[j].id == parentId;
        assert descendants[j].id == parentId;
      } else if parentId !in roots {
        var j :| 0 <= j < k - |adopted| && rest[j].id == parentId;
        assert descendants[|adopted| + j].id == parentId;
      }
    }
  }

  lemma {:induction false} SweepFollowsParents(owned: set<nat>, snapshots: seq<ProcessSnapshot>, k: nat)
    requires k < |Sweep(owned, snapshots)|
    ensures var adopted := Sweep(owned, snapshots);
            adopted[k].parentId in owned || exists j | 0 <= j < k :: adopted[j].id == adopted[k].parentId
    decreases snapshots
  {
    var adopted := Sweep(owned, snapshots);
    var first, rest := snapshots[0], snapshots[1..];
    if first.id !in owned && first.parentId in owned {
      var later := Sweep(owned + {first.id}, rest);
      assert adopted == [first] + later;
      if k > 0 {
        SweepFollowsParents(owned + {first.id}, rest, k - 1);
        if adopted[k].parentId == first.id {
          assert adopted[0].id == adopted[k].parentId;
        } else if adopted[k].parentId !in owned {
          var j :| 0 <= j < k - 1 && later[j].id == adopted[k].parentId;
          assert adopted[j + 1].id == adopted[k].parentId;
        }
      }
    } else {
      SweepFollowsParents(owned, rest, k);
    }
  }
}
