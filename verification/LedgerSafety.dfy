/** What the ledger owns: per frame exactly, and over whole runs by provenance. */
module LedgerSafety {
  import opened Options
  import opened Processes
  import opened ProcessLineage
  import opened OwnershipLedger

  /** One entry per PID, and the root instance among them. */
  ghost predicate Valid(ledger: Ledger) {
    && UniqueIds(ledger.known)
    && exists e :: e in ledger.known && SameInstance(e, ledger.root)
  }

  lemma NewLedgerIsValid(
      root: ProcessSnapshot, group: Option<nat>, groupStartedAt: Option<nat>, known: seq<ProcessSnapshot>)
    requires UniqueIds(known)
    requires forall e | e in known && e.id == root.id :: SameInstance(e, root)
    ensures Valid(NewWithOwnedProcesses(root, group, groupStartedAt, known))
  {
    var ledger := NewWithOwnedProcesses(root, group, groupStartedAt, known);
    if FindInstance(known, root).None? {
      assert root in ledger.known && SameInstance(root, root);
      forall i | 0 <= i < |known| ensures known[i].id != root.id {
        assert known[i] in known;
      }
    } else {
      var e := FindInstance(known, root).value;
      assert e in ledger.known && SameInstance(e, root);
    }
  }

  // ----- Refresh -----

  /** PIDs whose recorded instance is still there; the root PID always counts. */
  function Survivors(known: seq<ProcessSnapshot>, rootId: nat, snapshots: seq<ProcessSnapshot>): set<nat> {
    set e | e in known && (e.id == rootId || FindInstance(snapshots, e).Some?) :: e.id
  }

  lemma {:induction false} RefreshedIds(known: seq<ProcessSnapshot>, rootId: nat, snapshots: seq<ProcessSnapshot>)
    ensures IdSet(Refresh(known, rootId, snapshots)) == Survivors(known, rootId, snapshots)
  {
    if known != [] {
      RefreshedIds(known[1..], rootId, snapshots);
      var rest := Refresh(known[1..], rootId, snapshots);
      var refreshed := Refresh(known, rootId, snapshots);
      assert known == [known[0]] + known[1..];
      if known[0].id == rootId || FindInstance(snapshots, known[0]).Some? {
        assert refreshed == [refreshed[0]] + rest && refreshed[0].id == known[0].id;
        assert IdSet(refreshed) == {known[0].id} + IdSet(rest);
      }
    }
  }

  lemma {:induction false} RefreshedEntries(known: seq<ProcessSnapshot>, rootId: nat, snapshots: seq<ProcessSnapshot>)
    ensures forall e | e in Refresh(known, rootId, snapshots) && e.id != rootId ::
              e in snapshots && exists k :: k in known && SameInstance(k, e)
  {
    if known != [] {
      RefreshedEntries(known[1..], rootId, snapshots);
      var rest := Refresh(known[1..], rootId, snapshots);
      assert forall k | k in known[1..] :: k in known;
      forall e | e in Refresh(known, rootId, snapshots) && e.id != rootId
        ensures e in snapshots && exists k :: k in known && SameInstance(k, e)
      {
        if e !in rest {
          assert known[0] in known && SameInstance(known[0], e);
        }
      }
    }
  }

  lemma {:induction false} RefreshedUnique(known: seq<ProcessSnapshot>, rootId: nat, snapshots: seq<ProcessSnapshot>)
    requires UniqueIds(known)
    ensures UniqueIds(Refresh(known, rootId, snapshots))
  {
    if known != [] {
      var tail := known[1..];
      assert forall i | 0 <= i < |tail| :: tail[i] == known[i + 1];
      RefreshedUnique(tail, rootId, snapshots);
      RefreshedIds(tail, rootId, snapshots);
      var rest := Refresh(tail, rootId, snapshots);
      forall e | e in rest ensures e.id != known[0].id {
        assert e.id in IdSet(rest);
        var k :| k in tail && k.id == e.id;
      }
    }
  }

  lemma RefreshExact(known: seq<ProcessSnapshot>, rootId: nat, snapshots: seq<ProcessSnapshot>)
    requires UniqueIds(known)
    ensures var refreshed := Refresh(known, rootId, snapshots);
            && UniqueIds(refreshed)
            && IdSet(refreshed) == Survivors(known, rootId, snapshots)
            && forall e | e in refreshed && e.id != rootId ::
                 e in snapshots && exists k :: k in known && SameInstance(k, e)
  {
    RefreshedUnique(known, rootId, snapshots);
    RefreshedIds(known, rootId, snapshots);
    RefreshedEntries(known, rootId, snapshots);
  }

  lemma {:induction false} RootEntryIsKept(
      known: seq<ProcessSnapshot>, root: ProcessSnapshot, snapshots: seq<ProcessSnapshot>)
    requires UniqueIds(known)
    requires exists e :: e in known && SameInstance(e, root)
    requires FindId(snapshots, root.id).Some? ==> SameInstance(root, FindId(snapshots, root.id).value)
    ensures exists e :: e in Refresh(known, root.id, snapshots) && SameInstance(e, root)
  {
    if SameInstance(known[0], root) {
      assert Refresh(known, root.id, snapshots)[0] in Refresh(known, root.id, snapshots);
    } else {
      var tail := known[1..];
      assert forall i | 0 <= i < |tail| :: tail[i] == known[i + 1];
      assert forall e | e in known :: e == known[0] || e in tail;
      RootEntryIsKept(tail, root, snapshots);
      var e :| e in Refresh(tail, root.id, snapshots) && SameInstance(e, root);
      assert e in Refresh(known, root.id, snapshots);
    }
  }

  lemma {:induction false} GroupMembersExact(
      group: nat, startedAt: nat, snapshots: seq<ProcessSnapshot>, s: ProcessSnapshot)
    ensures s in GroupMembers(group, startedAt, snapshots) <==> s in snapshots && LateGroupMember(group, startedAt, s)
  {
    if snapshots != [] {
      GroupMembersExact(group, startedAt, snapshots[1..], s);
      assert s in snapshots <==> s == snapshots[0] || s in snapshots[1..];
    }
  }

  lemma IdSetCons(snapshots: seq<ProcessSnapshot>)
    requires snapshots != []
    ensures IdSet(snapshots) == {snapshots[0].id} + IdSet(snapshots[1..])
    ensures forall e :: e in snapshots <==> e == snapshots[0] || e in snapshots[1..]
  {
    assert snapshots == [snapshots[0]] + snapshots[1..];
  }

  lemma UniqueAppend(known: seq<ProcessSnapshot>, s: ProcessSnapshot)
    requires UniqueIds(known) && forall k | k in known :: k.id != s.id
    ensures UniqueIds(known + [s]) && IdSet(known + [s]) == IdSet(known) + {s.id}
  {
  }

  lemma {:induction false} AdoptExact(known: seq<ProcessSnapshot>, observed: seq<ProcessSnapshot>)
    requires UniqueIds(known)
    ensures var adopted := Adopt(known, observed);
            && UniqueIds(adopted)
            && known <= adopted
            && (forall e | e in adopted :: e in known || e in observed)
            && IdSet(adopted) == IdSet(known) + IdSet(observed)
    decreases observed
  {
    hide FindId;
    if observed != [] {
      IdSetCons(observed);
      if FindId(known, observed[0].id).Some? {
        assert observed[0].id in IdSet(known);
        AdoptExact(known, observed[1..]);
      } else {
        UniqueAppend(known, observed[0]);
        AdoptExact(known + [observed[0]], observed[1..]);
      }
      hide UniqueIds, IdSet;
    }
  }

  lemma {:induction false} LiveExact(known: seq<ProcessSnapshot>, snapshots: seq<ProcessSnapshot>)
    requires UniqueIds(known)
    ensures var live := Live(known, snapshots);
            && UniqueIds(live)
            && (forall p | p in live :: p in snapshots && exists e :: e in known && SameInstance(e, p))
            && (forall e | e in known && FindInstance(snapshots, e).Some? :: FindInstance(snapshots, e).value in live)
  {
    if known != [] {
      var tail := known[1..];
      assert forall i | 0 <= i < |tail| :: tail[i] == known[i + 1];
      assert forall e :: e in known <==> e == known[0] || e in tail;
      LiveExact(tail, snapshots);
      var rest := Live(tail, snapshots);
      forall p | p in rest ensures p.id != known[0].id {
        var e :| e in tail && SameInstance(e, p);
      }
    }
  }

  // ----- One frame -----

  /** The ledger keeps one entry per PID and never loses or changes its root instance. */
  lemma ObserveKeepsLedgerValid(ledger: Ledger, platform: Platform, snapshots: seq<ProcessSnapshot>)
    requires Valid(ledger)
    ensures var ledger' := Observe(ledger, platform, snapshots).0;
            && Valid(ledger')
            && SameInstance(ledger.root, ledger'.root)
            && (ledger.policy.Fixed? ==> ledger'.root == ledger.root)
            && ledger' == ledger.(root := ledger'.root, known := ledger'.known)
  {
    if RootCheck(ledger, snapshots).None? {
      RefreshExact(ledger.known, ledger.root.id, snapshots);
      RootEntryIsKept(ledger.known, ledger.root, snapshots);
      var refreshed := Refresh(ledger.known, ledger.root.id, snapshots);
      var e :| e in refreshed && SameInstance(e, ledger.root);
      var observed := GroupCandidates(ledger, snapshots) + Descendants(IdSet(refreshed), snapshots);
      AdoptExact(refreshed, observed);
      assert e in Adopt(refreshed, observed);
    }
  }

  ghost predicate KnownInstance(ledger: Ledger, s: ProcessSnapshot) {
    exists e :: e in ledger.known && SameInstance(e, s)
  }

  ghost predicate InLineage(ledger: Ledger, snapshots: seq<ProcessSnapshot>, s: ProcessSnapshot) {
    Reachable(Links(snapshots), Survivors(ledger.known, ledger.root.id, snapshots), s.id)
  }

  predicate JoinsByGroup(ledger: Ledger, s: ProcessSnapshot) {
    ledger.group.Some? && LateGroupMember(ledger.group.value, ledger.groupStartedAt, s)
  }

  /** The reference definition of ownership in one frame. Group membership counts on macOS only. */
  ghost predicate Owned(ledger: Ledger, platform: Platform, snapshots: seq<ProcessSnapshot>, s: ProcessSnapshot) {
    || KnownInstance(ledger, s)
    || InLineage(ledger, snapshots, s)
    || (platform.MacOS? && JoinsByGroup(ledger, s))
  }

  lemma InLineageByMembership(ledger: Ledger, snapshots: seq<ProcessSnapshot>, s: ProcessSnapshot)
    requires Valid(ledger) && UniqueIds(snapshots) && s in snapshots && RootCheck(ledger, snapshots).None?
    ensures var refreshed := Refresh(ledger.known, ledger.root.id, snapshots);
            && (FindInstance(refreshed, s).Some? <==> KnownInstance(ledger, s))
            && (s in Descendants(IdSet(refreshed), snapshots) ==> InLineage(ledger, snapshots, s))
            && (InLineage(ledger, snapshots, s) ==>
                  s in Descendants(IdSet(refreshed), snapshots) || KnownInstance(ledger, s))
  {
    hide Refresh, Descendants, GroupMembers, Adopt, Live, FirstForeign, FindId, FindInstance;
    RefreshExact(ledger.known, ledger.root.id, snapshots);
    var refreshed := Refresh(ledger.known, ledger.root.id, snapshots);
    DescendantsMembership(IdSet(refreshed), snapshots, s);
    var root :| root in ledger.known && SameInstance(root, ledger.root);
    if FindInstance(refreshed, s).Some? {
      var e := FindInstance(refreshed, s).value;
      if e.id == ledger.root.id {
        assert FindId(snapshots, s.id).value == s;
        assert SameInstance(root, s);
      }
    }
    if KnownInstance(ledger, s) {
      var k :| k in ledger.known && SameInstance(k, s);
      KnownIsRefreshed(ledger, snapshots, s, k);
    }
    if s.id in IdSet(refreshed) {
      var k :| k in ledger.known && k.id == s.id && (k.id == ledger.root.id || FindInstance(snapshots, k).Some?);
      if k.id == ledger.root.id {
        assert k == root;
        assert FindId(snapshots, s.id).value == s;
      } else {
        assert FindInstance(snapshots, k).value == s;
      }
      assert SameInstance(k, s);
    }
  }

  lemma KnownIsRefreshed(ledger: Ledger, snapshots: seq<ProcessSnapshot>, s: ProcessSnapshot, k: ProcessSnapshot)
    requires Valid(ledger) && UniqueIds(snapshots) && s in snapshots && RootCheck(ledger, snapshots).None?
    requires k in ledger.known && SameInstance(k, s)
    ensures FindInstance(Refresh(ledger.known, ledger.root.id, snapshots), s).Some?
  {
    hide Refresh, Descendants, GroupMembers, Adopt, Live, FirstForeign, FindId, FindInstance;
    RefreshExact(ledger.known, ledger.root.id, snapshots);
    var refreshed := Refresh(ledger.known, ledger.root.id, snapshots);
    assert SameInstance(k, s) && FindInstance(snapshots, k).Some?;
    assert s.id in Survivors(ledger.known, ledger.root.id, snapshots);
    var e :| e in refreshed && e.id == s.id;
    if e.id == ledger.root.id {
      RootEntryIsKept(ledger.known, ledger.root, snapshots);
      var kept :| kept in refreshed && SameInstance(kept, ledger.root);
      assert kept == e;
      assert FindId(snapshots, s.id).value == s;
    } else {
      assert e == s;
    }
    assert SameInstance(s, e);
  }

  /** A successful observation returns exactly the owned live processes, each once. */
  lemma ObserveReturnsExactlyTheOwned(ledger: Ledger, platform: Platform, snapshots: seq<ProcessSnapshot>)
    requires Valid(ledger) && UniqueIds(snapshots)
    requires Observe(ledger, platform, snapshots).1.Success?
    ensures var live := Observe(ledger, platform, snapshots).1.value;
            && UniqueIds(live)
            && forall s :: s in live <==> s in snapshots && Owned(ledger, platform, snapshots, s)
  {
    var refreshed := Refresh(ledger.known, ledger.root.id, snapshots);
    var lineage := Descendants(IdSet(refreshed), snapshots);
    var members := GroupCandidates(ledger, snapshots);
    var known := Adopt(refreshed, members + lineage);
    RefreshExact(ledger.known, ledger.root.id, snapshots);
    AdoptExact(refreshed, members + lineage);
    LiveExact(known, snapshots);
    DescendantsExact(IdSet(refreshed), snapshots);
    var live := Live(known, snapshots);
    forall s | s in live ensures s in snapshots && Owned(ledger, platform, snapshots, s) {
      OnlyOwnedAreLive(ledger, platform, snapshots, s);
    }
    forall s | s in snapshots && Owned(ledger, platform, snapshots, s) ensures s in live {
      AllOwnedAreLive(ledger, platform, snapshots, s);
    }
  }

  lemma NewEntry(ledger: Ledger, snapshots: seq<ProcessSnapshot>, e: ProcessSnapshot)
    requires Valid(ledger)
    requires var refreshed := Refresh(ledger.known, ledger.root.id, snapshots);
             e in Adopt(refreshed, GroupCandidates(ledger, snapshots) + Descendants(IdSet(refreshed), snapshots))
    ensures var refreshed := Refresh(ledger.known, ledger.root.id, snapshots);
            || e in refreshed
            || (e in snapshots && (e in Descendants(IdSet(refreshed), snapshots)
                                   || (JoinsByGroup(ledger, e) && e in GroupCandidates(ledger, snapshots))))
  {
    hide Refresh, Descendants, GroupMembers, Adopt, Live, FirstForeign, FindId, FindInstance;
    var refreshed := Refresh(ledger.known, ledger.root.id, snapshots);
    var members := GroupCandidates(ledger, snapshots);
    RefreshExact(ledger.known, ledger.root.id, snapshots);
    AdoptExact(refreshed, members + Descendants(IdSet(refreshed), snapshots));
    DescendantsExact(IdSet(refreshed), snapshots);
    if e in members {
      GroupMembersExact(ledger.group.value, ledger.groupStartedAt, snapshots, e);
    }
  }

  lemma OnlyOwnedAreLive(ledger: Ledger, platform: Platform, snapshots: seq<ProcessSnapshot>, s: ProcessSnapshot)
    requires Valid(ledger) && UniqueIds(snapshots)
    requires Observe(ledger, platform, snapshots).1.Success?
    requires s in Observe(ledger, platform, snapshots).1.value
    ensures s in snapshots && Owned(ledger, platform, snapshots, s)
  {
    hide Refresh, Descendants, GroupMembers, Adopt, Live, FirstForeign, FindId, FindInstance;
    var refreshed := Refresh(ledger.known, ledger.root.id, snapshots);
    var lineage := Descendants(IdSet(refreshed), snapshots);
    var members := GroupCandidates(ledger, snapshots);
    var known := Adopt(refreshed, members + lineage);
    RefreshExact(ledger.known, ledger.root.id, snapshots);
    AdoptExact(refreshed, members + lineage);
    LiveExact(known, snapshots);
    var e :| e in known && SameInstance(e, s);
    NewEntry(ledger, snapshots, e);
    InLineageByMembership(ledger, snapshots, s);
    if e in refreshed {
      assert SameInstance(s, e) && FindInstance(refreshed, s).Some?;
    } else {
      assert e == s;
      if platform.Linux? && s in members {
        assert FindInstance(refreshed, s).Some? || FindInstance(lineage, s).Some?;
        DescendantsExact(IdSet(refreshed), snapshots);
      }
    }
  }

  lemma AllOwnedAreLive(ledger: Ledger, platform: Platform, snapshots: seq<ProcessSnapshot>, s: ProcessSnapshot)
    requires Valid(ledger) && UniqueIds(snapshots)
    requires Observe(ledger, platform, snapshots).1.Success?
    requires s in snapshots && Owned(ledger, platform, snapshots, s)
    ensures s in Observe(ledger, platform, snapshots).1.value
  {
    hide Refresh, Descendants, GroupMembers, Adopt, Live, FirstForeign, FindId, FindInstance;
    var refreshed := Refresh(ledger.known, ledger.root.id, snapshots);
    var lineage := Descendants(IdSet(refreshed), snapshots);
    var members := GroupCandidates(ledger, snapshots);
    var known := Adopt(refreshed, members + lineage);
    RefreshExact(ledger.known, ledger.root.id, snapshots);
    AdoptExact(refreshed, members + lineage);
    LiveExact(known, snapshots);
    InLineageByMembership(ledger, snapshots, s);
    if platform.MacOS? && JoinsByGroup(ledger, s) {
      GroupMembersExact(ledger.group.value, ledger.groupStartedAt, snapshots, s);
    }
    var found := FindInstance(refreshed, s);
    if found.Some? {
      assert found.value in known;
      assert SameInstance(found.value, s) && FindInstance(snapshots, found.value).Some?;
    } else {
      assert s in members + lineage;
      assert s.id in IdSet(known);
      var e :| e in known && e.id == s.id;
      EntryOfLiveProcessIsCurrent(ledger, platform, snapshots, s, e);
      assert SameInstance(e, s) && FindInstance(snapshots, e).Some?;
    }
  }

  /** A ledger entry whose PID is live in the frame is the instance that is live there. */
  lemma EntryOfLiveProcessIsCurrent(
      ledger: Ledger, platform: Platform, snapshots: seq<ProcessSnapshot>, s: ProcessSnapshot, e: ProcessSnapshot)
    requires Valid(ledger) && UniqueIds(snapshots) && s in snapshots
    requires Observe(ledger, platform, snapshots).1.Success?
    requires e in Observe(ledger, platform, snapshots).0.known && e.id == s.id
    ensures SameInstance(e, s)
  {
    hide Refresh, Descendants, GroupMembers, Adopt, Live, FirstForeign, FindId, FindInstance;
    var refreshed := Refresh(ledger.known, ledger.root.id, snapshots);
    var lineage := Descendants(IdSet(refreshed), snapshots);
    var members := GroupCandidates(ledger, snapshots);
    RefreshExact(ledger.known, ledger.root.id, snapshots);
    AdoptExact(refreshed, members + lineage);
    DescendantsExact(IdSet(refreshed), snapshots);
    if e in refreshed && e.id == ledger.root.id {
      RootEntryIsKept(ledger.known, ledger.root, snapshots);
      var kept :| kept in refreshed && SameInstance(kept, ledger.root);
      assert FindId(snapshots, s.id).value == s;
    } else {
      assert e in snapshots by {
        if e in members { GroupMembersExact(ledger.group.value, ledger.groupStartedAt, snapshots, e); }
      }
    }
  }

  /** On Linux an observation is refused for a group member exactly when a late group member is
      neither an owned instance nor in the owned lineage. */
  lemma LinuxRefusesExactlyForeignMembers(ledger: Ledger, snapshots: seq<ProcessSnapshot>)
    requires Valid(ledger) && UniqueIds(snapshots) && RootCheck(ledger, snapshots).None?
    ensures Observe(ledger, Linux, snapshots).1.Failure? <==>
              exists s :: s in snapshots && JoinsByGroup(ledger, s) && !Owned(ledger, Linux, snapshots, s)
  {
    var refreshed := Refresh(ledger.known, ledger.root.id, snapshots);
    var lineage := Descendants(IdSet(refreshed), snapshots);
    var members := GroupCandidates(ledger, snapshots);
    DescendantsExact(IdSet(refreshed), snapshots);
    var foreign := FirstForeign(members, refreshed, lineage);
    if foreign.Some? {
      GroupMembersExact(ledger.group.value, ledger.groupStartedAt, snapshots, foreign.value);
      InLineageByMembership(ledger, snapshots, foreign.value);
      assert !Owned(ledger, Linux, snapshots, foreign.value);
    }
    forall s | s in snapshots && JoinsByGroup(ledger, s) && !Owned(ledger, Linux, snapshots, s)
      ensures foreign.Some?
    {
      GroupMembersExact(ledger.group.value, ledger.groupStartedAt, snapshots, s);
      InLineageByMembership(ledger, snapshots, s);
    }
  }

  /** The frame shows the root's PID as another instance, or a fixed root with another executable. */
  ghost predicate RootRefused(ledger: Ledger, snapshots: seq<ProcessSnapshot>) {
    exists r :: r in snapshots && r.id == ledger.root.id
      && (!SameInstance(ledger.root, r) || (ledger.policy.Fixed? && r.executable != ledger.root.executable))
  }

  /** Exactly when an observation fails. A tree that follows its root across exec is refused for its root only
      when the PID was reused. */
  lemma ObserveFailsExactly(ledger: Ledger, platform: Platform, snapshots: seq<ProcessSnapshot>)
    requires Valid(ledger) && UniqueIds(snapshots)
    ensures Observe(ledger, platform, snapshots).1.Failure? <==>
              || RootRefused(ledger, snapshots)
              || (platform.Linux?
                  && exists s :: s in snapshots && JoinsByGroup(ledger, s) && !Owned(ledger, Linux, snapshots, s))
  {
    RootCheckIsExact(ledger, snapshots);
    hide RootRefused, Owned, JoinsByGroup, RootCheck;
    if RootCheck(ledger, snapshots).None? {
      if platform.Linux? {
        LinuxRefusesExactlyForeignMembers(ledger, snapshots);
      } else {
        assert Observe(ledger, platform, snapshots).1.Success?;
      }
    }
  }

  lemma RootCheckIsExact(ledger: Ledger, snapshots: seq<ProcessSnapshot>)
    requires UniqueIds(snapshots)
    ensures RootCheck(ledger, snapshots).Some? <==> RootRefused(ledger, snapshots)
  {
    var current := FindId(snapshots, ledger.root.id);
    forall r | r in snapshots && r.id == ledger.root.id ensures current == Some(r) {
    }
  }

  /** A tree that follows its root starts out valid and is never refused for an exec of its root. */
  lemma FollowedExecIsNotRefused(root: ProcessSnapshot, snapshots: seq<ProcessSnapshot>)
    requires UniqueIds(snapshots)
    ensures Valid(NewFollowingRootExec(root))
    ensures RootRefused(NewFollowingRootExec(root), snapshots) <==>
              exists r :: r in snapshots && r.id == root.id && !SameInstance(root, r)
  {
    var ledger := NewFollowingRootExec(root);
    assert ledger.known == [root] && SameInstance(root, root);
    assert root in ledger.known;
  }

  /** The escaped processes are the owned ones, other than the root, that the root no longer reaches. */
  lemma EscapedExact(ledger: Ledger, platform: Platform, snapshots: seq<ProcessSnapshot>)
    requires Valid(ledger) && UniqueIds(snapshots)
    requires EscapedFrom(ledger, platform, snapshots).Success?
    ensures var live := Observe(ledger, platform, snapshots).1.value;
            forall s :: s in EscapedFrom(ledger, platform, snapshots).value <==>
              s in snapshots && Owned(ledger, platform, snapshots, s) && !Reachable(Links(live), {ledger.root.id}, s.id)
  {
    ObserveReturnsExactlyTheOwned(ledger, platform, snapshots);
    var live := Observe(ledger, platform, snapshots).1.value;
    DescendantsExact({ledger.root.id}, live);
    RootIsReachable(Links(live), {ledger.root.id}, ledger.root.id);
  }

  // ----- Whole runs -----

  function LedgerAfter(ledger: Ledger, platform: Platform, frames: seq<seq<ProcessSnapshot>>, n: nat): Ledger
    requires n <= |frames|
  {
    if n == 0 then ledger
    else Observe(LedgerAfter(ledger, platform, frames, n - 1), platform, frames[n - 1]).0
  }

  lemma {:induction false} LedgerStaysValid(
      ledger: Ledger, platform: Platform, frames: seq<seq<ProcessSnapshot>>, n: nat)
    requires Valid(ledger) && n <= |frames|
    ensures Valid(LedgerAfter(ledger, platform, frames, n))
    ensures SameInstance(ledger.root, LedgerAfter(ledger, platform, frames, n).root)
  {
    if n > 0 {
      hide Valid, Observe;
      LedgerStaysValid(ledger, platform, frames, n - 1);
      ObserveKeepsLedgerValid(LedgerAfter(ledger, platform, frames, n - 1), platform, frames[n - 1]);
    }
  }

  ghost predicate Contains(snapshots: seq<ProcessSnapshot>, e: ProcessSnapshot) {
    exists s :: s in snapshots && SameInstance(e, s)
  }

  /** At `m == 0` the instance is in the initial ledger; otherwise frame `m - 1` itself shows it in the
      lineage of the ledger held before that frame, or (macOS only) as a late group member. */
  ghost predicate AdoptedAt(
      ledger: Ledger, platform: Platform, frames: seq<seq<ProcessSnapshot>>, m: nat, e: ProcessSnapshot)
    requires m <= |frames|
  {
    if m == 0 then KnownInstance(ledger, e)
    else
      var before := LedgerAfter(ledger, platform, frames, m - 1);
      exists s :: s in frames[m - 1] && SameInstance(e, s)
                  && (InLineage(before, frames[m - 1], s) || (platform.MacOS? && JoinsByGroup(before, s)))
  }

  /** Frame `j`, unless it was refused for its root, contains the instance. */
  ghost predicate PresentAt(
      ledger: Ledger, platform: Platform, frames: seq<seq<ProcessSnapshot>>, j: nat, e: ProcessSnapshot)
    requires j < |frames|
  {
    RootCheck(LedgerAfter(ledger, platform, frames, j), frames[j]).None? ==> Contains(frames[j], e)
  }

  ghost predicate PresentSince(
      ledger: Ledger, platform: Platform, frames: seq<seq<ProcessSnapshot>>, m: nat, n: nat, e: ProcessSnapshot)
    requires m <= n <= |frames|
  {
    forall j | m <= j < n :: PresentAt(ledger, platform, frames, j, e)
  }

  /** Every owned instance other than the root was adopted at some frame and has been in every frame
      accepted since: a PID that was reused or vanished in between is never owned by its history. */
  lemma {:induction false} OwnershipHasProvenance(
      ledger: Ledger, platform: Platform, frames: seq<seq<ProcessSnapshot>>, n: nat, e: ProcessSnapshot)
    returns (m: nat)
    requires Valid(ledger) && n <= |frames|
    requires forall frame | frame in frames :: UniqueIds(frame)
    requires e in LedgerAfter(ledger, platform, frames, n).known && e.id != ledger.root.id
    ensures m <= n && AdoptedAt(ledger, platform, frames, m, e) && PresentSince(ledger, platform, frames, m, n, e)
  {
    hide *;
    if n == 0 {
      InitialEntry(ledger, platform, frames, e);
      m := 0;
    } else {
      assert frames[n - 1] in frames;
      var known, k := EntryAtFrame(ledger, platform, frames, n, e);
      if known {
        m := OwnershipHasProvenance(ledger, platform, frames, n - 1, k);
        AdoptionIsPerInstance(ledger, platform, frames, m, k, e);
        PresenceExtends(ledger, platform, frames, m, n, k, e);
      } else {
        m := n;
      }
    }
  }

  lemma InitialEntry(ledger: Ledger, platform: Platform, frames: seq<seq<ProcessSnapshot>>, e: ProcessSnapshot)
    requires e in LedgerAfter(ledger, platform, frames, 0).known
    ensures AdoptedAt(ledger, platform, frames, 0, e) && PresentSince(ledger, platform, frames, 0, 0, e)
  {
    assert SameInstance(e, e);
  }

  /** An entry after frame `n - 1` is in that frame, and it was known before as `k` or is adopted now. */
  lemma EntryAtFrame(
      ledger: Ledger, platform: Platform, frames: seq<seq<ProcessSnapshot>>, n: nat, e: ProcessSnapshot)
    returns (known: bool, k: ProcessSnapshot)
    requires Valid(ledger) && 0 < n <= |frames| && UniqueIds(frames[n - 1])
    requires e in LedgerAfter(ledger, platform, frames, n).known && e.id != ledger.root.id
    ensures PresentAt(ledger, platform, frames, n - 1, e)
    ensures known ==> k in LedgerAfter(ledger, platform, frames, n - 1).known && SameInstance(k, e)
                      && k.id != ledger.root.id
    ensures !known ==> AdoptedAt(ledger, platform, frames, n, e) && PresentSince(ledger, platform, frames, n, n, e)
  {
    LedgerStaysValid(ledger, platform, frames, n - 1);
    var before := LedgerAfter(ledger, platform, frames, n - 1);
    EntryWasKnownOrAdopted(before, platform, frames[n - 1], e);
    hide Valid, Observe, InLineage, UniqueIds;
    assert SameInstance(e, e);
    k := e;
    known := KnownInstance(before, e);
    if known {
      k :| k in before.known && SameInstance(k, e);
    }
  }

  lemma AdoptionIsPerInstance(
      ledger: Ledger, platform: Platform, frames: seq<seq<ProcessSnapshot>>, m: nat, k: ProcessSnapshot,
      e: ProcessSnapshot)
    requires m <= |frames| && SameInstance(k, e) && AdoptedAt(ledger, platform, frames, m, k)
    ensures AdoptedAt(ledger, platform, frames, m, e)
  {
    if m == 0 {
      var i :| i in ledger.known && SameInstance(i, k);
      assert SameInstance(i, e);
    } else {
      var before := LedgerAfter(ledger, platform, frames, m - 1);
      var s :| s in frames[m - 1] && SameInstance(k, s)
               && (InLineage(before, frames[m - 1], s) || (platform.MacOS? && JoinsByGroup(before, s)));
      assert SameInstance(e, s);
    }
  }

  lemma PresenceExtends(
      ledger: Ledger, platform: Platform, frames: seq<seq<ProcessSnapshot>>, m: nat, n: nat, k: ProcessSnapshot,
      e: ProcessSnapshot)
    requires 0 <= m < n <= |frames| && SameInstance(k, e)
    requires PresentSince(ledger, platform, frames, m, n - 1, k)
    requires PresentAt(ledger, platform, frames, n - 1, e)
    ensures PresentSince(ledger, platform, frames, m, n, e)
  {
    forall j | m <= j < n ensures PresentAt(ledger, platform, frames, j, e) {
      if j < n - 1 {
        assert PresentAt(ledger, platform, frames, j, k);
        if Contains(frames[j], k) {
          var s :| s in frames[j] && SameInstance(k, s);
          assert SameInstance(e, s);
        }
      }
    }
  }

  lemma EntryWasKnownOrAdopted(before: Ledger, platform: Platform, snapshots: seq<ProcessSnapshot>, e: ProcessSnapshot)
    requires Valid(before) && UniqueIds(snapshots)
    requires e in Observe(before, platform, snapshots).0.known && e.id != before.root.id
    ensures RootCheck(before, snapshots).None? ==> Contains(snapshots, e)
    ensures KnownInstance(before, e)
            || (RootCheck(before, snapshots).None? && e in snapshots
                && (InLineage(before, snapshots, e) || (platform.MacOS? && JoinsByGroup(before, e))))
  {
    if RootCheck(before, snapshots).Some? {
      assert SameInstance(e, e);
    } else {
      var refreshed := Refresh(before.known, before.root.id, snapshots);
      var lineage := Descendants(IdSet(refreshed), snapshots);
      var members := GroupCandidates(before, snapshots);
      RefreshExact(before.known, before.root.id, snapshots);
      AdoptExact(refreshed, members + lineage);
      DescendantsExact(IdSet(refreshed), snapshots);
      assert SameInstance(e, e);
      if e !in refreshed {
        if e in members {
          GroupMembersExact(before.group.value, before.groupStartedAt, snapshots, e);
        }
        InLineageByMembership(before, snapshots, e);
      }
    }
  }
}
