/** The filtered macOS scan, and the proof that no run of observations can tell it from a full scan. */
module MacosScan {
  import opened Options
  import opened Processes
  import opened Sequences
  import opened ProcessLineage
  import opened OwnershipLedger

  datatype ProcessIdentity = ProcessIdentity(id: nat, parentId: nat, groupId: nat, startedAt: nat)

  /** One enumeration: the identities in order, and the executable path of every readable PID. */
  datatype Frame = Frame(identities: seq<ProcessIdentity>, paths: map<nat, string>)

  function Complete(identity: ProcessIdentity, executable: string): ProcessSnapshot {
    ProcessSnapshot(identity.id, identity.parentId, identity.groupId, executable, identity.startedAt)
  }

  /** The full scan: every process whose path can be read. */
  function Readable(identities: seq<ProcessIdentity>, paths: map<nat, string>): seq<ProcessSnapshot> {
    if identities == [] then []
    else
      var rest := Readable(identities[1..], paths);
      if identities[0].id in paths then [Complete(identities[0], paths[identities[0].id])] + rest else rest
  }

  /** Restriction of a scan to some PIDs. */
  function Keep(snapshots: seq<ProcessSnapshot>, ids: set<nat>): seq<ProcessSnapshot> {
    if snapshots == [] then []
    else
      var rest := Keep(snapshots[1..], ids);
      if snapshots[0].id in ids then [snapshots[0]] + rest else rest
  }

  function IdentityLinks(identities: seq<ProcessIdentity>): set<Link> {
    set p | p in identities :: Link(p.parentId, p.id)
  }

  /** Known PIDs, the root PID, and late members of the process group. */
  function Seeds(
      identities: seq<ProcessIdentity>, rootId: nat, known: seq<ProcessSnapshot>, group: Option<(nat, nat)>): set<nat> {
    IdSet(known) + {rootId}
    + if group.Some? then set p | p in identities && p.groupId == group.value.0 && p.startedAt >= group.value.1 :: p.id
      else {}
  }

  /** The possible tree members: everything the seeds reach, through unreadable processes too. */
  ghost function Candidates(
      identities: seq<ProcessIdentity>, rootId: nat, known: seq<ProcessSnapshot>, group: Option<(nat, nat)>): set<nat> {
    var seeds := Seeds(identities, rootId, known, group);
    set id | id in seeds + AllIds(identities) && Reachable(IdentityLinks(identities), seeds, id)
  }

  function AllIds(identities: seq<ProcessIdentity>): set<nat> {
    set p | p in identities :: p.id
  }

  ghost predicate AllReachable(identities: seq<ProcessIdentity>, seeds: set<nat>, ids: set<nat>) {
    forall id | id in ids :: Reachable(IdentityLinks(identities), seeds, id)
  }

  /** One pass over the identities, adding every child of a candidate. */
  method GrowOnce(identities: seq<ProcessIdentity>, ghost seeds: set<nat>, before: set<nat>)
    returns (candidates: set<nat>, changed: bool)
    requires AllReachable(identities, seeds, before)
    ensures before <= candidates <= before + AllIds(identities)
    ensures AllReachable(identities, seeds, candidates)
    ensures changed <==> candidates != before
    ensures !changed ==> Closed(IdentityLinks(identities), before)
  {
    candidates, changed := before, false;
    for i := 0 to |identities|
      invariant before <= candidates <= before + AllIds(identities)
      invariant AllReachable(identities, seeds, candidates)
      invariant changed <==> candidates != before
      invariant !changed ==> forall k | 0 <= k < i :: identities[k].parentId in before ==> identities[k].id in before
    {
      var process := identities[i];
      if process.parentId in candidates {
        assert Link(process.parentId, process.id) in IdentityLinks(identities);
        ChildIsReachable(IdentityLinks(identities), seeds, process.parentId, process.id);
        changed := changed || process.id !in candidates;
        candidates := candidates + {process.id};
      }
    }
  }

  method GrowCandidates(identities: seq<ProcessIdentity>, seeds: set<nat>) returns (candidates: set<nat>)
    ensures candidates == set id | id in seeds + AllIds(identities) && Reachable(IdentityLinks(identities), seeds, id)
  {
    ghost var links := IdentityLinks(identities);
    candidates := seeds;
    forall id | id in seeds ensures Reachable(links, seeds, id) {
      RootIsReachable(links, seeds, id);
    }
    while true
      invariant seeds <= candidates <= seeds + AllIds(identities)
      invariant AllReachable(identities, seeds, candidates)
      decreases AllIds(identities) - candidates
    {
      var grown, changed := GrowOnce(identities, seeds, candidates);
      if !changed {
        break;
      }
      assert !(grown <= candidates);
      ghost var id :| id in grown && id !in candidates;
      assert id in AllIds(identities) - candidates && id !in AllIds(identities) - grown;
      candidates := grown;
    }
    forall id | Reachable(links, seeds, id) ensures id in candidates {
      ReachableStaysInside(links, seeds, candidates, id);
    }
  }

  lemma KeepNext(identities: seq<ProcessIdentity>, paths: map<nat, string>, ids: set<nat>, i: nat)
    requires i < |identities|
    ensures var process := identities[i];
            Keep(Readable(identities[i..], paths), ids) ==
            (if process.id in ids && process.id in paths then [Complete(process, paths[process.id])] else [])
            + Keep(Readable(identities[i + 1..], paths), ids)
  {
    assert identities[i..][1..] == identities[i + 1..];
    var rest := Readable(identities[i + 1..], paths);
    if identities[i].id in paths {
      assert ([Complete(identities[i], paths[identities[i].id])] + rest)[1..] == rest;
    }
  }

  lemma KeepNone(identities: seq<ProcessIdentity>, paths: map<nat, string>, ids: set<nat>)
    ensures Keep(Readable(identities[|identities|..], paths), ids) == []
    ensures AllIds(identities[..0]) == {}
  {
  }

  lemma IdsOfNext(identities: seq<ProcessIdentity>, i: nat)
    requires i < |identities|
    ensures AllIds(identities[..i + 1]) == AllIds(identities[..i]) + {identities[i].id}
  {
    assert identities[..i + 1] == identities[..i] + [identities[i]];
  }

  method ResolveTreeCandidates(
      identities: seq<ProcessIdentity>, rootId: nat, known: seq<ProcessSnapshot>, group: Option<(nat, nat)>,
      paths: map<nat, string>)
    returns (snapshots: seq<ProcessSnapshot>, pathReads: seq<nat>)
    ensures snapshots == Keep(Readable(identities, paths), Candidates(identities, rootId, known, group))
    ensures forall id :: id in pathReads <==> id in AllIds(identities) * Candidates(identities, rootId, known, group)
  {
    var candidates := GrowCandidates(identities, Seeds(identities, rootId, known, group));
    assert candidates == Candidates(identities, rootId, known, group);
    hide *;
    snapshots, pathReads := [], [];
    assert identities[0..] == identities;
    for i := 0 to |identities|
      invariant Keep(Readable(identities, paths), candidates)
          == snapshots + Keep(Readable(identities[i..], paths), candidates)
      invariant forall id :: id in pathReads <==> id in AllIds(identities[..i]) * candidates
    {
      var process := identities[i];
      KeepNext(identities, paths, candidates, i);
      IdsOfNext(identities, i);
      ghost var next := if process.id in candidates && process.id in paths
        then [Complete(process, paths[process.id])] else [];
      ConcatAssociates(snapshots, next, Keep(Readable(identities[i + 1..], paths), candidates));
      if process.id in candidates {
        pathReads := pathReads + [process.id];
        if process.id in paths {
          snapshots := snapshots + [Complete(process, paths[process.id])];
        }
      }
    }
    KeepNone(identities, paths, candidates);
    assert identities[..|identities|] == identities;
  }

  // ----- A closed restriction is invisible to the observer -----

  lemma {:induction false} FindIdInKept(snapshots: seq<ProcessSnapshot>, ids: set<nat>, id: nat)
    requires id in ids
    ensures FindId(Keep(snapshots, ids), id) == FindId(snapshots, id)
  {
    if snapshots != [] {
      FindIdInKept(snapshots[1..], ids, id);
      var kept := Keep(snapshots[1..], ids);
      assert ([snapshots[0]] + kept)[1..] == kept;
    }
  }

  lemma {:induction false} FindInstanceInKept(snapshots: seq<ProcessSnapshot>, ids: set<nat>, expected: ProcessSnapshot)
    requires expected.id in ids
    ensures FindInstance(Keep(snapshots, ids), expected) == FindInstance(snapshots, expected)
  {
    if snapshots != [] {
      FindInstanceInKept(snapshots[1..], ids, expected);
      var kept := Keep(snapshots[1..], ids);
      assert ([snapshots[0]] + kept)[1..] == kept;
    }
  }

  lemma {:induction false} RefreshFromKept(
      known: seq<ProcessSnapshot>, rootId: nat, snapshots: seq<ProcessSnapshot>, ids: set<nat>)
    requires rootId in ids && IdSet(known) <= ids
    ensures Refresh(known, rootId, Keep(snapshots, ids)) == Refresh(known, rootId, snapshots)
    ensures IdSet(Refresh(known, rootId, snapshots)) <= ids
  {
    if known != [] {
      assert known[0].id in IdSet(known) && IdSet(known[1..]) <= IdSet(known);
      RefreshFromKept(known[1..], rootId, snapshots, ids);
      FindIdInKept(snapshots, ids, rootId);
      FindInstanceInKept(snapshots, ids, known[0]);
    }
  }

  lemma {:induction false} LiveFromKept(known: seq<ProcessSnapshot>, snapshots: seq<ProcessSnapshot>, ids: set<nat>)
    requires IdSet(known) <= ids
    ensures Live(known, Keep(snapshots, ids)) == Live(known, snapshots)
  {
    if known != [] {
      assert known[0].id in IdSet(known) && IdSet(known[1..]) <= IdSet(known);
      LiveFromKept(known[1..], snapshots, ids);
      FindInstanceInKept(snapshots, ids, known[0]);
    }
  }

  lemma {:induction false} GroupMembersInKept(
      group: nat, startedAt: nat, snapshots: seq<ProcessSnapshot>, ids: set<nat>)
    requires forall s | s in snapshots && LateGroupMember(group, startedAt, s) :: s.id in ids
    ensures GroupMembers(group, startedAt, Keep(snapshots, ids)) == GroupMembers(group, startedAt, snapshots)
    ensures IdSet(GroupMembers(group, startedAt, snapshots)) <= ids
  {
    if snapshots != [] {
      GroupMembersInKept(group, startedAt, snapshots[1..], ids);
      var kept := Keep(snapshots[1..], ids);
      assert ([snapshots[0]] + kept)[1..] == kept;
    }
  }

  lemma {:induction false} SweepOfKept(owned: set<nat>, snapshots: seq<ProcessSnapshot>, ids: set<nat>)
    requires owned <= ids && Closed(Links(snapshots), ids)
    ensures Sweep(owned, Keep(snapshots, ids)) == Sweep(owned, snapshots)
    ensures IdSet(Sweep(owned, snapshots)) <= ids
    decreases snapshots
  {
    if snapshots != [] {
      var s := snapshots[0];
      assert Link(s.parentId, s.id) in Links(snapshots);
      assert Links(snapshots[1..]) <= Links(snapshots);
      var kept := Keep(snapshots[1..], ids);
      assert ([s] + kept)[1..] == kept;
      if s.id !in owned && s.parentId in owned {
        SweepOfKept(owned + {s.id}, snapshots[1..], ids);
      } else {
        SweepOfKept(owned, snapshots[1..], ids);
      }
    }
  }

  lemma {:induction false} DescendantsOfKept(owned: set<nat>, snapshots: seq<ProcessSnapshot>, ids: set<nat>)
    requires owned <= ids && Closed(Links(snapshots), ids)
    ensures Descendants(owned, Keep(snapshots, ids)) == Descendants(owned, snapshots)
    ensures IdSet(Descendants(owned, snapshots)) <= ids
    decreases IdSet(snapshots) - owned
  {
    var adopted := Sweep(owned, snapshots);
    SweepOfKept(owned, snapshots, ids);
    if adopted != [] {
      SweepAdoptsNewIds(owned, snapshots);
      assert adopted[0].id in IdSet(adopted) && adopted[0].id in IdSet(snapshots);
      DescendantsOfKept(owned + IdSet(adopted), snapshots, ids);
    }
  }

  lemma {:induction false} AdoptKeepsIds(known: seq<ProcessSnapshot>, observed: seq<ProcessSnapshot>, ids: set<nat>)
    requires IdSet(known) <= ids && IdSet(observed) <= ids
    ensures IdSet(Adopt(known, observed)) <= ids
    decreases observed
  {
    if observed != [] {
      assert observed[0].id in IdSet(observed) && IdSet(observed[1..]) <= IdSet(observed);
      AdoptKeepsIds(known, observed[1..], ids);
      AdoptKeepsIds(known + [observed[0]], observed[1..], ids);
    }
  }

  ghost predicate Suffices(ledger: Ledger, snapshots: seq<ProcessSnapshot>, ids: set<nat>) {
    && ledger.root.id in ids
    && IdSet(ledger.known) <= ids
    && (ledger.group.Some? ==>
          forall s | s in snapshots && LateGroupMember(ledger.group.value, ledger.groupStartedAt, s) :: s.id in ids)
    && Closed(Links(snapshots), ids)
  }

  /** Observing a sufficient restriction gives the same ledger and the same result, in the same order. */
  lemma ObserveKept(ledger: Ledger, platform: Platform, snapshots: seq<ProcessSnapshot>, ids: set<nat>)
    requires Suffices(ledger, snapshots, ids)
    ensures Observe(ledger, platform, Keep(snapshots, ids)) == Observe(ledger, platform, snapshots)
  {
    hide Keep, Refresh, Descendants, GroupMembers, Adopt, Live, FirstForeign, FindId, FindInstance, Closed, Links;
    FindIdInKept(snapshots, ids, ledger.root.id);
    RefreshFromKept(ledger.known, ledger.root.id, snapshots, ids);
    var refreshed := Refresh(ledger.known, ledger.root.id, snapshots);
    DescendantsOfKept(IdSet(refreshed), snapshots, ids);
    var lineage := Descendants(IdSet(refreshed), snapshots);
    if ledger.group.Some? {
      GroupMembersInKept(ledger.group.value, ledger.groupStartedAt, snapshots, ids);
    }
    var members := GroupCandidates(ledger, snapshots);
    assert IdSet(members + lineage) <= ids;
    AdoptKeepsIds(refreshed, members + lineage, ids);
    LiveFromKept(Adopt(refreshed, members + lineage), snapshots, ids);
  }

  lemma {:induction false} ReadableComesFromIdentities(identities: seq<ProcessIdentity>, paths: map<nat, string>)
    ensures forall s | s in Readable(identities, paths) ::
              exists p :: p in identities && s.id in paths && s == Complete(p, paths[s.id])
    ensures Links(Readable(identities, paths)) <= IdentityLinks(identities)
  {
    if identities != [] {
      ReadableComesFromIdentities(identities[1..], paths);
      assert forall p | p in identities[1..] :: p in identities;
      assert identities[0] in identities;
      forall s | s in Readable(identities, paths)
        ensures exists p :: p in identities && s.id in paths && s == Complete(p, paths[s.id])
      {
        if s !in Readable(identities[1..], paths) {
          assert s == Complete(identities[0], paths[s.id]);
        }
      }
    }
  }

  function LateGroup(ledger: Ledger): Option<(nat, nat)> {
    if ledger.group.Some? then Some((ledger.group.value, ledger.groupStartedAt)) else None
  }

  /** What the optimized observer sees of a frame. */
  ghost function Scan(ledger: Ledger, frame: Frame): seq<ProcessSnapshot> {
    Keep(Readable(frame.identities, frame.paths),
         Candidates(frame.identities, ledger.root.id, ledger.known, LateGroup(ledger)))
  }

  lemma CandidatesSuffice(ledger: Ledger, frame: Frame)
    ensures Suffices(ledger, Readable(frame.identities, frame.paths),
                     Candidates(frame.identities, ledger.root.id, ledger.known, LateGroup(ledger)))
  {
    var links := IdentityLinks(frame.identities);
    var seeds := Seeds(frame.identities, ledger.root.id, ledger.known, LateGroup(ledger));
    var snapshots := Readable(frame.identities, frame.paths);
    ReadableComesFromIdentities(frame.identities, frame.paths);
    forall id | id in seeds ensures Reachable(links, seeds, id) {
      RootIsReachable(links, seeds, id);
    }
    forall link | link in Links(snapshots) && Reachable(links, seeds, link.parentId)
      ensures Reachable(links, seeds, link.id)
    {
      ChildIsReachable(links, seeds, link.parentId, link.id);
    }
  }

  /** One frame: same ledger, same processes in the same order, same error. */
  lemma FilteredScanRefinesFullScan(ledger: Ledger, platform: Platform, frame: Frame)
    ensures Observe(ledger, platform, Scan(ledger, frame))
         == Observe(ledger, platform, Readable(frame.identities, frame.paths))
  {
    CandidatesSuffice(ledger, frame);
    ObserveKept(ledger, platform, Readable(frame.identities, frame.paths),
                Candidates(frame.identities, ledger.root.id, ledger.known, LateGroup(ledger)));
  }

  ghost function FilteredRun(ledger: Ledger, platform: Platform, frames: seq<Frame>): seq<(Ledger, Observation)>
    decreases frames
  {
    if frames == [] then []
    else
      var step := Observe(ledger, platform, Scan(ledger, frames[0]));
      [step] + FilteredRun(step.0, platform, frames[1..])
  }

  function FullRun(ledger: Ledger, platform: Platform, frames: seq<Frame>): seq<(Ledger, Observation)>
    decreases frames
  {
    if frames == [] then []
    else
      var step := Observe(ledger, platform, Readable(frames[0].identities, frames[0].paths));
      [step] + FullRun(step.0, platform, frames[1..])
  }

  /** Every run, from every ledger, whatever the topology, the group and the unreadable paths. */
  lemma {:induction false} FilteredRunRefinesFullRun(ledger: Ledger, platform: Platform, frames: seq<Frame>)
    ensures FilteredRun(ledger, platform, frames) == FullRun(ledger, platform, frames)
    decreases frames
  {
    if frames != [] {
      FilteredScanRefinesFullScan(ledger, platform, frames[0]);
      FilteredRunRefinesFullRun(Observe(ledger, platform, Scan(ledger, frames[0])).0, platform, frames[1..]);
    }
  }

  /** The macOS observation as it is performed on the tree in place. */
  method ObserveFrame(tree: ObservedProcessTree, frame: Frame) returns (observation: Observation)
    modifies tree
    ensures (tree.State(), observation) == Observe(old(tree.State()), MacOS, Readable(frame.identities, frame.paths))
  {
    var snapshots, _ := ResolveTreeCandidates(
      frame.identities, tree.root.id, tree.known, LateGroup(tree.State()), frame.paths);
    FilteredScanRefinesFullScan(tree.State(), MacOS, frame);
    observation := tree.ObserveSnapshots(MacOS, snapshots);
  }

  /** A process the frame shows in the ledger's group, not older than the group's start. */
  predicate JoinsGroup(p: ProcessIdentity, group: Option<(nat, nat)>) {
    group.Some? && p.groupId == group.value.0 && p.startedAt >= group.value.1
  }

  /** The candidates, whose paths alone are read, are the processes connected by parent links to the root, to a known
      process or to a late member of the group. */
  lemma CandidatesAreConnected(
      identities: seq<ProcessIdentity>, rootId: nat, known: seq<ProcessSnapshot>, group: Option<(nat, nat)>, id: nat)
    ensures id in Candidates(identities, rootId, known, group) <==>
            exists path: seq<nat> ::
              && path != [] && path[|path| - 1] == id
              && (path[0] == rootId || (exists k | k in known :: k.id == path[0])
                  || exists p | p in identities :: p.id == path[0] && JoinsGroup(p, group))
              && forall i | 0 <= i < |path| - 1 :: Link(path[i], path[i + 1]) in IdentityLinks(identities)
  {
    var seeds, links := Seeds(identities, rootId, known, group), IdentityLinks(identities);
    forall seed ensures seed in seeds <==>
        seed == rootId || (exists k | k in known :: k.id == seed)
        || exists p | p in identities :: p.id == seed && JoinsGroup(p, group)
    {
    }
    hide Seeds;
    if Reachable(links, seeds, id) {
      var path :| IsLineage(links, seeds, path) && path[|path| - 1] == id;
      if |path| > 1 {
        assert Link(path[|path| - 2], path[|path| - 1]) in links;
      }
    }
    if path: seq<nat> :| path != [] && path[|path| - 1] == id && path[0] in seeds
                         && forall i | 0 <= i < |path| - 1 :: Link(path[i], path[i + 1]) in links {
      assert IsLineage(links, seeds, path);
      if |path| > 1 {
        assert Link(path[|path| - 2], path[|path| - 1]) in links;
      }
    }
  }
}
