/** Process snapshots, instance identity and parent-link reachability. */
module Processes {
  import opened Options

  datatype ProcessSnapshot = ProcessSnapshot(
    id: nat, parentId: nat, groupId: nat, executable: string, startedAt: nat)

  /** A PID together with its start time names one process for all time; a PID alone does not. */
  predicate SameInstance(expected: ProcessSnapshot, current: ProcessSnapshot) {
    expected.id == current.id && expected.startedAt == current.startedAt
  }

  function FindId(snapshots: seq<ProcessSnapshot>, id: nat): (found: Option<ProcessSnapshot>)
    ensures found.Some? ==> found.value in snapshots && found.value.id == id
    ensures found.None? <==> forall s | s in snapshots :: s.id != id
  {
    if snapshots == [] then None
    else if snapshots[0].id == id then Some(snapshots[0])
    else FindId(snapshots[1..], id)
  }

  function FindInstance(snapshots: seq<ProcessSnapshot>, expected: ProcessSnapshot): (found: Option<ProcessSnapshot>)
    ensures found.Some? ==> found.value in snapshots && SameInstance(expected, found.value)
    ensures found.None? <==> forall s | s in snapshots :: !SameInstance(expected, s)
  {
    if snapshots == [] then None
    else if SameInstance(expected, snapshots[0]) then Some(snapshots[0])
    else FindInstance(snapshots[1..], expected)
  }

  function AsSet(ids: seq<nat>): set<nat> {
    set id | id in ids
  }

  function IdSet(snapshots: seq<ProcessSnapshot>): set<nat> {
    set s | s in snapshots :: s.id
  }

  /** No PID occurs twice: what one enumeration of a real process table delivers. */
  ghost predicate UniqueIds(snapshots: seq<ProcessSnapshot>) {
    forall i, j | 0 <= i < j < |snapshots| :: snapshots[i].id != snapshots[j].id
  }

  /** A parent link of one enumeration. */
  datatype Link = Link(parentId: nat, id: nat)

  function Links(snapshots: seq<ProcessSnapshot>): set<Link> {
    set s | s in snapshots :: Link(s.parentId, s.id)
  }

  /** `path` starts at one of `roots` and follows parent links downwards. */
  ghost predicate IsLineage(links: set<Link>, roots: set<nat>, path: seq<nat>) {
    && path != []
    && path[0] in roots
    && forall i | 0 <= i < |path| - 1 :: Link(path[i], path[i + 1]) in links
  }

  /** `id` is one of `roots` or is connected to one of them by parent links. */
  ghost predicate Reachable(links: set<Link>, roots: set<nat>, id: nat) {
    exists path :: IsLineage(links, roots, path) && path[|path| - 1] == id
  }

  lemma RootIsReachable(links: set<Link>, roots: set<nat>, id: nat)
    requires id in roots
    ensures Reachable(links, roots, id)
  {
    assert IsLineage(links, roots, [id]);
  }

  lemma ChildIsReachable(links: set<Link>, roots: set<nat>, parentId: nat, id: nat)
    requires Reachable(links, roots, parentId)
    requires Link(parentId, id) in links
    ensures Reachable(links, roots, id)
  {
    var path :| IsLineage(links, roots, path) && path[|path| - 1] == parentId;
    assert IsLineage(links, roots, path + [id]);
  }

  ghost predicate Closed(links: set<Link>, ids: set<nat>) {
    forall link | link in links && link.parentId in ids :: link.id in ids
  }

  /** A set that holds the roots and is closed under parent links holds everything reachable. */
  lemma {:induction false} ReachableStaysInside(links: set<Link>, roots: set<nat>, ids: set<nat>, id: nat)
    requires roots <= ids && Closed(links, ids)
    requires Reachable(links, roots, id)
    ensures id in ids
  {
    var path :| IsLineage(links, roots, path) && path[|path| - 1] == id;
    LineageStaysInside(links, roots, ids, path, |path| - 1);
  }

  lemma {:induction false} LineageStaysInside(
      links: set<Link>, roots: set<nat>, ids: set<nat>, path: seq<nat>, i: nat)
    requires roots <= ids && Closed(links, ids)
    requires IsLineage(links, roots, path) && i < |path|
    ensures path[i] in ids
  {
    if i > 0 {
      LineageStaysInside(links, roots, ids, path, i - 1);
      assert Link(path[i - 1], path[i]) in links;
    }
  }
}
