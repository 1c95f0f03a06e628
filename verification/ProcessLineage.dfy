/** The closure loops that turn root PIDs and one enumeration into an owned process tree. */
module ProcessLineage {
  import opened Options
  import opened Processes
  import opened Sequences

  /** One pass over the enumeration: the snapshots adopted, in enumeration order. */
  function Sweep(owned: set<nat>, snapshots: seq<ProcessSnapshot>): (adopted: seq<ProcessSnapshot>)
    decreases snapshots
  {
    if snapshots == [] then []
    else if snapshots[0].id !in owned && snapshots[0].parentId in owned then
      [snapshots[0]] + Sweep(owned + {snapshots[0].id}, snapshots[1..])
    else
      Sweep(owned, snapshots[1..])
  }

  lemma {:induction false} SweepAdoptsNewIds(owned: set<nat>, snapshots: seq<ProcessSnapshot>)
    ensures var adopted := Sweep(owned, snapshots);
            && (forall s | s in adopted :: s in snapshots && s.id !in owned)
            && IdSet(adopted) <= IdSet(snapshots)
    decreases snapshots
  {
    if snapshots != [] {
      SweepAdoptsNewIds(owned + {snapshots[0].id}, snapshots[1..]);
      SweepAdoptsNewIds(owned, snapshots[1..]);
    }
  }

  /** Passes are repeated until one of them adopts nothing. */
  function Descendants(owned: set<nat>, snapshots: seq<ProcessSnapshot>): (descendants: seq<ProcessSnapshot>)
    decreases IdSet(snapshots) - owned
  {
    var adopted := Sweep(owned, snapshots);
    if adopted == [] then []
    else
      SweepAdoptsNewIds(owned, snapshots);
      assert adopted[0].id in IdSet(snapshots) - owned;
      assert adopted[0].id in IdSet(adopted);
      adopted + Descendants(owned + IdSet(adopted), snapshots)
  }

  // ----- What the closure means -----

  lemma {:induction false} SweepIsSound(
      owned: set<nat>, snapshots: seq<ProcessSnapshot>, links: set<Link>, roots: set<nat>)
    requires Links(snapshots) <= links
    requires forall id | id in owned :: Reachable(links, roots, id)
    ensures var adopted := Sweep(owned, snapshots);
            && UniqueIds(adopted)
            && (forall s | s in adopted :: s in snapshots && s.id !in owned && Reachable(links, roots, s.id))
    decreases snapshots
  {
    if snapshots != [] {
      var s := snapshots[0];
      assert Links(snapshots[1..]) <= Links(snapshots);
      if s.id !in owned && s.parentId in owned {
        assert Link(s.parentId, s.id) in Links(snapshots);
        ChildIsReachable(links, roots, s.parentId, s.id);
        SweepIsSound(owned + {s.id}, snapshots[1..], links, roots);
      } else {
        SweepIsSound(owned, snapshots[1..], links, roots);
      }
    }
  }

  lemma {:induction false} EmptySweepIsClosed(owned: set<nat>, snapshots: seq<ProcessSnapshot>)
    requires Sweep(owned, snapshots) == []
    ensures Closed(Links(snapshots), owned)
  {
    if snapshots != [] {
      assert snapshots == [snapshots[0]] + snapshots[1..];
      EmptySweepIsClosed(owned, snapshots[1..]);
      assert forall link | link in Links(snapshots) ::
          link == Link(snapshots[0].parentId, snapshots[0].id) || link in Links(snapshots[1..]);
    }
  }

  /** The closure lists each reachable non-root PID exactly once, and nothing else; cycles and
      dangling parents are allowed. */
  lemma {:induction false} DescendantsExact(roots: set<nat>, snapshots: seq<ProcessSnapshot>)
    ensures var descendants := Descendants(roots, snapshots);
            && UniqueIds(descendants)
            && (forall s | s in descendants :: s in snapshots)
            && (forall id :: id in IdSet(descendants) <==> id !in roots && Reachable(Links(snapshots), roots, id))
  {
    forall id | id in roots ensures Reachable(Links(snapshots), roots, id) {
      RootIsReachable(Links(snapshots), roots, id);
    }
    DescendantsFrom(roots, snapshots, roots);
    var descendants := Descendants(roots, snapshots);
    forall id | id !in roots && Reachable(Links(snapshots), roots, id) ensures id in IdSet(descendants) {
      ReachableStaysInside(Links(snapshots), roots, roots + IdSet(descendants), id);
    }
  }

  lemma {:induction false} DescendantsFrom(owned: set<nat>, snapshots: seq<ProcessSnapshot>, roots: set<nat>)
    requires forall id | id in owned :: Reachable(Links(snapshots), roots, id)
    ensures var descendants := Descendants(owned, snapshots);
            && UniqueIds(descendants)
            && (forall s | s in descendants :: s in snapshots && s.id !in owned
                                              && Reachable(Links(snapshots), roots, s.id))
            && Closed(Links(snapshots), owned + IdSet(descendants))
    decreases IdSet(snapshots) - owned
  {
    var links := Links(snapshots);
    SweepIsSound(owned, snapshots, links, roots);
    var adopted := Sweep(owned, snapshots);
    if adopted == [] {
      EmptySweepIsClosed(owned, snapshots);
      assert owned + IdSet([]) == owned;
    } else {
      assert adopted[0].id in IdSet(snapshots) && adopted[0].id in IdSet(adopted);
      var owned' := owned + IdSet(adopted);
      DescendantsFrom(owned', snapshots, roots);
      var rest := Descendants(owned', snapshots);
      assert owned + IdSet(adopted + rest) == owned' + IdSet(rest);
      assert forall i | 0 <= i < |adopted| :: adopted[i].id in owned';
    }
  }

  /** With unique PIDs a process is listed exactly when it is reachable and not a root. */
  lemma DescendantsMembership(roots: set<nat>, snapshots: seq<ProcessSnapshot>, s: ProcessSnapshot)
    requires UniqueIds(snapshots) && s in snapshots
    ensures s in Descendants(roots, snapshots) <==> s.id !in roots && Reachable(Links(snapshots), roots, s.id)
  {
    DescendantsExact(roots, snapshots);
    var descendants := Descendants(roots, snapshots);
    if s.id in IdSet(descendants) {
      var t :| t in descendants && t.id == s.id;
      assert t == s;
    }
  }

  // ----- The four loops -----

  lemma SweepSplit(owned: set<nat>, snapshots: seq<ProcessSnapshot>, i: nat)
    requires i < |snapshots|
    ensures var s := snapshots[i];
            Sweep(owned, snapshots[i..]) ==
            if s.id !in owned && s.parentId in owned
            then [s] + Sweep(owned + {s.id}, snapshots[i + 1..])
            else Sweep(owned, snapshots[i + 1..])
  {
    assert snapshots[i..][1..] == snapshots[i + 1..];
  }

  lemma IdSetAppend(a: seq<ProcessSnapshot>, s: ProcessSnapshot)
    ensures IdSet(a + [s]) == IdSet(a) + {s.id}
  {
  }

  lemma NothingAdopted(owned: set<nat>, snapshots: seq<ProcessSnapshot>)
    ensures Sweep(owned, snapshots) == [] + Sweep(owned, snapshots[0..])
    ensures forall ids: set<nat> :: Sweep(ids, snapshots[|snapshots|..]) == []
    ensures owned + IdSet([]) == owned
  {
    assert snapshots[0..] == snapshots;
  }

  /** One pass of either snapshot loop, growing the id collection and the result together. */
  method SweepOnce(owned: set<nat>, snapshots: seq<ProcessSnapshot>)
    returns (owned': set<nat>, adopted: seq<ProcessSnapshot>)
    ensures adopted == Sweep(owned, snapshots)
    ensures owned' == owned + IdSet(adopted)
  {
    hide IdSet;
    owned', adopted := owned, [];
    NothingAdopted(owned, snapshots);
    hide Sweep;
    for i := 0 to |snapshots|
      invariant Sweep(owned, snapshots) == adopted + Sweep(owned', snapshots[i..])
      invariant owned' == owned + IdSet(adopted)
    {
      var snapshot := snapshots[i];
      SweepSplit(owned', snapshots, i);
      if snapshot.id !in owned' && snapshot.parentId in owned' {
        IdSetAppend(adopted, snapshot);
        ConcatAssociates(adopted, [snapshot], Sweep(owned' + {snapshot.id}, snapshots[i + 1..]));
        owned', adopted := owned' + {snapshot.id}, adopted + [snapshot];
      }
    }
  }

  /** The shared descendant search: roots are not part of the answer. */
  method DescendantSnapshots(roots: seq<nat>, snapshots: seq<ProcessSnapshot>)
    returns (descendants: seq<ProcessSnapshot>)
    ensures descendants == Descendants(AsSet(roots), snapshots)
  {
    ghost var rootIds := AsSet(roots);
    var owned := AsSet(roots);
    descendants := [];
    while true
      invariant Descendants(rootIds, snapshots) == descendants + Descendants(owned, snapshots)
      decreases IdSet(snapshots) - owned
    {
      var owned', adopted := SweepOnce(owned, snapshots);
      if adopted == [] {
        return;
      }
      SweepAdoptsNewIds(owned, snapshots);
      assert adopted[0].id in IdSet(adopted) && adopted[0].id in IdSet(snapshots);
      owned, descendants := owned', descendants + adopted;
    }
  }

  /** The remote listener's own search, which lists its single root first. */
  method RemoteDescendants(root: ProcessSnapshot, snapshots: seq<ProcessSnapshot>)
    returns (selected: seq<ProcessSnapshot>)
    ensures selected == [root] + Descendants({root.id}, snapshots)
  {
    selected := [root];
    var selectedIds := {root.id};
    while true
      invariant [root] + Descendants({root.id}, snapshots) == selected + Descendants(selectedIds, snapshots)
      decreases IdSet(snapshots) - selectedIds
    {
      var selectedIds', adopted := SweepOnce(selectedIds, snapshots);
      if adopted == [] {
        return;
      }
      SweepAdoptsNewIds(selectedIds, snapshots);
      assert adopted[0].id in IdSet(adopted) && adopted[0].id in IdSet(snapshots);
      selectedIds, selected := selectedIds', selected + adopted;
    }
  }

  /** The Windows search over bare (id, parent) entries. */
  method WindowsOwnedIds(rootId: nat, entries: seq<Link>) returns (owned: seq<nat>)
    ensures |owned| > 0 && owned[0] == rootId
    ensures forall i, j | 0 <= i < j < |owned| :: owned[i] != owned[j]
    ensures forall id :: id in owned <==> Reachable((set e | e in entries), {rootId}, id)
  {
    ghost var links := set e | e in entries;
    owned := [rootId];
    RootIsReachable(links, {rootId}, rootId);
    var changed := true;
    while changed
      invariant |owned| > 0 && owned[0] == rootId
      invariant forall i, j | 0 <= i < j < |owned| :: owned[i] != owned[j]
      invariant forall id | id in owned :: Reachable(links, {rootId}, id)
      invariant !changed ==> Closed(links, (set id | id in owned))
      decreases (set link | link in links :: link.id) - (set id | id in owned), changed
    {
      changed := false;
      ghost var before := owned;
      ghost var ids := set link | link in links :: link.id;
      for k := 0 to |entries|
        invariant before <= owned
        invariant changed ==> exists id :: id in owned && id !in before && id in ids
        invariant !changed ==> owned == before
        invariant forall i, j | 0 <= i < j < |owned| :: owned[i] != owned[j]
        invariant forall id | id in owned :: Reachable(links, {rootId}, id)
        invariant !changed ==> forall i | 0 <= i < k :: entries[i].parentId in owned ==> entries[i].id in owned
      {
        var process := entries[k];
        if process.id !in owned && process.parentId in owned {
          assert process in links;
          ChildIsReachable(links, {rootId}, process.parentId, process.id);
          owned := owned + [process.id];
          changed := true;
          assert process.id in owned;
        }
      }
      assert ids - (set id | id in owned) <= ids - (set id | id in before);
      if changed {
        ghost var id :| id in owned && id !in before && id in ids;
        assert id in ids - (set i | i in before) && id !in ids - (set i | i in owned);
      }
    }
    forall id | Reachable(links, {rootId}, id) ensures id in owned {
      ReachableStaysInside(links, {rootId}, (set i | i in owned), id);
    }
  }
}
