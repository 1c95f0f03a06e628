/** The managed Linux launch: which Desktop process may be taken over, and with what initial ledger. */
module LinuxLaunch {
  import opened Options
  import opened Processes
  import opened ProcessLineage
  import opened OwnershipLedger
  import opened LedgerSafety

  // ----- Desktop roots of one frame -----

  function Matching(executable: string, snapshots: seq<ProcessSnapshot>): seq<ProcessSnapshot> {
    if snapshots == [] then []
    else
      var rest := Matching(executable, snapshots[1..]);
      if snapshots[0].executable == executable then [snapshots[0]] + rest else rest
  }

  /** Drops the processes whose parent is one of `ids`. */
  function Parentless(snapshots: seq<ProcessSnapshot>, ids: set<nat>): seq<ProcessSnapshot> {
    if snapshots == [] then []
    else
      var rest := Parentless(snapshots[1..], ids);
      if snapshots[0].parentId !in ids then [snapshots[0]] + rest else rest
  }

  /** Stable insertion by PID. */
  function InsertById(s: ProcessSnapshot, sorted: seq<ProcessSnapshot>): seq<ProcessSnapshot> {
    if sorted == [] || s.id <= sorted[0].id then [s] + sorted
    else [sorted[0]] + InsertById(s, sorted[1..])
  }

  function SortById(snapshots: seq<ProcessSnapshot>): seq<ProcessSnapshot> {
    if snapshots == [] then [] else InsertById(snapshots[0], SortById(snapshots[1..]))
  }

  function DesktopTree(executable: string, snapshots: seq<ProcessSnapshot>): seq<ProcessSnapshot> {
    var matching := Matching(executable, snapshots);
    var roots := Parentless(matching, IdSet(matching));
    SortById(roots + Descendants(IdSet(roots), snapshots))
  }

  function DesktopRoots(executable: string, snapshots: seq<ProcessSnapshot>): seq<ProcessSnapshot> {
    var tree := DesktopTree(executable, snapshots);
    Parentless(Matching(executable, tree), IdSet(tree))
  }

  lemma {:induction false} MatchingExact(executable: string, snapshots: seq<ProcessSnapshot>, s: ProcessSnapshot)
    ensures s in Matching(executable, snapshots) <==> s in snapshots && s.executable == executable
  {
    if snapshots != [] {
      MatchingExact(executable, snapshots[1..], s);
      assert s in snapshots <==> s == snapshots[0] || s in snapshots[1..];
    }
  }

  lemma {:induction false} ParentlessExact(snapshots: seq<ProcessSnapshot>, ids: set<nat>, s: ProcessSnapshot)
    ensures s in Parentless(snapshots, ids) <==> s in snapshots && s.parentId !in ids
  {
    if snapshots != [] {
      ParentlessExact(snapshots[1..], ids, s);
      assert s in snapshots <==> s == snapshots[0] || s in snapshots[1..];
    }
  }

  ghost predicate Ascending(snapshots: seq<ProcessSnapshot>) {
    forall i, j | 0 <= i < j < |snapshots| :: snapshots[i].id <= snapshots[j].id
  }

  lemma {:induction false} SortIsPermutation(snapshots: seq<ProcessSnapshot>)
    ensures multiset(SortById(snapshots)) == multiset(snapshots) && Ascending(SortById(snapshots))
  {
    if snapshots != [] {
      assert snapshots == [snapshots[0]] + snapshots[1..];
      SortIsPermutation(snapshots[1..]);
      InsertIsPermutation(snapshots[0], SortById(snapshots[1..]));
      InsertKeepsOrder(snapshots[0], SortById(snapshots[1..]));
    }
  }

  lemma {:induction false} InsertIsPermutation(s: ProcessSnapshot, sorted: seq<ProcessSnapshot>)
    ensures multiset(InsertById(s, sorted)) == multiset{s} + multiset(sorted)
  {
    if !(sorted == [] || s.id <= sorted[0].id) {
      assert sorted == [sorted[0]] + sorted[1..];
      InsertIsPermutation(s, sorted[1..]);
    }
  }

  lemma {:induction false} InsertKeepsOrder(s: ProcessSnapshot, sorted: seq<ProcessSnapshot>)
    requires Ascending(sorted)
    ensures Ascending(InsertById(s, sorted))
  {
    if !(sorted == [] || s.id <= sorted[0].id) {
      InsertKeepsOrder(s, sorted[1..]);
      InsertIsPermutation(s, sorted[1..]);
      var rest := InsertById(s, sorted[1..]);
      forall i | 0 <= i < |rest| ensures sorted[0].id <= rest[i].id {
        assert rest[i] in multiset(rest);
        assert rest[i] == s || rest[i] in sorted[1..];
      }
    }
  }

  lemma TreeMembership(executable: string, snapshots: seq<ProcessSnapshot>, s: ProcessSnapshot)
    ensures var matching := Matching(executable, snapshots);
            var roots := Parentless(matching, IdSet(matching));
            s in DesktopTree(executable, snapshots) <==> s in roots + Descendants(IdSet(roots), snapshots)
  {
    var matching := Matching(executable, snapshots);
    var roots := Parentless(matching, IdSet(matching));
    var all := roots + Descendants(IdSet(roots), snapshots);
    SortIsPermutation(all);
    assert s in all <==> s in multiset(all);
    assert s in SortById(all) <==> s in multiset(SortById(all));
  }

  /** `ancestor` reaches `s` by at least one parent link. */
  ghost predicate ProperAncestor(snapshots: seq<ProcessSnapshot>, ancestor: nat, s: ProcessSnapshot) {
    Reachable(Links(snapshots), {ancestor}, s.parentId)
  }

  predicate Matches(executable: string, snapshots: seq<ProcessSnapshot>, s: ProcessSnapshot) {
    s in snapshots && s.executable == executable
  }

  /** A process of the executable whose parent is not one. */
  ghost predicate TopMatch(executable: string, snapshots: seq<ProcessSnapshot>, s: ProcessSnapshot) {
    Matches(executable, snapshots, s)
    && forall a | Matches(executable, snapshots, a) :: a.id != s.parentId
  }

  /** The Desktop roots are exactly the processes of the executable whose parent is not one and that are not below
      such a process, whatever cycles the parent links have. */
  lemma DesktopRootsExact(executable: string, snapshots: seq<ProcessSnapshot>, s: ProcessSnapshot)
    ensures s in DesktopRoots(executable, snapshots) <==>
              && TopMatch(executable, snapshots, s)
              && forall a | TopMatch(executable, snapshots, a) :: !ProperAncestor(snapshots, a.id, s)
    ensures s in DesktopRoots(executable, snapshots) <==>
              s in DesktopTree(executable, snapshots) && s.executable == executable
              && s.parentId !in IdSet(DesktopTree(executable, snapshots))
  {
    var matching := Matching(executable, snapshots);
    var roots := Parentless(matching, IdSet(matching));
    var tree := DesktopTree(executable, snapshots);
    MatchingExact(executable, tree, s);
    ParentlessExact(Matching(executable, tree), IdSet(tree), s);
    TreeMembership(executable, snapshots, s);
    TopMatchesAreRoots(executable, snapshots, s);
    DescendantsExact(IdSet(roots), snapshots);
    TreeIds(executable, snapshots);
    hide DesktopTree, Descendants, Matching, Parentless;
    if s in tree && s !in roots {
      assert s in Descendants(IdSet(roots), snapshots);
      DescendantHasParentInTree(executable, snapshots, s);
    }
    forall a | TopMatch(executable, snapshots, a) ensures a in roots {
      TopMatchesAreRoots(executable, snapshots, a);
    }
    forall a | a in roots ensures TopMatch(executable, snapshots, a) {
      TopMatchesAreRoots(executable, snapshots, a);
    }
    ReachableFromSome(Links(snapshots), roots, s.parentId);
  }

  lemma TopMatchesAreRoots(executable: string, snapshots: seq<ProcessSnapshot>, s: ProcessSnapshot)
    ensures var matching := Matching(executable, snapshots);
            s in Parentless(matching, IdSet(matching)) <==> TopMatch(executable, snapshots, s)
  {
    var matching := Matching(executable, snapshots);
    ParentlessExact(matching, IdSet(matching), s);
    MatchingExact(executable, snapshots, s);
    forall a ensures a in matching <==> Matches(executable, snapshots, a) {
      MatchingExact(executable, snapshots, a);
    }
  }

  /** The ids of the Desktop tree are those reachable from its roots. */
  lemma TreeIds(executable: string, snapshots: seq<ProcessSnapshot>)
    ensures var matching := Matching(executable, snapshots);
            var roots := IdSet(Parentless(matching, IdSet(matching)));
            forall id :: id in IdSet(DesktopTree(executable, snapshots)) <==> Reachable(Links(snapshots), roots, id)
  {
    var matching := Matching(executable, snapshots);
    var roots := Parentless(matching, IdSet(matching));
    var descendants := Descendants(IdSet(roots), snapshots);
    DescendantsExact(IdSet(roots), snapshots);
    forall t ensures t in DesktopTree(executable, snapshots) <==> t in roots || t in descendants {
      TreeMembership(executable, snapshots, t);
    }
    hide DesktopTree, Descendants, Matching, Parentless, Reachable;
    forall id | id in IdSet(roots) ensures Reachable(Links(snapshots), IdSet(roots), id) {
      RootIsReachable(Links(snapshots), IdSet(roots), id);
    }
    assert IdSet(DesktopTree(executable, snapshots)) == IdSet(roots) + IdSet(descendants);
  }

  /** A process that the closure adopted has its parent in the tree. */
  lemma DescendantHasParentInTree(executable: string, snapshots: seq<ProcessSnapshot>, s: ProcessSnapshot)
    requires var matching := Matching(executable, snapshots);
             s in Descendants(IdSet(Parentless(matching, IdSet(matching))), snapshots)
    ensures s.parentId in IdSet(DesktopTree(executable, snapshots))
  {
    var matching := Matching(executable, snapshots);
    var roots := IdSet(Parentless(matching, IdSet(matching)));
    TreeIds(executable, snapshots);
    forall id | id in roots ensures Reachable(Links(snapshots), roots, id) {
      RootIsReachable(Links(snapshots), roots, id);
    }
    DescendantsHaveOwnedParents(roots, snapshots, roots, s);
  }

  lemma {:induction false} SweepHasOwnedParents(
      owned: set<nat>, snapshots: seq<ProcessSnapshot>, links: set<Link>, roots: set<nat>, s: ProcessSnapshot)
    requires Links(snapshots) <= links && s in Sweep(owned, snapshots)
    requires forall id | id in owned :: Reachable(links, roots, id)
    ensures Reachable(links, roots, s.parentId)
    decreases snapshots
  {
    var first := snapshots[0];
    assert Links(snapshots[1..]) <= Links(snapshots);
    if first.id !in owned && first.parentId in owned {
      assert Link(first.parentId, first.id) in Links(snapshots);
      ChildIsReachable(links, roots, first.parentId, first.id);
      if s != first {
        SweepHasOwnedParents(owned + {first.id}, snapshots[1..], links, roots, s);
      }
    } else {
      SweepHasOwnedParents(owned, snapshots[1..], links, roots, s);
    }
  }

  lemma {:induction false} DescendantsHaveOwnedParents(
      owned: set<nat>, snapshots: seq<ProcessSnapshot>, roots: set<nat>, s: ProcessSnapshot)
    requires s in Descendants(owned, snapshots)
    requires forall id | id in owned :: Reachable(Links(snapshots), roots, id)
    ensures Reachable(Links(snapshots), roots, s.parentId)
    decreases IdSet(snapshots) - owned
  {
    var adopted := Sweep(owned, snapshots);
    SweepIsSound(owned, snapshots, Links(snapshots), roots);
    if s in adopted {
      SweepHasOwnedParents(owned, snapshots, Links(snapshots), roots, s);
    } else {
      SweepAdoptsNewIds(owned, snapshots);
      assert adopted[0].id in IdSet(snapshots) && adopted[0].id in IdSet(adopted);
      DescendantsHaveOwnedParents(owned + IdSet(adopted), snapshots, roots, s);
    }
  }

  lemma ReachableFromSome(links: set<Link>, roots: seq<ProcessSnapshot>, id: nat)
    ensures Reachable(links, IdSet(roots), id) <==> exists a :: a in roots && Reachable(links, {a.id}, id)
  {
    if Reachable(links, IdSet(roots), id) {
      var path :| IsLineage(links, IdSet(roots), path) && path[|path| - 1] == id;
      var a :| a in roots && a.id == path[0];
      assert IsLineage(links, {a.id}, path);
    }
    if a :| a in roots && Reachable(links, {a.id}, id) {
      var path :| IsLineage(links, {a.id}, path) && path[|path| - 1] == id;
      assert IsLineage(links, IdSet(roots), path);
    }
  }

  /** In a frame without cycles they are the processes of the executable with no ancestor of the same executable. */
  lemma DesktopRootsWithoutCycles(
      executable: string, snapshots: seq<ProcessSnapshot>, rank: nat -> nat, s: ProcessSnapshot)
    requires forall link | link in Links(snapshots) :: rank(link.parentId) < rank(link.id)
    ensures s in DesktopRoots(executable, snapshots) <==>
              && Matches(executable, snapshots, s)
              && forall a | Matches(executable, snapshots, a) :: !ProperAncestor(snapshots, a.id, s)
  {
    DesktopRootsExact(executable, snapshots, s);
    forall a | Matches(executable, snapshots, a) && a.id == s.parentId ensures ProperAncestor(snapshots, a.id, s) {
      RootIsReachable(Links(snapshots), {a.id}, a.id);
    }
    forall a | Matches(executable, snapshots, a) && ProperAncestor(snapshots, a.id, s)
      ensures exists top :: TopMatch(executable, snapshots, top) && ProperAncestor(snapshots, top.id, s)
    {
      var top := TopmostMatch(executable, snapshots, rank, a, s);
    }
  }

  /** Climbing from a matching ancestor ends at a matching ancestor whose parent does not match. */
  lemma {:induction false} TopmostMatch(
      executable: string, snapshots: seq<ProcessSnapshot>, rank: nat -> nat, a: ProcessSnapshot, s: ProcessSnapshot)
    returns (top: ProcessSnapshot)
    requires forall link | link in Links(snapshots) :: rank(link.parentId) < rank(link.id)
    requires Matches(executable, snapshots, a) && ProperAncestor(snapshots, a.id, s)
    ensures TopMatch(executable, snapshots, top) && ProperAncestor(snapshots, top.id, s)
    decreases rank(a.id)
  {
    if TopMatch(executable, snapshots, a) {
      top := a;
    } else {
      var above :| Matches(executable, snapshots, above) && above.id == a.parentId;
      assert Link(above.id, a.id) in Links(snapshots);
      var path :| IsLineage(Links(snapshots), {a.id}, path) && path[|path| - 1] == s.parentId;
      var longer := [above.id] + path;
      assert IsLineage(Links(snapshots), {above.id}, longer) && longer[|longer| - 1] == s.parentId;
      top := TopmostMatch(executable, snapshots, rank, above, s);
    }
  }

  // ----- Remembering processes -----

  /** Replaces the first entry with the same PID, or appends. */
  function RememberOne(known: seq<ProcessSnapshot>, process: ProcessSnapshot): seq<ProcessSnapshot> {
    if known == [] then [process]
    else if known[0].id == process.id then [process] + known[1..]
    else [known[0]] + RememberOne(known[1..], process)
  }

  function Remember(known: seq<ProcessSnapshot>, processes: seq<ProcessSnapshot>): seq<ProcessSnapshot>
    decreases processes
  {
    if processes == [] then known else Remember(RememberOne(known, processes[0]), processes[1..])
  }

  method RememberProcess(
      known: seq<ProcessSnapshot>, process: ProcessSnapshot) returns (remembered: seq<ProcessSnapshot>)
    ensures remembered == RememberOne(known, process)
  {
    var k := 0;
    while k < |known| && known[k].id != process.id
      invariant k <= |known|
      invariant RememberOne(known, process) == known[..k] + RememberOne(known[k..], process)
    {
      assert known[k..][1..] == known[k + 1..];
      assert known[..k + 1] == known[..k] + [known[k]];
      k := k + 1;
    }
    if k < |known| {
      assert known[k..][1..] == known[k + 1..];
      remembered := known[k := process];
    } else {
      remembered := known + [process];
    }
  }

  method RememberProcesses(
      known: seq<ProcessSnapshot>, processes: seq<ProcessSnapshot>) returns (remembered: seq<ProcessSnapshot>)
    ensures remembered == Remember(known, processes)
  {
    remembered := known;
    for i := 0 to |processes|
      invariant Remember(known, processes) == Remember(remembered, processes[i..])
    {
      assert processes[i..][1..] == processes[i + 1..];
      remembered := RememberProcess(remembered, processes[i]);
    }
  }

  lemma {:induction false} RememberOneExact(known: seq<ProcessSnapshot>, process: ProcessSnapshot)
    requires UniqueIds(known)
    ensures var remembered := RememberOne(known, process);
            && UniqueIds(remembered)
            && forall e :: e in remembered <==> e == process || (e in known && e.id != process.id)
  {
    if known != [] {
      var tail := known[1..];
      assert forall i | 0 <= i < |tail| :: tail[i] == known[i + 1];
      assert forall e :: e in known <==> e == known[0] || e in tail;
      if known[0].id == process.id {
        assert forall e | e in tail :: e.id != process.id;
      } else {
        RememberOneExact(tail, process);
      }
    }
  }

  /** The latest snapshot of every PID wins. */
  lemma {:induction false} RememberExact(known: seq<ProcessSnapshot>, processes: seq<ProcessSnapshot>)
    requires UniqueIds(known) && UniqueIds(processes)
    ensures var remembered := Remember(known, processes);
            && UniqueIds(remembered)
            && forall e :: e in remembered <==> e in processes || (e in known && e.id !in IdSet(processes))
    decreases processes
  {
    if processes != [] {
      var rest := processes[1..];
      assert forall i | 0 <= i < |rest| :: rest[i] == processes[i + 1];
      assert forall e :: e in processes <==> e == processes[0] || e in rest;
      assert IdSet(processes) == {processes[0].id} + IdSet(rest);
      RememberOneExact(known, processes[0]);
      RememberExact(RememberOne(known, processes[0]), rest);
      assert processes[0].id !in IdSet(rest);
    }
  }

  // ----- The launch loop -----

  predicate IsManagedRoot(
      launcher: ProcessSnapshot, groupId: nat, descendants: seq<ProcessSnapshot>, root: ProcessSnapshot)
  {
    && root.groupId == groupId
    && root.startedAt >= launcher.startedAt
    && (SameInstance(root, launcher) || FindInstance(descendants, root).Some?)
  }

  datatype LaunchError =
    | EnumerationFailed
    | LauncherReused
    | LauncherExitedEarly
    | MultipleRoots
    | UnmanagedConflict
    | TimedOut

  function Managed(
      launcher: ProcessSnapshot, groupId: nat, descendants: seq<ProcessSnapshot>, roots: seq<ProcessSnapshot>)
    : (managed: seq<ProcessSnapshot>)
    ensures |managed| <= |roots|
    ensures forall r | r in managed :: r in roots && IsManagedRoot(launcher, groupId, descendants, r)
    ensures |managed| == |roots| ==> managed == roots
  {
    if roots == [] then []
    else
      var rest := Managed(launcher, groupId, descendants, roots[1..]);
      if IsManagedRoot(launcher, groupId, descendants, roots[0]) then [roots[0]] + rest else rest
  }

  function SelectManagedRoot(
      launcher: ProcessSnapshot, groupId: nat, descendants: seq<ProcessSnapshot>, roots: seq<ProcessSnapshot>)
    : Result<Option<ProcessSnapshot>, LaunchError>
  {
    var managed := Managed(launcher, groupId, descendants, roots);
    if |managed| > 1 then Failure(MultipleRoots)
    else if |roots| > |managed| then Failure(UnmanagedConflict)
    else Success(if managed == [] then None else Some(managed[0]))
  }

  /** One turn's environment: the enumeration (or its failure) and whether time is left afterwards. */
  datatype Turn = Turn(snapshots: Option<seq<ProcessSnapshot>>, timeLeft: bool)

  datatype Progress =
    | Waiting(members: seq<ProcessSnapshot>, descendants: seq<ProcessSnapshot>)
    | Session(ledger: Ledger, turn: nat)
    | Refused(error: LaunchError, members: seq<ProcessSnapshot>)

  /** The descendants and members remembered once a frame has been looked at. */
  function Noted(
      launcher: ProcessSnapshot, snapshots: seq<ProcessSnapshot>, members: seq<ProcessSnapshot>,
      descendants: seq<ProcessSnapshot>)
    : (seq<ProcessSnapshot>, seq<ProcessSnapshot>)
  {
    var live := FindId(snapshots, launcher.id);
    if live.Some? then
      var descendants' := Remember(descendants, Descendants({launcher.id}, snapshots));
      (Remember(Remember(members, [live.value]), descendants'), descendants')
    else
      (Remember(members, descendants), descendants)
  }

  function Decide(
      launcher: ProcessSnapshot, roots: seq<ProcessSnapshot>, members: seq<ProcessSnapshot>,
      descendants: seq<ProcessSnapshot>,
      timeLeft: bool, n: nat): Progress
  {
    match SelectManagedRoot(launcher, launcher.groupId, descendants, roots)
    case Failure(error) => Refused(error, members)
    case Success(Some(root)) =>
      Session(NewWithOwnedProcesses(root, Some(launcher.groupId), Some(launcher.startedAt), members), n)
    case Success(None) => if timeLeft then Waiting(members, descendants) else Refused(TimedOut, members)
  }

  function LaunchTurn(
      launcher: ProcessSnapshot, executable: string, members: seq<ProcessSnapshot>, descendants: seq<ProcessSnapshot>,
      turn: Turn, n: nat): Progress
  {
    if turn.snapshots.None? then Refused(EnumerationFailed, members)
    else
      var snapshots := turn.snapshots.value;
      var live := FindId(snapshots, launcher.id);
      if live.Some? && !SameInstance(launcher, live.value) then Refused(LauncherReused, members)
      else if live.None? && descendants == [] then Refused(LauncherExitedEarly, members)
      else
        var (members', descendants') := Noted(launcher, snapshots, members, descendants);
        Decide(launcher, DesktopRoots(executable, snapshots), members', descendants', turn.timeLeft, n)
  }

  /** Where the loop stands after `n` turns; a decided launch takes no further turns. */
  function LaunchAfter(launcher: ProcessSnapshot, executable: string, turns: seq<Turn>, n: nat): Progress
    requires n <= |turns|
  {
    if n == 0 then Waiting([launcher], [])
    else
      var before := LaunchAfter(launcher, executable, turns, n - 1);
      if before.Waiting? then LaunchTurn(launcher, executable, before.members, before.descendants, turns[n - 1], n - 1)
      else before
  }

  lemma {:induction false} DecidedLaunchStays(
      launcher: ProcessSnapshot, executable: string, turns: seq<Turn>, m: nat, n: nat)
    requires m <= n <= |turns| && !LaunchAfter(launcher, executable, turns, m).Waiting?
    ensures LaunchAfter(launcher, executable, turns, n) == LaunchAfter(launcher, executable, turns, m)
  {
    if m < n {
      DecidedLaunchStays(launcher, executable, turns, m, n - 1);
    }
  }

  method TakeTurn(
      launcher: ProcessSnapshot, executable: string, known: seq<ProcessSnapshot>, below: seq<ProcessSnapshot>,
      turn: Turn, n: nat)
    returns (progress: Progress)
    ensures progress == LaunchTurn(launcher, executable, known, below, turn, n)
  {
    var members, descendants := known, below;
    if turn.snapshots.None? {
      return Refused(EnumerationFailed, members);
    }
    var snapshots := turn.snapshots.value;
    var live := FindId(snapshots, launcher.id);
    if live.Some? {
      if !SameInstance(launcher, live.value) {
        return Refused(LauncherReused, members);
      }
      members := RememberProcesses(members, [live.value]);
      assert AsSet([launcher.id]) == {launcher.id};
      var found := DescendantSnapshots([launcher.id], snapshots);
      descendants := RememberProcesses(descendants, found);
    } else if descendants == [] {
      return Refused(LauncherExitedEarly, members);
    }
    members := RememberProcesses(members, descendants);
    match SelectManagedRoot(launcher, launcher.groupId, descendants, DesktopRoots(executable, snapshots)) {
      case Failure(error) =>
        return Refused(error, members);
      case Success(Some(root)) =>
        return Session(NewWithOwnedProcesses(root, Some(launcher.groupId), Some(launcher.startedAt), members), n);
      case Success(None) =>
        return if turn.timeLeft then Waiting(members, descendants) else Refused(TimedOut, members);
    }
  }

  method LaunchLoop(launcher: ProcessSnapshot, executable: string, turns: seq<Turn>) returns (outcome: Progress)
    ensures outcome == LaunchAfter(launcher, executable, turns, |turns|)
  {
    hide LaunchTurn;
    outcome := Waiting([launcher], []);
    var n := 0;
    while n < |turns| && outcome.Waiting?
      invariant n <= |turns| && outcome == LaunchAfter(launcher, executable, turns, n)
    {
      outcome := TakeTurn(launcher, executable, outcome.members, outcome.descendants, turns[n], n);
      n := n + 1;
    }
    if !outcome.Waiting? {
      DecidedLaunchStays(launcher, executable, turns, n, |turns|);
    }
  }

  // ----- What a launch may take over -----

  /** Some turn before `n` saw the launcher instance alive and this instance below it. */
  ghost predicate SeenBelowLauncher(launcher: ProcessSnapshot, turns: seq<Turn>, n: nat, e: ProcessSnapshot)
    requires n <= |turns|
  {
    exists m :: 0 <= m < n && SeenInTurn(launcher, turns[m], e)
  }

  ghost predicate SeenInTurn(launcher: ProcessSnapshot, turn: Turn, e: ProcessSnapshot) {
    && turn.snapshots.Some?
    && e in turn.snapshots.value
    && e.id != launcher.id
    && Reachable(Links(turn.snapshots.value), {launcher.id}, e.id)
    && exists l :: l in turn.snapshots.value && SameInstance(launcher, l)
  }

  ghost predicate Attributed(launcher: ProcessSnapshot, turns: seq<Turn>, n: nat, entries: seq<ProcessSnapshot>)
    requires n <= |turns|
  {
    && UniqueIds(entries)
    && forall e | e in entries :: SameInstance(launcher, e) || SeenBelowLauncher(launcher, turns, n, e)
  }

  ghost predicate Good(launcher: ProcessSnapshot, turns: seq<Turn>, n: nat, progress: Progress)
    requires n <= |turns|
  {
    match progress
    case Waiting(members, descendants) =>
      && Attributed(launcher, turns, n, members)
      && UniqueIds(descendants)
      && (forall d | d in descendants :: SeenBelowLauncher(launcher, turns, n, d))
      && (exists l :: l in members && SameInstance(launcher, l))
    case Session(ledger, turn) =>
      && Valid(ledger)
      && Attributed(launcher, turns, n, ledger.known)
    case Refused(_, members) => Attributed(launcher, turns, n, members)
  }

  lemma SeenLater(launcher: ProcessSnapshot, turns: seq<Turn>, n: nat, n': nat)
    requires n <= n' <= |turns|
    ensures forall e | SeenBelowLauncher(launcher, turns, n, e) :: SeenBelowLauncher(launcher, turns, n', e)
  {
  }

  /** Everything remembered is the launcher instance itself or was seen below the live launcher. */
  lemma {:induction false} LaunchStaysAttributed(
      launcher: ProcessSnapshot, executable: string, turns: seq<Turn>, n: nat)
    requires n <= |turns|
    requires forall t | t in turns && t.snapshots.Some? :: UniqueIds(t.snapshots.value)
    ensures Good(launcher, turns, n, LaunchAfter(launcher, executable, turns, n))
  {
    if n == 0 {
      assert SameInstance(launcher, launcher);
    } else {
      LaunchStaysAttributed(launcher, executable, turns, n - 1);
      var before := LaunchAfter(launcher, executable, turns, n - 1);
      if before.Waiting? {
        TurnStaysAttributed(launcher, executable, turns, n - 1, before.members, before.descendants);
      } else {
        SeenLater(launcher, turns, n - 1, n);
      }
    }
  }

  lemma NotedStaysAttributed(
      launcher: ProcessSnapshot, turns: seq<Turn>, n: nat, members: seq<ProcessSnapshot>,
      descendants: seq<ProcessSnapshot>)
    requires n < |turns| && Good(launcher, turns, n, Waiting(members, descendants))
    requires turns[n].snapshots.Some? && UniqueIds(turns[n].snapshots.value)
    requires var live := FindId(turns[n].snapshots.value, launcher.id);
             live.Some? ==> SameInstance(launcher, live.value)
    ensures var (members', descendants') := Noted(launcher, turns[n].snapshots.value, members, descendants);
            && Good(launcher, turns, n + 1, Waiting(members', descendants'))
            && (forall d | d in descendants' :: d in members')
  {
    var snapshots := turns[n].snapshots.value;
    var live := FindId(snapshots, launcher.id);
    SeenLater(launcher, turns, n, n + 1);
    var members1, descendants' := members, descendants;
    if live.Some? {
      var found := Descendants({launcher.id}, snapshots);
      FoundBelowLauncher(launcher, turns, n);
      RememberExact(descendants, found);
      descendants' := Remember(descendants, found);
      assert UniqueIds([live.value]);
      RememberExact(members, [live.value]);
      members1 := Remember(members, [live.value]);
      assert live.value in members1;
    }
    RememberExact(members1, descendants');
    LauncherIsNotBelowItself(launcher, turns, n + 1, descendants');
    var l :| l in members1 && SameInstance(launcher, l);
    assert l in Remember(members1, descendants');
  }

  lemma FoundBelowLauncher(launcher: ProcessSnapshot, turns: seq<Turn>, n: nat)
    requires n < |turns| && turns[n].snapshots.Some?
    requires var live := FindId(turns[n].snapshots.value, launcher.id); live.Some? && SameInstance(launcher, live.value)
    ensures var found := Descendants({launcher.id}, turns[n].snapshots.value);
            UniqueIds(found) && forall d | d in found :: SeenBelowLauncher(launcher, turns, n + 1, d)
  {
    var found := Descendants({launcher.id}, turns[n].snapshots.value);
    DescendantsExact({launcher.id}, turns[n].snapshots.value);
    forall d | d in found ensures SeenBelowLauncher(launcher, turns, n + 1, d) {
      assert d.id in IdSet(found);
      assert SeenInTurn(launcher, turns[n], d);
    }
  }

  lemma TurnStaysAttributed(
      launcher: ProcessSnapshot, executable: string, turns: seq<Turn>, n: nat, members: seq<ProcessSnapshot>,
      descendants: seq<ProcessSnapshot>)
    requires n < |turns| && Good(launcher, turns, n, Waiting(members, descendants))
    requires turns[n].snapshots.Some? ==> UniqueIds(turns[n].snapshots.value)
    ensures Good(launcher, turns, n + 1, LaunchTurn(launcher, executable, members, descendants, turns[n], n))
  {
    SeenLater(launcher, turns, n, n + 1);
    if turns[n].snapshots.Some? {
      var snapshots := turns[n].snapshots.value;
      var live := FindId(snapshots, launcher.id);
      if live.Some? ==> SameInstance(launcher, live.value) {
        NotedStaysAttributed(launcher, turns, n, members, descendants);
        var (members', descendants') := Noted(launcher, snapshots, members, descendants);
        DecisionStaysAttributed(launcher, turns, n, DesktopRoots(executable, snapshots), members', descendants');
      }
    }
  }

  lemma DecisionStaysAttributed(
      launcher: ProcessSnapshot, turns: seq<Turn>, n: nat, roots: seq<ProcessSnapshot>,
      members: seq<ProcessSnapshot>, descendants: seq<ProcessSnapshot>)
    requires n < |turns| && Good(launcher, turns, n + 1, Waiting(members, descendants))
    requires forall d | d in descendants :: d in members
    ensures Good(launcher, turns, n + 1, Decide(launcher, roots, members, descendants, turns[n].timeLeft, n))
  {
    var managed := Managed(launcher, launcher.groupId, descendants, roots);
    if |managed| == 1 {
      var root := managed[0];
      assert root in managed;
      var entry :| entry in members && SameInstance(entry, root) by {
        if SameInstance(root, launcher) {
          var l :| l in members && SameInstance(launcher, l);
          assert SameInstance(l, root);
        } else {
          var d := FindInstance(descendants, root).value;
          assert d in members && SameInstance(d, root);
        }
      }
      assert FindInstance(members, root).Some?;
      NewLedgerIsValid(root, Some(launcher.groupId), Some(launcher.startedAt), members);
    }
  }

  lemma LauncherIsNotBelowItself(launcher: ProcessSnapshot, turns: seq<Turn>, n: nat, descendants: seq<ProcessSnapshot>)
    requires n <= |turns|
    requires forall d | d in descendants :: SeenBelowLauncher(launcher, turns, n, d)
    ensures launcher.id !in IdSet(descendants)
  {
  }

  /** The only Desktop root of turn `n` is this process, in the launcher's group and not older than the
      launcher, and it is the launcher instance or was seen below it by then. */
  ghost predicate RootOfLaunch(
      launcher: ProcessSnapshot, executable: string, turns: seq<Turn>, n: nat, root: ProcessSnapshot)
    requires n < |turns|
  {
    && turns[n].snapshots.Some?
    && DesktopRoots(executable, turns[n].snapshots.value) == [root]
    && root.executable == executable
    && root.groupId == launcher.groupId && root.startedAt >= launcher.startedAt
    && (SameInstance(root, launcher)
        || exists d :: SameInstance(root, d) && SeenBelowLauncher(launcher, turns, n + 1, d))
  }

  /** A session is created only for a frame whose Desktop roots are one process in the launcher's group,
      not older than the launcher, that is the launcher instance or was seen below it; its initial ledger
      is valid and holds only such instances. */
  lemma SessionOwnsOnlyItsLaunch(launcher: ProcessSnapshot, executable: string, turns: seq<Turn>, n: nat)
    requires n <= |turns|
    requires forall t | t in turns && t.snapshots.Some? :: UniqueIds(t.snapshots.value)
    requires LaunchAfter(launcher, executable, turns, n).Session?
    ensures var session := LaunchAfter(launcher, executable, turns, n);
            && session.turn < n
            && RootOfLaunch(launcher, executable, turns, session.turn, session.ledger.root)
            && Valid(session.ledger)
            && session.ledger.group == Some(launcher.groupId)
            && session.ledger.groupStartedAt == launcher.startedAt
            && Attributed(launcher, turns, n, session.ledger.known)
  {
    hide LaunchTurn;
    LaunchStaysAttributed(launcher, executable, turns, n);
    LaunchStaysAttributed(launcher, executable, turns, n - 1);
    var before := LaunchAfter(launcher, executable, turns, n - 1);
    if before.Waiting? {
      SessionTurn(launcher, executable, turns, n - 1, before.members, before.descendants);
    } else {
      SessionOwnsOnlyItsLaunch(launcher, executable, turns, n - 1);
      SeenLater(launcher, turns, n - 1, n);
    }
  }

  lemma SessionTurn(
      launcher: ProcessSnapshot, executable: string, turns: seq<Turn>, n: nat, members: seq<ProcessSnapshot>,
      descendants: seq<ProcessSnapshot>)
    requires n < |turns| && Good(launcher, turns, n, Waiting(members, descendants))
    requires turns[n].snapshots.Some? ==> UniqueIds(turns[n].snapshots.value)
    requires LaunchTurn(launcher, executable, members, descendants, turns[n], n).Session?
    ensures turns[n].snapshots.Some?
    ensures var session := LaunchTurn(launcher, executable, members, descendants, turns[n], n);
            && session.turn == n
            && session.ledger.group == Some(launcher.groupId)
            && session.ledger.groupStartedAt == launcher.startedAt
            && RootOfLaunch(launcher, executable, turns, n, session.ledger.root)
  {
    var snapshots := turns[n].snapshots.value;
    NotedStaysAttributed(launcher, turns, n, members, descendants);
    var (_, descendants') := Noted(launcher, snapshots, members, descendants);
    var roots := DesktopRoots(executable, snapshots);
    var managed := Managed(launcher, launcher.groupId, descendants', roots);
    var root := managed[0];
    assert root in managed && managed == roots && roots == [root];
    DesktopRootsExact(executable, snapshots, root);
    if !SameInstance(root, launcher) {
      var d := FindInstance(descendants', root).value;
      assert SeenBelowLauncher(launcher, turns, n + 1, d);
    }
  }
}
