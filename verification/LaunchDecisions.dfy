/** When the managed Linux launch waits, takes a session or refuses: read off the frames it was shown. */
module LaunchDecisions {
  import opened Options
  import opened Processes
  import opened ProcessLineage
  import opened OwnershipLedger
  import opened LinuxLaunch

  ghost predicate PidSeenInTurn(launcher: ProcessSnapshot, turn: Turn, id: nat) {
    exists d: ProcessSnapshot :: d.id == id && SeenInTurn(launcher, turn, d)
  }

  /** This snapshot is the latest one seen below the live launcher under its PID. */
  ghost predicate LastSeenBelow(launcher: ProcessSnapshot, turns: seq<Turn>, n: nat, e: ProcessSnapshot)
    requires n <= |turns|
  {
    exists m: nat | m < n :: SeenInTurn(launcher, turns[m], e)
                             && forall k | m < k < n :: !PidSeenInTurn(launcher, turns[k], e.id)
  }

  ghost predicate AnySeenBelow(launcher: ProcessSnapshot, turns: seq<Turn>, n: nat)
    requires n <= |turns|
  {
    exists m: nat, e | m < n :: SeenInTurn(launcher, turns[m], e)
  }

  /** The launcher's PID is in the frame with the launcher's start time. */
  predicate LauncherLives(launcher: ProcessSnapshot, turn: Turn) {
    turn.snapshots.Some? && exists l | l in turn.snapshots.value :: SameInstance(launcher, l)
  }

  predicate LauncherPidLives(launcher: ProcessSnapshot, turn: Turn) {
    turn.snapshots.Some? && exists l | l in turn.snapshots.value :: l.id == launcher.id
  }

  ghost predicate Frames(turns: seq<Turn>) {
    forall t | t in turns && t.snapshots.Some? :: UniqueIds(t.snapshots.value)
  }

  // ----- What is remembered -----

  /** The descendants are the latest snapshots seen below the launcher; the members are those and the launcher. */
  ghost predicate Remembers(
      launcher: ProcessSnapshot, turns: seq<Turn>, n: nat, members: seq<ProcessSnapshot>,
      descendants: seq<ProcessSnapshot>)
    requires n <= |turns|
  {
    && UniqueIds(members) && UniqueIds(descendants)
    && launcher.id in IdSet(members)
    && (forall e :: e in descendants <==> LastSeenBelow(launcher, turns, n, e))
    && (forall e: ProcessSnapshot | e.id != launcher.id :: e in members <==> LastSeenBelow(launcher, turns, n, e))
  }

  lemma LastSeenAdvances(launcher: ProcessSnapshot, turns: seq<Turn>, n: nat, e: ProcessSnapshot)
    requires n < |turns|
    ensures LastSeenBelow(launcher, turns, n + 1, e) <==>
            || SeenInTurn(launcher, turns[n], e)
            || (LastSeenBelow(launcher, turns, n, e) && !PidSeenInTurn(launcher, turns[n], e.id))
  {
    hide SeenInTurn, PidSeenInTurn;
    if LastSeenBelow(launcher, turns, n, e) && !PidSeenInTurn(launcher, turns[n], e.id) {
      var m: nat :| m < n && SeenInTurn(launcher, turns[m], e)
                    && forall k | m < k < n :: !PidSeenInTurn(launcher, turns[k], e.id);
      assert forall k | m < k < n + 1 :: !PidSeenInTurn(launcher, turns[k], e.id);
    }
  }

  /** In a frame with the live launcher the adopted processes are those seen below it. */
  lemma FoundAreSeen(launcher: ProcessSnapshot, turn: Turn)
    requires LauncherLives(launcher, turn) && UniqueIds(turn.snapshots.value)
    ensures var found := Descendants({launcher.id}, turn.snapshots.value);
            && UniqueIds(found)
            && (forall e :: e in found <==> SeenInTurn(launcher, turn, e))
            && (forall id :: id in IdSet(found) <==> PidSeenInTurn(launcher, turn, id))
  {
    var snapshots := turn.snapshots.value;
    var found := Descendants({launcher.id}, snapshots);
    DescendantsExact({launcher.id}, snapshots);
    forall e ensures e in found <==> SeenInTurn(launcher, turn, e) {
      if e in snapshots {
        DescendantsMembership({launcher.id}, snapshots, e);
      }
    }
    hide SeenInTurn;
  }

  lemma NotedRemembers(
      launcher: ProcessSnapshot, turns: seq<Turn>, n: nat, members: seq<ProcessSnapshot>,
      descendants: seq<ProcessSnapshot>)
    requires n < |turns| && Remembers(launcher, turns, n, members, descendants)
    requires turns[n].snapshots.Some? && UniqueIds(turns[n].snapshots.value)
    requires LauncherPidLives(launcher, turns[n]) ==> LauncherLives(launcher, turns[n])
    ensures var (members', descendants') := Noted(launcher, turns[n].snapshots.value, members, descendants);
            Remembers(launcher, turns, n + 1, members', descendants')
  {
    var live := FindId(turns[n].snapshots.value, launcher.id);
    if live.Some? {
      LiveRemembers(launcher, turns, n, live.value, members, descendants);
      hide Remembers, Descendants, Remember, UniqueIds;
    } else {
      AbsentRemembers(launcher, turns, n, members, descendants);
      hide Remembers, Descendants, Remember, UniqueIds;
    }
  }

  lemma LiveRemembers(
      launcher: ProcessSnapshot, turns: seq<Turn>, n: nat, live: ProcessSnapshot, members: seq<ProcessSnapshot>,
      descendants: seq<ProcessSnapshot>)
    requires n < |turns| && Remembers(launcher, turns, n, members, descendants)
    requires turns[n].snapshots.Some? && LauncherLives(launcher, turns[n])
    requires UniqueIds(turns[n].snapshots.value) && live.id == launcher.id
    ensures var descendants' := Remember(descendants, Descendants({launcher.id}, turns[n].snapshots.value));
            Remembers(launcher, turns, n + 1, Remember(Remember(members, [live]), descendants'), descendants')
  {
    hide LastSeenBelow, Descendants, Remember, UniqueIds, IdSet, LauncherLives;
    var found := Descendants({launcher.id}, turns[n].snapshots.value);
    DescendantsAdvance(launcher, turns, n, descendants);
    RememberAll(launcher, live, members, descendants, Remember(descendants, found));
  }

  lemma AbsentRemembers(
      launcher: ProcessSnapshot, turns: seq<Turn>, n: nat, members: seq<ProcessSnapshot>,
      descendants: seq<ProcessSnapshot>)
    requires n < |turns| && Remembers(launcher, turns, n, members, descendants)
    requires !LauncherLives(launcher, turns[n])
    ensures Remembers(launcher, turns, n + 1, Remember(members, descendants), descendants)
  {
    AllSeenAdvance(launcher, turns, n);
    NothingSeen(launcher, turns[n]);
    SeenAreBelow(launcher, turns, n);
    hide LastSeenBelow, SeenInTurn, PidSeenInTurn, Remember, UniqueIds, LauncherLives;
    RememberSame(launcher, members, descendants);
  }

  lemma AllSeenAdvance(launcher: ProcessSnapshot, turns: seq<Turn>, n: nat)
    requires n < |turns|
    ensures forall e :: LastSeenBelow(launcher, turns, n + 1, e) <==>
                        || SeenInTurn(launcher, turns[n], e)
                        || (LastSeenBelow(launcher, turns, n, e) && !PidSeenInTurn(launcher, turns[n], e.id))
  {
    forall e ensures LastSeenBelow(launcher, turns, n + 1, e) <==>
        || SeenInTurn(launcher, turns[n], e)
        || (LastSeenBelow(launcher, turns, n, e) && !PidSeenInTurn(launcher, turns[n], e.id))
    {
      LastSeenAdvances(launcher, turns, n, e);
    }
  }

  lemma DescendantsAdvance(launcher: ProcessSnapshot, turns: seq<Turn>, n: nat, descendants: seq<ProcessSnapshot>)
    requires n < |turns| && LauncherLives(launcher, turns[n]) && UniqueIds(turns[n].snapshots.value)
    requires UniqueIds(descendants)
    requires forall e :: e in descendants <==> LastSeenBelow(launcher, turns, n, e)
    ensures var descendants' := Remember(descendants, Descendants({launcher.id}, turns[n].snapshots.value));
            && UniqueIds(descendants')
            && (forall e :: e in descendants' <==> LastSeenBelow(launcher, turns, n + 1, e))
            && IdSet(descendants) <= IdSet(descendants') && launcher.id !in IdSet(descendants')
  {
    var found := Descendants({launcher.id}, turns[n].snapshots.value);
    var descendants' := Remember(descendants, found);
    FoundAreSeen(launcher, turns[n]);
    AllSeenAdvance(launcher, turns, n);
    SeenAreBelow(launcher, turns, n + 1);
    RememberExact(descendants, found);
    hide LastSeenBelow, SeenInTurn, PidSeenInTurn, Descendants, Remember, UniqueIds;
    forall id | id in IdSet(descendants) ensures id in IdSet(descendants') {
      var e :| e in descendants && e.id == id;
      if id in IdSet(found) {
        var f :| f in found && f.id == id;
        assert f in descendants';
      } else {
        assert e in descendants';
      }
    }
  }

  lemma RememberSame(launcher: ProcessSnapshot, members: seq<ProcessSnapshot>, descendants: seq<ProcessSnapshot>)
    requires UniqueIds(members) && UniqueIds(descendants) && launcher.id in IdSet(members)
    requires forall e: ProcessSnapshot | e.id != launcher.id :: e in members <==> e in descendants
    requires launcher.id !in IdSet(descendants)
    ensures var members' := Remember(members, descendants);
            && UniqueIds(members') && launcher.id in IdSet(members')
            && forall e: ProcessSnapshot | e.id != launcher.id :: e in members' <==> e in descendants
  {
    hide Remember;
    RememberExact(members, descendants);
    var l :| l in members && l.id == launcher.id;
    assert l in Remember(members, descendants);
    forall e | e in members && e in descendants ensures e.id in IdSet(descendants) {
    }
  }

  lemma SeenAreBelow(launcher: ProcessSnapshot, turns: seq<Turn>, n: nat)
    requires n <= |turns|
    ensures forall e | LastSeenBelow(launcher, turns, n, e) :: e.id != launcher.id
  {
  }

  lemma NothingSeen(launcher: ProcessSnapshot, turn: Turn)
    requires !LauncherLives(launcher, turn)
    ensures forall e :: !SeenInTurn(launcher, turn, e)
    ensures forall id :: !PidSeenInTurn(launcher, turn, id)
  {
  }

  /** Remembering the launcher and then all its descendants. */
  lemma RememberAll(
      launcher: ProcessSnapshot, live: ProcessSnapshot, members: seq<ProcessSnapshot>,
      descendants: seq<ProcessSnapshot>, descendants': seq<ProcessSnapshot>)
    requires UniqueIds(members) && UniqueIds(descendants') && live.id == launcher.id
    requires forall e: ProcessSnapshot | e.id != launcher.id :: e in members <==> e in descendants
    requires IdSet(descendants) <= IdSet(descendants') && launcher.id !in IdSet(descendants')
    ensures var members' := Remember(Remember(members, [live]), descendants');
            && UniqueIds(members') && launcher.id in IdSet(members')
            && forall e: ProcessSnapshot | e.id != launcher.id :: e in members' <==> e in descendants'
  {
    hide Remember;
    assert IdSet([live]) == {launcher.id};
    RememberExact(members, [live]);
    RememberExact(Remember(members, [live]), descendants');
    assert live in [live];
    assert live in Remember(Remember(members, [live]), descendants');
    forall e: ProcessSnapshot | e.id != launcher.id && e in members ensures e.id in IdSet(descendants') {
      assert e in descendants;
      assert e.id in IdSet(descendants);
    }
  }

  // ----- What each frame decides -----

  /** A frame the loop looks for roots in: the launcher is live, or is gone and left something behind. */
  ghost predicate Looks(launcher: ProcessSnapshot, turns: seq<Turn>, n: nat)
    requires n < |turns|
  {
    && turns[n].snapshots.Some?
    && (LauncherLives(launcher, turns[n])
        || (!LauncherPidLives(launcher, turns[n]) && AnySeenBelow(launcher, turns, n)))
  }

  /** A root the launch may claim: in the launcher's group, not older than the launcher, and the launcher instance
      or the instance last seen below it under that PID. */
  ghost predicate Ours(launcher: ProcessSnapshot, turns: seq<Turn>, n: nat, root: ProcessSnapshot)
    requires n < |turns|
  {
    && root.groupId == launcher.groupId && root.startedAt >= launcher.startedAt
    && (SameInstance(root, launcher)
        || exists e :: SameInstance(root, e) && LastSeenBelow(launcher, turns, n + 1, e))
  }

  /** Two of the roots are the launch's. */
  ghost predicate TwoOurs(launcher: ProcessSnapshot, turns: seq<Turn>, n: nat, roots: seq<ProcessSnapshot>)
    requires n < |turns|
  {
    exists i, j | 0 <= i < j < |roots| :: Ours(launcher, turns, n, roots[i]) && Ours(launcher, turns, n, roots[j])
  }

  ghost predicate AllOurs(launcher: ProcessSnapshot, turns: seq<Turn>, n: nat, roots: seq<ProcessSnapshot>)
    requires n < |turns|
  {
    forall root | root in roots :: Ours(launcher, turns, n, root)
  }

  /** What turn `n` of a launch still waiting makes of its frame. */
  ghost predicate DecidedByFrame(
      launcher: ProcessSnapshot, executable: string, turns: seq<Turn>, n: nat, progress: Progress)
    requires n < |turns|
  {
    var turn := turns[n];
    var roots := if turn.snapshots.Some? then DesktopRoots(executable, turn.snapshots.value) else [];
    var looks := Looks(launcher, turns, n);
    var refused := if progress.Refused? then Some(progress.error) else None;
    && (refused == Some(EnumerationFailed) <==> turn.snapshots.None?)
    && (refused == Some(LauncherReused) <==> LauncherPidLives(launcher, turn) && !LauncherLives(launcher, turn))
    && (refused == Some(LauncherExitedEarly) <==>
          turn.snapshots.Some? && !LauncherPidLives(launcher, turn) && !AnySeenBelow(launcher, turns, n))
    && (refused == Some(MultipleRoots) <==> looks && TwoOurs(launcher, turns, n, roots))
    && (refused == Some(UnmanagedConflict) <==>
          looks && !TwoOurs(launcher, turns, n, roots) && !AllOurs(launcher, turns, n, roots))
    && (refused == Some(TimedOut) <==> looks && roots == [] && !turn.timeLeft)
    && (progress.Waiting? <==> looks && roots == [] && turn.timeLeft)
    && (progress.Session? <==> looks && |roots| == 1 && Ours(launcher, turns, n, roots[0]))
    && (progress.Session? ==> progress.turn == n && progress.ledger.root == roots[0])
  }

  ghost predicate TwoManaged(
      launcher: ProcessSnapshot, groupId: nat, descendants: seq<ProcessSnapshot>, roots: seq<ProcessSnapshot>)
  {
    exists i, j | 0 <= i < j < |roots| ::
      IsManagedRoot(launcher, groupId, descendants, roots[i])
      && IsManagedRoot(launcher, groupId, descendants, roots[j])
  }

  lemma TwoManagedSplits(
      launcher: ProcessSnapshot, groupId: nat, descendants: seq<ProcessSnapshot>, roots: seq<ProcessSnapshot>)
    requires roots != []
    ensures TwoManaged(launcher, groupId, descendants, roots) <==>
            || TwoManaged(launcher, groupId, descendants, roots[1..])
            || (IsManagedRoot(launcher, groupId, descendants, roots[0])
                && exists r | r in roots[1..] :: IsManagedRoot(launcher, groupId, descendants, r))
  {
    hide IsManagedRoot;
    var rest := roots[1..];
    assert forall i | 0 <= i < |rest| :: rest[i] == roots[i + 1];
    if TwoManaged(launcher, groupId, descendants, roots) {
      var i, j :| 0 <= i < j < |roots| && IsManagedRoot(launcher, groupId, descendants, roots[i])
                  && IsManagedRoot(launcher, groupId, descendants, roots[j]);
      assert rest[j - 1] == roots[j] && roots[j] in rest;
      assert i > 0 ==> rest[i - 1] == roots[i];
    }
    if r :| r in rest && IsManagedRoot(launcher, groupId, descendants, r) {
      var j :| 0 <= j < |rest| && rest[j] == r;
      assert roots[j + 1] == r;
    }
    if TwoManaged(launcher, groupId, descendants, rest) {
      var i, j :| 0 <= i < j < |rest| && IsManagedRoot(launcher, groupId, descendants, rest[i])
                  && IsManagedRoot(launcher, groupId, descendants, rest[j]);
      assert roots[i + 1] == rest[i] && roots[j + 1] == rest[j];
    }
  }

  lemma {:induction false} ManagedExact(
      launcher: ProcessSnapshot, groupId: nat, descendants: seq<ProcessSnapshot>, roots: seq<ProcessSnapshot>)
    ensures var managed := Managed(launcher, groupId, descendants, roots);
            && (|managed| == 0 <==> forall r | r in roots :: !IsManagedRoot(launcher, groupId, descendants, r))
            && (|managed| == |roots| <==> forall r | r in roots :: IsManagedRoot(launcher, groupId, descendants, r))
            && (|managed| > 1 <==> TwoManaged(launcher, groupId, descendants, roots))
  {
    hide IsManagedRoot, TwoManaged;
    if roots == [] {
      NoneManaged(launcher, groupId, descendants);
    } else {
      ManagedExact(launcher, groupId, descendants, roots[1..]);
      TwoManagedSplits(launcher, groupId, descendants, roots);
      assert forall r :: r in roots <==> r == roots[0] || r in roots[1..];
    }
  }

  lemma NoneManaged(launcher: ProcessSnapshot, groupId: nat, descendants: seq<ProcessSnapshot>)
    ensures !TwoManaged(launcher, groupId, descendants, [])
  {
  }

  /** Claimed by the code exactly when the frames make it the launch's. */
  lemma ManagedIsOurs(
      launcher: ProcessSnapshot, turns: seq<Turn>, n: nat, members: seq<ProcessSnapshot>,
      descendants: seq<ProcessSnapshot>, root: ProcessSnapshot)
    requires n < |turns| && Remembers(launcher, turns, n + 1, members, descendants)
    ensures IsManagedRoot(launcher, launcher.groupId, descendants, root) <==> Ours(launcher, turns, n, root)
  {
    hide LastSeenBelow;
    var found := FindInstance(descendants, root);
    if found.Some? {
      assert LastSeenBelow(launcher, turns, n + 1, found.value);
    }
  }

  lemma AnySeenExact(
      launcher: ProcessSnapshot, turns: seq<Turn>, n: nat, members: seq<ProcessSnapshot>,
      descendants: seq<ProcessSnapshot>)
    requires n <= |turns| && Remembers(launcher, turns, n, members, descendants)
    ensures descendants == [] <==> !AnySeenBelow(launcher, turns, n)
  {
    hide SeenInTurn;
    if AnySeenBelow(launcher, turns, n) {
      var m: nat, e :| m < n && SeenInTurn(launcher, turns[m], e);
      SomeLastSeen(launcher, turns, n, m, e);
    }
    if descendants != [] {
      LastSeenIsSeen(launcher, turns, n, descendants[0]);
    }
  }

  lemma LastSeenIsSeen(launcher: ProcessSnapshot, turns: seq<Turn>, n: nat, e: ProcessSnapshot)
    requires n <= |turns| && LastSeenBelow(launcher, turns, n, e)
    ensures AnySeenBelow(launcher, turns, n)
  {
  }

  lemma SomeLastSeen(launcher: ProcessSnapshot, turns: seq<Turn>, n: nat, m: nat, e: ProcessSnapshot)
    requires m < n <= |turns| && SeenInTurn(launcher, turns[m], e)
    ensures exists d :: LastSeenBelow(launcher, turns, n, d)
    decreases n - m
  {
    hide SeenInTurn;
    if !LastSeenBelow(launcher, turns, n, e) {
      var k :| m < k < n && PidSeenInTurn(launcher, turns[k], e.id);
      var d: ProcessSnapshot :| d.id == e.id && SeenInTurn(launcher, turns[k], d);
      SomeLastSeen(launcher, turns, n, k, d);
    }
  }

  lemma RootsDecide(
      launcher: ProcessSnapshot, executable: string, turns: seq<Turn>, n: nat, members: seq<ProcessSnapshot>,
      descendants: seq<ProcessSnapshot>, roots: seq<ProcessSnapshot>)
    requires n < |turns| && Remembers(launcher, turns, n + 1, members, descendants)
    ensures var progress := Decide(launcher, roots, members, descendants, turns[n].timeLeft, n);
            && (progress == Refused(MultipleRoots, members) <==> TwoOurs(launcher, turns, n, roots))
            && (progress == Refused(UnmanagedConflict, members) <==>
                  !TwoOurs(launcher, turns, n, roots) && !AllOurs(launcher, turns, n, roots))
            && (progress == Refused(TimedOut, members) <==> roots == [] && !turns[n].timeLeft)
            && (progress.Waiting? <==> roots == [] && turns[n].timeLeft)
            && (progress.Session? <==> |roots| == 1 && Ours(launcher, turns, n, roots[0]))
            && (progress.Session? ==> progress.turn == n && progress.ledger.root == roots[0])
            && (progress.Refused? ==> progress.error in {MultipleRoots, UnmanagedConflict, TimedOut})
  {
    ManagedExact(launcher, launcher.groupId, descendants, roots);
    forall root ensures IsManagedRoot(launcher, launcher.groupId, descendants, root) <==> Ours(launcher, turns, n, root)
    {
      ManagedIsOurs(launcher, turns, n, members, descendants, root);
    }
    hide IsManagedRoot, Ours, Remembers, Managed, NewWithOwnedProcesses;
  }

  lemma TurnDecides(
      launcher: ProcessSnapshot, executable: string, turns: seq<Turn>, n: nat, members: seq<ProcessSnapshot>,
      descendants: seq<ProcessSnapshot>)
    requires n < |turns| && Frames(turns) && Remembers(launcher, turns, n, members, descendants)
    ensures var progress := LaunchTurn(launcher, executable, members, descendants, turns[n], n);
            && DecidedByFrame(launcher, executable, turns, n, progress)
            && (progress.Waiting? ==> Remembers(launcher, turns, n + 1, progress.members, progress.descendants))
  {
    hide LastSeenBelow, AnySeenBelow, Remembers, DecidedByFrame, LaunchTurn, Looks, Noted, Decide, DesktopRoots;
    AnySeenExact(launcher, turns, n, members, descendants);
    if Looks(launcher, turns, n) {
      var snapshots := FrameOf(turns, n);
      LookingTurn(launcher, executable, turns, n, members, descendants);
      NotedRemembers(launcher, turns, n, members, descendants);
      var (members', descendants') := Noted(launcher, snapshots, members, descendants);
      RootsDecide(launcher, executable, turns, n, members', descendants', DesktopRoots(executable, snapshots));
      WaitingKeepsThem(launcher, DesktopRoots(executable, snapshots), members', descendants', turns[n].timeLeft, n);
      LookedDecides(launcher, executable, turns, n,
        Decide(launcher, DesktopRoots(executable, snapshots), members', descendants', turns[n].timeLeft, n), members');
    } else {
      EarlyTurn(launcher, executable, turns, n, members, descendants);
    }
  }

  function FrameOf(turns: seq<Turn>, n: nat): seq<ProcessSnapshot>
    requires n < |turns|
  {
    if turns[n].snapshots.Some? then turns[n].snapshots.value else []
  }

  lemma LookingTurn(
      launcher: ProcessSnapshot, executable: string, turns: seq<Turn>, n: nat, members: seq<ProcessSnapshot>,
      descendants: seq<ProcessSnapshot>)
    requires n < |turns| && Frames(turns) && Looks(launcher, turns, n)
    requires descendants == [] <==> !AnySeenBelow(launcher, turns, n)
    ensures turns[n].snapshots.Some? && UniqueIds(turns[n].snapshots.value)
    ensures LauncherPidLives(launcher, turns[n]) ==> LauncherLives(launcher, turns[n])
    ensures var (members', descendants') := Noted(launcher, turns[n].snapshots.value, members, descendants);
            LaunchTurn(launcher, executable, members, descendants, turns[n], n)
            == Decide(launcher, DesktopRoots(executable, turns[n].snapshots.value), members', descendants',
                      turns[n].timeLeft, n)
  {
    LauncherInFrame(launcher, turns[n]);
    hide AnySeenBelow, Noted, Decide, DesktopRoots, UniqueIds;
  }

  lemma EarlyTurn(
      launcher: ProcessSnapshot, executable: string, turns: seq<Turn>, n: nat, members: seq<ProcessSnapshot>,
      descendants: seq<ProcessSnapshot>)
    requires n < |turns| && Frames(turns) && !Looks(launcher, turns, n)
    requires descendants == [] <==> !AnySeenBelow(launcher, turns, n)
    ensures var progress := LaunchTurn(launcher, executable, members, descendants, turns[n], n);
            DecidedByFrame(launcher, executable, turns, n, progress) && progress.Refused?
  {
    if turns[n].snapshots.Some? {
      LauncherInFrame(launcher, turns[n]);
    }
    hide AnySeenBelow, Noted, Decide, DesktopRoots, UniqueIds, LauncherLives, LauncherPidLives;
  }

  lemma LookedDecides(
      launcher: ProcessSnapshot, executable: string, turns: seq<Turn>, n: nat, progress: Progress,
      members: seq<ProcessSnapshot>)
    requires n < |turns| && Looks(launcher, turns, n)
    requires var roots := DesktopRoots(executable, FrameOf(turns, n));
             && (progress == Refused(MultipleRoots, members) <==> TwoOurs(launcher, turns, n, roots))
             && (progress == Refused(UnmanagedConflict, members) <==>
                   !TwoOurs(launcher, turns, n, roots) && !AllOurs(launcher, turns, n, roots))
             && (progress == Refused(TimedOut, members) <==> roots == [] && !turns[n].timeLeft)
             && (progress.Waiting? <==> roots == [] && turns[n].timeLeft)
             && (progress.Session? <==> |roots| == 1 && Ours(launcher, turns, n, roots[0]))
             && (progress.Session? ==> progress.turn == n && progress.ledger.root == roots[0])
             && (progress.Refused? ==>
                   progress.error in {MultipleRoots, UnmanagedConflict, TimedOut} && progress.members == members)
    ensures DecidedByFrame(launcher, executable, turns, n, progress)
  {
    LookedFacts(launcher, turns, n);
    hide AnySeenBelow, DesktopRoots, LauncherLives, LauncherPidLives, Ours, TwoOurs, AllOurs, Looks;
  }

  lemma LookedFacts(launcher: ProcessSnapshot, turns: seq<Turn>, n: nat)
    requires n < |turns| && Looks(launcher, turns, n)
    ensures turns[n].snapshots.Some? && FrameOf(turns, n) == turns[n].snapshots.value
    ensures LauncherPidLives(launcher, turns[n]) ==> LauncherLives(launcher, turns[n])
    ensures !LauncherPidLives(launcher, turns[n]) ==> AnySeenBelow(launcher, turns, n)
  {
    LauncherPidWhenLive(launcher, turns[n]);
  }

  lemma LauncherPidWhenLive(launcher: ProcessSnapshot, turn: Turn)
    ensures LauncherLives(launcher, turn) ==> LauncherPidLives(launcher, turn)
  {
  }

  lemma WaitingKeepsThem(
      launcher: ProcessSnapshot, roots: seq<ProcessSnapshot>, members: seq<ProcessSnapshot>,
      descendants: seq<ProcessSnapshot>, timeLeft: bool, n: nat)
    ensures var progress := Decide(launcher, roots, members, descendants, timeLeft, n);
            && (progress.Waiting? ==> progress == Waiting(members, descendants))
            && (progress.Refused? ==> progress.members == members)
  {
  }

  lemma LauncherInFrame(launcher: ProcessSnapshot, turn: Turn)
    requires turn.snapshots.Some? && UniqueIds(turn.snapshots.value)
    ensures var live := FindId(turn.snapshots.value, launcher.id);
            && (live.Some? <==> LauncherPidLives(launcher, turn))
            && (live.Some? && SameInstance(launcher, live.value) <==> LauncherLives(launcher, turn))
  {
  }

  lemma {:induction false} WaitingRemembers(
      launcher: ProcessSnapshot, executable: string, turns: seq<Turn>, n: nat)
    requires n <= |turns| && Frames(turns) && LaunchAfter(launcher, executable, turns, n).Waiting?
    ensures var waiting := LaunchAfter(launcher, executable, turns, n);
            Remembers(launcher, turns, n, waiting.members, waiting.descendants)
  {
    if n == 0 {
      NothingSeenYet(launcher, turns);
    } else {
      hide LaunchTurn, Remembers, DecidedByFrame, Frames;
      WaitingRemembers(launcher, executable, turns, n - 1);
      var before := LaunchAfter(launcher, executable, turns, n - 1);
      TurnDecides(launcher, executable, turns, n - 1, before.members, before.descendants);
    }
  }

  lemma NothingSeenYet(launcher: ProcessSnapshot, turns: seq<Turn>)
    ensures Remembers(launcher, turns, 0, [launcher], [])
  {
    assert launcher in [launcher];
  }

  // ----- The laws -----

  /** A launch that is still waiting decides by the next frame: it refuses for a failed enumeration, a reused
      launcher PID, a launcher that is gone and left nothing behind, two roots of its own, a root not its own, and
      for time only when there is no root and no time left; it takes a session exactly for a single root of its
      own, and waits on exactly when there is no root and time is left. */
  lemma FramesDecide(launcher: ProcessSnapshot, executable: string, turns: seq<Turn>, n: nat)
    requires n < |turns| && Frames(turns) && LaunchAfter(launcher, executable, turns, n).Waiting?
    ensures DecidedByFrame(launcher, executable, turns, n, LaunchAfter(launcher, executable, turns, n + 1))
  {
    WaitingRemembers(launcher, executable, turns, n);
    var before := LaunchAfter(launcher, executable, turns, n);
    TurnDecides(launcher, executable, turns, n, before.members, before.descendants);
    hide LaunchTurn, DecidedByFrame, Remembers;
  }

  /** There is nothing in this frame to decide on, and time is left. */
  ghost predicate Undecided(launcher: ProcessSnapshot, executable: string, turns: seq<Turn>, n: nat)
    requires n < |turns|
  {
    Looks(launcher, turns, n) && turns[n].timeLeft && DesktopRoots(executable, FrameOf(turns, n)) == []
  }

  /** A launch still waits after `n` turns exactly when every frame so far could be looked at, had no Desktop root
      and left time. */
  lemma {:induction false} WaitsExactly(launcher: ProcessSnapshot, executable: string, turns: seq<Turn>, n: nat)
    requires n <= |turns| && Frames(turns)
    ensures LaunchAfter(launcher, executable, turns, n).Waiting? <==>
            forall k | 0 <= k < n :: Undecided(launcher, executable, turns, k)
  {
    hide *;
    if n > 0 {
      WaitsExactly(launcher, executable, turns, n - 1);
      if LaunchAfter(launcher, executable, turns, n - 1).Waiting? {
        FramesDecide(launcher, executable, turns, n - 1);
        WaitsOn(launcher, executable, turns, n - 1, LaunchAfter(launcher, executable, turns, n));
      } else {
        DecidedLaunchStays(launcher, executable, turns, n - 1, n);
      }
    } else {
      WaitsAtFirst(launcher, executable, turns);
    }
  }

  lemma WaitsAtFirst(launcher: ProcessSnapshot, executable: string, turns: seq<Turn>)
    ensures LaunchAfter(launcher, executable, turns, 0).Waiting?
  {
  }

  lemma WaitsOn(launcher: ProcessSnapshot, executable: string, turns: seq<Turn>, n: nat, progress: Progress)
    requires n < |turns| && DecidedByFrame(launcher, executable, turns, n, progress)
    ensures progress.Waiting? <==> Undecided(launcher, executable, turns, n)
  {
  }

  /** The processes that a failed launch cleans up, or that a session starts out with. */
  function MembersOf(progress: Progress): seq<ProcessSnapshot> {
    match progress
    case Waiting(members, _) => members
    case Session(ledger, _) => ledger.known
    case Refused(_, members) => members
  }

  /** When a frame was looked at, nothing seen below the launcher is forgotten: under every PID the latest snapshot
      is remembered, and nothing else is, but for the launcher and the root. */
  lemma SeenAreRemembered(
      launcher: ProcessSnapshot, executable: string, turns: seq<Turn>, n: nat, e: ProcessSnapshot)
    requires n < |turns| && Frames(turns) && LaunchAfter(launcher, executable, turns, n).Waiting?
    requires Looks(launcher, turns, n) && e.id != launcher.id
    requires var progress := LaunchAfter(launcher, executable, turns, n + 1);
             progress.Session? ==> e != progress.ledger.root
    ensures e in MembersOf(LaunchAfter(launcher, executable, turns, n + 1))
            <==> LastSeenBelow(launcher, turns, n + 1, e)
  {
    hide LastSeenBelow, AnySeenBelow, LaunchTurn, Looks, Noted, Decide, DesktopRoots;
    WaitingRemembers(launcher, executable, turns, n);
    var before := LaunchAfter(launcher, executable, turns, n);
    var roots := DesktopRoots(executable, FrameOf(turns, n));
    AnySeenExact(launcher, turns, n, before.members, before.descendants);
    LookingTurn(launcher, executable, turns, n, before.members, before.descendants);
    NotedRemembers(launcher, turns, n, before.members, before.descendants);
    var (members', descendants') := Noted(launcher, FrameOf(turns, n), before.members, before.descendants);
    DecisionKeepsMembers(launcher, roots, members', descendants', turns[n].timeLeft, n, e);
  }

  lemma DecisionKeepsMembers(
      launcher: ProcessSnapshot, roots: seq<ProcessSnapshot>, members: seq<ProcessSnapshot>,
      descendants: seq<ProcessSnapshot>, timeLeft: bool, n: nat, e: ProcessSnapshot)
    requires var progress := Decide(launcher, roots, members, descendants, timeLeft, n);
             progress.Session? ==> e != progress.ledger.root
    ensures e in MembersOf(Decide(launcher, roots, members, descendants, timeLeft, n)) <==> e in members
  {
  }
}
