/** The supervision loop read off its passes: which pass makes which call, and with which verdict it ends. */
module SupervisionCalls {
  import opened Options
  import opened Supervision

  // ----- What each pass does, from the answers alone -----

  /** The root has not exited by pass `i`. */
  predicate RootLives(passes: seq<Pass>, i: nat)
    requires i < |passes|
  {
    forall j | 0 <= j <= i :: passes[j].wait == Success(None)
  }

  /** The first pass that finds the Desktop input closed, while the root lives. */
  predicate Closes(passes: seq<Pass>, i: nat)
    requires i < |passes|
  {
    passes[i].inputClosed && RootLives(passes, i) && forall j | 0 <= j < i :: !passes[j].inputClosed
  }

  /** The newest shutdown signal not yet looked at: only the pass that closes looks at none. */
  function PendingSignal(passes: seq<Pass>, i: nat): Option<Signal>
    requires i < |passes|
  {
    if passes[i].signal.Some? then passes[i].signal
    else if i > 0 && Closes(passes, i - 1) then passes[i - 1].signal
    else None
  }

  /** The first other pass with a signal pending. */
  predicate Forwards(passes: seq<Pass>, i: nat)
    requires i < |passes|
  {
    !Closes(passes, i) && PendingSignal(passes, i).Some?
    && forall j | 0 <= j < i :: Closes(passes, j) || PendingSignal(passes, j).None?
  }

  /** The first pass after the root's exit, when nothing was closed or forwarded before. */
  predicate Descends(passes: seq<Pass>, i: nat)
    requires i < |passes|
  {
    && !RootLives(passes, i) && (i > 0 ==> RootLives(passes, i - 1))
    && forall j | 0 <= j <= i :: !Closes(passes, j) && !Forwards(passes, j)
  }

  predicate Acts(passes: seq<Pass>, i: nat)
    requires i < |passes|
  {
    Closes(passes, i) || Forwards(passes, i) || Descends(passes, i)
  }

  /** The clock after the latest graceful action of the first `n` passes. */
  function LastActed(passes: seq<Pass>, n: nat): Option<Time>
    requires n <= |passes|
  {
    if n == 0 then None
    else if Acts(passes, n - 1) then Some(passes[n - 1].actedAt)
    else LastActed(passes, n - 1)
  }

  /** The grace period after the latest graceful action is over at the end of pass `i`. */
  predicate Expired(passes: seq<Pass>, i: nat)
    requires i < |passes|
  {
    LastActed(passes, i + 1).Some? && passes[i].checkedAt >= LastActed(passes, i + 1).value + TERMINATION_GRACE
  }

  predicate Forces(passes: seq<Pass>, i: nat)
    requires i < |passes|
  {
    Expired(passes, i) && forall j | 0 <= j < i :: !Expired(passes, j)
  }

  function GracefulCalls(passes: seq<Pass>, i: nat): seq<Call>
    requires i < |passes|
  {
    if Closes(passes, i) || Descends(passes, i) then [Terminate(passes[i].actedAt)]
    else if Forwards(passes, i) then [Forward(passes[i].actedAt, PendingSignal(passes, i).value)]
    else []
  }

  function CallsMade(passes: seq<Pass>, n: nat): seq<Call>
    requires n <= |passes|
  {
    if n == 0 then []
    else
      CallsMade(passes, n - 1) + GracefulCalls(passes, n - 1)
      + if Forces(passes, n - 1) then [Force(passes[n - 1].checkedAt)] else []
  }

  /** The clock at the latest snapshot: one is taken first of all, then whenever an interval has passed, and in
      every pass once the root has exited. */
  function LastSnapshot(interval: nat, passes: seq<Pass>, n: nat): Option<Time>
    requires n <= |passes|
    decreases n, 0
  {
    if n == 0 then None
    else if SnapshotDue(interval, passes, n - 1) then Some(passes[n - 1].now)
    else LastSnapshot(interval, passes, n - 1)
  }

  predicate SnapshotDue(interval: nat, passes: seq<Pass>, i: nat)
    requires i < |passes|
    decreases i, 1
  {
    || !RootLives(passes, i)
    || interval == 0
    || LastSnapshot(interval, passes, i).None?
    || passes[i].now >= LastSnapshot(interval, passes, i).value + interval
  }

  // ----- First occurrences -----

  lemma FirstClose(passes: seq<Pass>, i: nat)
    requires i < |passes| && passes[i].inputClosed && RootLives(passes, i)
    ensures exists j: nat | j <= i :: Closes(passes, j)
  {
    if !Closes(passes, i) {
      var j: nat :| j < i && passes[j].inputClosed;
      FirstClose(passes, j);
    }
  }

  lemma FirstForward(passes: seq<Pass>, i: nat)
    requires i < |passes| && !Closes(passes, i) && PendingSignal(passes, i).Some?
    ensures exists j: nat | j <= i :: Forwards(passes, j)
  {
    hide Closes, PendingSignal;
    if !Forwards(passes, i) {
      var j: nat :| j < i && !Closes(passes, j) && PendingSignal(passes, j).Some?;
      FirstForward(passes, j);
    }
  }

  lemma FirstDescent(passes: seq<Pass>, i: nat)
    requires i < |passes| && !RootLives(passes, i)
    ensures exists j: nat | j <= i :: Acts(passes, j)
  {
    hide Closes, Forwards;
    if !Descends(passes, i) {
      if i > 0 && !RootLives(passes, i - 1) {
        FirstDescent(passes, i - 1);
      } else {
        var j: nat :| j <= i && (Closes(passes, j) || Forwards(passes, j));
        assert Acts(passes, j);
      }
    } else {
      assert Acts(passes, i);
    }
  }

  lemma FirstForce(passes: seq<Pass>, i: nat)
    requires i < |passes| && Expired(passes, i)
    ensures exists j: nat | j <= i :: Forces(passes, j)
  {
    hide Expired;
    if !Forces(passes, i) {
      var j: nat :| j < i && Expired(passes, j);
      FirstForce(passes, j);
    }
  }

  lemma {:induction false} NoActionYet(passes: seq<Pass>, n: nat)
    requires n <= |passes|
    ensures LastActed(passes, n).None? <==> forall j | 0 <= j < n :: !Acts(passes, j)
  {
    hide Acts;
    if n > 0 {
      NoActionYet(passes, n - 1);
    }
  }

  // ----- The loop's variables -----

  /** What the variables of a running loop hold after `n` passes. */
  ghost predicate Mirrors(w: Watch, interval: nat, passes: seq<Pass>, n: nat)
    requires n <= |passes|
  {
    && Flagged(w, passes, n)
    && (w.root.Some? <==> n > 0 && !RootLives(passes, n - 1))
    && w.slot == (if n > 0 && Closes(passes, n - 1) then passes[n - 1].signal else None)
    && w.deadline
       == (if LastActed(passes, n).None? then None else Some(LastActed(passes, n).value + TERMINATION_GRACE))
    && w.lastRefresh == LastSnapshot(interval, passes, n)
    && w.calls == CallsMade(passes, n)
  }

  /** Which actions were taken. */
  ghost predicate Flagged(w: Watch, passes: seq<Pass>, n: nat)
    requires n <= |passes|
  {
    && (w.inputClosed <==> exists j: nat | j < n :: Closes(passes, j))
    && (w.forwarded.Some? <==> exists j: nat | j < n :: Forwards(passes, j))
    && (forall j: nat | j < n && Forwards(passes, j) :: w.forwarded == PendingSignal(passes, j))
    && (w.terminatedDescendants <==> exists j: nat | j < n :: Descends(passes, j))
    && (w.forced <==> exists j: nat | j < n :: Forces(passes, j))
  }

  /** After the observation of pass `n`: the root and the slot are up to date. */
  ghost predicate Sees(w: Watch, seen: Watch, passes: seq<Pass>, n: nat)
    requires n < |passes|
  {
    && (seen.root.None? <==> RootLives(passes, n))
    && seen.slot == PendingSignal(passes, n)
    && seen == w.(root := seen.root, slot := seen.slot, lastRefresh := seen.lastRefresh, snapshots := seen.snapshots)
  }

  lemma ObservationSees(w: Watch, interval: nat, passes: seq<Pass>, n: nat)
    requires n < |passes| && Mirrors(w, interval, passes, n)
    requires Observed(w, interval, passes[n]).1 == Running
    ensures Sees(w, Observed(w, interval, passes[n]).0, passes, n)
    ensures Observed(w, interval, passes[n]).0.lastRefresh == LastSnapshot(interval, passes, n + 1)
  {
    RootLivesStep(passes, n);
    var w0 := w;
    assert w.root.Some? <==> n > 0 && !RootLives(passes, n - 1);
    assert w.lastRefresh == LastSnapshot(interval, passes, n);
    assert w.slot == (if n > 0 && Closes(passes, n - 1) then passes[n - 1].signal else None);
    hide Mirrors, RootLives, Closes;
  }

  lemma RootLivesStep(passes: seq<Pass>, n: nat)
    requires n < |passes|
    ensures RootLives(passes, n) <==> (n > 0 ==> RootLives(passes, n - 1)) && passes[n].wait == Success(None)
  {
  }

  /** The graceful action is chosen as the answers say. */
  lemma ChoicesAgree(w: Watch, seen: Watch, interval: nat, passes: seq<Pass>, n: nat)
    requires n < |passes| && Mirrors(w, interval, passes, n) && Sees(w, seen, passes, n)
    ensures !seen.inputClosed && seen.root.None? && passes[n].inputClosed <==> Closes(passes, n)
    ensures !Closes(passes, n) ==> (seen.slot.Some? && seen.forwarded.None? <==> Forwards(passes, n))
    ensures !Closes(passes, n) && !Forwards(passes, n) ==>
              (seen.root.Some? && seen.deadline.None? <==> Descends(passes, n))
  {
    CloseAgrees(w, interval, passes, n);
    if !Closes(passes, n) {
      ForwardAgrees(w, interval, passes, n);
      if !Forwards(passes, n) {
        DescentAgrees(w, interval, passes, n);
      }
    }
    hide Mirrors, Closes, Forwards, Descends;
  }

  lemma CloseAgrees(w: Watch, interval: nat, passes: seq<Pass>, n: nat)
    requires n < |passes| && Mirrors(w, interval, passes, n)
    ensures !w.inputClosed && RootLives(passes, n) && passes[n].inputClosed <==> Closes(passes, n)
  {
    assert w.inputClosed <==> exists j: nat | j < n :: Closes(passes, j);
    hide Mirrors;
    if RootLives(passes, n) {
      forall j: nat | j < n && passes[j].inputClosed ensures exists k: nat | k < n :: Closes(passes, k) {
        FirstClose(passes, j);
      }
    }
  }

  lemma ForwardAgrees(w: Watch, interval: nat, passes: seq<Pass>, n: nat)
    requires n < |passes| && Mirrors(w, interval, passes, n) && !Closes(passes, n)
    ensures PendingSignal(passes, n).Some? && w.forwarded.None? <==> Forwards(passes, n)
  {
    assert w.forwarded.Some? <==> exists j: nat | j < n :: Forwards(passes, j);
    hide Mirrors, Closes, PendingSignal;
    forall j: nat | j < n && !Closes(passes, j) && PendingSignal(passes, j).Some?
      ensures exists k: nat | k < n :: Forwards(passes, k)
    {
      FirstForward(passes, j);
    }
  }

  lemma DescentAgrees(w: Watch, interval: nat, passes: seq<Pass>, n: nat)
    requires n < |passes| && Mirrors(w, interval, passes, n) && !Closes(passes, n) && !Forwards(passes, n)
    ensures !RootLives(passes, n) && w.deadline.None? <==> Descends(passes, n)
  {
    assert w.deadline.None? <==> LastActed(passes, n).None?;
    NoActionYet(passes, n);
    hide Mirrors, Closes, Forwards, LastActed, RootLives;
    if n > 0 && !RootLives(passes, n - 1) {
      FirstDescent(passes, n - 1);
    }
    if Descends(passes, n) {
      forall j: nat | j < n ensures !Acts(passes, j) {
        LivesBefore(passes, j, n - 1);
      }
    } else if LastActed(passes, n).None? {
      forall j: nat | j < n ensures !Closes(passes, j) && !Forwards(passes, j) {
        assert !Acts(passes, j);
      }
    }
  }

  lemma LivesBefore(passes: seq<Pass>, i: nat, j: nat)
    requires i <= j < |passes| && RootLives(passes, j)
    ensures RootLives(passes, i)
  {
  }

  // ----- Step by step -----

  /** The loop's variables after the graceful action of pass `n`. */
  ghost predicate Acted(w: Watch, acted: Watch, interval: nat, passes: seq<Pass>, n: nat)
    requires n < |passes|
  {
    && (acted.root.Some? <==> !RootLives(passes, n))
    && (acted.inputClosed <==> w.inputClosed || Closes(passes, n))
    && acted.forwarded == (if Forwards(passes, n) then PendingSignal(passes, n) else w.forwarded)
    && (acted.terminatedDescendants <==> w.terminatedDescendants || Descends(passes, n))
    && acted.forced == w.forced
    && acted.slot == (if Closes(passes, n) then passes[n].signal else None)
    && acted.deadline == (if Acts(passes, n) then Some(passes[n].actedAt + TERMINATION_GRACE) else w.deadline)
    && acted.lastRefresh == LastSnapshot(interval, passes, n + 1)
    && acted.calls == w.calls + GracefulCalls(passes, n)
  }

  lemma ActionIsAsChosen(w: Watch, seen: Watch, interval: nat, passes: seq<Pass>, n: nat)
    requires n < |passes| && Mirrors(w, interval, passes, n) && Sees(w, seen, passes, n)
    requires seen.lastRefresh == LastSnapshot(interval, passes, n + 1) && Graceful(seen, passes[n]).1
    ensures Acted(w, Graceful(seen, passes[n]).0, interval, passes, n)
  {
    ChoicesAgree(w, seen, interval, passes, n);
    OnlyOnePasses(passes, n);
    hide Mirrors, Closes, Forwards, Descends, LastSnapshot, RootLives, PendingSignal;
  }

  /** A pass that closes finds nothing pending from the pass before it. */
  lemma OnlyOnePasses(passes: seq<Pass>, n: nat)
    requires n < |passes|
    ensures Closes(passes, n) ==> PendingSignal(passes, n) == passes[n].signal
    ensures Closes(passes, n) ==> !Forwards(passes, n) && !Descends(passes, n)
    ensures Forwards(passes, n) ==> !Descends(passes, n)
  {
  }

  lemma GracefulPassMirrors(w: Watch, acted: Watch, interval: nat, passes: seq<Pass>, n: nat)
    requires n < |passes| && Mirrors(w, interval, passes, n) && Acted(w, acted, interval, passes, n)
    requires Escalate(acted, passes[n]).1 == Running
    ensures Mirrors(Escalate(acted, passes[n]).0, interval, passes, n + 1)
  {
    hide Closes, Forwards, Descends, Acts, LastSnapshot, RootLives, PendingSignal, CallsMade, GracefulCalls, Forces,
      Escalate, LastActed, Flagged;
    EscalationIsAsChosen(w, acted, interval, passes, n);
    FlagsAdvance(w, acted, interval, passes, n);
    OnePassMore(passes, n);
    SameFlags(acted.(forced := w.forced || Forces(passes, n)), Escalate(acted, passes[n]).0, passes, n + 1);
  }

  lemma OnePassMore(passes: seq<Pass>, n: nat)
    requires n < |passes|
    ensures LastActed(passes, n + 1) == if Acts(passes, n) then Some(passes[n].actedAt) else LastActed(passes, n)
    ensures CallsMade(passes, n + 1)
            == CallsMade(passes, n) + GracefulCalls(passes, n)
               + if Forces(passes, n) then [Force(passes[n].checkedAt)] else []
  {
  }

  lemma SameFlags(w: Watch, w': Watch, passes: seq<Pass>, n: nat)
    requires n <= |passes| && Flagged(w, passes, n)
    requires w' == w.(calls := w'.calls)
    ensures Flagged(w', passes, n)
  {
  }

  lemma EscalationIsAsChosen(w: Watch, acted: Watch, interval: nat, passes: seq<Pass>, n: nat)
    requires n < |passes| && Mirrors(w, interval, passes, n) && Acted(w, acted, interval, passes, n)
    requires Escalate(acted, passes[n]).1 == Running
    ensures Escalate(acted, passes[n]).0 == acted.(
              forced := w.forced || Forces(passes, n),
              calls := acted.calls + if Forces(passes, n) then [Force(passes[n].checkedAt)] else [])
  {
    ForceAgrees(w, interval, passes, n);
    hide Closes, Forwards, Descends, Acts, LastSnapshot, RootLives, PendingSignal, CallsMade, GracefulCalls, Forces,
      Flagged;
  }

  lemma FlagsAdvance(w: Watch, acted: Watch, interval: nat, passes: seq<Pass>, n: nat)
    requires n < |passes| && Mirrors(w, interval, passes, n) && Acted(w, acted, interval, passes, n)
    ensures Flagged(acted.(forced := w.forced || Forces(passes, n)), passes, n + 1)
  {
    ForwardedSignalStays(w, acted, interval, passes, n);
    hide Closes, Forwards, Descends, LastSnapshot, RootLives, PendingSignal, Forces, CallsMade, LastActed;
  }

  lemma ForwardedSignalStays(w: Watch, acted: Watch, interval: nat, passes: seq<Pass>, n: nat)
    requires n < |passes| && Mirrors(w, interval, passes, n) && Acted(w, acted, interval, passes, n)
    ensures forall j: nat | j < n + 1 && Forwards(passes, j) :: acted.forwarded == PendingSignal(passes, j)
  {
    hide Closes, Forwards, Descends, LastSnapshot, RootLives, PendingSignal;
    forall j: nat | j < n && Forwards(passes, j) && Forwards(passes, n) ensures false {
      ForwardsOnce(passes, j, n);
    }
  }

  lemma ForceAgrees(w: Watch, interval: nat, passes: seq<Pass>, n: nat)
    requires n < |passes| && Mirrors(w, interval, passes, n)
    ensures Expired(passes, n) && !w.forced <==> Forces(passes, n)
  {
    assert w.forced <==> exists j: nat | j < n :: Forces(passes, j);
    hide Mirrors, Expired;
    forall j: nat | j < n && Expired(passes, j) ensures exists k: nat | k < n :: Forces(passes, k) {
      FirstForce(passes, j);
    }
  }

  lemma ForwardsOnce(passes: seq<Pass>, i: nat, j: nat)
    requires i < j < |passes|
    ensures !(Forwards(passes, i) && Forwards(passes, j))
  {
  }

  lemma {:induction false} RunningLoopMirrors(interval: nat, passes: seq<Pass>, n: nat)
    requires n <= |passes| && Supervise(interval, passes[..n]).1 == Running
    ensures Mirrors(Supervise(interval, passes[..n]).0, interval, passes, n)
  {
    hide *;
    if n == 0 {
      StartMirrors(interval, passes);
    } else {
      assert passes[..n][..n - 1] == passes[..n - 1];
      OnePassOfMany(interval, passes[..n]);
      RunningLoopMirrors(interval, passes, n - 1);
      RunningPassMirrors(Supervise(interval, passes[..n - 1]).0, interval, passes, n - 1);
    }
  }

  lemma StartMirrors(interval: nat, passes: seq<Pass>)
    ensures Mirrors(Supervise(interval, passes[..0]).0, interval, passes, 0)
  {
  }

  lemma OnePassOfMany(interval: nat, passes: seq<Pass>)
    requires passes != [] && Supervise(interval, passes).1 == Running
    ensures var n := |passes| - 1;
            && Supervise(interval, passes[..n]).1 == Running
            && Supervise(interval, passes) == Poll(Supervise(interval, passes[..n]).0, interval, passes[n])
  {
  }

  lemma RunningPassMirrors(w: Watch, interval: nat, passes: seq<Pass>, n: nat)
    requires n < |passes| && Mirrors(w, interval, passes, n) && Poll(w, interval, passes[n]).1 == Running
    ensures Mirrors(Poll(w, interval, passes[n]).0, interval, passes, n + 1)
  {
    hide Mirrors, Sees, Acted, Observed, Graceful, Escalate;
    var seen := Observed(w, interval, passes[n]).0;
    ObservationSees(w, interval, passes, n);
    ActionIsAsChosen(w, seen, interval, passes, n);
    GracefulPassMirrors(w, Graceful(seen, passes[n]).0, interval, passes, n);
  }

  // ----- The laws -----

  /** As long as the loop runs it has made exactly the calls that the answers give: at the first closed input of
      a live root, at the first other pass with a signal pending (with the newest one), at the root's exit if
      neither came before, and, once, at the end of the grace period after the latest of these. */
  lemma CallsAreExact(interval: nat, passes: seq<Pass>)
    requires Supervise(interval, passes).1 == Running
    ensures Supervise(interval, passes).0.calls == CallsMade(passes, |passes|)
  {
    assert passes[..|passes|] == passes;
    RunningLoopMirrors(interval, passes, |passes|);
  }

  lemma {:induction false} OnlyGrows(interval: nat, passes: seq<Pass>, n: nat)
    requires n <= |passes|
    ensures var before, after := Supervise(interval, passes[..n]).0, Supervise(interval, passes).0;
            before.calls <= after.calls && (before.inputClosed ==> after.inputClosed)
  {
    if n == |passes| {
      assert passes[..n] == passes;
    } else {
      hide Poll;
      var rest := passes[..|passes| - 1];
      assert rest[..n] == passes[..n];
      OnlyGrows(interval, rest, n);
      PollOnlyGrows(Supervise(interval, rest).0, interval, passes[|passes| - 1]);
    }
  }

  lemma PollOnlyGrows(w: Watch, interval: nat, pass: Pass)
    ensures var w' := Poll(w, interval, pass).0; w.calls <= w'.calls && (w.inputClosed ==> w'.inputClosed)
  {
    ObservationOnlyGrows(w, interval, pass);
    ActionOnlyGrows(Observed(w, interval, pass).0, pass);
    hide Observed, Graceful;
  }

  lemma ObservationOnlyGrows(w: Watch, interval: nat, pass: Pass)
    ensures var seen := Observed(w, interval, pass).0; seen.calls == w.calls && seen.inputClosed == w.inputClosed
  {
  }

  lemma ActionOnlyGrows(w: Watch, pass: Pass)
    ensures var w' := Graceful(w, pass).0; w.calls <= w'.calls && (w.inputClosed ==> w'.inputClosed)
  {
  }

  /** A closed Desktop input ends the tree: when the loop goes on after a pass that finds the input closed while
      the root lives, the tree has been told to terminate from that pass on, whatever else was going on. */
  lemma ClosedInputEndsTheTree(interval: nat, passes: seq<Pass>, i: nat)
    requires i < |passes| && Supervise(interval, passes[..i + 1]).1 == Running
    requires passes[i].inputClosed && RootLives(passes, i)
    ensures Supervise(interval, passes).0.inputClosed && Terminated(Supervise(interval, passes).0.calls)
  {
    hide Supervise, Mirrors, Closes, RootLives;
    RunningLoopMirrors(interval, passes, i + 1);
    ClosingIsCalled(Supervise(interval, passes[..i + 1]).0, interval, passes, i);
    OnlyGrows(interval, passes, i + 1);
    StaysTerminated(Supervise(interval, passes[..i + 1]).0.calls, Supervise(interval, passes).0.calls);
  }

  lemma ClosingIsCalled(w: Watch, interval: nat, passes: seq<Pass>, i: nat)
    requires i < |passes| && Mirrors(w, interval, passes, i + 1)
    requires passes[i].inputClosed && RootLives(passes, i)
    ensures w.inputClosed && Terminated(w.calls)
  {
    FirstClose(passes, i);
    var j: nat :| j <= i && Closes(passes, j);
    CallsOf(passes, j, i + 1);
    assert Terminate(passes[j].actedAt) in GracefulCalls(passes, j);
    hide Closes, RootLives, Forwards, Descends, LastActed, CallsMade, GracefulCalls;
  }

  lemma StaysTerminated(calls: seq<Call>, more: seq<Call>)
    requires calls <= more && Terminated(calls)
    ensures Terminated(more)
  {
    var c :| c in calls && c.Terminate?;
    assert c in more;
  }

  lemma {:induction false} CallsOf(passes: seq<Pass>, i: nat, n: nat)
    requires i < n <= |passes|
    ensures forall call | call in GracefulCalls(passes, i) :: call in CallsMade(passes, n)
  {
    hide GracefulCalls, Forces;
    if i < n - 1 {
      CallsOf(passes, i, n - 1);
    }
  }

  /** And only that does, while the root lives: a running loop whose root has not exited has told its tree to
      terminate, and says so, exactly when some pass found the input closed. */
  lemma LiveRootEndsOnlyByClosedInput(interval: nat, passes: seq<Pass>)
    requires Supervise(interval, passes).1 == Running && passes != [] && RootLives(passes, |passes| - 1)
    ensures Terminated(Supervise(interval, passes).0.calls) <==> exists i | 0 <= i < |passes| :: passes[i].inputClosed
    ensures Supervise(interval, passes).0.inputClosed <==> exists i | 0 <= i < |passes| :: passes[i].inputClosed
  {
    var n := |passes|;
    assert passes[..n] == passes;
    RunningLoopMirrors(interval, passes, n);
    var w := Supervise(interval, passes).0;
    hide Mirrors, Supervise;
    if i: nat :| i < n && passes[i].inputClosed {
      LivesBefore(passes, i, n - 1);
      FirstClose(passes, i);
      var j: nat :| j <= i && Closes(passes, j);
      CallsOf(passes, j, n);
      assert Terminate(passes[j].actedAt) in GracefulCalls(passes, j);
    } else {
      assert forall j: nat | j < n :: !Closes(passes, j);
      NoTermination(passes, n);
    }
  }

  lemma {:induction false} NoTermination(passes: seq<Pass>, n: nat)
    requires n <= |passes| && (n > 0 ==> RootLives(passes, n - 1))
    requires forall j | 0 <= j < n :: !passes[j].inputClosed
    ensures !Terminated(CallsMade(passes, n))
  {
    if n > 0 {
      hide Forwards, Forces, PendingSignal;
      NoTermination(passes, n - 1);
    }
  }

  /** Pass `n` finds the root gone for good and nothing of its tree alive. */
  predicate TreeGone(passes: seq<Pass>, n: nat)
    requires n < |passes|
  {
    !WaitFails(passes, n) && !RootLives(passes, n) && passes[n].live == Success(false)
  }

  predicate WaitFails(passes: seq<Pass>, n: nat)
    requires n < |passes|
  {
    (n > 0 ==> RootLives(passes, n - 1)) && passes[n].wait.Failure?
  }

  /** The loop returns exactly when the root has exited and its tree is gone, and fails exactly when an answer it
      asks for is an error: of the wait while the root lives, of the snapshot when one is due, of the graceful
      action and of the forced one when they are called. */
  lemma VerdictIsExact(interval: nat, passes: seq<Pass>, n: nat)
    requires n < |passes| && Supervise(interval, passes[..n]).1 == Running
    ensures var verdict := Supervise(interval, passes[..n + 1]).1; var pass := passes[n];
            && (verdict.Done? <==> TreeGone(passes, n))
            && (verdict.Failed? <==>
                  || WaitFails(passes, n)
                  || (SnapshotDue(interval, passes, n) && pass.live.Failure?)
                  || (!TreeGone(passes, n) && Acts(passes, n) && !pass.actionSucceeds)
                  || (!TreeGone(passes, n) && Forces(passes, n) && !pass.forceSucceeds))
  {
    assert passes[..n + 1][..n] == passes[..n];
    RunningLoopMirrors(interval, passes, n);
    var w := Supervise(interval, passes[..n]).0;
    var seen := Observed(w, interval, passes[n]).0;
    ObservationEnds(w, interval, passes, n);
    hide Observed, Mirrors;
    if Observed(w, interval, passes[n]).1 == Running {
      ObservationSees(w, interval, passes, n);
      ActionSucceeds(w, seen, interval, passes, n);
      if Graceful(seen, passes[n]).1 {
        ActionIsAsChosen(w, seen, interval, passes, n);
        ForceAgrees(w, interval, passes, n);
        EscalationFails(w, Graceful(seen, passes[n]).0, interval, passes, n);
      }
    }
    hide Graceful, Escalate, Acts, Forces, RootLives, SnapshotDue;
  }

  lemma ObservationEnds(w: Watch, interval: nat, passes: seq<Pass>, n: nat)
    requires n < |passes| && Mirrors(w, interval, passes, n)
    ensures var verdict := Observed(w, interval, passes[n]).1;
            && (verdict.Done? <==> TreeGone(passes, n))
            && (verdict.Failed? <==>
                  WaitFails(passes, n) || (SnapshotDue(interval, passes, n) && passes[n].live.Failure?))
  {
    RootLivesStep(passes, n);
    assert w.root.Some? <==> n > 0 && !RootLives(passes, n - 1);
    assert w.lastRefresh == LastSnapshot(interval, passes, n);
    hide Mirrors, RootLives, LastSnapshot;
  }

  lemma ActionSucceeds(w: Watch, seen: Watch, interval: nat, passes: seq<Pass>, n: nat)
    requires n < |passes| && Mirrors(w, interval, passes, n) && Sees(w, seen, passes, n)
    ensures Graceful(seen, passes[n]).1 <==> !Acts(passes, n) || passes[n].actionSucceeds
  {
    ChoicesAgree(w, seen, interval, passes, n);
    hide Mirrors, Closes, Forwards, Descends;
  }

  lemma EscalationFails(w: Watch, acted: Watch, interval: nat, passes: seq<Pass>, n: nat)
    requires n < |passes| && Mirrors(w, interval, passes, n) && Acted(w, acted, interval, passes, n)
    ensures Escalate(acted, passes[n]).1.Failed? <==> Forces(passes, n) && !passes[n].forceSucceeds
    ensures !Escalate(acted, passes[n]).1.Done?
  {
    ForceAgrees(w, interval, passes, n);
    hide Closes, Forwards, Descends, Acts, LastSnapshot, RootLives, PendingSignal, CallsMade, GracefulCalls, Forces;
  }
}
