/** The polling loop that supervises the launched process tree on Unix. */
module Supervision {
  import opened Options

  type Time = int     // milliseconds of one monotone clock
  type Status = int
  type Signal = int

  const TERMINATION_GRACE := 2000
  const MACOS_REFRESH_INTERVAL := 20
  const LINUX_REFRESH_INTERVAL := 500

  datatype Error = Error

  /** What one pass of the loop is answered. An answer counts only if the pass asks for it; `signal` is the
      newest shutdown signal caught since the previous pass. */
  datatype Pass = Pass(
    wait: Result<Option<Status>, Error>,
    now: Time,
    live: Result<bool, Error>,
    inputClosed: bool,
    signal: Option<Signal>,
    actionSucceeds: bool, actedAt: Time,   // the graceful action and the clock after it
    checkedAt: Time, forceSucceeds: bool)

  datatype Call = Terminate(at: Time) | Forward(at: Time, signal: Signal) | Force(at: Time)

  datatype Snapshot = Snapshot(at: Time, rootExited: bool)

  datatype Watch = Watch(
    root: Option<Status>,
    forwarded: Option<Signal>,
    deadline: Option<Time>,
    forced: bool,
    terminatedDescendants: bool,
    inputClosed: bool,
    lastRefresh: Option<Time>,
    slot: Option<Signal>,        // the pending shutdown signal
    calls: seq<Call>,            // made on the child, failed ones included
    snapshots: seq<Snapshot>)

  const START := Watch(None, None, None, false, false, false, None, None, [], [])

  datatype Outcome = Outcome(
    status: Status, forwarded: Option<Signal>, forced: bool, terminatedDescendants: bool, inputClosed: bool)

  datatype Verdict = Running | Done(outcome: Outcome) | Failed

  function SaturatingSince(later: Time, earlier: Time): Time {
    if later >= earlier then later - earlier else 0
  }

  predicate RefreshDue(lastRefresh: Option<Time>, now: Time, rootExited: bool, interval: nat) {
    rootExited || lastRefresh.None? || SaturatingSince(now, lastRefresh.value) >= interval
  }

  /** At most one graceful action a pass; a signal is taken from its slot even when one was forwarded before. */
  function Graceful(w: Watch, pass: Pass): (Watch, bool) {
    var deadline := Some(pass.actedAt + TERMINATION_GRACE);
    if !w.inputClosed && w.root.None? && pass.inputClosed then
      var called := w.(calls := w.calls + [Terminate(pass.actedAt)]);
      if pass.actionSucceeds then (called.(inputClosed := true, deadline := deadline), true) else (called, false)
    else if w.slot.Some? && w.forwarded.None? then
      var called := w.(slot := None, calls := w.calls + [Forward(pass.actedAt, w.slot.value)]);
      if pass.actionSucceeds then (called.(forwarded := w.slot, deadline := deadline), true) else (called, false)
    else
      var emptied := w.(slot := None);
      if w.root.Some? && w.deadline.None? then
        var called := emptied.(calls := w.calls + [Terminate(pass.actedAt)]);
        if pass.actionSucceeds then (called.(terminatedDescendants := true, deadline := deadline), true)
        else (called, false)
      else (emptied, true)
  }

  function Escalate(w: Watch, pass: Pass): (Watch, Verdict) {
    if !w.forced && w.deadline.Some? && pass.checkedAt >= w.deadline.value then
      var called := w.(calls := w.calls + [Force(pass.checkedAt)]);
      if pass.forceSucceeds then (called.(forced := true), Running) else (called, Failed)
    else (w, Running)
  }

  /** The first half of a pass: reap the root, take a snapshot if one is due, and return if all is gone. */
  function Observed(w: Watch, interval: nat, pass: Pass): (Watch, Verdict) {
    var arrived := w.(slot := if pass.signal.Some? then pass.signal else w.slot);
    if w.root.None? && pass.wait.Failure? then (arrived, Failed)
    else
      var reaped := if w.root.None? then arrived.(root := pass.wait.value) else arrived;
      var due := RefreshDue(w.lastRefresh, pass.now, reaped.root.Some?, interval);
      if due && pass.live.Failure? then (reaped, Failed)
      else
        var seen := if due then
            reaped.(lastRefresh := Some(pass.now), snapshots := w.snapshots + [Snapshot(pass.now, reaped.root.Some?)])
          else reaped;
        var live := due ==> pass.live.value;
        if seen.root.Some? && !live then
          (seen, Done(Outcome(seen.root.value, w.forwarded, w.forced, w.terminatedDescendants, w.inputClosed)))
        else (seen, Running)
  }

  function Poll(w: Watch, interval: nat, pass: Pass): (Watch, Verdict) {
    var (seen, verdict) := Observed(w, interval, pass);
    if verdict != Running then (seen, verdict)
    else
      var (acted, succeeded) := Graceful(seen, pass);
      if succeeded then Escalate(acted, pass) else (acted, Failed)
  }

  /** The loop over the passes it is given; it stops early once it returns. */
  function Supervise(interval: nat, passes: seq<Pass>): (Watch, Verdict) {
    if passes == [] then (START, Running)
    else
      var (w, verdict) := Supervise(interval, passes[..|passes| - 1]);
      if verdict == Running then Poll(w, interval, passes[|passes| - 1]) else (w, verdict)
  }

  lemma {:induction false} StoppedStaysStopped(interval: nat, passes: seq<Pass>, n: nat)
    requires n <= |passes| && Supervise(interval, passes[..n]).1 != Running
    ensures Supervise(interval, passes) == Supervise(interval, passes[..n])
  {
    if n == |passes| {
      assert passes[..n] == passes;
    } else {
      var rest := passes[..|passes| - 1];
      assert rest[..n] == passes[..n];
      StoppedStaysStopped(interval, rest, n);
    }
  }

  method TakeGracefulAction(w: Watch, pass: Pass) returns (w': Watch, succeeded: bool)
    ensures (w', succeeded) == Graceful(w, pass)
  {
    w', succeeded := w, true;
    if !w.inputClosed && w.root.None? && pass.inputClosed {
      w' := w'.(calls := w'.calls + [Terminate(pass.actedAt)]);
      if !pass.actionSucceeds {
        return w', false;
      }
      w' := w'.(inputClosed := true, deadline := Some(pass.actedAt + TERMINATION_GRACE));
    } else {
      var signal := w'.slot;
      w' := w'.(slot := None);
      if signal.Some? && w'.forwarded.None? {
        w' := w'.(calls := w'.calls + [Forward(pass.actedAt, signal.value)]);
        if !pass.actionSucceeds {
          return w', false;
        }
        w' := w'.(forwarded := signal, deadline := Some(pass.actedAt + TERMINATION_GRACE));
      } else if w'.root.Some? && w'.deadline.None? {
        w' := w'.(calls := w'.calls + [Terminate(pass.actedAt)]);
        if !pass.actionSucceeds {
          return w', false;
        }
        w' := w'.(terminatedDescendants := true, deadline := Some(pass.actedAt + TERMINATION_GRACE));
      }
    }
  }

  method ObserveTree(w0: Watch, interval: nat, pass: Pass) returns (w: Watch, verdict: Verdict)
    ensures (w, verdict) == Observed(w0, interval, pass)
  {
    w := w0;
    if pass.signal.Some? {
      w := w.(slot := pass.signal);
    }
    if w.root.None? {
      if pass.wait.Failure? {
        return w, Failed;
      }
      w := w.(root := pass.wait.value);
    }
    var live := true;
    if RefreshDue(w.lastRefresh, pass.now, w.root.Some?, interval) {
      if pass.live.Failure? {
        return w, Failed;
      }
      live := pass.live.value;
      w := w.(lastRefresh := Some(pass.now), snapshots := w.snapshots + [Snapshot(pass.now, w.root.Some?)]);
    }
    if w.root.Some? && !live {
      return w, Done(Outcome(w.root.value, w.forwarded, w.forced, w.terminatedDescendants, w.inputClosed));
    }
    verdict := Running;
  }

  /** One pass of the loop. */
  method PollOnce(w0: Watch, interval: nat, pass: Pass) returns (w: Watch, verdict: Verdict)
    ensures (w, verdict) == Poll(w0, interval, pass)
  {
    hide Graceful, Observed;
    w, verdict := ObserveTree(w0, interval, pass);
    if verdict != Running {
      return;
    }
    var succeeded: bool;
    w, succeeded := TakeGracefulAction(w, pass);
    if !succeeded {
      return w, Failed;
    }
    if !w.forced && w.deadline.Some? && pass.checkedAt >= w.deadline.value {
      w := w.(calls := w.calls + [Force(pass.checkedAt)]);
      if !pass.forceSucceeds {
        return w, Failed;
      }
      w := w.(forced := true);
    }
  }

  method WaitForChild(interval: nat, passes: seq<Pass>) returns (w: Watch, verdict: Verdict)
    ensures (w, verdict) == Supervise(interval, passes)
  {
    hide Poll;
    w := START;
    for i := 0 to |passes|
      invariant Supervise(interval, passes[..i]) == (w, Running)
    {
      assert passes[..i + 1][..i] == passes[..i];
      w, verdict := PollOnce(w, interval, passes[i]);
      assert Supervise(interval, passes[..i + 1]) == (w, verdict);
      if verdict != Running {
        StoppedStaysStopped(interval, passes, i + 1);
        return;
      }
    }
    assert passes[..|passes|] == passes;
    verdict := Running;
  }

  // ----- What a run of calls looks like -----

  /** Clock readings never go backwards, within a pass and from one pass to the next. */
  ghost predicate Monotone(passes: seq<Pass>) {
    && (forall p | p in passes :: p.now <= p.actedAt <= p.checkedAt)
    && (forall i, j | 0 <= i < j < |passes| :: passes[i].checkedAt <= passes[j].now)
  }

  predicate SameKind(a: Call, b: Call) {
    (a.Terminate? && b.Terminate?) || (a.Forward? && b.Forward?) || (a.Force? && b.Force?)
  }

  /** Each action is called at most once, and force only when the grace period has passed since every graceful
      action before it, of which there is one. */
  ghost predicate Orderly(calls: seq<Call>) {
    && (forall i, j | 0 <= i < j < |calls| :: !SameKind(calls[i], calls[j]))
    && (forall j | 0 <= j < |calls| && calls[j].Force? ::
          && j > 0
          && forall i | 0 <= i < j :: calls[i].at + TERMINATION_GRACE <= calls[j].at)
  }

  /** When the latest graceful action finished. */
  function LastGraceful(calls: seq<Call>): Option<Time> {
    if calls == [] then None
    else
      var last := calls[|calls| - 1];
      if last.Force? then LastGraceful(calls[..|calls| - 1]) else Some(last.at)
  }

  predicate Terminated(calls: seq<Call>) {
    exists c | c in calls :: c.Terminate?
  }

  predicate Forwarded(calls: seq<Call>, signal: Option<Signal>) {
    if signal.None? then forall c | c in calls :: !c.Forward?
    else exists c | c in calls :: c.Forward? && c.signal == signal.value
  }

  predicate Forced(calls: seq<Call>) {
    exists c | c in calls :: c.Force?
  }

  ghost predicate CalledBy(calls: seq<Call>, time: Time) {
    forall c | c in calls :: c.at <= time
  }

  /** The flags say which calls were made; the deadline is the grace period after the latest graceful one. */
  ghost predicate Tracks(w: Watch) {
    && Orderly(w.calls)
    && !(w.terminatedDescendants && w.inputClosed) && (w.terminatedDescendants ==> w.root.Some?)
    && (w.terminatedDescendants || w.inputClosed <==> Terminated(w.calls))
    && (w.forced <==> Forced(w.calls))
    && Forwarded(w.calls, w.forwarded)
    && DeadlineTracks(w.calls, w.deadline)
  }

  ghost predicate DeadlineTracks(calls: seq<Call>, deadline: Option<Time>) {
    match LastGraceful(calls)
    case None => calls == [] && deadline == None
    case Some(at) => calls != [] && deadline == Some(at + TERMINATION_GRACE) && GracefulBy(calls, at)
  }

  ghost predicate GracefulBy(calls: seq<Call>, time: Time) {
    forall c | c in calls && !c.Force? :: c.at <= time
  }

  lemma Append(calls: seq<Call>, call: Call, forwarded: Option<Signal>)
    requires Forwarded(calls, forwarded)
    ensures Terminated(calls + [call]) <==> Terminated(calls) || call.Terminate?
    ensures Forced(calls + [call]) <==> Forced(calls) || call.Force?
    ensures Forwarded(calls + [call], if call.Forward? then Some(call.signal) else forwarded)
    ensures LastGraceful(calls + [call]) == if call.Force? then LastGraceful(calls) else Some(call.at)
    ensures forall time :: CalledBy(calls, time) && call.at <= time ==> CalledBy(calls + [call], time)
  {
    var appended := calls + [call];
    assert appended[..|calls|] == calls && call in appended;
    assert forall c :: c in appended <==> c in calls || c == call;
  }

  lemma AppendOrderly(calls: seq<Call>, call: Call)
    requires Orderly(calls)
    requires call.Terminate? ==> !Terminated(calls)
    requires call.Forward? ==> Forwarded(calls, None)
    requires call.Force? ==> !Forced(calls) && calls != [] && CalledBy(calls, call.at - TERMINATION_GRACE)
    ensures Orderly(calls + [call])
  {
    var appended := calls + [call];
    forall i | 0 <= i < |calls| ensures appended[i] == calls[i] && calls[i] in calls {
    }
  }

  lemma GracefulTracks(w: Watch, pass: Pass)
    requires Tracks(w) && CalledBy(w.calls, pass.now) && pass.now <= pass.actedAt <= pass.checkedAt
    ensures var (w', succeeded) := Graceful(w, pass);
            && Orderly(w'.calls) && CalledBy(w'.calls, pass.checkedAt)
            && (succeeded ==> Tracks(w'))
  {
    hide Orderly, Terminated, Forced, Forwarded, DeadlineTracks, CalledBy, GracefulBy, LastGraceful;
    NoDeadlineNoCalls(w.calls, w.deadline);
    CallsSoFar(w.calls, pass.now, pass.actedAt);
    CallsSoFar(w.calls, pass.now, pass.checkedAt);
    if !w.inputClosed && w.root.None? && pass.inputClosed {
      GracefulCall(w.calls, Terminate(pass.actedAt), w.forwarded, pass.checkedAt);
    } else if w.slot.Some? && w.forwarded.None? {
      GracefulCall(w.calls, Forward(pass.actedAt, w.slot.value), None, pass.checkedAt);
    } else if w.root.Some? && w.deadline.None? {
      GracefulCall(w.calls, Terminate(pass.actedAt), w.forwarded, pass.checkedAt);
    }
  }

  lemma GracefulCall(calls: seq<Call>, call: Call, forwarded: Option<Signal>, later: Time)
    requires Forwarded(calls, forwarded) && (call.Forward? ==> forwarded.None?)
    requires Orderly(calls) && CalledBy(calls, call.at) && call.at <= later && !call.Force?
    requires call.Terminate? ==> !Terminated(calls)
    ensures var calls' := calls + [call];
            && Orderly(calls') && CalledBy(calls', later)
            && DeadlineTracks(calls', Some(call.at + TERMINATION_GRACE))
            && (Terminated(calls') <==> Terminated(calls) || call.Terminate?)
            && (Forced(calls') <==> Forced(calls))
            && Forwarded(calls', if call.Forward? then Some(call.signal) else forwarded)
  {
    Append(calls, call, forwarded);
    AppendOrderly(calls, call);
    CallsSoFar(calls + [call], call.at, later);
    CallsSoFar(calls + [call], call.at, call.at);
  }

  lemma NoDeadlineNoCalls(calls: seq<Call>, deadline: Option<Time>)
    requires DeadlineTracks(calls, deadline)
    ensures deadline.None? ==> calls == [] && !Terminated(calls)
  {
  }

  lemma CallsSoFar(calls: seq<Call>, time: Time, later: Time)
    requires CalledBy(calls, time) && time <= later
    ensures CalledBy(calls, later) && GracefulBy(calls, later)
  {
  }

  lemma EscalateTracks(w: Watch, pass: Pass)
    requires Tracks(w) && CalledBy(w.calls, pass.checkedAt)
    ensures var (w', verdict) := Escalate(w, pass);
            && Orderly(w'.calls) && CalledBy(w'.calls, pass.checkedAt)
            && (verdict == Running ==> Tracks(w'))
  {
    hide Orderly, Terminated, Forced, Forwarded, DeadlineTracks, CalledBy, GracefulBy, LastGraceful;
    if !w.forced && w.deadline.Some? && pass.checkedAt >= w.deadline.value {
      ForceCall(w.calls, Force(pass.checkedAt), w.deadline, w.forwarded);
    }
  }

  lemma ForceCall(calls: seq<Call>, call: Call, deadline: Option<Time>, forwarded: Option<Signal>)
    requires Orderly(calls) && CalledBy(calls, call.at) && !Forced(calls) && call.Force?
    requires DeadlineTracks(calls, deadline) && deadline.Some? && call.at >= deadline.value
    requires Forwarded(calls, forwarded)
    ensures var calls' := calls + [call];
            && Orderly(calls') && CalledBy(calls', call.at) && DeadlineTracks(calls', deadline)
            && (Terminated(calls') <==> Terminated(calls)) && Forced(calls') && Forwarded(calls', forwarded)
  {
    assert CalledBy(calls, call.at - TERMINATION_GRACE);
    Append(calls, call, forwarded);
    AppendOrderly(calls, call);
  }

  /** Every run's calls are orderly, and the flags of its outcome say exactly which calls were made. */
  lemma {:induction false} EscalationIsOrderly(interval: nat, passes: seq<Pass>)
    requires Monotone(passes)
    ensures var (w, verdict) := Supervise(interval, passes);
            && Orderly(w.calls)
            && (verdict == Running ==> Tracks(w))
            && (verdict.Done? ==>
                  var o := verdict.outcome;
                  && (o.terminatedDescendants || o.inputClosed <==> Terminated(w.calls))
                  && (o.forced <==> Forced(w.calls))
                  && Forwarded(w.calls, o.forwarded))
            && (verdict == Running && passes != [] ==> CalledBy(w.calls, passes[|passes| - 1].checkedAt))
  {
    if passes != [] {
      var n := |passes| - 1;
      EscalationIsOrderly(interval, passes[..n]);
      var (w, verdict) := Supervise(interval, passes[..n]);
      if verdict == Running {
        assert CalledBy(w.calls, passes[n].now);
        PollTracks(w, interval, passes[n]);
      }
    }
  }

  lemma PollTracks(w: Watch, interval: nat, pass: Pass)
    requires Tracks(w) && CalledBy(w.calls, pass.now) && pass.now <= pass.actedAt <= pass.checkedAt
    ensures var (w', verdict) := Poll(w, interval, pass);
            && Orderly(w'.calls)
            && (verdict == Running ==> Tracks(w') && CalledBy(w'.calls, pass.checkedAt))
            && (verdict.Done? ==>
                  && w'.calls == w.calls
                  && verdict.outcome == Outcome(verdict.outcome.status, w.forwarded, w.forced,
                                                w.terminatedDescendants, w.inputClosed))
  {
    hide Orderly, Terminated, Forced, Forwarded, CalledBy, DeadlineTracks, Graceful;
    var seen := Observed(w, interval, pass).0;
    if Observed(w, interval, pass).1 == Running {
      GracefulTracks(seen, pass);
      var (acted, succeeded) := Graceful(seen, pass);
      if succeeded {
        EscalateTracks(acted, pass);
      }
    }
  }

  // ----- When the loop returns, and how long it can hold out -----

  /** The first exit status the root reported. */
  function FirstExit(passes: seq<Pass>): Option<Status> {
    if passes == [] then None
    else
      var earlier := FirstExit(passes[..|passes| - 1]);
      var wait := passes[|passes| - 1].wait;
      if earlier.Some? then earlier else if wait.Success? then wait.value else None
  }

  /** What a still running loop knows: the root's first exit status; and once that is known a deadline that has
      not passed, unless the tree was forced already. */
  lemma {:induction false} RunningLoop(interval: nat, passes: seq<Pass>)
    requires Supervise(interval, passes).1 == Running
    ensures var w := Supervise(interval, passes).0;
            && w.root == FirstExit(passes)
            && (w.root.Some? ==> w.deadline.Some?)
            && (passes != [] && w.deadline.Some? && !w.forced ==> passes[|passes| - 1].checkedAt < w.deadline.value)
  {
    if passes != [] {
      hide Poll;
      var n := |passes| - 1;
      RunningLoop(interval, passes[..n]);
      RunningPoll(Supervise(interval, passes[..n]).0, interval, passes[n]);
    }
  }

  lemma RunningPoll(w: Watch, interval: nat, pass: Pass)
    requires Poll(w, interval, pass).1 == Running
    ensures var w' := Poll(w, interval, pass).0;
            && (if w.root.None? then pass.wait == Success(w'.root) else w'.root == w.root)
            && (w'.root.Some? ==> w'.deadline.Some?)
            && (w'.deadline.Some? && !w'.forced ==> pass.checkedAt < w'.deadline.value)
  {
    var seen := Observed(w, interval, pass).0;
    assert Observed(w, interval, pass).1 == Running;
    hide Observed;
  }

  /** Success means that the tree is gone: the root's first exit status is returned, and the very last thing the
      loop did was to look at the process tree, after the root's exit, and find nothing alive. */
  lemma SuccessMeansGone(interval: nat, passes: seq<Pass>, n: nat)
    requires 0 < n <= |passes|
    requires Supervise(interval, passes[..n - 1]).1 == Running && Supervise(interval, passes[..n]).1.Done?
    ensures var (w, verdict) := Supervise(interval, passes);
            && verdict == Supervise(interval, passes[..n]).1
            && FirstExit(passes[..n]) == Some(verdict.outcome.status)
            && passes[n - 1].live == Success(false)
            && |w.snapshots| > 0 && w.snapshots[|w.snapshots| - 1] == Snapshot(passes[n - 1].now, true)
            && w.calls == Supervise(interval, passes[..n - 1]).0.calls
  {
    StoppedStaysStopped(interval, passes, n);
    assert passes[..n][..n - 1] == passes[..n - 1];
    RunningLoop(interval, passes[..n - 1]);
  }

  /** An exited root whose tree is still alive always has a graceful action behind it, and the loop never goes
      past the grace period after the latest one without having forced the tree. */
  lemma ExitedRootIsOnADeadline(interval: nat, passes: seq<Pass>)
    requires Monotone(passes) && passes != []
    requires Supervise(interval, passes).1 == Running && FirstExit(passes).Some?
    ensures var w := Supervise(interval, passes).0;
            && LastGraceful(w.calls).Some?
            && (Forced(w.calls) || passes[|passes| - 1].checkedAt < LastGraceful(w.calls).value + TERMINATION_GRACE)
  {
    RunningLoop(interval, passes);
    EscalationIsOrderly(interval, passes);
  }

  /** A shutdown signal is forwarded within two passes, unless one was forwarded before or the loop returned. */
  lemma {:induction false} ShutdownSignalIsForwarded(interval: nat, passes: seq<Pass>, i: nat)
    requires Supervise(interval, passes).1 == Running && i < |passes| && passes[i].signal.Some?
    ensures var w := Supervise(interval, passes).0;
            && (|passes| == i + 1 && w.forwarded.None? ==> w.slot.Some? && w.inputClosed)
            && (|passes| > i + 1 ==> w.forwarded.Some?)
  {
    hide Poll;
    var n := |passes| - 1;
    SignalPoll(Supervise(interval, passes[..n]).0, interval, passes[n]);
    if i < n {
      ShutdownSignalIsForwarded(interval, passes[..n], i);
    }
  }

  lemma SignalPoll(w: Watch, interval: nat, pass: Pass)
    requires Poll(w, interval, pass).1 == Running
    ensures var w' := Poll(w, interval, pass).0;
            && (w.forwarded.Some? ==> w'.forwarded == w.forwarded)
            && (pass.signal.Some? || w.slot.Some?
                ==> w'.forwarded.Some? || (w'.slot.Some? && w'.inputClosed && !w.inputClosed))
  {
    var seen := Observed(w, interval, pass).0;
    assert seen.forwarded == w.forwarded && seen.inputClosed == w.inputClosed;
    assert seen.slot.Some? <==> pass.signal.Some? || w.slot.Some?;
    hide Observed;
  }

  /** Snapshots are throttled while the root lives: they are at least an interval apart. */
  lemma {:induction false} SnapshotsAreThrottled(interval: nat, passes: seq<Pass>)
    requires interval > 0
    ensures Throttled(interval, Supervise(interval, passes).0)
  {
    if passes != [] {
      hide Poll, Throttled;
      var n := |passes| - 1;
      SnapshotsAreThrottled(interval, passes[..n]);
      ThrottledPoll(Supervise(interval, passes[..n]).0, interval, passes[n]);
    } else {
      assert Throttled(interval, START);
    }
  }

  predicate Throttled(interval: nat, w: Watch) {
    && w.lastRefresh == (if w.snapshots == [] then None else Some(w.snapshots[|w.snapshots| - 1].at))
    && forall k | 0 < k < |w.snapshots| && !w.snapshots[k].rootExited ::
         w.snapshots[k].at >= w.snapshots[k - 1].at + interval
  }

  lemma ThrottledPoll(w: Watch, interval: nat, pass: Pass)
    requires interval > 0 && Throttled(interval, w)
    ensures Throttled(interval, Poll(w, interval, pass).0)
  {
    hide Observed, Throttled;
    var seen := Observed(w, interval, pass).0;
    ThrottledObservation(w, interval, pass);
    SameSnapshots(interval, seen, Graceful(seen, pass).0);
    SameSnapshots(interval, seen, Poll(w, interval, pass).0);
  }

  lemma ThrottledObservation(w: Watch, interval: nat, pass: Pass)
    requires interval > 0 && Throttled(interval, w)
    ensures Throttled(interval, Observed(w, interval, pass).0)
  {
  }

  lemma SameSnapshots(interval: nat, w: Watch, w': Watch)
    requires Throttled(interval, w) && w'.snapshots == w.snapshots && w'.lastRefresh == w.lastRefresh
    ensures Throttled(interval, w')
  {
  }
}
