/** Server requests that cross the Remote Control bridge get an outer id of their own. */
module ServerRequests {
  import opened Decimals
  import opened Options

  const PREFIX := "codexhost/remote-control-bridge/server-request/"

  function OuterId(handle: string, ordinal: nat): string {
    PREFIX + (handle + "/" + Decimal(ordinal))
  }

  /** The bridge process currently attached and the inner requests waiting for an answer. */
  datatype Bridge<I> = Bridge(handle: string, nextOrdinal: nat, requests: map<string, I>)

  datatype Event<I> =
    | Request(inner: I)       // an app-server frame with a method and an id
    | Response(id: string)    // the client answers some string id
    | Reset(handle: string)   // a failed bridge starts over with a new process handle
    | Dispose

  datatype Output<I> =
    | Forwarded(outer: string, inner: I)  // handed to the client under the outer id
    | Answered(outer: string, inner: I)   // written back to the bridge under the inner id
    | Swallowed(id: string)
    | Native(id: string)                  // left to the stock dispatcher
    | Silent

  function New<I>(handle: string): Bridge<I> {
    Bridge(handle, 1, map[])
  }

  function Step<I>(b: Bridge<I>, event: Event<I>): (Bridge<I>, Output<I>) {
    match event
    case Request(inner) =>
      var outer := OuterId(b.handle, b.nextOrdinal);
      (b.(nextOrdinal := b.nextOrdinal + 1, requests := b.requests[outer := inner]), Forwarded(outer, inner))
    case Response(id) =>
      if id in b.requests then (b.(requests := b.requests - {id}), Answered(id, b.requests[id]))
      else if PREFIX <= id then (b, Swallowed(id))
      else (b, Native(id))
    case Reset(handle) => (New(handle), Silent)
    case Dispose => (b.(requests := map[]), Silent)
  }

  class ServerRequestMap<I(==)> {
    var handle: string
    var nextOrdinal: nat
    var requests: map<string, I>

    function State(): Bridge<I>
      reads this
    {
      Bridge(handle, nextOrdinal, requests)
    }

    constructor (handle: string)
      ensures State() == New(handle)
    {
      this.handle := handle;
      nextOrdinal := 1;
      requests := map[];
    }

    method ForwardRequest(inner: I) returns (outer: string)
      modifies this
      ensures (State(), Forwarded(outer, inner)) == Step(old(State()), Request(inner))
    {
      outer := OuterId(handle, nextOrdinal);
      nextOrdinal := nextOrdinal + 1;
      requests := requests[outer := inner];
    }

    method DispatchResponse(id: string) returns (output: Output<I>)
      modifies this
      ensures (State(), output) == Step(old(State()), Response(id))
    {
      if id in requests {
        output := Answered(id, requests[id]);
        requests := requests - {id};
        return;
      }
      if PREFIX <= id {
        return Swallowed(id);
      }
      return Native(id);
    }

    method DisposeBridge()
      modifies this`requests
      ensures State() == Step(old(State()), Dispose).0
    {
      requests := map[];
    }

    method ResetFailedBridge(freshHandle: string)
      modifies this
      ensures State() == Step(old(State()), Reset(freshHandle)).0
    {
      handle := freshHandle;
      requests := map[];
      nextOrdinal := 1;
    }
  }

  // ----- Runs -----

  function Trace<I>(handle: string, events: seq<Event<I>>, n: nat): (Bridge<I>, seq<Output<I>>)
    requires n <= |events|
  {
    if n == 0 then (New(handle), [])
    else
      var (before, outputs) := Trace(handle, events, n - 1);
      var (after, output) := Step(before, events[n - 1]);
      (after, outputs + [output])
  }

  /** Process handles are never handed out twice. */
  ghost predicate FreshHandles<I>(handle: string, events: seq<Event<I>>) {
    && (forall i | 0 <= i < |events| && events[i].Reset? :: events[i].handle != handle)
    && (forall i, j | 0 <= i < j < |events| && events[i].Reset? && events[j].Reset? ::
      events[i].handle != events[j].handle)
  }

  lemma OuterIdIsInjective(h: string, m: nat, h': string, m': nat)
    requires OuterId(h, m) == OuterId(h', m')
    ensures h == h' && m == m'
  {
    var a, b := h + "/" + Decimal(m), h' + "/" + Decimal(m');
    assert a == OuterId(h, m)[|PREFIX|..] && b == OuterId(h', m')[|PREFIX|..];
    if |h| < |h'| {
      SlashIsNoDigit(h, m, h', m');
    } else if |h'| < |h| {
      SlashIsNoDigit(h', m', h, m);
    }
    assert a[..|h|] == h && b[..|h'|] == h';
    assert a[|h| + 1..] == Decimal(m) && b[|h'| + 1..] == Decimal(m');
    DecimalIsInjective(m, m');
  }

  lemma SlashIsNoDigit(h: string, m: nat, h': string, m': nat)
    requires |h| < |h'|
    ensures h + "/" + Decimal(m) != h' + "/" + Decimal(m')
  {
    var a, b := h + "/" + Decimal(m), h' + "/" + Decimal(m');
    assert b[|h'|] == '/';
    if |h'| < |a| {
      assert a[|h'|] == Decimal(m)[|h'| - |h| - 1] && Decimal(m)[|h'| - |h| - 1] in Decimal(m);
    }
  }

  /** The handle in use when the run has taken `n` events was introduced at step `k`. */
  ghost predicate HandleSince<I>(handle: string, events: seq<Event<I>>, n: nat, current: string) {
    && n <= |events|
    && (current == handle || exists i :: 0 <= i < n && events[i] == Reset(current))
  }

  ghost predicate IssuedBy<I>(handle: string, events: seq<Event<I>>, n: nat, b: Bridge<I>, outer: string) {
    exists h, k: nat :: outer == OuterId(h, k) && HandleSince(handle, events, n, h)
      && (h == b.handle ==> k < b.nextOrdinal)
  }

  /** Every outer id was issued under a handle of the run, and none was issued twice. */
  ghost predicate ForwardsOk<I>(handle: string, events: seq<Event<I>>, n: nat, b: Bridge<I>, outputs: seq<Output<I>>) {
    && (forall i | 0 <= i < |outputs| && outputs[i].Forwarded? :: IssuedBy(handle, events, n, b, outputs[i].outer))
    && (forall i, j | 0 <= i < j < |outputs| && outputs[i].Forwarded? && outputs[j].Forwarded? ::
          outputs[i].outer != outputs[j].outer)
  }

  ghost predicate RequestsOk<I>(events: seq<Event<I>>, b: Bridge<I>, outputs: seq<Output<I>>)
    requires |outputs| <= |events|
  {
    forall outer | outer in b.requests :: Outstanding(events, outputs, outer, b.requests[outer])
  }

  ghost predicate AnswersOk<I>(events: seq<Event<I>>, b: Bridge<I>, outputs: seq<Output<I>>)
    requires |outputs| <= |events|
  {
    && (forall i | 0 <= i < |outputs| && outputs[i].Answered? ::
          outputs[i].outer !in b.requests && Outstanding(events[..i], outputs[..i], outputs[i].outer, outputs[i].inner))
    && (forall i, j | 0 <= i < j < |outputs| && outputs[i].Answered? && outputs[j].Answered? ::
          outputs[i].outer != outputs[j].outer)
  }

  ghost predicate Inv<I>(handle: string, events: seq<Event<I>>, n: nat, b: Bridge<I>, outputs: seq<Output<I>>) {
    && HandleSince(handle, events, n, b.handle)
    && |outputs| == n
    && ForwardsOk(handle, events, n, b, outputs)
    && RequestsOk(events, b, outputs)
    && AnswersOk(events, b, outputs)
  }

  /** Forwarded by the attached bridge process since the last reset or disposal, and not answered since. */
  ghost predicate Outstanding<I>(events: seq<Event<I>>, outputs: seq<Output<I>>, outer: string, inner: I)
    requires |outputs| <= |events|
  {
    exists k :: 0 <= k < |outputs| && outputs[k] == Forwarded(outer, inner)
      && forall j | k < j < |outputs| :: !events[j].Reset? && !events[j].Dispose?
           && (outputs[j].Answered? ==> outputs[j].outer != outer)
  }

  lemma OutstandingExtends<I>(
      events: seq<Event<I>>, outputs: seq<Output<I>>, n: nat, output: Output<I>, outer: string, inner: I)
    requires n < |events| && |outputs| == n && Outstanding(events, outputs, outer, inner)
    requires !events[n].Reset? && !events[n].Dispose? && (output.Answered? ==> output.outer != outer)
    ensures Outstanding(events, outputs + [output], outer, inner)
  {
    var k :| 0 <= k < |outputs| && outputs[k] == Forwarded(outer, inner)
      && forall j | k < j < |outputs| :: !events[j].Reset? && !events[j].Dispose?
           && (outputs[j].Answered? ==> outputs[j].outer != outer);
    assert (outputs + [output])[k] == Forwarded(outer, inner);
  }

  lemma OutstandingWasForwarded<I>(events: seq<Event<I>>, outputs: seq<Output<I>>, outer: string, inner: I)
    requires |outputs| <= |events| && Outstanding(events, outputs, outer, inner)
    ensures exists k :: 0 <= k < |outputs| && outputs[k] == Forwarded(outer, inner)
  {
  }

  /** A freshly issued id differs from every id issued before it, across resets too. */
  lemma FreshOuterId<I>(handle: string, events: seq<Event<I>>, n: nat, b: Bridge<I>, outer: string)
    requires n <= |events| && IssuedBy(handle, events, n, b, outer)
    ensures outer != OuterId(b.handle, b.nextOrdinal)
  {
    var h, k: nat :| outer == OuterId(h, k) && HandleSince(handle, events, n, h)
      && (h == b.handle ==> k < b.nextOrdinal);
    if outer == OuterId(b.handle, b.nextOrdinal) {
      OuterIdIsInjective(h, k, b.handle, b.nextOrdinal);
    }
  }

  lemma StillIssued<I>(handle: string, events: seq<Event<I>>, n: nat, b: Bridge<I>, outer: string)
    requires FreshHandles(handle, events) && n < |events|
    requires IssuedBy(handle, events, n, b, outer)
    ensures IssuedBy(handle, events, n + 1, Step(b, events[n]).0, outer)
  {
    var h, k: nat :| outer == OuterId(h, k) && HandleSince(handle, events, n, h)
      && (h == b.handle ==> k < b.nextOrdinal);
    var b' := Step(b, events[n]).0;
    assert HandleSince(handle, events, n + 1, h);
    assert events[n].Reset? ==> h != events[n].handle;
  }

  lemma ForwardsStep<I>(handle: string, events: seq<Event<I>>, n: nat, b: Bridge<I>, outputs: seq<Output<I>>)
    requires FreshHandles(handle, events) && n < |events| && Inv(handle, events, n, b, outputs)
    ensures var (b', output) := Step(b, events[n]);
            HandleSince(handle, events, n + 1, b'.handle) && ForwardsOk(handle, events, n + 1, b', outputs + [output])
  {
    hide RequestsOk, AnswersOk;
    var (b', output) := Step(b, events[n]);
    if events[n].Reset? {
      assert events[n] == Reset(b'.handle);
    }
    forall i | 0 <= i < n && outputs[i].Forwarded? ensures IssuedBy(handle, events, n + 1, b', outputs[i].outer) {
      StillIssued(handle, events, n, b, outputs[i].outer);
    }
    if output.Forwarded? {
      assert IssuedBy(handle, events, n + 1, b', output.outer) by {
        assert output.outer == OuterId(b.handle, b.nextOrdinal) && HandleSince(handle, events, n + 1, b.handle);
      }
      forall i | 0 <= i < n && outputs[i].Forwarded? ensures outputs[i].outer != output.outer {
        FreshOuterId(handle, events, n, b, outputs[i].outer);
      }
    }
  }

  lemma RequestsStep<I>(events: seq<Event<I>>, n: nat, b: Bridge<I>, outputs: seq<Output<I>>)
    requires n < |events| && |outputs| == n && RequestsOk(events, b, outputs)
    ensures var (b', output) := Step(b, events[n]); RequestsOk(events, b', outputs + [output])
  {
    var (b', output) := Step(b, events[n]);
    forall outer | outer in b'.requests ensures Outstanding(events, outputs + [output], outer, b'.requests[outer]) {
      if output.Forwarded? && outer == output.outer {
        assert (outputs + [output])[n] == Forwarded(outer, b'.requests[outer]);
      } else {
        OutstandingExtends(events, outputs, n, output, outer, b.requests[outer]);
      }
    }
  }

  /** An answered request stays out of the map: a later outer id is a different one. */
  lemma AnsweredStaysOut<I>(
      handle: string, events: seq<Event<I>>, n: nat, b: Bridge<I>, outputs: seq<Output<I>>, i: nat)
    requires n < |events| && |outputs| == n && AnswersOk(events, b, outputs)
    requires ForwardsOk(handle, events, n + 1, Step(b, events[n]).0, outputs + [Step(b, events[n]).1])
    requires i < n && outputs[i].Answered?
    ensures outputs[i].outer !in Step(b, events[n]).0.requests
  {
    var outputs' := outputs + [Step(b, events[n]).1];
    OutstandingWasForwarded(events[..i], outputs[..i], outputs[i].outer, outputs[i].inner);
    var k :| 0 <= k < i && outputs[..i][k] == Forwarded(outputs[i].outer, outputs[i].inner);
    assert outputs'[k] == Forwarded(outputs[i].outer, outputs[i].inner) && outputs'[n] == Step(b, events[n]).1;
    hide Outstanding, IssuedBy;
  }

  lemma AnswersStep<I>(handle: string, events: seq<Event<I>>, n: nat, b: Bridge<I>, outputs: seq<Output<I>>)
    requires n < |events| && Inv(handle, events, n, b, outputs)
    requires ForwardsOk(handle, events, n + 1, Step(b, events[n]).0, outputs + [Step(b, events[n]).1])
    ensures var (b', output) := Step(b, events[n]); AnswersOk(events, b', outputs + [output])
  {
    hide Outstanding, IssuedBy, HandleSince, ForwardsOk;
    var (b', output) := Step(b, events[n]);
    var outputs' := outputs + [output];
    assert outputs'[..n] == outputs;
    forall i | 0 <= i < n && outputs[i].Answered?
      ensures outputs[i].outer !in b'.requests && outputs'[..i] == outputs[..i]
    {
      AnsweredStaysOut(handle, events, n, b, outputs, i);
    }
    if output.Answered? {
      AnsweredWasOutstanding(events, outputs, n, output.outer, output.inner);
    }
  }

  lemma InvStep<I>(handle: string, events: seq<Event<I>>, n: nat, b: Bridge<I>, outputs: seq<Output<I>>)
    requires FreshHandles(handle, events) && n < |events| && Inv(handle, events, n, b, outputs)
    ensures Inv(handle, events, n + 1, Step(b, events[n]).0, outputs + [Step(b, events[n]).1])
  {
    ForwardsStep(handle, events, n, b, outputs);
    RequestsStep(events, n, b, outputs);
    AnswersStep(handle, events, n, b, outputs);
    hide ForwardsOk, RequestsOk, AnswersOk, Step;
  }

  lemma AnsweredWasOutstanding<I>(events: seq<Event<I>>, outputs: seq<Output<I>>, n: nat, outer: string, inner: I)
    requires n < |events| && |outputs| == n && Outstanding(events, outputs, outer, inner)
    ensures Outstanding(events[..n], outputs, outer, inner)
  {
    var k :| 0 <= k < |outputs| && outputs[k] == Forwarded(outer, inner)
      && forall j | k < j < |outputs| :: !events[j].Reset? && !events[j].Dispose?
           && (outputs[j].Answered? ==> outputs[j].outer != outer);
    assert forall j | 0 <= j < n :: events[..n][j] == events[j];
  }

  lemma {:induction false} TraceKeepsInv<I>(handle: string, events: seq<Event<I>>, n: nat)
    requires FreshHandles(handle, events) && n <= |events|
    ensures var (b, outputs) := Trace(handle, events, n); Inv(handle, events, n, b, outputs)
  {
    if n > 0 {
      TraceKeepsInv(handle, events, n - 1);
      var (b, outputs) := Trace(handle, events, n - 1);
      InvStep(handle, events, n - 1, b, outputs);
    }
  }

  /** Over a whole run, resets included: outer ids never repeat; every answer carries the inner id its outer
      id was issued for, since the last reset or disposal; and no request is answered twice. */
  lemma RequestsAreAnsweredAtMostOnce<I>(handle: string, events: seq<Event<I>>)
    requires FreshHandles(handle, events)
    ensures var outputs := Trace(handle, events, |events|).1;
            && |outputs| == |events|
            && (forall i, j | 0 <= i < j < |outputs| && outputs[i].Forwarded? && outputs[j].Forwarded? ::
                  outputs[i].outer != outputs[j].outer)
            && (forall i, j | 0 <= i < j < |outputs| && outputs[i].Answered? && outputs[j].Answered? ::
                  outputs[i].outer != outputs[j].outer)
            && (forall i | 0 <= i < |outputs| && outputs[i].Answered? ::
                  Outstanding(events[..i], outputs[..i], outputs[i].outer, outputs[i].inner))
  {
    TraceKeepsInv(handle, events, |events|);
  }

  /** A response is answered exactly when its request is outstanding; an id with the bridge prefix that is not
      is swallowed, so it never reaches the stock dispatcher; and every other id does. */
  lemma StaleIdsAreSwallowed<I>(handle: string, events: seq<Event<I>>, n: nat, id: string)
    requires FreshHandles(handle, events) && n < |events| && events[n] == Response(id)
    ensures var (b, outputs) := Trace(handle, events, n);
            var output := Step(b, events[n]).1;
            && |outputs| == n
            && (output.Answered? <==> exists inner :: Outstanding(events[..n], outputs, id, inner))
            && (output == Native(id) <==> !("codexhost/remote-control-bridge/server-request/" <= id))
            && (output == Swallowed(id) <==>
                  "codexhost/remote-control-bridge/server-request/" <= id
                  && forall inner :: !Outstanding(events[..n], outputs, id, inner))
  {
    TraceKeepsInv(handle, events, n);
    var (b, outputs) := Trace(handle, events, n);
    if id in b.requests {
      AnsweredWasOutstanding(events, outputs, n, id, b.requests[id]);
      OutstandingHasPrefix(handle, events, n, b, outputs, id, b.requests[id]);
    }
    forall inner | Outstanding(events[..n], outputs, id, inner) ensures id in b.requests {
      var k :| 0 <= k < n && outputs[k] == Forwarded(id, inner)
        && forall j | k < j < n :: !events[..n][j].Reset? && !events[..n][j].Dispose?
             && (outputs[j].Answered? ==> outputs[j].outer != id);
      assert forall j | 0 <= j < n :: events[..n][j] == events[j];
      OutstandingIsHeld(handle, events, k, n, id, inner);
    }
    hide Outstanding, Inv, Trace;
  }

  lemma OutstandingHasPrefix<I>(
      handle: string, events: seq<Event<I>>, n: nat, b: Bridge<I>, outputs: seq<Output<I>>, id: string, inner: I)
    requires n <= |events| && ForwardsOk(handle, events, n, b, outputs) && |outputs| == n
    requires Outstanding(events, outputs, id, inner)
    ensures PREFIX <= id
  {
    OutstandingWasForwarded(events, outputs, id, inner);
    var k :| 0 <= k < |outputs| && outputs[k] == Forwarded(id, inner);
    assert IssuedBy(handle, events, n, b, outputs[k].outer);
  }

  // ----- Which id a request gets -----

  /** The process handle in use after `n` events: that of the latest reset. */
  function HandleAfter<I>(handle: string, events: seq<Event<I>>, n: nat): string
    requires n <= |events|
  {
    if n == 0 then handle
    else if events[n - 1].Reset? then events[n - 1].handle
    else HandleAfter(handle, events, n - 1)
  }

  /** How many requests came since the latest reset. */
  function RequestsSince<I>(events: seq<Event<I>>, n: nat): nat
    requires n <= |events|
  {
    if n == 0 || events[n - 1].Reset? then 0
    else RequestsSince(events, n - 1) + if events[n - 1].Request? then 1 else 0
  }

  /** Requests are numbered from 1 under the handle of the bridge process in use, and a disposal does not start the
      numbers over. */
  lemma {:induction false} RequestsAreNumbered<I>(handle: string, events: seq<Event<I>>, n: nat)
    requires n <= |events|
    ensures var b := Trace(handle, events, n).0;
            && b.handle == HandleAfter(handle, events, n) && b.nextOrdinal == RequestsSince(events, n) + 1
            && (n < |events| && events[n].Request? ==>
                  var outer :=
                    "codexhost/remote-control-bridge/server-request/" + (b.handle + "/" + Decimal(b.nextOrdinal));
                  Step(b, events[n]).1 == Forwarded(outer, events[n].inner))
  {
    if n > 0 {
      RequestsAreNumbered(handle, events, n - 1);
    }
  }

  lemma {:induction false} OutputsArePrefixes<I>(handle: string, events: seq<Event<I>>, m: nat, n: nat)
    requires m <= n <= |events|
    ensures |Trace(handle, events, m).1| == m && |Trace(handle, events, n).1| == n
    ensures Trace(handle, events, m).1 == Trace(handle, events, n).1[..m]
    decreases n
  {
    if m < n {
      OutputsArePrefixes(handle, events, m, n - 1);
    } else if n > 0 {
      OutputsArePrefixes(handle, events, n - 1, n - 1);
    }
  }

  lemma {:induction false} OutstandingIsHeld<I>(
      handle: string, events: seq<Event<I>>, k: nat, n: nat, id: string, inner: I)
    requires k < n <= |events|
    requires |Trace(handle, events, n).1| == n
    requires var outputs := Trace(handle, events, n).1;
             && outputs[k] == Forwarded(id, inner)
             && forall j | k < j < n :: !events[j].Reset? && !events[j].Dispose?
                  && (outputs[j].Answered? ==> outputs[j].outer != id)
    ensures id in Trace(handle, events, n).0.requests
  {
    OutputsArePrefixes(handle, events, n - 1, n);
    TraceStep(handle, events, n);
    hide Trace, Step;
    var (before, outputs) := Trace(handle, events, n - 1);
    var all := Trace(handle, events, n).1;
    assert all[n - 1] == Step(before, events[n - 1]).1;
    if k < n - 1 {
      assert forall j | 0 <= j < n - 1 :: outputs[j] == all[j];
      OutstandingIsHeld(handle, events, k, n - 1, id, inner);
    }
    StepHolds(before, events[n - 1], id);
  }

  lemma StepHolds<I>(b: Bridge<I>, event: Event<I>, id: string)
    ensures var (b', output) := Step(b, event);
            && (output.Forwarded? && output.outer == id ==> id in b'.requests)
            && (id in b.requests && !event.Reset? && !event.Dispose? && !(output.Answered? && output.outer == id) ==>
                  id in b'.requests)
  {
  }

  lemma TraceStep<I>(handle: string, events: seq<Event<I>>, n: nat)
    requires 0 < n <= |events|
    ensures var (before, outputs) := Trace(handle, events, n - 1);
            var (after, output) := Step(before, events[n - 1]);
            Trace(handle, events, n) == (after, outputs + [output])
  {
  }
}
