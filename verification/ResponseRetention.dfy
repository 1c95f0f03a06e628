/** Replies kept for requests that a retired client started before its host was rerouted. */
module ResponseRetention {
  import opened Options

  datatype RequestId = TextId(text: string) | NumberId(number: int)

  /** Where a window message came from. */
  datatype Source = NoSource | OwnWindow | OtherWindow

  /** An error reply carries an error record; a result reply has a result member. */
  datatype Reply = Reply(id: RequestId, isError: bool, payload: string)

  /** The host this client serves and the page's own origin, if the page has one. */
  datatype Client = Client(hostId: string, ownOrigin: Option<string>)

  /** Everything the two listeners and the retirement callback can be called with. Ids that are neither text
      nor number are None, as are methods that are not text. */
  datatype Event =
    | Started(host: string, id: Option<RequestId>, rpc: Option<string>)
    | Finished(host: string, id: Option<RequestId>)
    | Message(source: Source, origin: string, isResponse: bool, host: string, id: Option<RequestId>,
              error: Option<string>, result: Option<string>)
    | Microtask
    | Retire

  datatype Retention = Retention(
    pending: set<RequestId>,
    retired: bool,
    attached: bool,           // the window listener and the lifecycle subscription
    queued: seq<Reply>,       // microtasks, oldest first
    delivered: seq<Reply>)    // calls to the client's native result and error handlers

  const INITIAL := Retention({}, false, true, [], [])

  const OWN_METHODS := "codexhost/"

  /** The window-message trust boundary. */
  predicate Trusted(client: Client, source: Source, origin: string) {
    && source != OtherWindow
    && !(source == OwnWindow && client.ownOrigin.Some? && client.ownOrigin.value != "" &&
         client.ownOrigin.value != "null" && origin != client.ownOrigin.value)
  }

  /** The reply a message carries for this client, whatever is pending. */
  function ReplyOf(client: Client, event: Event): Option<Reply> {
    if !event.Message? || !Trusted(client, event.source, event.origin) then None
    else if !event.isResponse || event.host != client.hostId || event.id.None? then None
    else if event.error.Some? then Some(Reply(event.id.value, true, event.error.value))
    else if event.result.Some? then Some(Reply(event.id.value, false, event.result.value))
    else None
  }

  predicate StartsOwn(client: Client, event: Event) {
    event.Started? && event.host == client.hostId && event.id.Some? && event.rpc.Some? && OWN_METHODS <= event.rpc.value
  }

  predicate Finishes(client: Client, event: Event) {
    event.Finished? && event.host == client.hostId && event.id.Some?
  }

  function Step(client: Client, s: Retention, event: Event): Retention {
    match event
    case Started(_, id, _) =>
      if s.attached && StartsOwn(client, event) && !s.retired then s.(pending := s.pending + {id.value}) else s
    case Finished(_, id) =>
      if !s.attached || !Finishes(client, event) then s
      else
        var pending := s.pending - {id.value};
        s.(pending := pending, attached := !(s.retired && pending == {}))
    case Message(_, _, _, _, _, _, _) =>
      var reply := ReplyOf(client, event);
      if s.attached && reply.Some? && reply.value.id in s.pending then s.(queued := s.queued + [reply.value]) else s
    case Microtask =>
      if s.queued == [] then s
      else
        var reply := s.queued[0];
        s.(queued := s.queued[1..],
           delivered := if reply.id in s.pending then s.delivered + [reply] else s.delivered)
    case Retire =>
      s.(retired := true, attached := s.attached && s.pending != {})
  }

  function After(client: Client, events: seq<Event>): Retention {
    if events == [] then INITIAL else Step(client, After(client, events[..|events| - 1]), events[|events| - 1])
  }

  class ResponseRetainer {
    const client: Client
    var pending: set<RequestId>
    var retired: bool
    var attached: bool
    var queued: seq<Reply>
    var delivered: seq<Reply>

    function State(): Retention
      reads this
    {
      Retention(pending, retired, attached, queued, delivered)
    }

    constructor (client: Client)
      ensures this.client == client && State() == INITIAL
    {
      this.client := client;
      pending, retired, attached, queued, delivered := {}, false, true, [], [];
    }

    method Receive(event: Event)
      requires event.Message?
      modifies this`queued
      ensures State() == Step(client, old(State()), event)
    {
      if !attached {
        return;
      }
      var reply := ReplyOf(client, event);
      if reply.None? || reply.value.id !in pending {
        return;
      }
      queued := queued + [reply.value];
    }

    method Lifecycle(event: Event)
      requires event.Started? || event.Finished?
      modifies this`pending, this`attached
      ensures State() == Step(client, old(State()), event)
    {
      if !attached || event.host != client.hostId || event.id.None? {
        return;
      }
      if !retired && event.Started? && event.rpc.Some? && OWN_METHODS <= event.rpc.value {
        pending := pending + {event.id.value};
      } else if event.Finished? {
        pending := pending - {event.id.value};
        if retired && pending == {} {
          attached := false;
        }
      }
    }

    method RunMicrotask()
      modifies this`queued, this`delivered
      ensures State() == Step(client, old(State()), Microtask)
    {
      if queued == [] {
        return;
      }
      var reply := queued[0];
      queued := queued[1..];
      if reply.id in pending {
        delivered := delivered + [reply];
      }
    }

    method RetireClient()
      modifies this`retired, this`attached
      ensures State() == Step(client, old(State()), Retire)
    {
      retired := true;
      if pending == {} {
        attached := false;
      }
    }
  }

  // ----- Which requests are outstanding, read off the events alone -----

  /** Event `i` starts one of this client's own requests before the client retires. */
  predicate OwnStart(client: Client, events: seq<Event>, i: nat, id: RequestId)
    requires i < |events|
  {
    StartsOwn(client, events[i]) && events[i].id == Some(id) && Retire !in events[..i]
  }

  predicate FinishedBetween(client: Client, events: seq<Event>, i: nat, id: RequestId)
    requires i < |events|
  {
    exists k | i < k < |events| :: Finishes(client, events[k]) && events[k].id == Some(id)
  }

  ghost predicate Outstanding(client: Client, events: seq<Event>, id: RequestId) {
    exists i | 0 <= i < |events| :: OwnStart(client, events, i, id) && !FinishedBetween(client, events, i, id)
  }

  lemma OutstandingStep(client: Client, events: seq<Event>, id: RequestId)
    requires events != []
    ensures
      var last, before := events[|events| - 1], events[..|events| - 1];
      Outstanding(client, events, id) <==>
        || (StartsOwn(client, last) && last.id == Some(id) && Retire !in before)
        || (Outstanding(client, before, id) && !(Finishes(client, last) && last.id == Some(id)))
  {
    var n := |events| - 1;
    var before := events[..n];
    forall i: nat | i < n
      ensures OwnStart(client, before, i, id) <==> OwnStart(client, events, i, id)
      ensures FinishedBetween(client, events, i, id) <==>
              FinishedBetween(client, before, i, id) || (Finishes(client, events[n]) && events[n].id == Some(id))
    {
      assert before[..i] == events[..i];
    }
    assert !FinishedBetween(client, events, n, id);
    if Outstanding(client, before, id) && !(Finishes(client, events[n]) && events[n].id == Some(id)) {
      var i :| 0 <= i < n && OwnStart(client, before, i, id) && !FinishedBetween(client, before, i, id);
      assert OwnStart(client, events, i, id) && !FinishedBetween(client, events, i, id);
    }
    if StartsOwn(client, events[n]) && events[n].id == Some(id) && Retire !in before {
      assert OwnStart(client, events, n, id);
    }
  }

  lemma AfterAppend(client: Client, events: seq<Event>, event: Event)
    ensures After(client, events + [event]) == Step(client, After(client, events), event)
  {
    assert (events + [event])[..|events|] == events;
  }

  predicate ListensWhileNeeded(s: Retention) {
    s.attached <==> !(s.retired && s.pending == {})
  }

  lemma StepExact(client: Client, s: Retention, event: Event)
    requires ListensWhileNeeded(s)
    ensures var s' := Step(client, s, event);
            && ListensWhileNeeded(s')
            && (s'.retired <==> s.retired || event == Retire)
            && forall id :: id in s'.pending <==>
                 || (StartsOwn(client, event) && event.id == Some(id) && !s.retired)
                 || (id in s.pending && !(Finishes(client, event) && event.id == Some(id)))
  {
    hide ReplyOf;
  }

  /** In every interleaving the retained ids are exactly the outstanding requests, the client is retired exactly
      after its retirement, and the listeners are off exactly when it is retired with nothing outstanding. */
  lemma {:induction false} ListenersFollowOutstanding(client: Client, events: seq<Event>)
    ensures
      var s := After(client, events);
      && (forall id :: id in s.pending <==> Outstanding(client, events, id))
      && (s.retired <==> Retire in events)
      && (s.attached <==> !(Retire in events && forall id :: !Outstanding(client, events, id)))
  {
    if events != [] {
      hide Step, After, Outstanding, StartsOwn, Finishes;
      var n := |events| - 1;
      var before := events[..n];
      ListenersFollowOutstanding(client, before);
      assert events == before + [events[n]];
      AfterAppend(client, before, events[n]);
      StepExact(client, After(client, before), events[n]);
      forall id ensures id in After(client, events).pending <==> Outstanding(client, events, id) {
        OutstandingStep(client, events, id);
      }
    }
  }

  /** A request this client opened and that is still open: started for its host with a codexhost method before
      the client retired, and not finished since. */
  ghost predicate Open(client: Client, events: seq<Event>, id: RequestId) {
    exists i, rpc | 0 <= i < |events| ::
      && events[i] == Started(client.hostId, Some(id), Some(rpc)) && "codexhost/" <= rpc
      && Retire !in events[..i]
      && forall k | i < k < |events| :: events[k] != Finished(client.hostId, Some(id))
  }

  lemma OutstandingIsOpen(client: Client, events: seq<Event>, id: RequestId)
    ensures Outstanding(client, events, id) <==> Open(client, events, id)
  {
    forall k: nat | k < |events|
      ensures Finishes(client, events[k]) && events[k].id == Some(id)
              <==> events[k] == Finished(client.hostId, Some(id))
      ensures StartsOwn(client, events[k]) && events[k].id == Some(id) ==>
                events[k] == Started(client.hostId, Some(id), Some(events[k].rpc.value))
    {
    }
    if Outstanding(client, events, id) {
      var i :| 0 <= i < |events| && OwnStart(client, events, i, id) && !FinishedBetween(client, events, i, id);
      assert events[i] == Started(client.hostId, Some(id), Some(events[i].rpc.value));
    }
    if Open(client, events, id) {
      var i, rpc :| 0 <= i < |events|
        && events[i] == Started(client.hostId, Some(id), Some(rpc)) && "codexhost/" <= rpc
        && Retire !in events[..i]
        && forall k | i < k < |events| :: events[k] != Finished(client.hostId, Some(id));
      assert OwnStart(client, events, i, id) && !FinishedBetween(client, events, i, id);
    }
  }

  /** What a message says to a client: the page itself sent it, or nobody in particular; it is a response for the
      client's host with an id; and it carries an error, or else a result. */
  predicate Says(client: Client, event: Event, reply: Reply) {
    && event.Message?
    && (event.source == NoSource
        || (event.source == OwnWindow
            && (client.ownOrigin in {None, Some(""), Some("null")} || client.ownOrigin == Some(event.origin))))
    && event.isResponse && event.host == client.hostId && event.id == Some(reply.id)
    && if reply.isError then event.error == Some(reply.payload)
       else event.error == None && event.result == Some(reply.payload)
  }

  /** A reply is queued exactly when a message says it while its request is open, and leaves the queue only when a
      microtask takes it, oldest first. */
  lemma QueuesExactly(client: Client, events: seq<Event>, event: Event, reply: Reply)
    ensures var before, after := After(client, events).queued, After(client, events + [event]).queued;
            && (Says(client, event, reply) && Open(client, events, reply.id) ==> after == before + [reply])
            && ((forall r :: !(Says(client, event, r) && Open(client, events, r.id))) && !event.Microtask? ==>
                  after == before)
            && (event.Microtask? ==> after == if before == [] then [] else before[1..])
  {
    AfterAppend(client, events, event);
    ListenersFollowOutstanding(client, events);
    forall id ensures Outstanding(client, events, id) <==> Open(client, events, id) {
      OutstandingIsOpen(client, events, id);
    }
    SaysIsReply(client, event, reply);
    if event.Message? && ReplyOf(client, event).Some? {
      SaysIsReply(client, event, ReplyOf(client, event).value);
    }
    hide Outstanding, Open, Says, ReplyOf, After;
  }

  lemma SaysIsReply(client: Client, event: Event, reply: Reply)
    ensures Says(client, event, reply) <==> ReplyOf(client, event) == Some(reply)
  {
  }

  // ----- Deliveries -----

  /** The delivery made by running a microtask after `events`, if any. */
  function DeliveryAfter(client: Client, events: seq<Event>): Option<Reply> {
    var s := After(client, events);
    if s.queued != [] && s.queued[0].id in s.pending then Some(s.queued[0]) else None
  }

  /** Where a queued or delivered reply came from: a trusted message that arrived while its request was open. */
  ghost predicate CameFrom(client: Client, events: seq<Event>, reply: Reply) {
    exists i | 0 <= i < |events| ::
      ReplyOf(client, events[i]) == Some(reply) && Outstanding(client, events[..i], reply.id)
  }

  lemma {:induction false} RepliesCameFromMessages(client: Client, events: seq<Event>)
    ensures forall reply | reply in After(client, events).queued || reply in After(client, events).delivered ::
              CameFrom(client, events, reply)
  {
    if events != [] {
      var n := |events| - 1;
      var before, s := events[..n], After(client, events[..n]);
      RepliesCameFromMessages(client, before);
      ListenersFollowOutstanding(client, before);
      forall reply | CameFrom(client, before, reply) ensures CameFrom(client, events, reply) {
        var i :| 0 <= i < n && ReplyOf(client, before[i]) == Some(reply) && Outstanding(client, before[..i], reply.id);
        assert before[..i] == events[..i] && events[i] == before[i];
      }
    }
  }

  /** A microtask hands the oldest queued reply to the client exactly when its request is still outstanding,
      and nothing else ever delivers. */
  lemma DeliversExactlyOutstanding(client: Client, events: seq<Event>, event: Event)
    ensures
      var s, s' := After(client, events), After(client, events + [event]);
      s'.delivered ==
        if event.Microtask? && s.queued != [] && Outstanding(client, events, s.queued[0].id)
        then s.delivered + [s.queued[0]] else s.delivered
    ensures
      var s, s' := After(client, events), After(client, events + [event]);
      forall reply | reply in s'.delivered && reply !in s.delivered ::
        Outstanding(client, events, reply.id) && CameFrom(client, events, reply)
  {
    assert (events + [event])[..|events|] == events;
    ListenersFollowOutstanding(client, events);
    RepliesCameFromMessages(client, events);
  }

  /** Event `k` delivered a reply for `id`. */
  predicate DeliveredAt(client: Client, events: seq<Event>, k: nat, id: RequestId) {
    && k < |events| && events[k].Microtask?
    && var delivery := DeliveryAfter(client, events[..k]);
       delivery.Some? && delivery.value.id == id
  }

  predicate StartedSince(client: Client, events: seq<Event>, k: nat, id: RequestId) {
    exists i | k < i < |events| :: OwnStart(client, events, i, id) && !FinishedBetween(client, events, i, id)
  }

  /** Exactly when a request is answered again: once a reply for it was delivered, a further queued reply for it
      is delivered too if and only if completion was not reported in between, or its id was started anew. */
  lemma SecondDeliveryExactly(client: Client, events: seq<Event>, k: nat, id: RequestId)
    requires DeliveredAt(client, events, k, id)
    requires After(client, events).queued != [] && After(client, events).queued[0].id == id
    ensures DeliveryAfter(client, events).Some? <==>
            !FinishedBetween(client, events, k, id) || StartedSince(client, events, k, id)
  {
    ListenersFollowOutstanding(client, events);
    ListenersFollowOutstanding(client, events[..k]);
    hide After;
    var i :| 0 <= i < k && OwnStart(client, events[..k], i, id) && !FinishedBetween(client, events[..k], i, id);
    assert events[..k][..i] == events[..i];
    assert OwnStart(client, events, i, id);
    forall f | i < f <= k ensures !(Finishes(client, events[f]) && events[f].id == Some(id)) {
      assert f < k ==> events[..k][f] == events[f];
    }
    assert FinishedBetween(client, events, i, id) <==> FinishedBetween(client, events, k, id);
    forall j: nat | j < |events| && OwnStart(client, events, j, id) && !FinishedBetween(client, events, j, id)
      ensures !FinishedBetween(client, events, k, id) || StartedSince(client, events, k, id)
    {
      assert j != k;
    }
  }

  /** Ids are used for one request only. */
  ghost predicate FreshIds(client: Client, events: seq<Event>) {
    forall i, j | 0 <= i < j < |events| && StartsOwn(client, events[i]) && StartsOwn(client, events[j]) ::
      events[i].id != events[j].id
  }

  predicate CompletesAt(client: Client, events: seq<Event>, k: nat)
    requires k < |events|
  {
    var delivery := DeliveryAfter(client, events[..k]);
    events[k].Microtask? && delivery.Some? && k + 1 < |events| ==>
      events[k + 1] == Finished(client.hostId, Some(delivery.value.id))
  }

  /** The native client reports completion from inside its result and error handlers. */
  ghost predicate Synchronous(client: Client, events: seq<Event>) {
    forall k: nat | k < |events| :: CompletesAt(client, events, k)
  }

  /** Event `n - 1` just delivered a reply for `id`. */
  predicate JustDelivered(client: Client, events: seq<Event>, id: RequestId) {
    events != [] &&
    var before := events[..|events| - 1];
    events[|events| - 1].Microtask? && DeliveryAfter(client, before).Some?
      && DeliveryAfter(client, before).value.id == id
  }

  ghost predicate EverStarted(client: Client, events: seq<Event>, id: RequestId) {
    exists i | 0 <= i < |events| :: StartsOwn(client, events[i]) && events[i].id == Some(id)
  }

  lemma DeliveredWasStarted(client: Client, events: seq<Event>, reply: Reply)
    requires reply in After(client, events).delivered
    ensures EverStarted(client, events, reply.id)
  {
    RepliesCameFromMessages(client, events);
    var i :| 0 <= i < |events| && ReplyOf(client, events[i]) == Some(reply)
      && Outstanding(client, events[..i], reply.id);
    var k :| 0 <= k < i && OwnStart(client, events[..i], k, reply.id)
      && !FinishedBetween(client, events[..i], k, reply.id);
    assert StartsOwn(client, events[k]);
  }

  lemma AssumptionsOfPrefix(client: Client, events: seq<Event>, n: nat)
    requires FreshIds(client, events) && Synchronous(client, events) && n <= |events|
    ensures FreshIds(client, events[..n]) && Synchronous(client, events[..n])
  {
    forall k: nat | k < n ensures CompletesAt(client, events[..n], k) {
      assert events[..n][..k] == events[..k];
      assert CompletesAt(client, events, k);
    }
  }

  ghost predicate OnceEach(client: Client, events: seq<Event>) {
    var s := After(client, events);
    && (forall i, j | 0 <= i < j < |s.delivered| :: s.delivered[i].id != s.delivered[j].id)
    && (forall r | r in s.delivered && r.id in s.pending :: JustDelivered(client, events, r.id))
  }

  /** With fresh ids and a client that completes synchronously no request is answered twice. */
  lemma {:induction false} DeliversAtMostOnce(client: Client, events: seq<Event>)
    requires FreshIds(client, events) && Synchronous(client, events)
    ensures OnceEach(client, events)
  {
    if events != [] {
      var n := |events| - 1;
      var before := events[..n];
      AssumptionsOfPrefix(client, events, n);
      DeliversAtMostOnce(client, before);
      var s := After(client, before);
      forall r | r in s.delivered
        ensures EverStarted(client, before, r.id)
        ensures r.id in s.pending ==> events[n] == Finished(client.hostId, Some(r.id)) && s.attached
      {
        DeliveredWasStarted(client, before, r);
        if r.id in s.pending {
          ListenersFollowOutstanding(client, before);
          assert before[..n - 1] == events[..n - 1];
          assert CompletesAt(client, events, n - 1);
        }
      }
      OnceEachStep(client, before, events[n]);
      assert events == before + [events[n]];
    }
  }

  lemma OnceEachStep(client: Client, before: seq<Event>, event: Event)
    requires FreshIds(client, before + [event]) && OnceEach(client, before)
    requires var s := After(client, before);
      forall r | r in s.delivered ::
        && EverStarted(client, before, r.id)
        && (r.id in s.pending ==> event == Finished(client.hostId, Some(r.id)) && s.attached)
    ensures OnceEach(client, before + [event])
  {
    var events := before + [event];
    var s, s' := After(client, before), After(client, events);
    AfterAppend(client, before, event);
    assert events[..|before|] == before;
    forall r | r in s.delivered && StartsOwn(client, event) ensures event.id != Some(r.id) {
      var i :| 0 <= i < |before| && StartsOwn(client, before[i]) && before[i].id == Some(r.id);
      assert events[i] == before[i];
    }
    StepDelivers(client, s, event);
    hide After, Step, StartsOwn, EverStarted, FreshIds;
    forall r | r in s'.delivered && r.id in s'.pending ensures JustDelivered(client, events, r.id) {
      assert r !in s.delivered;
    }
  }

  /** A step delivers the oldest queued reply if its request is pending; delivered ids leave the pending set with
      their completion and come back only when started again. */
  lemma StepDelivers(client: Client, s: Retention, event: Event)
    ensures var s' := Step(client, s, event);
            && s'.delivered == (if event.Microtask? && s.queued != [] && s.queued[0].id in s.pending
                                then s.delivered + [s.queued[0]] else s.delivered)
            && (forall id | id in s'.pending ::
                  id in s.pending || (StartsOwn(client, event) && event.id == Some(id)))
            && (forall id | s.attached && event == Finished(client.hostId, Some(id)) :: id !in s'.pending)
            && (event.Microtask? ==> s'.pending == s.pending)
  {
    hide ReplyOf;
  }

  lemma ReplyHasId(client: Client, copy: Event, id: RequestId)
    requires copy.Message? && ReplyOf(client, copy).Some? && copy.id == Some(id)
    ensures ReplyOf(client, copy).value.id == id
  {
  }

  lemma LateTrace(client: Client, id: RequestId, copy: Event, reply: Reply)
    requires copy.Message? && ReplyOf(client, copy) == Some(reply) && reply.id == id
    ensures var sent := [Started(client.hostId, Some(id), Some(OWN_METHODS)), copy, copy];
            && After(client, sent) == Retention({id}, false, true, [reply, reply], [])
            && After(client, sent + [Microtask]) == Retention({id}, false, true, [reply], [reply])
            && After(client, sent + [Microtask, Microtask]) == Retention({id}, false, true, [], [reply, reply])
  {
    var start := Started(client.hostId, Some(id), Some(OWN_METHODS));
    var e1, e2, e3 := [start], [start, copy], [start, copy, copy];
    assert [] + [start] == e1 && e1 + [copy] == e2 && e2 + [copy] == e3;
    assert e3 + [Microtask] + [Microtask] == e3 + [Microtask, Microtask];
    assert After(client, []) == INITIAL;
    hide After, ReplyOf;
    AfterAppend(client, [], start);
    assert StartsOwn(client, start);
    assert After(client, e1) == Retention({id}, false, true, [], []);
    AfterAppend(client, e1, copy);
    assert After(client, e2) == Retention({id}, false, true, [reply], []);
    AfterAppend(client, e2, copy);
    AfterAppend(client, e3, Microtask);
    AfterAppend(client, e3 + [Microtask], Microtask);
  }

  /** A client that completes later can be answered twice: two copies of one reply, both delivered. */
  lemma LateCompletionDeliversTwice(client: Client, id: RequestId, copy: Event) returns (events: seq<Event>)
    requires copy.Message? && ReplyOf(client, copy).Some? && copy.id == Some(id)
    ensures FreshIds(client, events) && !Synchronous(client, events)
    ensures After(client, events).delivered == [ReplyOf(client, copy).value, ReplyOf(client, copy).value]
  {
    ReplyHasId(client, copy, id);
    var sent := [Started(client.hostId, Some(id), Some(OWN_METHODS)), copy, copy];
    LateTrace(client, id, copy, ReplyOf(client, copy).value);
    events := sent + [Microtask, Microtask];
    hide After, ReplyOf;
    assert events[..3] == sent;
    assert !CompletesAt(client, events, 3);
  }
}
