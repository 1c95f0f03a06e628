/** Routing of requests by thread ownership on a Remote Control host. */
module ThreadOwnership {
  import opened Options

  datatype Owner = External | Codex

  /** How an ownership lookup ended; `posixSpawn` marks the relay's one recognised spawn error. */
  datatype Outcome = Resolved(owner: Owner) | Rejected(posixSpawn: bool)

  /** What routing looks at: the method, the thread the parameters name, and, for a thread/start, whether they carry
      a codexhost model already and whether a chosen model is written into them: records that are not ephemeral. */
  datatype Request = Request(name: string, thread: Option<string>, carriesModel: bool, takesModel: bool)

  datatype Waiting = Waiting(request: Request, lookup: nat)

  /** Lookups are numbered in the order they start; one is in flight until it has an outcome. */
  datatype Lookups = Lookups(
    resolutions: map<string, nat>,   // the lookup that answers for a thread
    threads: seq<string>,            // the thread each lookup asks about
    outcomes: map<nat, Outcome>,
    disposed: bool)

  datatype Router = Router(
    remote: bool,
    external: set<string>,
    official: set<string>,
    lookups: Lookups,
    waiting: map<nat, Waiting>,      // sends parked on a lookup
    sends: nat,
    modelSelected: bool)

  datatype Route = Direct | Bridged | Parked(lookup: nat) | Failed | NoRoute

  predicate ThreadScoped(name: string) {
    "thread/" <= name || "turn/" <= name || "review/" <= name
  }

  predicate HostMethod(name: string) {
    "codexhost/" <= name
  }

  /** The thread a request names; an empty id names none. */
  function Named(request: Request): Option<string> {
    if request.thread.Some? && request.thread.value != "" then request.thread else None
  }

  function ShouldResolve(r: Router, request: Request): Option<string> {
    if !r.remote || HostMethod(request.name) || !ThreadScoped(request.name) then None
    else if Named(request).None? || Named(request).value in r.external || Named(request).value in r.official then None
    else Named(request)
  }

  predicate ShouldUseBridge(r: Router, request: Request) {
    if !r.remote then false
    else if HostMethod(request.name) || request.name == "thread/list" then true
    else if request.name == "thread/start" then request.carriesModel || (r.modelSelected && request.takesModel)
    else if Named(request).Some? && Named(request).value in r.external then true
    else if Named(request).Some? && Named(request).value in r.official then false
    else r.modelSelected && ThreadScoped(request.name)
  }

  function MarkExternal(r: Router, thread: string): Router {
    r.(external := r.external + {thread}, official := r.official - {thread})
  }

  function MarkOfficial(r: Router, thread: string): Router {
    r.(official := r.official + {thread}, external := r.external - {thread})
  }

  function Mark(r: Router, thread: string, owner: Owner): Router {
    if owner.External? then MarkExternal(r, thread) else MarkOfficial(r, thread)
  }

  // ----- Events -----

  datatype Event =
    | Send(request: Request)
    | Settle(lookup: nat, outcome: Outcome)    // an ownership lookup returns or fails
    | Clear(lookup: nat)                       // the reaction that forgets a settled lookup
    | Continue(send: nat)                      // a parked send reacts to its settled lookup
    | RecoverySucceeded(thread: string)        // a native read or resume after the spawn error
    | SawExternal(thread: string)              // results and notifications that reveal an external thread
    | Inspected(thread: string, owner: Owner)
    | Deleted(thread: string)
    | Select(model: bool)
    | Dispose

  predicate Recoverable(request: Request) {
    request.name == "thread/read" || request.name == "thread/resume"
  }

  function Ask(l: Lookups, thread: string): (Lookups, nat) {
    if thread in l.resolutions then (l, l.resolutions[thread])
    else
      var lookup := |l.threads|;
      (l.(threads := l.threads + [thread], resolutions := l.resolutions[thread := lookup]), lookup)
  }

  function SendStep(r: Router, request: Request): (Router, Route) {
    var unresolved := ShouldResolve(r, request);
    if unresolved.None? then (r, if ShouldUseBridge(r, request) then Bridged else Direct)
    else
      var (lookups, lookup) := Ask(r.lookups, unresolved.value);
      (r.(lookups := lookups, waiting := r.waiting[r.sends := Waiting(request, lookup)], sends := r.sends + 1),
       Parked(lookup))
  }

  function ContinueStep(r: Router, send: nat): (Router, Route)
    requires send in r.waiting && r.waiting[send].lookup in r.lookups.outcomes
  {
    var outcome := r.lookups.outcomes[r.waiting[send].lookup];
    var r' := r.(waiting := r.waiting - {send});
    match outcome
    case Resolved(owner) => (r', if owner.External? then Bridged else Direct)
    case Rejected(posixSpawn) => (r', if Recoverable(r.waiting[send].request) && posixSpawn then Direct else Failed)
  }

  function ForgetLookup(l: Lookups, lookup: nat): Lookups
    requires lookup < |l.threads|
  {
    var thread := l.threads[lookup];
    if thread in l.resolutions && l.resolutions[thread] == lookup
    then l.(resolutions := l.resolutions - {thread}) else l
  }

  /** None when the event cannot happen now. */
  function Step(r: Router, event: Event): Option<(Router, Route)> {
    match event
    case Send(request) => Some(SendStep(r, request))
    case Settle(lookup, outcome) =>
      if lookup >= |r.lookups.threads| || lookup in r.lookups.outcomes then None
      else
        var settled := r.(lookups := r.lookups.(outcomes := r.lookups.outcomes[lookup := outcome]));
        Some((if outcome.Resolved? then Mark(settled, r.lookups.threads[lookup], outcome.owner) else settled, NoRoute))
    case Clear(lookup) =>
      if lookup >= |r.lookups.threads| || lookup !in r.lookups.outcomes then None
      else Some((r.(lookups := ForgetLookup(r.lookups, lookup)), NoRoute))
    case Continue(send) =>
      if send !in r.waiting || r.waiting[send].lookup !in r.lookups.outcomes then None else Some(ContinueStep(r, send))
    case RecoverySucceeded(thread) => Some((MarkOfficial(r, thread), NoRoute))
    case SawExternal(thread) => Some((MarkExternal(r, thread), NoRoute))
    case Inspected(thread, owner) => Some((Mark(r, thread, owner), NoRoute))
    case Deleted(thread) => Some((r.(external := r.external - {thread}, official := r.official - {thread}), NoRoute))
    case Select(model) => Some((r.(modelSelected := model), NoRoute))
    case Dispose =>
      var lookups := r.lookups.(resolutions := map[], disposed := true);
      Some((r.(external := {}, official := {}, lookups := lookups, modelSelected := false), NoRoute))
  }

  // ----- The closure's variables, updated in place -----

  class ThreadRouter {
    const remote: bool
    var external: set<string>
    var official: set<string>
    var resolutions: map<string, nat>
    var lookups: seq<string>
    var outcomes: map<nat, Outcome>
    var waiting: map<nat, Waiting>
    var sends: nat
    var modelSelected: bool
    var disposed: bool

    function State(): Router
      reads this
    {
      Router(remote, external, official, Lookups(resolutions, lookups, outcomes, disposed), waiting, sends,
          modelSelected)
    }

    constructor (remote: bool)
      ensures State() == New(remote)
    {
      this.remote := remote;
      external, official, resolutions, lookups, outcomes, waiting := {}, {}, map[], [], map[], map[];
      sends, modelSelected, disposed := 0, false, false;
    }

    /** The lookup that answers for a thread, started if none is in flight. */
    method ResolveThreadOwnership(thread: string) returns (lookup: nat)
      modifies this`resolutions, this`lookups
      ensures (State().lookups, lookup) == Ask(old(State()).lookups, thread)
    {
      if thread in resolutions {
        return resolutions[thread];
      }
      lookup := |lookups|;
      lookups := lookups + [thread];
      resolutions := resolutions[thread := lookup];
    }

    method RoutedSend(request: Request) returns (route: Route)
      modifies this
      ensures (State(), route) == SendStep(old(State()), request)
    {
      var unresolved := ShouldResolve(State(), request);
      if unresolved.Some? {
        var lookup := ResolveThreadOwnership(unresolved.value);
        waiting := waiting[sends := Waiting(request, lookup)];
        sends := sends + 1;
        return Parked(lookup);
      }
      return if ShouldUseBridge(State(), request) then Bridged else Direct;
    }

    method SettleLookup(lookup: nat, outcome: Outcome)
      requires lookup < |lookups| && lookup !in outcomes
      modifies this
      ensures Step(old(State()), Settle(lookup, outcome)) == Some((State(), NoRoute))
    {
      outcomes := outcomes[lookup := outcome];
      if outcome.Resolved? {
        var thread := lookups[lookup];
        if outcome.owner.External? {
          external := external + {thread};
          official := official - {thread};
        } else {
          official := official + {thread};
          external := external - {thread};
        }
      }
    }

    /** A parked send goes on once its lookup has an outcome. */
    method ContinueSend(send: nat) returns (route: Route)
      requires send in waiting && waiting[send].lookup in outcomes
      modifies this`waiting
      ensures Step(old(State()), Continue(send)) == Some((State(), route))
    {
      var parked := waiting[send];
      waiting := waiting - {send};
      match outcomes[parked.lookup] {
        case Resolved(owner) => return if owner.External? then Bridged else Direct;
        case Rejected(posixSpawn) =>
          return if Recoverable(parked.request) && posixSpawn then Direct else Failed;
      }
    }

    method ClearResolution(lookup: nat)
      requires lookup < |lookups| && lookup in outcomes
      modifies this
      ensures Step(old(State()), Clear(lookup)) == Some((State(), NoRoute))
    {
      var thread := lookups[lookup];
      if thread in resolutions && resolutions[thread] == lookup {
        resolutions := resolutions - {thread};
      }
    }

    /** A result or notification shows an external thread. */
    method RememberExternal(thread: string)
      modifies this`external, this`official
      ensures Step(old(State()), SawExternal(thread)) == Some((State(), NoRoute))
    {
      external := external + {thread};
      official := official - {thread};
    }

    /** A native read or resume succeeded after the spawn error. */
    method RememberOfficial(thread: string)
      modifies this`external, this`official
      ensures Step(old(State()), RecoverySucceeded(thread)) == Some((State(), NoRoute))
    {
      official := official + {thread};
      external := external - {thread};
    }

    method ObserveInspection(thread: string, owner: Owner)
      modifies this`external, this`official
      ensures Step(old(State()), Inspected(thread, owner)) == Some((State(), NoRoute))
    {
      if owner.External? {
        external := external + {thread};
        official := official - {thread};
      } else {
        official := official + {thread};
        external := external - {thread};
      }
    }

    method ForgetThread(thread: string)
      modifies this`external, this`official
      ensures Step(old(State()), Deleted(thread)) == Some((State(), NoRoute))
    {
      external := external - {thread};
      official := official - {thread};
    }

    method SelectModel(model: bool)
      modifies this`modelSelected
      ensures Step(old(State()), Select(model)) == Some((State(), NoRoute))
    {
      modelSelected := model;
    }

    method DisposeRouter()
      modifies this
      ensures Step(old(State()), Dispose) == Some((State(), NoRoute))
    {
      external, official, resolutions := {}, {}, map[];
      modelSelected, disposed := false, true;
    }
  }

  function New(remote: bool): Router {
    Router(remote, {}, {}, Lookups(map[], [], map[], false), map[], 0, false)
  }

  // ----- Runs -----

  ghost predicate Run(remote: bool, routers: seq<Router>, routes: seq<Route>, events: seq<Event>) {
    && |routers| == |events| + 1 && |routes| == |events|
    && routers[0] == New(remote)
    && forall i | 0 <= i < |events| :: Step(routers[i], events[i]) == Some((routers[i + 1], routes[i]))
  }

  lemma RunStep(remote: bool, routers: seq<Router>, routes: seq<Route>, events: seq<Event>, n: nat)
    requires Run(remote, routers, routes, events) && n < |events|
    ensures Step(routers[n], events[n]).Some?
    ensures routers[n + 1] == Step(routers[n], events[n]).value.0 && routes[n] == Step(routers[n], events[n]).value.1
  {
  }

  predicate InFlight(l: Lookups, lookup: nat) {
    lookup < |l.threads| && lookup !in l.outcomes
  }

  /** Resolutions name the lookups of their threads; until disposal every lookup in flight is the one. */
  ghost predicate LookupsOk(l: Lookups) {
    && (forall thread | thread in l.resolutions ::
          l.resolutions[thread] < |l.threads| && l.threads[l.resolutions[thread]] == thread)
    && (!l.disposed ==> forall lookup: nat | InFlight(l, lookup) ::
          l.threads[lookup] in l.resolutions && l.resolutions[l.threads[lookup]] == lookup)
    && (forall lookup | lookup in l.outcomes :: lookup < |l.threads|)
  }

  ghost predicate Inv(r: Router) {
    && r.external !! r.official
    && LookupsOk(r.lookups)
    && (forall send | send in r.waiting :: WaitingOk(r, r.waiting[send]))
  }

  /** A parked send waits for a lookup of the very thread it names. */
  ghost predicate WaitingOk(r: Router, w: Waiting) {
    && w.lookup < |r.lookups.threads|
    && Named(w.request) == Some(r.lookups.threads[w.lookup])
    && r.remote && ThreadScoped(w.request.name) && !HostMethod(w.request.name)
  }

  lemma AskKeepsLookupsOk(l: Lookups, thread: string)
    requires LookupsOk(l)
    ensures var (l', lookup) := Ask(l, thread);
            LookupsOk(l') && lookup < |l'.threads| && l'.threads[lookup] == thread && l.threads <= l'.threads
  {
  }

  lemma ChangeKeepsLookupsOk(l: Lookups, lookup: nat, outcome: Outcome)
    requires LookupsOk(l) && lookup < |l.threads|
    ensures LookupsOk(l.(outcomes := l.outcomes[lookup := outcome]))
    ensures lookup in l.outcomes ==> LookupsOk(ForgetLookup(l, lookup))
  {
    forall k: nat | !l.disposed && k < |l.threads| && k !in l.outcomes
      ensures l.threads[k] in l.resolutions && l.resolutions[l.threads[k]] == k
    {
      assert InFlight(l, k);
    }
  }

  lemma StepKeepsLookupsOk(r: Router, event: Event)
    requires LookupsOk(r.lookups) && Step(r, event).Some? && !event.Send?
    ensures LookupsOk(Step(r, event).value.0.lookups)
  {
    hide LookupsOk, SendStep, Recoverable, ForgetLookup;
    match event
    case Settle(lookup, outcome) => ChangeKeepsLookupsOk(r.lookups, lookup, outcome);
    case Clear(lookup) => ChangeKeepsLookupsOk(r.lookups, lookup, Rejected(false));
    case Dispose =>
      DisposeKeepsLookupsOk(r.lookups);
    case _ =>
  }

  lemma DisposeKeepsLookupsOk(l: Lookups)
    requires LookupsOk(l)
    ensures LookupsOk(l.(resolutions := map[], disposed := true))
  {
  }

  lemma StepKeepsWaitingOk(r: Router, event: Event)
    requires Step(r, event).Some? && !event.Send?
    requires forall send | send in r.waiting :: WaitingOk(r, r.waiting[send])
    ensures var r' := Step(r, event).value.0; forall send | send in r'.waiting :: WaitingOk(r', r'.waiting[send])
  {
    hide ThreadScoped, HostMethod, Named;
  }

  lemma StepKeepsInv(r: Router, event: Event)
    requires Inv(r) && Step(r, event).Some? && !event.Send?
    ensures Inv(Step(r, event).value.0)
  {
    hide LookupsOk, WaitingOk;
    StepKeepsLookupsOk(r, event);
    StepKeepsWaitingOk(r, event);
  }

  lemma SendKeepsInv(r: Router, request: Request)
    requires Inv(r)
    ensures Inv(SendStep(r, request).0)
  {
    hide ThreadScoped, HostMethod, ShouldUseBridge, LookupsOk, Ask;
    var unresolved := ShouldResolve(r, request);
    if unresolved.Some? {
      AskKeepsLookupsOk(r.lookups, unresolved.value);
      var r' := SendStep(r, request).0;
      forall send | send in r'.waiting ensures WaitingOk(r', r'.waiting[send]) {
        if send in r.waiting && r'.waiting[send] == r.waiting[send] {
          assert WaitingOk(r, r.waiting[send]);
        }
      }
    }
  }

  lemma StepKeepsRemote(r: Router, event: Event)
    requires Step(r, event).Some?
    ensures Step(r, event).value.0.remote == r.remote
    ensures event.Send? ==> Step(r, event).value == SendStep(r, event.request)
  {
  }

  lemma {:induction false} RunKeepsInv(
      remote: bool, routers: seq<Router>, routes: seq<Route>, events: seq<Event>, n: nat)
    requires Run(remote, routers, routes, events) && n < |routers|
    ensures Inv(routers[n]) && routers[n].remote == remote
  {
    if n > 0 {
      hide Step, SendStep;
      RunKeepsInv(remote, routers, routes, events, n - 1);
      RunStep(remote, routers, routes, events, n - 1);
      StepKeepsRemote(routers[n - 1], events[n - 1]);
      if events[n - 1].Send? {
        SendKeepsInv(routers[n - 1], events[n - 1].request);
      } else {
        StepKeepsInv(routers[n - 1], events[n - 1]);
      }
    }
  }

  /** Over every run: no thread is ever both external and official, and until disposal no thread has two
      ownership lookups in flight. */
  lemma OwnershipIsConsistent(remote: bool, routers: seq<Router>, routes: seq<Route>, events: seq<Event>, n: nat)
    requires Run(remote, routers, routes, events) && n < |routers|
    ensures routers[n].external !! routers[n].official
    ensures var l := routers[n].lookups;
            !l.disposed ==> forall a: nat, b: nat | InFlight(l, a) && InFlight(l, b) && a != b ::
                              l.threads[a] != l.threads[b]
  {
    RunKeepsInv(remote, routers, routes, events, n);
  }

  /** A thread-scoped request, other than thread/start and thread/list, that names a thread. */
  predicate OwnershipSensitive(r: Router, request: Request) {
    && r.remote && ThreadScoped(request.name) && !HostMethod(request.name)
    && request.name != "thread/start" && request.name != "thread/list" && Named(request).Some?
  }

  /** The immediate decision: direct exactly for known official threads, bridged exactly for known external
      ones, and parked on a lookup of that thread otherwise. */
  lemma ImmediateRouteIsByOwnership(r: Router, request: Request)
    requires Inv(r) && OwnershipSensitive(r, request)
    ensures var (r', route) := SendStep(r, request);
            var thread := Named(request).value;
            && (route.Direct? <==> thread in r.official)
            && (route.Bridged? <==> thread in r.external)
            && (route.Parked? <==> thread !in r.official && thread !in r.external)
            && (route.Parked? ==> route.lookup < |r'.lookups.threads| && r'.lookups.threads[route.lookup] == thread
                                  && (thread in r.lookups.resolutions ==> r'.lookups.threads == r.lookups.threads))
  {
  }

  /** Lookup `lookup` of this thread was settled before step `n` with this outcome. */
  ghost predicate SettledAs(
      routers: seq<Router>, events: seq<Event>, n: nat, lookup: nat, thread: string, outcome: Outcome)
    requires n < |routers| == |events| + 1
  {
    exists m :: 0 <= m < n && events[m] == Settle(lookup, outcome)
      && lookup < |routers[m].lookups.threads| && routers[m].lookups.threads[lookup] == thread
  }

  /** Why a request may go straight to the stock app-server: an immediate one because its thread is known
      official, a parked one by the outcome of the very lookup it was parked on. */
  ghost predicate Justified(routers: seq<Router>, events: seq<Event>, n: nat, request: Request)
    requires n < |events| && |routers| == |events| + 1 && Named(request).Some?
  {
    var thread := Named(request).value;
    match events[n]
    case Send(_) => thread in routers[n].official
    case Continue(send) =>
      && send in routers[n].waiting
      && var lookup := routers[n].waiting[send].lookup;
         || SettledAs(routers, events, n, lookup, thread, Resolved(Codex))
         || (Recoverable(request) && SettledAs(routers, events, n, lookup, thread, Rejected(true)))
    case _ => false
  }

  /** The request an event decides on. */
  function Decided(r: Router, event: Event): Option<Request> {
    match event
    case Send(request) => Some(request)
    case Continue(send) => if send in r.waiting then Some(r.waiting[send].request) else None
    case _ => None
  }

  lemma {:induction false} OutcomesComeFromSettling(
      remote: bool, routers: seq<Router>, routes: seq<Route>, events: seq<Event>, n: nat, lookup: nat)
    requires Run(remote, routers, routes, events) && n < |routers| && lookup in routers[n].lookups.outcomes
    ensures lookup < |routers[n].lookups.threads|
    ensures SettledAs(routers, events, n, lookup, routers[n].lookups.threads[lookup],
      routers[n].lookups.outcomes[lookup])
  {
    hide Step, SendStep;
    RunKeepsInv(remote, routers, routes, events, n);
    var before, event := routers[n - 1], events[n - 1];
    RunStep(remote, routers, routes, events, n - 1);
    RunKeepsInv(remote, routers, routes, events, n - 1);
    if lookup in before.lookups.outcomes {
      StepKeepsOutcome(before, event, lookup);
      OutcomesComeFromSettling(remote, routers, routes, events, n - 1, lookup);
      var m :| 0 <= m < n - 1 && events[m] == Settle(lookup, before.lookups.outcomes[lookup])
              && lookup < |routers[m].lookups.threads|
                  && routers[m].lookups.threads[lookup] == before.lookups.threads[lookup];
    } else {
      NewOutcomeIsSettled(before, event, lookup);
    }
  }

  lemma NewOutcomeIsSettled(r: Router, event: Event, lookup: nat)
    requires Step(r, event).Some? && lookup !in r.lookups.outcomes && lookup in Step(r, event).value.0.lookups.outcomes
    ensures event == Settle(lookup, Step(r, event).value.0.lookups.outcomes[lookup])
    ensures lookup < |r.lookups.threads| && Step(r, event).value.0.lookups.threads == r.lookups.threads
  {
  }

  lemma StepKeepsOutcome(r: Router, event: Event, lookup: nat)
    requires Step(r, event).Some? && lookup in r.lookups.outcomes && lookup < |r.lookups.threads|
    ensures var r' := Step(r, event).value.0;
            lookup in r'.lookups.outcomes && r'.lookups.outcomes[lookup] == r.lookups.outcomes[lookup]
            && lookup < |r'.lookups.threads| && r'.lookups.threads[lookup] == r.lookups.threads[lookup]
  {
  }

  /** In every run an ownership-sensitive request goes direct only when its thread is known official at that
      moment, or it was parked and the very lookup it was parked on, one of its thread, resolved to codex, or it
      is a read or resume and that lookup failed with the relay's spawn error. */
  lemma DirectRoutesAreJustified(remote: bool, routers: seq<Router>, routes: seq<Route>, events: seq<Event>, n: nat)
    requires Run(remote, routers, routes, events) && n < |events|
    requires routes[n].Direct? && Decided(routers[n], events[n]).Some?
    requires OwnershipSensitive(routers[n], Decided(routers[n], events[n]).value)
    ensures Justified(routers, events, n, Decided(routers[n], events[n]).value)
  {
    RunKeepsInv(remote, routers, routes, events, n);
    RunStep(remote, routers, routes, events, n);
    var r := routers[n];
    match events[n]
    case Send(request) => ImmediateRouteIsByOwnership(r, request);
    case Continue(send) =>
      var w := r.waiting[send];
      assert WaitingOk(r, w);
      OutcomesComeFromSettling(remote, routers, routes, events, n, w.lookup);
  }
}
