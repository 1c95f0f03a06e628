/** What the router knows about threads, and where it sends each request: read off the events of a run. */
module ThreadReports {
  import opened Options
  import opened ThreadOwnership

  // ----- Ownership is the latest report -----

  /** What one event says about a thread. */
  datatype Report = Silent | Says(owner: Owner) | Forgets

  /** `asked` lists the thread of every lookup started so far. */
  function ReportOf(asked: seq<string>, event: Event, thread: string): Report {
    match event
    case Settle(lookup, Resolved(owner)) => if lookup < |asked| && asked[lookup] == thread then Says(owner) else Silent
    case SawExternal(t) => if t == thread then Says(External) else Silent
    case RecoverySucceeded(t) => if t == thread then Says(Codex) else Silent
    case Inspected(t, owner) => if t == thread then Says(owner) else Silent
    case Deleted(t) => if t == thread then Forgets else Silent
    case Dispose => Forgets
    case _ => Silent
  }

  /** The latest event before step `n` that says anything about the thread says that it is this owner's. */
  ghost predicate LatestSays(routers: seq<Router>, events: seq<Event>, n: nat, thread: string, owner: Owner)
    requires n < |routers| == |events| + 1
  {
    exists i: nat | i < n ::
      && ReportOf(routers[i].lookups.threads, events[i], thread) == Says(owner)
      && forall k | i < k < n :: ReportOf(routers[k].lookups.threads, events[k], thread) == Silent
  }

  predicate KnownAs(r: Router, thread: string, owner: Owner) {
    if owner.External? then thread in r.external else thread in r.official
  }

  lemma StepFollowsReport(r: Router, event: Event, thread: string, owner: Owner)
    requires Step(r, event).Some?
    ensures var r' := Step(r, event).value.0;
            match ReportOf(r.lookups.threads, event, thread)
            case Silent => KnownAs(r', thread, owner) == KnownAs(r, thread, owner)
            case Says(o) => KnownAs(r', thread, owner) == (o == owner)
            case Forgets => !KnownAs(r', thread, owner)
  {
  }

  /** Over every run a thread is known as external exactly when the latest event that reports or forgets it
      reports it external, and as official exactly when that event reports codex. The reports are resolved
      lookups of that thread, results and notifications, inspections and native recoveries; a deletion or the
      disposal forgets. */
  lemma {:induction false} OwnershipIsTheLatestReport(
      remote: bool, routers: seq<Router>, routes: seq<Route>, events: seq<Event>, n: nat, thread: string)
    requires Run(remote, routers, routes, events) && n < |routers|
    ensures thread in routers[n].external <==> LatestSays(routers, events, n, thread, External)
    ensures thread in routers[n].official <==> LatestSays(routers, events, n, thread, Codex)
  {
    if n > 0 {
      hide Step, ReportOf;
      OwnershipIsTheLatestReport(remote, routers, routes, events, n - 1, thread);
      RunStep(remote, routers, routes, events, n - 1);
      LatestReportAdvances(routers, events, n - 1, thread, External);
      LatestReportAdvances(routers, events, n - 1, thread, Codex);
      StepFollowsReport(routers[n - 1], events[n - 1], thread, External);
      StepFollowsReport(routers[n - 1], events[n - 1], thread, Codex);
      hide LatestSays;
    }
  }

  lemma LatestReportAdvances(routers: seq<Router>, events: seq<Event>, n: nat, thread: string, owner: Owner)
    requires n < |events| && |routers| == |events| + 1
    ensures LatestSays(routers, events, n + 1, thread, owner) <==>
            match ReportOf(routers[n].lookups.threads, events[n], thread)
            case Silent => LatestSays(routers, events, n, thread, owner)
            case Says(o) => o == owner
            case Forgets => false
  {
    hide ReportOf;
    var report := ReportOf(routers[n].lookups.threads, events[n], thread);
    if report.Silent? {
      if LatestSays(routers, events, n, thread, owner) {
        var i: nat :| i < n && ReportOf(routers[i].lookups.threads, events[i], thread) == Says(owner)
                      && forall k | i < k < n :: ReportOf(routers[k].lookups.threads, events[k], thread) == Silent;
        assert forall k | i < k < n + 1 :: ReportOf(routers[k].lookups.threads, events[k], thread) == Silent;
      }
    }
  }

  // ----- Which lookup answers for a thread -----

  /** Step `i` starts this lookup, and it asks about this thread. */
  predicate StartsAt(routers: seq<Router>, events: seq<Event>, i: nat, lookup: nat, thread: string)
    requires i < |events| && |routers| == |events| + 1
  {
    && events[i].Send? && Named(events[i].request) == Some(thread)
    && |routers[i].lookups.threads| == lookup && |routers[i + 1].lookups.threads| == lookup + 1
  }

  /** The lookup was started before step `n`, and neither forgotten nor disposed of since. */
  ghost predicate Answers(routers: seq<Router>, events: seq<Event>, n: nat, lookup: nat, thread: string)
    requires n < |routers| == |events| + 1
  {
    exists i: nat | i < n ::
      StartsAt(routers, events, i, lookup, thread)
      && forall k | i < k < n :: events[k] != Clear(lookup) && events[k] != Dispose
  }

  lemma StepKeepsResolutions(r: Router, event: Event, thread: string, lookup: nat)
    requires Inv(r) && Step(r, event).Some?
    ensures var r' := Step(r, event).value.0;
            (thread in r'.lookups.resolutions && r'.lookups.resolutions[thread] == lookup) <==>
            if event.Send? && Named(event.request) == Some(thread) && |r.lookups.threads| == lookup
               && |r'.lookups.threads| == lookup + 1
            then true
            else && thread in r.lookups.resolutions && r.lookups.resolutions[thread] == lookup
                 && event != Clear(lookup) && event != Dispose
  {
    hide ThreadScoped, HostMethod, ShouldUseBridge;
    if !event.Send? {
      hide SendStep;
    }
  }

  lemma AnswersAdvances(routers: seq<Router>, events: seq<Event>, n: nat, lookup: nat, thread: string)
    requires n < |events| && |routers| == |events| + 1
    ensures Answers(routers, events, n + 1, lookup, thread) <==>
            || StartsAt(routers, events, n, lookup, thread)
            || (Answers(routers, events, n, lookup, thread) && events[n] != Clear(lookup) && events[n] != Dispose)
  {
    hide StartsAt;
    if Answers(routers, events, n, lookup, thread) && events[n] != Clear(lookup) && events[n] != Dispose {
      var i: nat :| i < n && StartsAt(routers, events, i, lookup, thread)
                    && forall k | i < k < n :: events[k] != Clear(lookup) && events[k] != Dispose;
      assert forall k | i < k < n + 1 :: events[k] != Clear(lookup) && events[k] != Dispose;
    }
  }

  /** The resolution of a thread is the lookup started for it that was neither forgotten nor disposed of. */
  lemma {:induction false} ResolutionsAnswer(
      remote: bool, routers: seq<Router>, routes: seq<Route>, events: seq<Event>, n: nat, lookup: nat, thread: string)
    requires Run(remote, routers, routes, events) && n < |routers|
    ensures thread in routers[n].lookups.resolutions && routers[n].lookups.resolutions[thread] == lookup <==>
            Answers(routers, events, n, lookup, thread)
  {
    hide *;
    NothingAnswersYet(remote, routers, routes, events, lookup, thread);
    if n > 0 {
      ResolutionsAnswer(remote, routers, routes, events, n - 1, lookup, thread);
      RunKeepsInv(remote, routers, routes, events, n - 1);
      ResolutionsStep(remote, routers, routes, events, n - 1, lookup, thread);
      AnswersAdvances(routers, events, n - 1, lookup, thread);
    }
  }

  lemma NothingAnswersYet(
      remote: bool, routers: seq<Router>, routes: seq<Route>, events: seq<Event>, lookup: nat, thread: string)
    requires Run(remote, routers, routes, events)
    ensures routers != [] && |routers| == |events| + 1
    ensures thread !in routers[0].lookups.resolutions && !Answers(routers, events, 0, lookup, thread)
  {
  }

  lemma ResolutionsStep(
      remote: bool, routers: seq<Router>, routes: seq<Route>, events: seq<Event>, n: nat, lookup: nat, thread: string)
    requires Run(remote, routers, routes, events) && n < |events| && Inv(routers[n])
    ensures |routers| == |events| + 1
    ensures var before, after := routers[n].lookups.resolutions, routers[n + 1].lookups.resolutions;
            thread in after && after[thread] == lookup <==>
            || StartsAt(routers, events, n, lookup, thread)
            || (thread in before && before[thread] == lookup && events[n] != Clear(lookup) && events[n] != Dispose)
  {
    hide Step, Inv;
    RunStep(remote, routers, routes, events, n);
    StepKeepsResolutions(routers[n], events[n], thread, lookup);
  }

  /** Every lookup asks about the thread named by the send that started it. */
  lemma {:induction false} LookupsAskWhatSendsName(
      remote: bool, routers: seq<Router>, routes: seq<Route>, events: seq<Event>, n: nat, lookup: nat)
    requires Run(remote, routers, routes, events) && n < |routers| && lookup < |routers[n].lookups.threads|
    ensures exists i: nat | i < n :: StartsAt(routers, events, i, lookup, routers[n].lookups.threads[lookup])
  {
    hide Step, StartsAt;
    RunStep(remote, routers, routes, events, n - 1);
    StepAsksAtMostOnce(routers[n - 1], events[n - 1]);
    if lookup < |routers[n - 1].lookups.threads| {
      assert routers[n].lookups.threads[lookup] == routers[n - 1].lookups.threads[lookup];
      LookupsAskWhatSendsName(remote, routers, routes, events, n - 1, lookup);
    } else {
      StartedNow(routers, events, n - 1);
      assert routers[n].lookups.threads[lookup] == Named(events[n - 1].request).value;
    }
  }

  lemma StepAsksAtMostOnce(r: Router, event: Event)
    requires Step(r, event).Some?
    ensures var asked := Step(r, event).value.0.lookups.threads;
            || asked == r.lookups.threads
            || (event.Send? && Named(event.request).Some?
                && asked == r.lookups.threads + [Named(event.request).value])
  {
    hide ThreadScoped, HostMethod, ShouldUseBridge;
  }

  lemma StartedNow(routers: seq<Router>, events: seq<Event>, i: nat)
    requires i < |events| && |routers| == |events| + 1 && events[i].Send? && Named(events[i].request).Some?
    requires |routers[i + 1].lookups.threads| == |routers[i].lookups.threads| + 1
    ensures StartsAt(routers, events, i, |routers[i].lookups.threads|, Named(events[i].request).value)
  {
  }

  // ----- The fallback for threads that nobody named -----

  /** The latest choice of a model since the router was disposed of selects one. */
  ghost predicate ModelChosen(events: seq<Event>, n: nat)
    requires n <= |events|
  {
    exists i: nat | i < n ::
      events[i] == Select(true) && forall k | i < k < n :: !events[k].Select? && !events[k].Dispose?
  }

  lemma {:induction false} ModelIsTheLatestChoice(
      remote: bool, routers: seq<Router>, routes: seq<Route>, events: seq<Event>, n: nat)
    requires Run(remote, routers, routes, events) && n < |routers|
    ensures routers[n].modelSelected <==> ModelChosen(events, n)
  {
    if n > 0 {
      hide Step;
      ModelIsTheLatestChoice(remote, routers, routes, events, n - 1);
      RunStep(remote, routers, routes, events, n - 1);
      StepKeepsModel(routers[n - 1], events[n - 1]);
      if ModelChosen(events, n - 1) && !events[n - 1].Select? && !events[n - 1].Dispose? {
        var i: nat :| i < n - 1 && events[i] == Select(true)
                      && forall k | i < k < n - 1 :: !events[k].Select? && !events[k].Dispose?;
        assert forall k | i < k < n :: !events[k].Select? && !events[k].Dispose?;
      }
    }
  }

  lemma StepKeepsModel(r: Router, event: Event)
    requires Step(r, event).Some?
    ensures Step(r, event).value.0.modelSelected ==
            if event.Select? then event.model else !event.Dispose? && r.modelSelected
  {
  }

  // ----- Where requests go -----

  predicate AboutThreads(name: string) {
    "thread/" <= name || "turn/" <= name || "review/" <= name
  }

  /** A request whose route depends on who owns the thread it names. */
  predicate AsksForOwner(remote: bool, request: Request) {
    && remote && AboutThreads(request.name) && !("codexhost/" <= request.name)
    && request.thread.Some? && request.thread.value != ""
  }

  /** A send about a thread that nothing was reported about waits for the lookup that answers for it, and
      starts one only when there is none. Otherwise it goes out at once: on a Remote Control host over the bridge
      exactly for codexhost's own methods, thread/list, a thread/start that carries or is given a codexhost model, a
      thread known as external, and, while a model is chosen, requests about a thread neither known nor named. */
  lemma SendsAreRouted(remote: bool, routers: seq<Router>, routes: seq<Route>, events: seq<Event>, n: nat)
    requires Run(remote, routers, routes, events) && n < |events| && events[n].Send?
    ensures var request := events[n].request; var name := request.name;
            var known := request.thread.Some? && request.thread.value != "";
            var external := known && LatestSays(routers, events, n, request.thread.value, External);
            var official := known && LatestSays(routers, events, n, request.thread.value, Codex);
            && (routes[n].Parked? <==> AsksForOwner(remote, request) && !external && !official)
            && (routes[n].Bridged? <==>
                  && remote && !routes[n].Parked?
                  && (if "codexhost/" <= name || name == "thread/list" then true
                      else if name == "thread/start" then
                        request.carriesModel || (request.takesModel && ModelChosen(events, n))
                      else external || (!official && AboutThreads(name) && ModelChosen(events, n))))
            && (routes[n].Direct? <==> !routes[n].Parked? && !routes[n].Bridged?)
    ensures routes[n].Parked? ==>
              var thread := events[n].request.thread.value;
              && Answers(routers, events, n + 1, routes[n].lookup, thread)
              && routers[n + 1].waiting
                 == routers[n].waiting[routers[n].sends := Waiting(events[n].request, routes[n].lookup)]
              && (|routers[n + 1].lookups.threads| > |routers[n].lookups.threads| <==>
                    forall lookup: nat :: !Answers(routers, events, n, lookup, thread))
  {
    hide Step, SendStep, Inv, LatestSays, Answers, ModelChosen;
    RunStep(remote, routers, routes, events, n);
    RunKeepsInv(remote, routers, routes, events, n);
    StepKeepsRemote(routers[n], events[n]);
    ModelIsTheLatestChoice(remote, routers, routes, events, n);
    var request := events[n].request;
    SendTable(routers[n], request);
    if request.thread.Some? {
      OwnershipIsTheLatestReport(remote, routers, routes, events, n, request.thread.value);
      forall lookup: nat
        ensures request.thread.value in routers[n].lookups.resolutions
                && routers[n].lookups.resolutions[request.thread.value] == lookup <==>
                Answers(routers, events, n, lookup, request.thread.value)
      {
        ResolutionsAnswer(remote, routers, routes, events, n, lookup, request.thread.value);
      }
      if routes[n].Parked? {
        ResolutionsAnswer(remote, routers, routes, events, n + 1, routes[n].lookup, request.thread.value);
        var before := routers[n].lookups.resolutions;
        assert request.thread.value in before ==>
            Answers(routers, events, n, before[request.thread.value], request.thread.value);
      }
    }
  }

  lemma SendTable(r: Router, request: Request)
    ensures var (r', route) := SendStep(r, request); var name := request.name;
            var known := request.thread.Some? && request.thread.value != "";
            var external := known && request.thread.value in r.external;
            var official := known && request.thread.value in r.official;
            && (route.Parked? <==> AsksForOwner(r.remote, request) && !external && !official)
            && (route.Bridged? <==>
                  && r.remote && !route.Parked?
                  && (if "codexhost/" <= name || name == "thread/list" then true
                      else if name == "thread/start" then
                        request.carriesModel || (request.takesModel && r.modelSelected)
                      else external || (!official && AboutThreads(name) && r.modelSelected)))
            && (route.Direct? <==> !route.Parked? && !route.Bridged?)
            && (route.Parked? ==>
                  && request.thread.value in r'.lookups.resolutions
                  && r'.lookups.resolutions[request.thread.value] == route.lookup
                  && r'.waiting == r.waiting[r.sends := Waiting(request, route.lookup)]
                  && (|r'.lookups.threads| > |r.lookups.threads| <==>
                        request.thread.value !in r.lookups.resolutions))
  {
  }

  /** A lookup is settled once, so the outcome it was settled with is the one that counts. */
  lemma {:induction false} OutcomesStay(
      remote: bool, routers: seq<Router>, routes: seq<Route>, events: seq<Event>, m: nat, n: nat, lookup: nat,
      outcome: Outcome)
    requires Run(remote, routers, routes, events) && m < n < |routers| && events[m] == Settle(lookup, outcome)
    ensures lookup in routers[n].lookups.outcomes && routers[n].lookups.outcomes[lookup] == outcome
  {
    hide Step, SendStep, Inv;
    RunStep(remote, routers, routes, events, n - 1);
    if m == n - 1 {
      SettlingStores(routers[m], lookup, outcome);
    } else {
      OutcomesStay(remote, routers, routes, events, m, n - 1, lookup, outcome);
      RunKeepsInv(remote, routers, routes, events, n - 1);
      OutcomesNameLookups(routers[n - 1]);
      StepKeepsOutcome(routers[n - 1], events[n - 1], lookup);
    }
  }

  lemma SettlingStores(r: Router, lookup: nat, outcome: Outcome)
    requires Step(r, Settle(lookup, outcome)).Some?
    ensures var l := Step(r, Settle(lookup, outcome)).value.0.lookups;
            lookup in l.outcomes && l.outcomes[lookup] == outcome
  {
  }

  lemma OutcomesNameLookups(r: Router)
    requires Inv(r)
    ensures forall lookup | lookup in r.lookups.outcomes :: lookup < |r.lookups.threads|
  {
  }

  /** A parked send goes where its own lookup said: direct exactly when that lookup, one of its thread, resolved
      to codex, or failed with the relay's spawn error and the request is a native read or resume; over the bridge
      exactly when it resolved to external; and in every other case it fails. */
  lemma ParkedSendsFollowTheirLookup(
      remote: bool, routers: seq<Router>, routes: seq<Route>, events: seq<Event>, n: nat)
    requires Run(remote, routers, routes, events) && n < |events| && events[n].Continue?
    ensures events[n].send in routers[n].waiting
    ensures var w := routers[n].waiting[events[n].send];
            && w.request.thread.Some?
            && var thread := w.request.thread.value;
               && (routes[n].Direct? <==>
                     || SettledAs(routers, events, n, w.lookup, thread, Resolved(Codex))
                     || ((w.request.name == "thread/read" || w.request.name == "thread/resume")
                         && SettledAs(routers, events, n, w.lookup, thread, Rejected(true))))
               && (routes[n].Bridged? <==> SettledAs(routers, events, n, w.lookup, thread, Resolved(External)))
               && (routes[n].Failed? <==> !routes[n].Direct? && !routes[n].Bridged?)
    ensures routers[n + 1] == routers[n].(waiting := routers[n].waiting - {events[n].send})
  {
    RunKeepsInv(remote, routers, routes, events, n);
    RunStep(remote, routers, routes, events, n);
    var w := routers[n].waiting[events[n].send];
    assert WaitingOk(routers[n], w);
    OutcomesComeFromSettling(remote, routers, routes, events, n, w.lookup);
    forall m, outcome | 0 <= m < n && events[m] == Settle(w.lookup, outcome)
      ensures outcome == routers[n].lookups.outcomes[w.lookup]
    {
      OutcomesStay(remote, routers, routes, events, m, n, w.lookup, outcome);
    }
    hide Inv;
  }
}
