/** Host routing over whole runs: every policy is accounted for, and disposal puts native members back. */
module HostRoutingRuns {
  import opened Options
  import opened HostRouting
  import opened HostRoutingSafety

  datatype Event =
    | ForHost(native: Native, host: Host)
    | ForComposer(discovered: Option<Native>, sweep: bool, active: Option<Host>)
    | DisposedElsewhere(policy: nat)    // a published policy may be disposed by someone else
    | Dispose

  ghost predicate Step(s: Routing, event: Event, s': Routing) {
    Consistent(s)
    && match event
       case ForHost(native, host) => s' == if host == "" then s else RouteFor(s, native, host).0
       case ForComposer(native, sweep, active) => s' == ComposerRoute(s, native, sweep, active).0
       case DisposedElsewhere(policy) => policy < |s.policies| && s' == DisposePolicy(s, policy)
       case Dispose => s' == if s.disposed then s else RetireAll(s.(disposed := true))
  }

  ghost predicate NativeIsFixed(windowEvents: bool, event: Event, hostOf: Slot -> Host) {
    match event
    case ForHost(native, _) => FixedHosts(windowEvents, native, hostOf)
    case ForComposer(native, _, _) => native.Some? ==> FixedHosts(windowEvents, native.value, hostOf)
    case _ => true
  }

  ghost predicate Run(states: seq<Routing>, events: seq<Event>) {
    && |states| == |events| + 1
    && (exists windowEvents :: states[0] == New(windowEvents))
    && forall i | 0 <= i < |events| :: Step(states[i], events[i], states[i + 1])
  }

  lemma StepKeepsInv(s: Routing, event: Event, s': Routing)
    requires Inv(s) && Step(s, event, s')
    ensures Inv(s') && s'.windowEvents == s.windowEvents
  {
    hide Inv, RouteFor, RetireStale, RetireAll, DisposePolicy;
    match event
    case ForHost(native, host) =>
      RouteKeepsInv(s, native, host);
      RouteIsStable(s, native, host);
    case ForComposer(native, sweep, active) =>
      ComposerKeepsInv(s, native, sweep, active);
    case DisposedElsewhere(policy) =>
      DisposeKeeps(s, policy);
      DisposeKeepsTarget(s, policy);
    case Dispose =>
      if !s.disposed {
        DisposalIsExact(s);
      }
  }

  lemma DisposeKeepsTarget(s: Routing, policy: nat)
    requires policy < |s.policies|
    ensures DisposePolicy(s, policy).windowEvents == s.windowEvents
  {
  }

  lemma ComposerKeepsInv(s: Routing, native: Option<Native>, sweep: bool, active: Option<Host>)
    requires Inv(s)
    ensures Consistent(s)
    ensures var s' := ComposerRoute(s, native, sweep, active).0; Inv(s') && s'.windowEvents == s.windowEvents
  {
    ConsistentWhenInv(s);
    hide Inv, RouteFor, RetireStale;
    if !s.disposed && native.Some? {
      RetireStaleIsExact(s, native.value);
      if active.Some? {
        var swept := if sweep then RetireStale(s, native.value) else s;
        RouteKeepsInv(swept, native.value, active.value);
        RouteIsStable(swept, native.value, active.value);
      }
    }
  }

  lemma StepKeepsOneWrapper(s: Routing, event: Event, s': Routing, hostOf: Slot -> Host)
    requires Inv(s) && Step(s, event, s')
    requires OneWrapper(s, hostOf) && NativeIsFixed(s.windowEvents, event, hostOf)
    ensures OneWrapper(s', hostOf)
  {
    hide OneWrapper, RouteFor, RetireStaleFrom, RetireAllFrom, DisposePolicy, FixedHosts, Inv;
    match event
    case ForHost(native, host) =>
      if host != "" {
        RouteKeepsOneWrapper(s, native, host, hostOf);
      }
    case ForComposer(native, sweep, active) =>
      if !s.disposed && native.Some? {
        RetireStaleIsExact(s, native.value);
        RetireStaleKeepsOneWrapper(s, native.value, MapOrder(s), hostOf);
        if active.Some? {
          RouteKeepsOneWrapper(if sweep then RetireStale(s, native.value) else s, native.value, active.value, hostOf);
        }
      }
    case DisposedElsewhere(policy) => DisposeKeepsOneWrapper(s, policy, hostOf);
    case Dispose =>
      if !s.disposed {
        OneWrapperComesOff(s, hostOf);
      }
  }

  /** With one wrapper over every native member all of them come off. */
  lemma OneWrapperComesOff(s: Routing, hostOf: Slot -> Host)
    requires Inv(s) && OneWrapper(s, hostOf) && !s.disposed
    ensures forall slot :: ComesOff(s, slot)
    ensures Consistent(s.(disposed := true)) && OneWrapper(RetireAll(s.(disposed := true)), hostOf)
  {
    DisposalIsExact(s);
    forall slot ensures ComesOff(s, slot) {
      assert SitsAlone(s, slot);
      assert HookOf(s, slot).Wrapper? ==> Sits(s, hostOf, HookOf(s, slot).policy);
    }
    var s' := RetireAll(s.(disposed := true));
    hide RetireAll, Inv;
    forall id: nat | id < |s'.policies| ensures !Live(s', id) {
      assert s'.policies[id] in s'.policies;
    }
  }

  /** In every run each policy ever created is disposed or is the route of its host. */
  lemma {:induction false} PoliciesAreAccountedFor(states: seq<Routing>, events: seq<Event>, n: nat)
    requires Run(states, events) && n < |states|
    ensures Inv(states[n]) && states[n].windowEvents == states[0].windowEvents
  {
    if n == 0 {
      NewIsInv(states[0].windowEvents);
    } else {
      hide Inv, Step;
      PoliciesAreAccountedFor(states, events, n - 1);
      StepKeepsInv(states[n - 1], events[n - 1], states[n]);
    }
  }

  /** While each native member belongs to one host, every one of them is its own or one wrapper over it. */
  lemma {:induction false} WrappersNeverNest(states: seq<Routing>, events: seq<Event>, hostOf: Slot -> Host, n: nat)
    requires Run(states, events) && n < |states|
    requires forall e | e in events :: NativeIsFixed(states[0].windowEvents, e, hostOf)
    ensures OneWrapper(states[n], hostOf)
  {
    if n > 0 {
      WrappersNeverNest(states, events, hostOf, n - 1);
      PoliciesAreAccountedFor(states, events, n - 1);
      StepKeepsOneWrapper(states[n - 1], events[n - 1], states[n], hostOf);
    }
  }

  /** Event `m` is the disposal of the whole routing. */
  predicate DisposedAt(states: seq<Routing>, events: seq<Event>, m: nat) {
    m < |events| < |states| && events[m].Dispose? && !states[m].disposed
  }

  /** Nothing changes any more once everything is disposed. */
  lemma DisposedIsFinal(s: Routing, event: Event, s': Routing)
    requires Inv(s) && s.disposed && Step(s, event, s')
    ensures s' == s
  {
    if event.DisposedElsewhere? {
      assert Live(s, event.policy) ==> InMap(s, event.policy);
    }
  }

  /** A routing that is disposed in a run was disposed at some point of it and has not changed since. */
  lemma {:induction false} DisposedRoutingIsFrozen(states: seq<Routing>, events: seq<Event>, n: nat) returns (m: nat)
    requires Run(states, events) && n < |states| && states[n].disposed
    ensures m < n && DisposedAt(states, events, m) && states[n] == states[m + 1]
  {
    PoliciesAreAccountedFor(states, events, n - 1);
    if states[n - 1].disposed {
      DisposedIsFinal(states[n - 1], events[n - 1], states[n]);
      m := DisposedRoutingIsFrozen(states, events, n - 1);
    } else {
      m := n - 1;
      OnlyDisposalDisposes(states[m], events[m], states[n]);
    }
  }

  lemma OnlyDisposalDisposes(s: Routing, event: Event, s': Routing)
    requires Inv(s) && !s.disposed && Step(s, event, s') && s'.disposed
    ensures event.Dispose?
  {
    hide Inv, RouteFor, RetireStale;
    match event
    case ForHost(native, host) => RouteIsStable(s, native, host);
    case ForComposer(native, sweep, active) =>
      if native.Some? {
        RetireStaleIsExact(s, native.value);
        if active.Some? {
          RouteIsStable(if sweep then RetireStale(s, native.value) else s, native.value, active.value);
        }
      }
    case _ =>
  }

  /** At every later point of every run, hosts sharing native objects or not: once disposed, no policy is alive,
      and a native member is native again if and only if, when disposal began, it was native or exactly one live
      wrapper sat on the native one. */
  lemma DisposalRestoresExactly(states: seq<Routing>, events: seq<Event>, n: nat, slot: Slot) returns (m: nat)
    requires Run(states, events) && n < |states| && states[n].disposed
    ensures m < n && DisposedAt(states, events, m)
    ensures forall p | p in states[n].policies :: p.disposed
    ensures HookOf(states[n], slot) == NativeHook <==> ComesOff(states[m], slot)
  {
    m := DisposedRoutingIsFrozen(states, events, n);
    PoliciesAreAccountedFor(states, events, m);
    DisposalIsExact(states[m]);
  }

  /** With one fixed host per native member all of them are native again, from disposal on. */
  lemma DisposeRestoresNativeSends(states: seq<Routing>, events: seq<Event>, hostOf: Slot -> Host, n: nat)
    requires Run(states, events) && n < |states| && states[n].disposed
    requires forall e | e in events :: NativeIsFixed(states[0].windowEvents, e, hostOf)
    ensures forall p | p in states[n].policies :: p.disposed
    ensures forall slot :: HookOf(states[n], slot) == NativeHook
  {
    var m := DisposedRoutingIsFrozen(states, events, n);
    PoliciesAreAccountedFor(states, events, m);
    WrappersNeverNest(states, events, hostOf, m);
    DisposalIsExact(states[m]);
    OneWrapperComesOff(states[m], hostOf);
  }

  // ----- Two hosts on one bridge -----

  /** Looking up a host that has no route yet wraps its bridge once more. */
  lemma FirstRouteWraps(s: Routing, native: Native, host: Host)
    requires Consistent(s) && !s.disposed && host !in s.routes && host in native.resolve
    ensures var s' := RouteFor(s, native, host).0;
            var slot := SendSlot(native.client(native.resolve[host]));
            && |s'.policies| == |s.policies| + 1 && !s'.disposed && s'.routes.Keys == s.routes.Keys + {host}
            && HookOf(s', slot) == Wrapper(|s.policies|) && Live(s', |s.policies|)
            && slot in s'.policies[|s.policies|].originals
            && s'.policies[|s.policies|].originals[slot] == HookOf(s, slot)
  {
    var manager := native.resolve[host];
    var bridge, prewarmed := native.client(manager), native.prewarmed(manager);
    RoutedEffect(s, host, manager, bridge, prewarmed);
    assert RouteFor(s, native, host).0 == Routed(s, host, manager, bridge, prewarmed);
    assert SendSlot(bridge) in Slots(s.windowEvents, host, manager, bridge);
    hide RouteFor, Routed, Slots, HookOf, Retire;
  }

  /** Two hosts whose managers share one bridge: a run that ends disposed with the wrapper of a disposed policy
      still on that bridge. */
  lemma SharedBridgeKeepsDisposedWrapper(native: Native) returns (states: seq<Routing>, events: seq<Event>)
    requires native.resolve == map["a" := 1, "b" := 2] && native.client(1) == native.client(2)
    ensures Run(states, events) && states[|events|].disposed
    ensures forall p | p in states[|events|].policies :: p.disposed
    ensures HookOf(states[|events|], SendSlot(native.client(1))) == Wrapper(0)
  {
    NewIsInv(false);
    hide RouteFor, RetireAll, Inv, Consistent, HookOf;
    var slot := SendSlot(native.client(1));
    var s0 := New(false);
    ConsistentWhenInv(s0);
    var s1 := RouteFor(s0, native, "a").0;
    FirstRouteWraps(s0, native, "a");
    RouteKeepsInv(s0, native, "a");
    ConsistentWhenInv(s1);
    var s2 := RouteFor(s1, native, "b").0;
    FirstRouteWraps(s1, native, "b");
    RouteKeepsInv(s1, native, "b");
    ConsistentWhenInv(s2);
    DisposalIsExact(s2);
    HookAfterDisposal(s2, slot);
    states := [s0, s1, s2, RetireAll(s2.(disposed := true))];
    events := [ForHost(native, "a"), ForHost(native, "b"), Dispose];
  }

  lemma NewIsInv(windowEvents: bool)
    ensures Inv(New(windowEvents)) && Consistent(New(windowEvents))
  {
  }
}
