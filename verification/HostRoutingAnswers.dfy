/** What callers of the routing get, said of the native registries and the map alone. */
module HostRoutingAnswers {
  import opened Options
  import opened HostRouting
  import opened HostRoutingSafety

  /** The entry's native owner was replaced or disconnected. */
  predicate Outdated(s: Routing, native: Native, host: Host)
    requires host in s.routes
  {
    var e := s.routes[host];
    || host !in native.resolve || native.resolve[host] != e.manager
    || native.client(e.manager) != e.bridge || native.prewarmed(e.manager) != e.prewarmed
  }

  /** The entry serves the host through what its registry holds now, under a policy that is not disposed. */
  predicate Serves(s: Routing, native: Native, host: Host, e: Entry)
    requires host in native.resolve
  {
    var manager := native.resolve[host];
    && host in s.routes && s.routes[host] == e
    && e.manager == manager && e.bridge == native.client(manager) && e.prewarmed == native.prewarmed(manager)
    && e.policy < |s.policies|
    && s.policies[e.policy].host == host && s.policies[e.policy].manager == manager
    && s.policies[e.policy].bridge == native.client(manager)
    && s.policies[e.policy].prewarmed == native.prewarmed(manager)
    && !s.policies[e.policy].disposed
  }

  predicate SameEntry(s: Routing, s': Routing, host: Host) {
    (host in s'.routes <==> host in s.routes) && (host in s.routes ==> s'.routes[host] == s.routes[host])
  }

  /** A host has a route exactly when the routing is not disposed and the host's manager resolves; the route
      serves it, other hosts keep theirs, and a new policy is made exactly when the entry that was there does not
      serve it any more. */
  lemma HostsAreAnswered(s: Routing, native: Native, host: Host)
    requires Inv(s)
    ensures var (s', route) := RouteFor(s, native, host);
            && (route.Some? <==> !s.disposed && host in native.resolve)
            && (route.Some? ==> Serves(s', native, host, route.value))
            && (route.None? ==> host !in s'.routes)
            && (forall other | other != host :: SameEntry(s, s', other))
            && (route.Some? && host in s.routes && Serves(s, native, host, s.routes[host]) ==> s' == s)
            && (route.Some? && !(host in s.routes && Serves(s, native, host, s.routes[host])) ==>
                  route.value.policy == |s.policies| && |s'.policies| == |s.policies| + 1)
            && s'.disposed == s.disposed
  {
    var (s', route) := RouteFor(s, native, host);
    RouteIsCorrect(s, native, host);
    RouteIsStable(s, native, host);
    ConsistentWhenInv(s);
    if !s.disposed && host in native.resolve {
      ServesIsCurrent(s, native, host);
      ServesIsCurrent(s', native, host);
      RetireKeeps(s, host);
    }
    hide Inv, Retire, Consistent, Current, Serves, CreatePolicy;
    if route.Some? {
      RouteForUnfolds(s, native, host);
    }
  }

  lemma RouteForUnfolds(s: Routing, native: Native, host: Host)
    requires Inv(s) && Consistent(s) && !s.disposed && host in native.resolve
    ensures var manager := native.resolve[host];
            RouteFor(s, native, host)
            == if Current(s, native, host, manager) then (s, Some(s.routes[host]))
               else (Routed(Retire(s, host), host, manager, native.client(manager), native.prewarmed(manager)),
                     Some(Entry(manager, native.client(manager), native.prewarmed(manager), |s.policies|)))
  {
    hide Current;
    RetireKeeps(s, host);
    hide Inv, Consistent, Retire, CreatePolicy;
  }

  lemma ServesIsCurrent(s: Routing, native: Native, host: Host)
    requires Consistent(s) && host in native.resolve
    ensures host in s.routes && Serves(s, native, host, s.routes[host])
            <==> Current(s, native, host, native.resolve[host])
  {
    hide Slots;
  }

  /** A new route wraps the bridge's send and prewarm and the manager's dispatch, and the manager's notifications
      unless the host is a remote one on a page that can listen to window messages; it wraps nothing else. */
  lemma NewRoutesWrap(s: Routing, native: Native, host: Host, slot: Slot)
    requires Inv(s) && RouteFor(s, native, host).1.Some?
    requires RouteFor(s, native, host).1.value.policy == |s.policies|
    ensures var (s', route) := RouteFor(s, native, host);
            slot in s'.hooks && s'.hooks[slot] == Wrapper(|s.policies|) <==>
            || slot == SendSlot(route.value.bridge)
            || slot == PrewarmSlot(route.value.bridge)
            || slot == DispatchSlot(route.value.manager)
            || (slot == NotificationSlot(route.value.manager)
                && !("remote-control:" <= host && s.windowEvents))
  {
    RouteIsNew(s, native, host);
    RetireKeeps(s, host);
    var retired, manager := Retire(s, host), native.resolve[host];
    RoutedEffect(retired, host, manager, native.client(manager), native.prewarmed(manager));
    var s' := RouteFor(s, native, host).0;
    HooksArePast(retired, slot);
    assert HookOf(s', slot) == if slot in s'.hooks then s'.hooks[slot] else NativeHook;
    hide Inv, Retire, Routed, RouteFor, HookOf;
  }

  lemma RouteIsNew(s: Routing, native: Native, host: Host)
    requires Inv(s) && RouteFor(s, native, host).1.Some?
    requires RouteFor(s, native, host).1.value.policy == |s.policies|
    ensures host in native.resolve && Consistent(s)
    ensures var manager := native.resolve[host];
            RouteFor(s, native, host)
            == (Routed(Retire(s, host), host, manager, native.client(manager), native.prewarmed(manager)),
                Some(Entry(manager, native.client(manager), native.prewarmed(manager), |s.policies|)))
  {
    HostsAreAnswered(s, native, host);
    ConsistentWhenInv(s);
    RouteForUnfolds(s, native, host);
    if Current(s, native, host, native.resolve[host]) {
      CurrentIsOld(s, native, host);
    }
    hide Inv, Retire, Slots, RouteFor, Routed, Consistent;
  }

  lemma CurrentIsOld(s: Routing, native: Native, host: Host)
    requires Consistent(s) && host in native.resolve && Current(s, native, host, native.resolve[host])
    ensures s.routes[host].policy != |s.policies|
  {
  }

  lemma HooksArePast(s: Routing, slot: Slot)
    requires Inv(s)
    ensures HookOf(s, slot) != Wrapper(|s.policies|)
  {
    assert HookOk(s, slot, HookOf(s, slot), |s.policies|);
  }

  /** Every host but the active one keeps its entry, or loses it because the sweep finds it outdated. */
  ghost predicate OthersKept(s: Routing, native: Native, sweep: bool, active: Option<Host>, s': Routing) {
    forall other | active != Some(other) ::
      && (other in s'.routes <==> other in s.routes && !(sweep && Outdated(s, native, other)))
      && (other in s'.routes ==> s'.routes[other] == s.routes[other])
  }

  /** A composer has a route exactly when the routing is not disposed, discovery succeeded, a host is active and
      that host resolves; it is then that host's, live and up to date. A composer of its own leaves every other
      host alone; the page's composer retires exactly the outdated entries of other hosts. */
  lemma ComposersAreAnswered(s: Routing, native: Option<Native>, sweep: bool, active: Option<Host>)
    requires Inv(s)
    ensures var (s', route) := ComposerRoute(s, native, sweep, active);
            && (route.Some? <==>
                  !s.disposed && native.Some? && active.Some? && active.value in native.value.resolve)
            && (route.Some? ==> Serves(s', native.value, active.value, route.value))
            && (s.disposed || native.None? ==> s' == s)
            && (!s.disposed && native.Some? ==>
                  OthersKept(s, native.value, sweep, active, s')
                  && (active.Some? && route.None? ==> active.value !in s'.routes))
  {
    ConsistentWhenInv(s);
    hide Inv, RouteFor, RetireStale, Serves, OthersKept, Consistent;
    if !s.disposed && native.Some? {
      var swept := if sweep then RetireStale(s, native.value) else s;
      SweepKeepsOthers(s, native.value, sweep, active);
      ConsistentWhenInv(swept);
      if active.Some? {
        HostsAreAnswered(swept, native.value, active.value);
        OthersStayKept(s, native.value, sweep, active.value, swept, RouteFor(swept, native.value, active.value).0);
      }
    }
  }

  lemma OthersStayKept(s: Routing, native: Native, sweep: bool, active: Host, swept: Routing, s': Routing)
    requires OthersKept(s, native, sweep, None, swept)
    requires forall other | other != active :: SameEntry(swept, s', other)
    ensures OthersKept(s, native, sweep, Some(active), s')
  {
    hide Outdated;
    forall other | other != active
      ensures other in s'.routes <==> other in s.routes && !(sweep && Outdated(s, native, other))
      ensures other in s'.routes ==> s'.routes[other] == s.routes[other]
    {
      assert SameEntry(swept, s', other);
    }
  }

  lemma SweepKeepsOthers(s: Routing, native: Native, sweep: bool, active: Option<Host>)
    requires Inv(s) && Consistent(s) && !s.disposed
    ensures var swept := if sweep then RetireStale(s, native) else s;
            && Inv(swept) && !swept.disposed
            && OthersKept(s, native, sweep, None, swept) && OthersKept(s, native, sweep, active, swept)
  {
    if sweep {
      SweepRetiresOutdated(s, native);
    }
    hide Inv, RetireStale, Consistent, Outdated;
  }

  lemma SweepRetiresOutdated(s: Routing, native: Native)
    requires Inv(s) && Consistent(s) && !s.disposed
    ensures var s' := RetireStale(s, native);
            && Inv(s') && !s'.disposed
            && (forall host :: host in s'.routes <==> host in s.routes && !Outdated(s, native, host))
            && (forall host | host in s'.routes :: s'.routes[host] == s.routes[host])
  {
    RetireStaleIsExact(s, native);
    hide Inv, RetireStale, Consistent;
    forall host | host in s.routes ensures Stale(s, native, host) <==> Outdated(s, native, host) {
    }
  }
}
