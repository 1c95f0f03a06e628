/** The routes map is a correct cache, and its hooks come off again. */
module HostRoutingSafety {
  import opened Options
  import opened HostRouting

  predicate Live(s: Routing, id: nat) {
    id < |s.policies| && !s.policies[id].disposed
  }

  /** Entries mirror their policies, and every policy ever created is disposed or in the map. */
  ghost predicate RoutesOk(s: Routing) {
    && (forall host | host in s.routes :: EntryOk(s, host))
    && (forall id: nat | Live(s, id) :: InMap(s, id))
  }

  predicate EntryOk(s: Routing, host: Host)
    requires host in s.routes
  {
    var e := s.routes[host];
    e.policy < |s.policies|
    && var p := s.policies[e.policy];
       p.host == host && p.manager == e.manager && p.bridge == e.bridge && p.prewarmed == e.prewarmed
  }

  predicate InMap(s: Routing, id: nat)
    requires id < |s.policies|
  {
    s.policies[id].host in s.routes && s.routes[s.policies[id].host].policy == id
  }

  /** Wrappers sit on members their policies wrapped, over what was there before. */
  ghost predicate HooksOk(s: Routing) {
    && (forall slot :: HookOk(s, slot, HookOf(s, slot), |s.policies|))
    && (forall id: nat | id < |s.policies| :: OriginalsOk(s, id))
  }

  predicate HookOk(s: Routing, slot: Slot, hook: Hook, bound: nat) {
    hook.Wrapper? ==> hook.policy < bound && hook.policy < |s.policies| && slot in s.policies[hook.policy].originals
  }

  predicate OriginalsOk(s: Routing, id: nat)
    requires id < |s.policies|
  {
    forall slot | slot in s.policies[id].originals :: HookOk(s, slot, s.policies[id].originals[slot], id)
  }

  ghost predicate Inv(s: Routing) {
    Consistent(s) && RoutesOk(s) && HooksOk(s) && (s.disposed ==> s.routes == map[])
  }

  /** Each host's native members are its own. */
  ghost predicate FixedHosts(windowEvents: bool, native: Native, hostOf: Slot -> Host) {
    forall host | host in native.resolve ::
      OwnSlots(windowEvents, host, native.resolve[host], native.client(native.resolve[host]), hostOf)
  }

  predicate OwnSlots(windowEvents: bool, host: Host, manager: Manager, bridge: Bridge, hostOf: Slot -> Host) {
    forall slot | slot in Slots(windowEvents, host, manager, bridge) :: hostOf(slot) == host
  }

  /** Every member is its own or exactly one wrapper over it, that of its one live policy. */
  ghost predicate OneWrapper(s: Routing, hostOf: Slot -> Host) {
    && (forall id: nat | Live(s, id) :: Sits(s, hostOf, id))
    && (forall slot :: SitsAlone(s, slot))
  }

  predicate Sits(s: Routing, hostOf: Slot -> Host, id: nat)
    requires id < |s.policies|
  {
    forall slot | slot in s.policies[id].originals ::
      && hostOf(slot) == s.policies[id].host
      && HookOf(s, slot) == Wrapper(id) && s.policies[id].originals[slot] == NativeHook
  }

  predicate SitsAlone(s: Routing, slot: Slot) {
    HookOf(s, slot).Wrapper? ==>
      Live(s, HookOf(s, slot).policy) && slot in s.policies[HookOf(s, slot).policy].originals
  }

  // ----- What single operations do -----

  /** Disposal of a policy: only its flag and its own members change. */
  lemma DisposeEffect(s: Routing, id: nat)
    requires id < |s.policies|
    ensures var s' := DisposePolicy(s, id);
            && s' == s.(policies := s'.policies, hooks := s'.hooks) && |s'.policies| == |s.policies|
            && s'.policies == s.policies[id := s.policies[id].(disposed := true)]
            && forall slot :: HookOf(s', slot) == HookAfter(s, id, slot)
  {
    assert s.policies[id].disposed ==> s.policies[id := s.policies[id].(disposed := true)] == s.policies;
  }

  function HookAfter(s: Routing, id: nat, slot: Slot): Hook
    requires id < |s.policies|
  {
    if Live(s, id) && slot in s.policies[id].originals && HookOf(s, slot) == Wrapper(id)
    then s.policies[id].originals[slot] else HookOf(s, slot)
  }

  /** Retiring a host with a route: the route goes and its policy is disposed. */
  lemma RetireEffect(s: Routing, host: Host)
    requires Consistent(s) && host in s.routes
    ensures var s' := Retire(s, host);
            var id := s.routes[host].policy;
            && s' == s.(routes := s.routes - {host}, policies := s'.policies, hooks := s'.hooks)
            && s'.policies == s.policies[id := s.policies[id].(disposed := true)]
            && forall slot :: HookOf(s', slot) == HookAfter(s, id, slot)
  {
    var unrouted := s.(routes := s.routes - {host});
    DisposeEffect(unrouted, s.routes[host].policy);
    assert forall slot :: HookAfter(unrouted, s.routes[host].policy, slot) == HookAfter(s, s.routes[host].policy, slot);
    hide DisposePolicy;
  }

  /** A new policy and its route. */
  function Routed(s: Routing, host: Host, manager: Manager, bridge: Bridge, prewarmed: Prewarmed): Routing {
    var created := CreatePolicy(s, host, manager, bridge, prewarmed);
    created.(routes := created.routes[host := Entry(manager, bridge, prewarmed, |s.policies|)])
  }

  lemma RoutedEffect(s: Routing, host: Host, manager: Manager, bridge: Bridge, prewarmed: Prewarmed)
    ensures var s' := Routed(s, host, manager, bridge, prewarmed);
            var slots := Slots(s.windowEvents, host, manager, bridge);
            && |s'.policies| == |s.policies| + 1 && s'.policies[..|s.policies|] == s.policies
            && (forall id: nat | id < |s.policies| :: s'.policies[id] == s.policies[id])
            && var p := s'.policies[|s.policies|];
               && p == Policy(host, manager, bridge, prewarmed, p.originals, false)
               && p.originals.Keys == slots && (forall slot | slot in slots :: p.originals[slot] == HookOf(s, slot))
               && s'.routes == s.routes[host := Entry(manager, bridge, prewarmed, |s.policies|)]
               && s'.disposed == s.disposed && s'.windowEvents == s.windowEvents
               && forall slot :: HookOf(s', slot) == if slot in slots then Wrapper(|s.policies|) else HookOf(s, slot)
  {
    hide Slots;
  }

  // ----- Routes and policies stay in step -----

  /** The same policies but that one was disposed. */
  ghost predicate Same(s: Routing, s': Routing, disposed: nat) {
    && |s'.policies| == |s.policies|
    && forall id: nat | id < |s.policies| ::
         s'.policies[id] == if id == disposed then s.policies[id].(disposed := true) else s.policies[id]
  }

  lemma ConsistentAfter(s: Routing, s': Routing, id: nat)
    requires Consistent(s) && id < |s.policies| && s'.windowEvents == s.windowEvents
    requires s'.policies == s.policies[id := s.policies[id].(disposed := true)]
    requires forall host | host in s'.routes :: host in s.routes && s'.routes[host] == s.routes[host]
    ensures Consistent(s')
  {
    hide Slots;
    forall p | p in s'.policies ensures p.originals.Keys == Slots(s'.windowEvents, p.host, p.manager, p.bridge) {
      var k :| 0 <= k < |s'.policies| && s'.policies[k] == p;
      assert s.policies[k] in s.policies;
    }
  }

  lemma RoutesOkAfter(s: Routing, s': Routing, id: nat)
    requires RoutesOk(s) && Same(s, s', id)
    requires forall host | host in s'.routes :: host in s.routes && s'.routes[host] == s.routes[host]
    requires forall host | host in s.routes && host !in s'.routes :: s.routes[host].policy == id
    ensures RoutesOk(s')
  {
    forall host | host in s'.routes ensures EntryOk(s', host) {
      assert EntryOk(s, host);
    }
    forall k: nat | Live(s', k) ensures InMap(s', k) {
      assert Live(s, k) && InMap(s, k);
    }
  }

  lemma HooksOkAfter(s: Routing, s': Routing, id: nat)
    requires HooksOk(s) && id < |s.policies| && Same(s, s', id)
    requires forall slot :: HookOf(s', slot) == HookAfter(s, id, slot)
    ensures HooksOk(s')
  {
    forall slot ensures HookOk(s', slot, HookOf(s', slot), |s'.policies|) {
      assert HookOk(s, slot, HookOf(s, slot), |s.policies|);
      assert OriginalsOk(s, id);
      if slot in s.policies[id].originals {
        assert HookOk(s, slot, s.policies[id].originals[slot], id);
      }
    }
    forall k: nat | k < |s'.policies| ensures OriginalsOk(s', k) {
      assert OriginalsOk(s, k);
    }
  }

  lemma DisposeKeeps(s: Routing, id: nat)
    requires Inv(s) && id < |s.policies|
    ensures Inv(DisposePolicy(s, id))
  {
    DisposeEffect(s, id);
    hide DisposePolicy, RoutesOk, HooksOk, Consistent, HookOf, HookAfter;
    ConsistentAfter(s, DisposePolicy(s, id), id);
    RoutesOkAfter(s, DisposePolicy(s, id), id);
    HooksOkAfter(s, DisposePolicy(s, id), id);
  }

  lemma RetireKeeps(s: Routing, host: Host)
    requires Inv(s)
    ensures var s' := Retire(s, host);
            && Inv(s') && s'.routes == s.routes - {host} && |s'.policies| == |s.policies|
            && s'.disposed == s.disposed && s'.windowEvents == s.windowEvents
  {
    if host in s.routes {
      assert EntryOk(s, host);
      RetireEffect(s, host);
      var s', id := Retire(s, host), s.routes[host].policy;
      hide Retire, RoutesOk, HooksOk, Consistent, HookOf, HookAfter;
      ConsistentAfter(s, s', id);
      RoutesOkAfter(s, s', id);
      HooksOkAfter(s, s', id);
    } else {
      assert s.routes - {host} == s.routes;
    }
  }

  lemma CreateKeepsRoutesOk(s: Routing, host: Host, manager: Manager, bridge: Bridge, prewarmed: Prewarmed)
    requires RoutesOk(s) && host !in s.routes
    ensures RoutesOk(Routed(s, host, manager, bridge, prewarmed))
  {
    var s' := Routed(s, host, manager, bridge, prewarmed);
    RoutedEffect(s, host, manager, bridge, prewarmed);
    hide Routed, HookOf, Slots;
    forall h | h in s'.routes ensures EntryOk(s', h) {
      if h != host {
        assert EntryOk(s, h);
      }
    }
    forall id: nat | Live(s', id) ensures InMap(s', id) {
      if id < |s.policies| {
        assert Live(s, id) && InMap(s, id);
      }
    }
  }

  lemma CreateKeepsHooksOk(s: Routing, host: Host, manager: Manager, bridge: Bridge, prewarmed: Prewarmed)
    requires HooksOk(s)
    ensures HooksOk(Routed(s, host, manager, bridge, prewarmed))
  {
    var s' := Routed(s, host, manager, bridge, prewarmed);
    RoutedEffect(s, host, manager, bridge, prewarmed);
    hide Routed, HookOf, Slots;
    forall slot ensures HookOk(s', slot, HookOf(s', slot), |s'.policies|) {
      assert HookOk(s, slot, HookOf(s, slot), |s.policies|);
    }
    forall id: nat | id < |s'.policies| ensures OriginalsOk(s', id) {
      if id < |s.policies| {
        assert OriginalsOk(s, id);
      } else {
        forall slot | slot in s'.policies[id].originals
          ensures HookOk(s', slot, s'.policies[id].originals[slot], id)
        {
          assert HookOk(s, slot, HookOf(s, slot), |s.policies|);
        }
      }
    }
  }

  lemma CreateKeeps(s: Routing, host: Host, manager: Manager, bridge: Bridge, prewarmed: Prewarmed)
    requires Inv(s) && host !in s.routes && !s.disposed
    ensures Inv(Routed(s, host, manager, bridge, prewarmed))
  {
    var s' := Routed(s, host, manager, bridge, prewarmed);
    CreateKeepsRoutesOk(s, host, manager, bridge, prewarmed);
    CreateKeepsHooksOk(s, host, manager, bridge, prewarmed);
    RoutedEffect(s, host, manager, bridge, prewarmed);
    hide Routed, HookOf, Slots, RoutesOk, HooksOk;
    forall p | p in s'.policies
      ensures p.originals.Keys == Slots(s'.windowEvents, p.host, p.manager, p.bridge)
    {
      var k :| 0 <= k < |s'.policies| && s'.policies[k] == p;
      if k < |s.policies| {
        assert s.policies[k] in s.policies;
      }
    }
  }

  // ----- One wrapper -----

  lemma OneWrapperAfter(s: Routing, s': Routing, id: nat, hostOf: Slot -> Host)
    requires OneWrapper(s, hostOf) && id < |s.policies| && Same(s, s', id)
    requires forall slot :: HookOf(s', slot) == HookAfter(s, id, slot)
    ensures OneWrapper(s', hostOf)
  {
    hide HookOf;
    forall k: nat | Live(s', k) ensures Sits(s', hostOf, k) {
      assert Live(s, k) && Sits(s, hostOf, k);
    }
    forall slot ensures SitsAlone(s', slot) {
      assert SitsAlone(s, slot);
      assert Live(s, id) ==> Sits(s, hostOf, id);
    }
  }

  lemma DisposeKeepsOneWrapper(s: Routing, id: nat, hostOf: Slot -> Host)
    requires OneWrapper(s, hostOf) && id < |s.policies|
    ensures OneWrapper(DisposePolicy(s, id), hostOf)
  {
    DisposeEffect(s, id);
    hide OneWrapper, DisposePolicy, HookOf, HookAfter;
    OneWrapperAfter(s, DisposePolicy(s, id), id, hostOf);
  }

  lemma RetireKeepsOneWrapper(s: Routing, host: Host, hostOf: Slot -> Host)
    requires Consistent(s) && OneWrapper(s, hostOf)
    ensures OneWrapper(Retire(s, host), hostOf)
  {
    if host in s.routes {
      RetireEffect(s, host);
      hide OneWrapper, Retire, HookOf, HookAfter;
      OneWrapperAfter(s, Retire(s, host), s.routes[host].policy, hostOf);
    }
  }

  lemma CreateKeepsOneWrapper(
      s: Routing, host: Host, manager: Manager, bridge: Bridge, prewarmed: Prewarmed, hostOf: Slot -> Host)
    requires RoutesOk(s) && OneWrapper(s, hostOf) && host !in s.routes
    requires OwnSlots(s.windowEvents, host, manager, bridge, hostOf)
    ensures OneWrapper(Routed(s, host, manager, bridge, prewarmed), hostOf)
  {
    var s' := Routed(s, host, manager, bridge, prewarmed);
    var slots := Slots(s.windowEvents, host, manager, bridge);
    RoutedEffect(s, host, manager, bridge, prewarmed);
    hide Routed, HookOf, Slots, RoutesOk;
    forall slot | slot in slots
      ensures HookOf(s, slot) == NativeHook
      ensures forall id: nat | Live(s, id) :: slot !in s.policies[id].originals
    {
      NoLivePolicyOnSlot(s, host, slot, hostOf);
    }
    forall id: nat | Live(s', id) ensures Sits(s', hostOf, id) {
      if id < |s.policies| {
        assert Live(s, id) && Sits(s, hostOf, id);
      }
    }
    forall slot ensures SitsAlone(s', slot) {
      assert SitsAlone(s, slot);
    }
  }

  /** With fixed hosts a host without a route has no wrapper on its members. */
  lemma NoLivePolicyOnSlot(s: Routing, host: Host, slot: Slot, hostOf: Slot -> Host)
    requires RoutesOk(s) && OneWrapper(s, hostOf) && host !in s.routes && hostOf(slot) == host
    ensures HookOf(s, slot) == NativeHook
    ensures forall id: nat | Live(s, id) :: slot !in s.policies[id].originals
  {
    hide HookOf;
    forall id: nat | Live(s, id) ensures slot !in s.policies[id].originals {
      assert InMap(s, id) && Sits(s, hostOf, id);
    }
    assert SitsAlone(s, slot);
  }

  // ----- Routes -----

  lemma RouteKeepsInv(s: Routing, native: Native, host: Host)
    requires Inv(s)
    ensures Inv(RouteFor(s, native, host).0)
  {
    hide Inv, Retire, CreatePolicy, Current;
    ConsistentWhenInv(s);
    RetireKeeps(s, host);
    var manager := Lookup(s, native, host);
    if manager.Some? {
      var bridge, prewarmed := native.client(manager.value), native.prewarmed(manager.value);
      CreateKeeps(Retire(s, host), host, manager.value, bridge, prewarmed);
    }
  }

  lemma ConsistentWhenInv(s: Routing)
    requires Inv(s)
    ensures Consistent(s)
  {
  }

  /** The cache is correct: a route comes back exactly when native resolution yields a manager, for that very
      manager, bridge and prewarm owner, with a live policy. */
  lemma RouteIsCorrect(s: Routing, native: Native, host: Host)
    requires Inv(s)
    ensures Consistent(RouteFor(s, native, host).0)
    ensures var (s', route) := RouteFor(s, native, host);
            var manager := Lookup(s, native, host);
            && (route.Some? <==> manager.Some?)
            && (route.None? ==> host !in s'.routes)
            && (route.Some? ==> host in s'.routes && s'.routes[host] == route.value
                                && Current(s', native, host, manager.value))
  {
    RouteKeepsInv(s, native, host);
    RetireKeeps(s, host);
    hide Inv, Slots, DisposePolicy;
  }

  /** Asking again changes nothing, and other hosts keep their routes. */
  lemma RouteIsStable(s: Routing, native: Native, host: Host)
    requires Inv(s)
    ensures var (s', route) := RouteFor(s, native, host);
            && Consistent(s')
            && (route.Some? ==> RouteFor(s', native, host) == (s', route))
            && s'.disposed == s.disposed && s'.windowEvents == s.windowEvents
            && (forall other | other != host :: other in s'.routes <==> other in s.routes)
            && (forall other | other != host && other in s.routes :: s'.routes[other] == s.routes[other])
  {
    RouteIsCorrect(s, native, host);
    RetireKeeps(s, host);
    hide Inv, Slots, DisposePolicy;
  }

  lemma RouteKeepsOneWrapper(s: Routing, native: Native, host: Host, hostOf: Slot -> Host)
    requires Inv(s) && OneWrapper(s, hostOf) && FixedHosts(s.windowEvents, native, hostOf)
    ensures OneWrapper(RouteFor(s, native, host).0, hostOf)
  {
    ConsistentWhenInv(s);
    RetireKeeps(s, host);
    RetireKeepsOneWrapper(s, host, hostOf);
    var manager := Lookup(s, native, host);
    hide Inv, OneWrapper, Retire, Slots, CreatePolicy;
    if manager.Some? {
      var bridge, prewarmed := native.client(manager.value), native.prewarmed(manager.value);
      CreateKeepsOneWrapper(Retire(s, host), host, manager.value, bridge, prewarmed, hostOf);
    }
  }

  // ----- The order of the map -----

  lemma RouteOfPolicy(s: Routing, id: nat)
    requires Inv(s) && id < |s.policies|
    ensures forall host | host in s.routes && s.routes[host].policy == id :: host == s.policies[id].host
  {
    forall host | host in s.routes && s.routes[host].policy == id ensures host == s.policies[id].host {
      assert EntryOk(s, host);
    }
  }

  /** The order lists the hosts of the map and nothing else, by ascending policy. */
  lemma {:induction false} OrderListsRoutes(s: Routing, n: nat)
    requires Inv(s) && n <= |s.policies|
    ensures forall host :: host in OrderUpTo(s, n) <==> host in s.routes && s.routes[host].policy < n
  {
    if n > 0 {
      OrderListsRoutes(s, n - 1);
      RouteOfPolicy(s, n - 1);
      hide Inv;
      assert OrderUpTo(s, n) == OrderUpTo(s, n - 1) + if InMap(s, n - 1) then [s.policies[n - 1].host] else [];
    }
  }

  /** The sweep removes exactly the routes whose native owner was replaced or disconnected. */
  lemma RetireStaleIsExact(s: Routing, native: Native)
    requires Inv(s)
    ensures var s' := RetireStale(s, native);
            && Inv(s') && s'.disposed == s.disposed && s'.windowEvents == s.windowEvents
            && (forall host :: host in s'.routes <==> host in s.routes && !Stale(s, native, host))
            && (forall host | host in s'.routes :: s'.routes[host] == s.routes[host])
  {
    RetireStaleKeeps(s, native, MapOrder(s));
    OrderListsRoutes(s, |s.policies|);
    forall host | host in s.routes ensures host in MapOrder(s) {
      assert EntryOk(s, host);
    }
  }

  lemma {:induction false} RetireStaleKeeps(s: Routing, native: Native, hosts: seq<Host>)
    requires Inv(s)
    ensures var s' := RetireStaleFrom(s, native, hosts);
            && Inv(s') && s'.disposed == s.disposed && s'.windowEvents == s.windowEvents
            && (forall host | host in s'.routes :: host in s.routes && s'.routes[host] == s.routes[host])
            && (forall host | host in s.routes ::
                  host in s'.routes <==> !(host in hosts && Stale(s, native, host)))
    decreases hosts
  {
    ConsistentWhenInv(s);
    if hosts != [] {
      hide Inv, Retire;
      RetireKeeps(s, hosts[0]);
      var stale := hosts[0] in s.routes && Stale(s, native, hosts[0]);
      RetireStaleKeeps(if stale then Retire(s, hosts[0]) else s, native, hosts[1..]);
    }
  }

  lemma {:induction false} RetireStaleKeepsOneWrapper(
      s: Routing, native: Native, hosts: seq<Host>, hostOf: Slot -> Host)
    requires Consistent(s) && OneWrapper(s, hostOf)
    ensures OneWrapper(RetireStaleFrom(s, native, hosts), hostOf)
    decreases hosts
  {
    if hosts != [] {
      hide OneWrapper, Retire;
      RetiredCount(s, hosts[0]);
      RetireKeepsOneWrapper(s, hosts[0], hostOf);
      var stale := hosts[0] in s.routes && Stale(s, native, hosts[0]);
      RetireStaleKeepsOneWrapper(if stale then Retire(s, hosts[0]) else s, native, hosts[1..], hostOf);
    }
  }

  // ----- Disposal -----

  lemma {:induction false} RetireAllConcat(s: Routing, hosts: seq<Host>, last: Host)
    requires Consistent(s)
    ensures RetireAllFrom(s, hosts + [last]) == Retire(RetireAllFrom(s, hosts), last)
    decreases hosts
  {
    if hosts == [] {
      assert [] + [last] == [last] && [last][1..] == [];
    } else {
      hide Retire;
      RetiredCount(s, hosts[0]);
      assert (hosts + [last])[1..] == hosts[1..] + [last] && (hosts + [last])[0] == hosts[0];
      RetireAllConcat(Retire(s, hosts[0]), hosts[1..], last);
    }
  }

  /** What a member is once the policies below `n` are disposed: a live wrapper among them gave way to what it
      wrapped, anything else stayed. */
  function HookUpTo(s: Routing, n: nat, slot: Slot): Hook {
    var hook := HookOf(s, slot);
    if hook.Wrapper? && hook.policy < n && Live(s, hook.policy) && slot in s.policies[hook.policy].originals
    then s.policies[hook.policy].originals[slot] else hook
  }

  /** The map without the hosts of the first `n` policies. */
  ghost predicate RoutesFrom(s: Routing, n: nat, s': Routing) {
    && (forall host :: host in s'.routes <==> host in s.routes && s.routes[host].policy >= n)
    && (forall host | host in s'.routes :: s'.routes[host] == s.routes[host])
  }

  ghost predicate DisposedUpTo(s: Routing, n: nat, s': Routing) {
    && |s'.policies| == |s.policies|
    && forall id: nat | id < |s.policies| ::
         s'.policies[id] == if id < n then s.policies[id].(disposed := true) else s.policies[id]
  }

  ghost predicate HooksUpTo(s: Routing, n: nat, s': Routing) {
    forall slot :: HookOf(s', slot) == HookUpTo(s, n, slot)
  }

  /** The result of retiring the hosts of the first `n` policies in the order of the map. */
  ghost predicate RetiredUpTo(s: Routing, n: nat, s': Routing) {
    && s' == s.(routes := s'.routes, policies := s'.policies, hooks := s'.hooks)
    && RoutesFrom(s, n, s') && DisposedUpTo(s, n, s') && HooksUpTo(s, n, s')
  }

  lemma {:induction false} RetiresInOrder(s: Routing, n: nat)
    requires Consistent(s) && RoutesOk(s) && HooksOk(s) && n <= |s.policies|
    ensures RetiredUpTo(s, n, RetireAllFrom(s, OrderUpTo(s, n)))
  {
    if n == 0 {
      NothingRetired(s);
    } else {
      RetiresInOrder(s, n - 1);
      var before := RetireAllFrom(s, OrderUpTo(s, n - 1));
      var host := s.policies[n - 1].host;
      hide Consistent, RoutesOk, HooksOk, RetiredUpTo, Retire, RetireAllFrom;
      if host in s.routes && s.routes[host].policy == n - 1 {
        RetireAllConcat(s, OrderUpTo(s, n - 1), host);
        RetiresNext(s, n, before, host);
      } else {
        assert OrderUpTo(s, n) == OrderUpTo(s, n - 1);
        SkipsNext(s, n, before);
      }
    }
  }

  lemma NothingRetired(s: Routing)
    requires Consistent(s)
    ensures RetiredUpTo(s, 0, RetireAllFrom(s, OrderUpTo(s, 0)))
  {
    assert RoutesFrom(s, 0, s);
  }

  /** A policy that is not its host's route was disposed before. */
  lemma SkipsNext(s: Routing, n: nat, before: Routing)
    requires RoutesOk(s) && 0 < n <= |s.policies| && RetiredUpTo(s, n - 1, before)
    requires !InMap(s, n - 1)
    ensures RetiredUpTo(s, n, before)
  {
    assert !Live(s, n - 1);
    forall host | host in s.routes ensures s.routes[host].policy != n - 1 {
      assert EntryOk(s, host);
    }
    assert RoutesFrom(s, n, before) && DisposedUpTo(s, n, before);
    assert forall slot :: HookUpTo(s, n, slot) == HookUpTo(s, n - 1, slot);
    hide HookUpTo, HookOf, RoutesOk;
  }

  lemma RetiresNext(s: Routing, n: nat, before: Routing, host: Host)
    requires RoutesOk(s) && HooksOk(s) && Consistent(before)
    requires 0 < n <= |s.policies| && RetiredUpTo(s, n - 1, before)
    requires host in s.routes && s.routes[host].policy == n - 1
    ensures RetiredUpTo(s, n, Retire(before, host))
  {
    assert host in before.routes && before.routes[host].policy == n - 1;
    RetireEffect(before, host);
    var after := Retire(before, host);
    hide Retire, Consistent, HookOf, RoutesOk, HooksOk, HookUpTo, HookAfter, RoutesFrom, DisposedUpTo, HooksUpTo;
    NextRoutes(s, n, before, host, after);
    NextPolicies(s, n, before, after);
    NextHooks(s, n, before, after);
  }

  lemma NextRoutes(s: Routing, n: nat, before: Routing, host: Host, after: Routing)
    requires RoutesOk(s) && 0 < n <= |s.policies| && RoutesFrom(s, n - 1, before)
    requires host in s.routes && s.routes[host].policy == n - 1 && after.routes == before.routes - {host}
    ensures RoutesFrom(s, n, after)
  {
    forall other | other in s.routes && s.routes[other].policy == n - 1 ensures other == host {
      assert EntryOk(s, other) && EntryOk(s, host);
    }
  }

  lemma NextPolicies(s: Routing, n: nat, before: Routing, after: Routing)
    requires 0 < n <= |s.policies| && DisposedUpTo(s, n - 1, before)
    requires after.policies == before.policies[n - 1 := before.policies[n - 1].(disposed := true)]
    ensures DisposedUpTo(s, n, after)
  {
  }

  lemma NextHooks(s: Routing, n: nat, before: Routing, after: Routing)
    requires HooksOk(s) && 0 < n <= |s.policies|
    requires DisposedUpTo(s, n - 1, before) && HooksUpTo(s, n - 1, before)
    requires forall slot :: HookOf(after, slot) == HookAfter(before, n - 1, slot)
    ensures HooksUpTo(s, n, after)
  {
    hide HookOf, HooksOk, HookAfter, HookUpTo, DisposedUpTo;
    forall slot ensures HookOf(after, slot) == HookUpTo(s, n, slot) {
      NextHook(s, n, before, slot);
    }
  }

  lemma NextHook(s: Routing, n: nat, before: Routing, slot: Slot)
    requires HooksOk(s) && 0 < n <= |s.policies|
    requires DisposedUpTo(s, n - 1, before) && HooksUpTo(s, n - 1, before)
    ensures HookAfter(before, n - 1, slot) == HookUpTo(s, n, slot)
  {
    hide HookOf;
    var hook := HookOf(s, slot);
    assert HookOf(before, slot) == HookUpTo(s, n - 1, slot);
    assert before.policies[n - 1] == s.policies[n - 1];
    assert HookOk(s, slot, hook, |s.policies|);
    if hook.Wrapper? {
      assert OriginalsOk(s, hook.policy);
      assert HookOk(s, slot, s.policies[hook.policy].originals[slot], hook.policy);
    }
  }

  /** The member will be native again: it is already, or one live wrapper sits directly on the native one. */
  predicate ComesOff(s: Routing, slot: Slot) {
    var hook := HookOf(s, slot);
    hook.Wrapper? ==>
      && Live(s, hook.policy)
      && slot in s.policies[hook.policy].originals && s.policies[hook.policy].originals[slot] == NativeHook
  }

  /** Disposal leaves no route and no live policy, and a member is native again if and only if it was before or
      exactly one live wrapper sat on the native one. */
  lemma DisposalIsExact(s: Routing)
    requires Inv(s) && !s.disposed
    ensures var closing := s.(disposed := true);
            && Consistent(closing)
            && var s' := RetireAll(closing);
               && Inv(s') && s'.disposed && s'.windowEvents == s.windowEvents
               && (forall p | p in s'.policies :: p.disposed)
               && (forall slot :: HookOf(s', slot) == NativeHook <==> ComesOff(s, slot))
  {
    var closing, n := s.(disposed := true), |s.policies|;
    FlagIsIrrelevant(s, closing);
    RetiresInOrder(closing, n);
    var s' := RetireAll(closing);
    RetiredKeepsInv(closing, s');
    hide RetireAll, Consistent, RoutesOk, HookOf;
    forall slot ensures HookOf(s', slot) == NativeHook <==> ComesOff(s, slot) {
      assert HookOf(s', slot) == HookUpTo(closing, n, slot);
      assert HookOf(closing, slot) == HookOf(s, slot);
      assert HookOk(s, slot, HookOf(s, slot), n);
    }
    forall p | p in s'.policies ensures p.disposed {
      var id :| 0 <= id < n && s'.policies[id] == p;
    }
  }

  /** The hook a member is left with by disposal. */
  lemma HookAfterDisposal(s: Routing, slot: Slot)
    requires Inv(s) && !s.disposed
    ensures Consistent(s.(disposed := true))
    ensures HookOf(RetireAll(s.(disposed := true)), slot) == HookUpTo(s, |s.policies|, slot)
  {
    var closing := s.(disposed := true);
    FlagIsIrrelevant(s, closing);
    RetiresInOrder(closing, |s.policies|);
    assert HookOf(closing, slot) == HookOf(s, slot);
  }

  lemma FlagIsIrrelevant(s: Routing, closing: Routing)
    requires Consistent(s) && RoutesOk(s) && HooksOk(s) && closing == s.(disposed := true)
    ensures Consistent(closing) && RoutesOk(closing) && HooksOk(closing)
    ensures forall slot :: HookOf(closing, slot) == HookOf(s, slot)
  {
    forall host | host in closing.routes ensures EntryOk(closing, host) {
      assert EntryOk(s, host);
    }
    forall id: nat | Live(closing, id) ensures InMap(closing, id) {
      assert Live(s, id) && InMap(s, id);
    }
    forall slot ensures HookOk(closing, slot, HookOf(closing, slot), |closing.policies|) {
      assert HookOk(s, slot, HookOf(s, slot), |s.policies|);
    }
    forall id: nat | id < |closing.policies| ensures OriginalsOk(closing, id) {
      assert OriginalsOk(s, id);
    }
  }

  lemma RetiredKeepsInv(s: Routing, s': Routing)
    requires Consistent(s) && RoutesOk(s) && HooksOk(s) && RetiredUpTo(s, |s.policies|, s')
    ensures Inv(s') && s'.routes == map[]
  {
    forall host | host in s.routes ensures s.routes[host].policy < |s.policies| {
      assert EntryOk(s, host);
    }
    assert forall host :: host !in s'.routes;
    hide HookOf, HookUpTo;
    forall p | p in s'.policies ensures p.originals.Keys == Slots(s'.windowEvents, p.host, p.manager, p.bridge) {
      var k :| 0 <= k < |s'.policies| && s'.policies[k] == p;
      assert s.policies[k] in s.policies;
    }
    assert RoutesOk(s');
    forall slot ensures HookOk(s', slot, HookOf(s', slot), |s'.policies|) {
      HookUpToIsOk(s, |s.policies|, slot);
    }
    forall id: nat | id < |s'.policies| ensures OriginalsOk(s', id) {
      assert OriginalsOk(s, id);
    }
  }

  lemma HookUpToIsOk(s: Routing, n: nat, slot: Slot)
    requires HooksOk(s)
    ensures HookOk(s, slot, HookUpTo(s, n, slot), |s.policies|)
  {
    var hook := HookOf(s, slot);
    assert HookOk(s, slot, hook, |s.policies|);
    if hook.Wrapper? {
      assert OriginalsOk(s, hook.policy);
    }
  }
}
