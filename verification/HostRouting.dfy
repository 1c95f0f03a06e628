/** One policy per native connection: the routes map and the hooks it installs on native objects. */
module HostRouting {
  import opened Options

  type Host = string
  type Manager = nat
  type Bridge = nat
  type Prewarmed = nat

  /** The members of native objects that a policy wraps. */
  datatype Slot =
    | SendSlot(bridge: Bridge)
    | PrewarmSlot(bridge: Bridge)
    | NotificationSlot(manager: Manager)
    | DispatchSlot(manager: Manager)

  /** What such a member currently is: its own, or the wrapper of some policy. */
  datatype Hook = NativeHook | Wrapper(policy: nat)

  type Hooks = map<Slot, Hook>

  /** A policy remembers what it was created for and the members it wrapped. */
  datatype Policy = Policy(
    host: Host, manager: Manager, bridge: Bridge, prewarmed: Prewarmed, originals: Hooks, disposed: bool)

  datatype Entry = Entry(manager: Manager, bridge: Bridge, prewarmed: Prewarmed, policy: nat)

  /** The native registries as one call sees them: the source of truth that is never cached. */
  datatype Native = Native(resolve: map<Host, Manager>, client: Manager -> Bridge, prewarmed: Manager -> Prewarmed)

  datatype Routing = Routing(
    routes: map<Host, Entry>,
    policies: seq<Policy>,      // every policy ever created
    hooks: Hooks,               // members that were ever written
    windowEvents: bool,         // the page can listen to window messages
    disposed: bool)

  const REMOTE_HOSTS := "remote-control:"

  function New(windowEvents: bool): Routing {
    Routing(map[], [], map[], windowEvents, false)
  }

  function HookOf(s: Routing, slot: Slot): Hook {
    if slot in s.hooks then s.hooks[slot] else NativeHook
  }

  /** A remote host on a page with window messages listens to them; every other one wraps notifications. */
  function Slots(windowEvents: bool, host: Host, manager: Manager, bridge: Bridge): set<Slot> {
    {SendSlot(bridge), PrewarmSlot(bridge), DispatchSlot(manager)}
    + if REMOTE_HOSTS <= host && windowEvents then {} else {NotificationSlot(manager)}
  }

  function Lookup(s: Routing, native: Native, host: Host): Option<Manager> {
    if s.disposed || host !in native.resolve then None else Some(native.resolve[host])
  }

  // ----- Policies -----

  function CreatePolicy(s: Routing, host: Host, manager: Manager, bridge: Bridge, prewarmed: Prewarmed): Routing {
    var slots := Slots(s.windowEvents, host, manager, bridge);
    var originals := map slot | slot in slots :: HookOf(s, slot);
    s.(policies := s.policies + [Policy(host, manager, bridge, prewarmed, originals, false)],
       hooks := s.hooks + map slot | slot in slots :: Wrapper(|s.policies|))
  }

  /** Every member that is still the policy's wrapper becomes what it was. */
  function Unhooked(hooks: Hooks, originals: Hooks, policy: nat): Hooks {
    map slot | slot in hooks ::
      if slot in originals && hooks[slot] == Wrapper(policy) then originals[slot] else hooks[slot]
  }

  function Restored(hooks: Hooks, originals: Hooks, policy: nat, slot: Slot): Hooks {
    if slot in originals && slot in hooks && hooks[slot] == Wrapper(policy) then hooks[slot := originals[slot]]
      else hooks
  }

  /** Putting the four members back one by one puts all of them back. */
  lemma RestoredInTurn(hooks: Hooks, originals: Hooks, policy: nat, bridge: Bridge, manager: Manager)
    requires originals.Keys
      <= {SendSlot(bridge), PrewarmSlot(bridge), NotificationSlot(manager), DispatchSlot(manager)}
    ensures var sent := Restored(hooks, originals, policy, SendSlot(bridge));
            var prewarmed := Restored(sent, originals, policy, PrewarmSlot(bridge));
            var notified := Restored(prewarmed, originals, policy, NotificationSlot(manager));
            Restored(notified, originals, policy, DispatchSlot(manager)) == Unhooked(hooks, originals, policy)
  {
    var sent := Restored(hooks, originals, policy, SendSlot(bridge));
    var prewarmed := Restored(sent, originals, policy, PrewarmSlot(bridge));
    var notified := Restored(prewarmed, originals, policy, NotificationSlot(manager));
    var all := Restored(notified, originals, policy, DispatchSlot(manager));
    var unhooked := Unhooked(hooks, originals, policy);
    assert all.Keys == hooks.Keys == unhooked.Keys;
    forall slot | slot in hooks ensures all[slot] == unhooked[slot] {
    }
  }

  function DisposePolicy(s: Routing, policy: nat): Routing
    requires policy < |s.policies|
  {
    var p := s.policies[policy];
    if p.disposed then s
    else
      s.(policies := s.policies[policy := p.(disposed := true)], hooks := Unhooked(s.hooks, p.originals, policy))
  }

  predicate Owns(p: Policy, manager: Manager, bridge: Bridge, host: Host, prewarmed: Prewarmed) {
    !p.disposed && p.manager == manager && p.bridge == bridge && p.host == host && p.prewarmed == prewarmed
  }

  // ----- The routes map -----

  predicate Consistent(s: Routing) {
    && (forall host | host in s.routes :: s.routes[host].policy < |s.policies|)
    && (forall p | p in s.policies :: p.originals.Keys == Slots(s.windowEvents, p.host, p.manager, p.bridge))
  }

  function Retire(s: Routing, host: Host): Routing
    requires Consistent(s)
  {
    if host !in s.routes then s
    else DisposePolicy(s.(routes := s.routes - {host}), s.routes[host].policy)
  }

  predicate Current(s: Routing, native: Native, host: Host, manager: Manager)
    requires Consistent(s)
  {
    && host in s.routes
    && s.routes[host].manager == manager
    && s.routes[host].bridge == native.client(manager)
    && s.routes[host].prewarmed == native.prewarmed(manager)
    && Owns(s.policies[s.routes[host].policy], manager, native.client(manager), host, native.prewarmed(manager))
  }

  function RouteFor(s: Routing, native: Native, host: Host): (Routing, Option<Entry>)
    requires Consistent(s)
  {
    var manager := Lookup(s, native, host);
    if manager.Some? && Current(s, native, host, manager.value) then (s, Some(s.routes[host]))
    else
      var retired := Retire(s, host);
      if manager.None? then (retired, None)
      else
        var bridge, prewarmed := native.client(manager.value), native.prewarmed(manager.value);
        var entry := Entry(manager.value, bridge, prewarmed, |s.policies|);
        var created := CreatePolicy(retired, host, manager.value, bridge, prewarmed);
        (created.(routes := created.routes[host := entry]), Some(entry))
  }

  predicate Stale(s: Routing, native: Native, host: Host)
    requires host in s.routes
  {
    var manager := Lookup(s, native, host);
    manager != Some(s.routes[host].manager)
    || native.client(manager.value) != s.routes[host].bridge
    || native.prewarmed(manager.value) != s.routes[host].prewarmed
  }

  /** The hosts whose current policy is one of the first `n`, in the order the policies were created. */
  function OrderUpTo(s: Routing, n: nat): seq<Host>
    requires n <= |s.policies|
  {
    if n == 0 then []
    else
      var host := s.policies[n - 1].host;
      OrderUpTo(s, n - 1) + if host in s.routes && s.routes[host].policy == n - 1 then [host] else []
  }

  /** The iteration order of the map: a route is always set together with a new policy, after its host's
      previous entry was deleted. */
  function MapOrder(s: Routing): seq<Host> {
    OrderUpTo(s, |s.policies|)
  }

  function RetireStaleFrom(s: Routing, native: Native, hosts: seq<Host>): (s': Routing)
    requires Consistent(s)
    ensures Consistent(s')
    decreases hosts
  {
    if hosts == [] then s
    else
      var stale := hosts[0] in s.routes && Stale(s, native, hosts[0]);
      RetireStaleFrom(if stale then Retire(s, hosts[0]) else s, native, hosts[1..])
  }

  /** Retires the routes whose native owner was replaced or disconnected. */
  function RetireStale(s: Routing, native: Native): Routing
    requires Consistent(s)
  {
    RetireStaleFrom(s, native, MapOrder(s))
  }

  function RetireAllFrom(s: Routing, hosts: seq<Host>): (s': Routing)
    requires Consistent(s)
    ensures Consistent(s')
    decreases hosts
  {
    if hosts == [] then s else RetireAllFrom(Retire(s, hosts[0]), hosts[1..])
  }

  function RetireAll(s: Routing): Routing
    requires Consistent(s)
  {
    RetireAllFrom(s, MapOrder(s))
  }

  /** The route of a composer's host. `native` is None when discovery throws; only the page's own composer
      (`sweep`) retires stale routes first. */
  function ComposerRoute(
      s: Routing, native: Option<Native>, sweep: bool, active: Option<Host>): (Routing, Option<Entry>)
    requires Consistent(s)
  {
    if s.disposed || native.None? then (s, None)
    else
      var swept := if sweep then RetireStale(s, native.value) else s;
      if active.None? then (swept, None) else RouteFor(swept, native.value, active.value)
  }

  class HostRouter {
    const windowEvents: bool
    var routes: map<Host, Entry>
    var policies: seq<Policy>
    var hooks: Hooks
    var disposed: bool

    function State(): Routing
      reads this
    {
      Routing(routes, policies, hooks, windowEvents, disposed)
    }

    constructor (windowEvents: bool)
      ensures State() == New(windowEvents)
    {
      this.windowEvents := windowEvents;
      routes, policies, hooks, disposed := map[], [], map[], false;
    }

    /** Puts a member back if this policy wrapped it and its wrapper is still there. */
    method RestoreHook(policy: nat, slot: Slot)
      requires policy < |policies|
      modifies this`hooks
      ensures hooks == Restored(old(hooks), policies[policy].originals, policy, slot)
    {
      var originals := policies[policy].originals;
      if slot in originals && slot in hooks && hooks[slot] == Wrapper(policy) {
        hooks := hooks[slot := originals[slot]];
      }
    }

    method DisposeRoutePolicy(policy: nat)
      requires Consistent(State()) && policy < |policies|
      modifies this`policies, this`hooks
      ensures State() == DisposePolicy(old(State()), policy)
    {
      var p := policies[policy];
      if p.disposed {
        return;
      }
      assert p in policies;
      RestoredInTurn(hooks, p.originals, policy, p.bridge, p.manager);
      hide Restored, Unhooked;
      RestoreHook(policy, SendSlot(p.bridge));
      RestoreHook(policy, PrewarmSlot(p.bridge));
      RestoreHook(policy, NotificationSlot(p.manager));
      RestoreHook(policy, DispatchSlot(p.manager));
      policies := policies[policy := p.(disposed := true)];
    }

    method RetireHost(host: Host)
      requires Consistent(State())
      modifies this`routes, this`policies, this`hooks
      ensures State() == Retire(old(State()), host)
    {
      if host in routes {
        var entry := routes[host];
        routes := routes - {host};
        DisposeRoutePolicy(entry.policy);
      }
    }

    method RouteForHost(native: Native, host: Host) returns (route: Option<Entry>)
      requires Consistent(State())
      modifies this
      ensures (State(), route) == RouteFor(old(State()), native, host)
    {
      hide Retire, DisposePolicy;
      var manager := Lookup(State(), native, host);
      if manager.Some? && Current(State(), native, host, manager.value) {
        return Some(routes[host]);
      }
      RetiredCount(State(), host);
      RetireHost(host);
      if manager.None? {
        return None;
      }
      var bridge, prewarmed := native.client(manager.value), native.prewarmed(manager.value);
      var slots := Slots(windowEvents, host, manager.value, bridge);
      var originals := map slot | slot in slots :: HookOf(State(), slot);
      var entry := Entry(manager.value, bridge, prewarmed, |policies|);
      hooks := hooks + map slot | slot in slots :: Wrapper(|policies|);
      policies := policies + [Policy(host, manager.value, bridge, prewarmed, originals, false)];
      routes := routes[host := entry];
      return Some(entry);
    }

    method ForHost(native: Native, host: Host) returns (route: Option<Entry>)
      requires Consistent(State())
      modifies this
      ensures (State(), route) == if host == "" then (old(State()), None) else RouteFor(old(State()), native, host)
    {
      if host == "" {
        return None;
      }
      route := RouteForHost(native, host);
    }

    /** The sweep over the map before the route of the page's composer is looked up. */
    method RetireStaleHosts(native: Native)
      requires Consistent(State())
      modifies this`routes, this`policies, this`hooks
      ensures State() == RetireStale(old(State()), native)
    {
      hide Retire;
      var hosts := MapOrder(State());
      for i := 0 to |hosts|
        invariant Consistent(State())
        invariant RetireStaleFrom(old(State()), native, hosts) == RetireStaleFrom(State(), native, hosts[i..])
      {
        assert hosts[i..][1..] == hosts[i + 1..];
        if hosts[i] in routes && Stale(State(), native, hosts[i]) {
          RetiredCount(State(), hosts[i]);
          RetireHost(hosts[i]);
        }
      }
    }

    method ForComposer(native: Option<Native>, sweep: bool, active: Option<Host>) returns (route: Option<Entry>)
      requires Consistent(State())
      modifies this
      ensures (State(), route) == ComposerRoute(old(State()), native, sweep, active)
    {
      hide RouteFor, RetireStaleFrom;
      if disposed || native.None? {
        return None;
      }
      if sweep {
        RetireStaleHosts(native.value);
      }
      if active.None? {
        return None;
      }
      route := RouteForHost(native.value, active.value);
    }

    method DisposeRouting()
      requires Consistent(State())
      modifies this
      ensures State() == if old(disposed) then old(State()) else RetireAll(old(State()).(disposed := true))
    {
      if disposed {
        return;
      }
      hide Retire;
      disposed := true;
      ghost var start := State();
      var hosts := MapOrder(State());
      for i := 0 to |hosts|
        invariant Consistent(State()) && disposed
        invariant RetireAllFrom(start, hosts) == RetireAllFrom(State(), hosts[i..])
      {
        assert hosts[i..][1..] == hosts[i + 1..];
        RetiredCount(State(), hosts[i]);
        RetireHost(hosts[i]);
      }
    }
  }

  lemma RetiredCount(s: Routing, host: Host)
    requires Consistent(s)
    ensures var s' := Retire(s, host);
            Consistent(s') && |s'.policies| == |s.policies| && s'.disposed == s.disposed
                && s'.windowEvents == s.windowEvents
  {
  }
}
