/** The proxy environment handed to a child process. */
module ProxyEnvironment {
  import opened Options
  import opened ProxyLists

  datatype Kind = Http | Https | All

  /** Environment names: each proxy variable in upper and lower case, the two spellings of NO_PROXY,
      NODE_USE_ENV_PROXY, and everything else. */
  datatype Name = Upper(kind: Kind) | LowerCase(kind: Kind) | NoProxyUpper | NoProxyLower | NodeUseEnvProxy
    | Other(name: string)

  type Environment = seq<(Name, string)>
  type Inherited = map<Name, string>

  datatype Settings = Settings(http: Option<string>, https: Option<string>, all: Option<string>,
    exceptions: seq<string>)

  const DEFAULT_EXCEPTIONS := ["localhost", "127.0.0.1", "::1"]

  /** Reading a list of variables: the last value of a name wins. */
  function Collect(env: Environment): Inherited {
    if env == [] then map[] else Collect(env[..|env| - 1])[env[|env| - 1].0 := env[|env| - 1].1]
  }

  function SystemValue(system: Option<Settings>, kind: Kind): Option<string> {
    if system.None? then None
    else match kind case Http => system.value.http case Https => system.value.https case All => system.value.all
  }

  function Pair(inherited: Inherited, kind: Kind, system: Option<string>): Environment {
    if Upper(kind) in inherited && LowerCase(kind) in inherited then
      [(Upper(kind), inherited[Upper(kind)]), (LowerCase(kind), inherited[LowerCase(kind)])]
    else if Upper(kind) in inherited then
      [(Upper(kind), inherited[Upper(kind)]), (LowerCase(kind), inherited[Upper(kind)])]
    else if LowerCase(kind) in inherited then
      [(Upper(kind), inherited[LowerCase(kind)]), (LowerCase(kind), inherited[LowerCase(kind)])]
    else if system.Some? then [(Upper(kind), system.value), (LowerCase(kind), system.value)]
    else []
  }

  function Pairs(inherited: Inherited, system: Option<Settings>): Environment {
    Pair(inherited, Http, SystemValue(system, Http)) + Pair(inherited, Https, SystemValue(system, Https))
    + Pair(inherited, All, SystemValue(system, All))
  }

  predicate Active(env: Environment) {
    exists v | v in env :: v.0.Upper? && v.1 != ""
  }

  function Pieces(inherited: Inherited, name: Name): seq<string> {
    if name in inherited then Split(inherited[name]) else []
  }

  function SystemExceptions(system: Option<Settings>): seq<string> {
    (if system.Some? then system.value.exceptions else []) + DEFAULT_EXCEPTIONS
  }

  function Exceptions(inherited: Inherited, system: Option<Settings>): seq<string> {
    KeepFrom([], Clean(Pieces(inherited, NoProxyUpper) + Pieces(inherited, NoProxyLower) + SystemExceptions(system)))
  }

  predicate ListsExceptions(inherited: Inherited, active: bool) {
    active || NoProxyUpper in inherited || NoProxyLower in inherited
  }

  function NoProxy(inherited: Inherited, system: Option<Settings>, active: bool): Environment {
    if ListsExceptions(inherited, active) then
      var value := Join(Exceptions(inherited, system));
      [(NoProxyUpper, value), (NoProxyLower, value)]
    else []
  }

  function NodeSwitch(inherited: Inherited, active: bool): Environment {
    if NodeUseEnvProxy in inherited then [(NodeUseEnvProxy, inherited[NodeUseEnvProxy])]
    else if active then [(NodeUseEnvProxy, "1")]
    else []
  }

  function Normalize(env: Environment, system: Option<Settings>): Environment {
    var inherited := Collect(env);
    var pairs := Pairs(inherited, system);
    pairs + NoProxy(inherited, system, Active(pairs)) + NodeSwitch(inherited, Active(pairs))
  }

  // ----- The imperative form -----

  method AppendProxyPair(environment: Environment, inherited: Inherited, kind: Kind, system: Option<string>)
    returns (appended: Environment)
    ensures appended == environment + Pair(inherited, kind, system)
  {
    var upper, lower := Upper(kind), LowerCase(kind);
    appended := environment;
    if upper in inherited && lower in inherited {
      appended := appended + [(upper, inherited[upper])];
      appended := appended + [(lower, inherited[lower])];
    } else if upper in inherited || lower in inherited {
      var value := if upper in inherited then inherited[upper] else inherited[lower];
      appended := appended + [(upper, value)];
      appended := appended + [(lower, value)];
    } else if system.Some? {
      appended := appended + [(upper, system.value)];
      appended := appended + [(lower, system.value)];
    }
  }

  method ProxyEnvironmentFrom(inherited: Inherited, system: Option<Settings>) returns (environment: Environment)
    ensures var pairs := Pairs(inherited, system);
            environment == pairs + NoProxy(inherited, system, Active(pairs)) + NodeSwitch(inherited, Active(pairs))
  {
    hide Pair, Clean, Split, KeepFrom, Join;
    environment := [];
    environment := AppendProxyPair(environment, inherited, Http, SystemValue(system, Http));
    environment := AppendProxyPair(environment, inherited, Https, SystemValue(system, Https));
    environment := AppendProxyPair(environment, inherited, All, SystemValue(system, All));
    ghost var pairs := Pairs(inherited, system);
    assert environment == pairs;
    var active := exists v | v in environment :: v.0.Upper? && v.1 != "";
    assert active == Active(pairs);
    hide Pairs, Active;
    var pieces := Pieces(inherited, NoProxyUpper) + Pieces(inherited, NoProxyLower) + SystemExceptions(system);
    var exceptions := RetainFirst(Clean(pieces));
    if active || NoProxyUpper in inherited || NoProxyLower in inherited {
      var value := Join(exceptions);
      environment := environment + [(NoProxyUpper, value), (NoProxyLower, value)];
    }
    assert environment == pairs + NoProxy(inherited, system, active);
    if NodeUseEnvProxy in inherited {
      environment := environment + [(NodeUseEnvProxy, inherited[NodeUseEnvProxy])];
    } else if active {
      environment := environment + [(NodeUseEnvProxy, "1")];
    }
  }

  // ----- Reading the output back -----

  lemma {:induction false} CollectConcat(a: Environment, b: Environment)
    ensures Collect(a + b) == Collect(a) + Collect(b)
  {
    if b == [] {
      assert a + b == a;
    } else {
      var n := |b| - 1;
      assert (a + b)[..|a| + n] == a + b[..n] && (a + b)[|a| + n] == b[n];
      CollectConcat(a, b[..n]);
    }
  }

  lemma CollectOne(a: (Name, string))
    ensures Collect([a]) == map[a.0 := a.1]
  {
    assert [a][..0] == [];
  }

  lemma CollectPair(a: (Name, string), b: (Name, string))
    ensures Collect([a, b]) == map[a.0 := a.1][b.0 := b.1]
  {
    var pair := [a, b];
    assert pair[..1] == [a] && pair[1] == b;
    CollectOne(a);
  }

  /** The value a proxy variable has in the output: what was inherited in its own spelling, else in the other
      spelling, else the system's. */
  function ProxyValue(
      inherited: Inherited, kind: Kind, own: Name, other: Name, system: Option<Settings>): Option<string> {
    if own in inherited then Some(inherited[own])
    else if other in inherited then Some(inherited[other])
    else SystemValue(system, kind)
  }

  function Get(m: Inherited, name: Name): Option<string> {
    if name in m then Some(m[name]) else None
  }

  lemma GetConcat(a: Environment, b: Environment, name: Name)
    ensures Get(Collect(a + b), name) == if Get(Collect(b), name).Some? then Get(Collect(b), name)
      else Get(Collect(a), name)
  {
    CollectConcat(a, b);
  }

  lemma CollectOfPair(inherited: Inherited, kind: Kind, system: Option<Settings>)
    ensures
      var m := Collect(Pair(inherited, kind, SystemValue(system, kind)));
      && Get(m, Upper(kind)) == ProxyValue(inherited, kind, Upper(kind), LowerCase(kind), system)
      && Get(m, LowerCase(kind)) == ProxyValue(inherited, kind, LowerCase(kind), Upper(kind), system)
      && forall name | Get(m, name).Some? :: name == Upper(kind) || name == LowerCase(kind)
  {
    var pair := Pair(inherited, kind, SystemValue(system, kind));
    if pair != [] {
      CollectPair(pair[0], pair[1]);
      assert pair == [pair[0], pair[1]];
    }
  }

  lemma CollectOfPairs(inherited: Inherited, system: Option<Settings>)
    ensures
      var m := Collect(Pairs(inherited, system));
      && (forall kind ::
            && Get(m, Upper(kind)) == ProxyValue(inherited, kind, Upper(kind), LowerCase(kind), system)
            && Get(m, LowerCase(kind)) == ProxyValue(inherited, kind, LowerCase(kind), Upper(kind), system))
      && forall name | Get(m, name).Some? :: name.Upper? || name.LowerCase?
  {
    hide Pair, Collect, ProxyValue, SystemValue, Get;
    var http, https, all :=
      Pair(inherited, Http, SystemValue(system, Http)), Pair(inherited, Https, SystemValue(system, Https)),
      Pair(inherited, All, SystemValue(system, All));
    CollectOfPair(inherited, Http, system);
    CollectOfPair(inherited, Https, system);
    CollectOfPair(inherited, All, system);
    var m := Collect(Pairs(inherited, system));
    forall name
      ensures Get(m, name) == (if Get(Collect(all), name).Some? then Get(Collect(all), name)
                               else if Get(Collect(https), name).Some? then Get(Collect(https), name)
                               else Get(Collect(http), name))
    {
      GetConcat(http + https, all, name);
      GetConcat(http, https, name);
    }
    forall kind
      ensures Get(m, Upper(kind)) == ProxyValue(inherited, kind, Upper(kind), LowerCase(kind), system)
      ensures Get(m, LowerCase(kind)) == ProxyValue(inherited, kind, LowerCase(kind), Upper(kind), system)
    {
      match kind case Http => case Https => case All =>
    }
  }

  /** Explicit values win, empty ones included; what is set is set in both spellings, to one value unless both
      were inherited; NO_PROXY is set exactly when a proxy is active or it was inherited; nothing else is passed. */
  lemma OutputValues(env: Environment, system: Option<Settings>)
    ensures
      var inherited, output := Collect(env), Collect(Normalize(env, system));
      var active := Active(Pairs(inherited, system));
      && (forall kind ::
            && Get(output, Upper(kind)) == ProxyValue(inherited, kind, Upper(kind), LowerCase(kind), system)
            && Get(output, LowerCase(kind)) == ProxyValue(inherited, kind, LowerCase(kind), Upper(kind), system))
      && (forall name | name == NoProxyUpper || name == NoProxyLower ::
            Get(output, name) ==
              if ListsExceptions(inherited, active) then Some(Join(Exceptions(inherited, system))) else None)
      && Get(output, NodeUseEnvProxy) ==
           (if NodeUseEnvProxy in inherited then Some(inherited[NodeUseEnvProxy]) else if active then Some("1")
               else None)
      && forall name | Get(output, name).Some? :: !name.Other?
  {
    hide Pairs, Normalize, Exceptions, Join, Collect, Active, ProxyValue, Get;
    forall name
      ensures Get(Collect(Normalize(env, system)), name) == OutputValue(Collect(env), system, name)
    {
      OutputAt(env, system, name);
    }
    CollectOfPairs(Collect(env), system);
  }

  function OutputValue(inherited: Inherited, system: Option<Settings>, name: Name): Option<string> {
    var active := Active(Pairs(inherited, system));
    match name
    case NodeUseEnvProxy =>
      if NodeUseEnvProxy in inherited then Some(inherited[NodeUseEnvProxy]) else if active then Some("1") else None
    case Upper(_) => Get(Collect(Pairs(inherited, system)), name)
    case LowerCase(_) => Get(Collect(Pairs(inherited, system)), name)
    case Other(_) => None
    case _ => if ListsExceptions(inherited, active) then Some(Join(Exceptions(inherited, system))) else None
  }

  lemma OutputAt(env: Environment, system: Option<Settings>, name: Name)
    ensures Get(Collect(Normalize(env, system)), name) == OutputValue(Collect(env), system, name)
  {
    hide Pairs, NoProxy, NodeSwitch, Exceptions, Join, Collect, Active, ProxyValue, Get;
    var inherited := Collect(env);
    var pairs := Pairs(inherited, system);
    var noProxy, node := NoProxy(inherited, system, Active(pairs)), NodeSwitch(inherited, Active(pairs));
    assert Normalize(env, system) == pairs + noProxy + node;
    GetConcat(pairs + noProxy, node, name);
    GetConcat(pairs, noProxy, name);
    CollectOfPairs(inherited, system);
    NoProxyAt(inherited, system, Active(pairs), name);
    NodeSwitchAt(inherited, Active(pairs), name);
  }

  lemma NoProxyAt(inherited: Inherited, system: Option<Settings>, active: bool, name: Name)
    ensures Get(Collect(NoProxy(inherited, system, active)), name) ==
      if (name == NoProxyUpper || name == NoProxyLower) && ListsExceptions(inherited, active)
      then Some(Join(Exceptions(inherited, system))) else None
  {
    var value := Join(Exceptions(inherited, system));
    CollectPair((NoProxyUpper, value), (NoProxyLower, value));
  }

  lemma NodeSwitchAt(inherited: Inherited, active: bool, name: Name)
    ensures Get(Collect(NodeSwitch(inherited, active)), name) ==
      if name != NodeUseEnvProxy then None
      else if NodeUseEnvProxy in inherited then Some(inherited[NodeUseEnvProxy])
      else if active then Some("1")
      else None
  {
    CollectOne((NodeUseEnvProxy, "1"));
    if NodeUseEnvProxy in inherited {
      CollectOne((NodeUseEnvProxy, inherited[NodeUseEnvProxy]));
    }
  }
}
