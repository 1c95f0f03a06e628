/** Which exceptions a child is given, in which order, and in which order its variables are listed. */
module ProxyExceptions {
  import opened Options
  import opened Sequences
  import opened ProxyLists
  import opened ProxyTokens
  import opened ProxyEnvironment

  // ----- Splitting and trimming, without their recursion -----

  /** Joining the pieces gives the text back, and no piece has a comma: there is no other way to split. */
  lemma {:induction false} SplitIsExact(s: string)
    ensures Join(Split(s)) == s && forall p | p in Split(s) :: ',' !in p
  {
    PiecesHaveNoComma(s);
    if s != [] {
      SplitIsExact(s[1..]);
      JoinAfter(Split(s[1..]), s[0]);
      assert s == [s[0]] + s[1..];
    }
  }

  lemma JoinAfter(rest: seq<string>, c: char)
    requires rest != []
    ensures Join([[]] + rest) == "," + Join(rest)
    ensures Join([[c] + rest[0]] + rest[1..]) == [c] + Join(rest)
  {
    hide *;
    JoinStep([[]] + rest);
    assert ([[]] + rest)[1..] == rest;
    assert [] + "," == ",";
    JoinAfterChar(rest[0], rest[1..], c);
    assert [rest[0]] + rest[1..] == rest;
  }

  lemma JoinAfterChar(first: string, rest: seq<string>, c: char)
    ensures Join([[c] + first] + rest) == [c] + Join([first] + rest)
  {
    hide *;
    JoinStep([first] + rest);
    JoinStep([[c] + first] + rest);
    assert ([first] + rest)[1..] == rest && ([[c] + first] + rest)[1..] == rest;
    ConcatAssociates([c], first, ",");
    ConcatAssociates([c], first + ",", Join(rest));
  }

  lemma JoinStep(pieces: seq<string>)
    requires pieces != []
    ensures Join(pieces) == if |pieces| == 1 then pieces[0] else pieces[0] + "," + Join(pieces[1..])
  {
  }

  predicate Blank(s: string) {
    forall c | c in s :: White(c)
  }

  /** Trimming removes white space at both ends and nothing else. */
  lemma TrimIsExact(s: string) returns (before: string, after: string)
    ensures s == before + Trim(s) + after && Blank(before) && Blank(after)
    ensures Trim(s) != "" ==> Trimmed(Trim(s))
  {
    TrimTrims(s);
    before := StartTrimmed(s);
    after := EndTrimmed(TrimStart(s));
  }

  lemma {:induction false} StartTrimmed(s: string) returns (before: string)
    ensures s == before + TrimStart(s) && Blank(before)
  {
    before := "";
    if s != [] && White(s[0]) {
      before := StartTrimmed(s[1..]);
      before := [s[0]] + before;
      assert s == [s[0]] + s[1..];
    }
  }

  lemma {:induction false} EndTrimmed(s: string) returns (after: string)
    ensures s == TrimEnd(s) + after && Blank(after)
  {
    after := "";
    if s != [] && White(s[|s| - 1]) {
      after := EndTrimmed(s[..|s| - 1]);
      after := after + [s[|s| - 1]];
      assert s == s[..|s| - 1] + [s[|s| - 1]];
    }
  }

  lemma {:induction false} CleanKeepsText(pieces: seq<string>)
    ensures forall c :: c in Clean(pieces) <==> c != "" && exists p | p in pieces :: Trim(p) == c
  {
    if pieces != [] {
      CleanKeepsText(pieces[1..]);
      assert forall p :: p in pieces <==> p == pieces[0] || p in pieces[1..];
    }
  }

  // ----- First occurrences -----

  /** The value at `i` is the first of its ASCII case. */
  predicate IsFirst(values: seq<string>, i: nat)
    requires i < |values|
  {
    forall j | 0 <= j < i :: Lower(values[j]) != Lower(values[i])
  }

  /** `kept` are the values at `places`, in that order. */
  predicate TakenFrom(values: seq<string>, kept: seq<string>, places: seq<nat>) {
    && |places| == |kept|
    && (forall k | 0 <= k < |places| :: places[k] < |values| && kept[k] == values[places[k]])
    && (forall k, l | 0 <= k < l < |places| :: places[k] < places[l])
  }

  predicate Firsts(values: seq<string>, places: seq<nat>) {
    && (forall k | 0 <= k < |places| :: places[k] < |values|)
    && (forall i: nat | i < |values| :: i in places <==> IsFirst(values, i))
  }

  /** The kept values are the first occurrences, in the order they occurred. */
  lemma {:induction false} KeptAreFirst(values: seq<string>) returns (places: seq<nat>)
    ensures TakenFrom(values, KeepFrom([], values), places) && Firsts(values, places)
  {
    places := [];
    if values != [] {
      var n := |values| - 1;
      var before := values[..n];
      places := KeptAreFirst(before);
      assert values == before + [values[n]];
      KeepFromConcat([], before, [values[n]]);
      assert [values[n]][1..] == [];
      var kept := KeepFrom([], before);
      KeptIsKnown(before, kept, places, values[n]);
      assert forall i: nat | i < n :: IsFirst(before, i) <==> IsFirst(values, i);
      assert Has(kept, values[n]) <==> !IsFirst(values, n);
      hide KeepFrom, Has, IsFirst;
      if !Has(kept, values[n]) {
        places := places + [n];
      }
    }
  }

  lemma KeptIsKnown(values: seq<string>, kept: seq<string>, places: seq<nat>, value: string)
    requires TakenFrom(values, kept, places) && Firsts(values, places)
    ensures Has(kept, value) <==> exists i | 0 <= i < |values| :: Lower(values[i]) == Lower(value)
  {
    if Has(kept, value) {
      var k :| k in kept && Lower(k) == Lower(value);
      var p :| 0 <= p < |kept| && kept[p] == k;
      assert Lower(values[places[p]]) == Lower(value);
    }
    if i: nat :| i < |values| && Lower(values[i]) == Lower(value) {
      var first := FirstOf(values, i);
      assert first in places;
      var p :| 0 <= p < |places| && places[p] == first;
      assert kept[p] in kept;
    }
  }

  lemma {:induction false} FirstOf(values: seq<string>, i: nat) returns (first: nat)
    requires i < |values|
    ensures first <= i && Lower(values[first]) == Lower(values[i]) && IsFirst(values, first)
  {
    if IsFirst(values, i) {
      first := i;
    } else {
      var j: nat :| j < i && Lower(values[j]) == Lower(values[i]);
      first := FirstOf(values, j);
    }
  }

  /** Every exception that is offered: the comma-separated ones of NO_PROXY, then of no_proxy, then the system's,
      all trimmed and without empty ones, and then the local addresses. */
  function Offered(inherited: Inherited, system: Option<Settings>): seq<string> {
    (if NoProxyUpper in inherited then Tokens(inherited[NoProxyUpper]) else [])
    + (if NoProxyLower in inherited then Tokens(inherited[NoProxyLower]) else [])
    + (if system.Some? then Clean(system.value.exceptions) else [])
    + ["localhost", "127.0.0.1", "::1"]
  }

  /** The exceptions are the first occurrences, in any ASCII case, of what is offered, in the order offered. */
  lemma ExceptionsAreFirstOffered(inherited: Inherited, system: Option<Settings>) returns (places: seq<nat>)
    ensures TakenFrom(Offered(inherited, system), Exceptions(inherited, system), places)
    ensures Firsts(Offered(inherited, system), places)
  {
    OfferedIsCleaned(inherited, system);
    places := KeptAreFirst(Offered(inherited, system));
    hide TakenFrom, Firsts, KeepFrom, Offered;
  }

  lemma OfferedIsCleaned(inherited: Inherited, system: Option<Settings>)
    ensures Exceptions(inherited, system) == KeepFrom([], Offered(inherited, system))
  {
    var upper, lower := Pieces(inherited, NoProxyUpper), Pieces(inherited, NoProxyLower);
    var exceptions := if system.Some? then system.value.exceptions else [];
    DefaultsAreClean();
    CleanConcat(upper + lower, exceptions + DEFAULT_EXCEPTIONS);
    CleanConcat(upper, lower);
    CleanConcat(exceptions, DEFAULT_EXCEPTIONS);
    assert Clean([]) == [];
    assert Clean(upper) + Clean(lower) + (Clean(exceptions) + Clean(DEFAULT_EXCEPTIONS))
        == Clean(upper) + Clean(lower) + Clean(exceptions) + Clean(DEFAULT_EXCEPTIONS);
    hide Clean, Split, KeepFrom;
  }

  lemma DefaultsAreClean()
    ensures Clean(DEFAULT_EXCEPTIONS) == ["localhost", "127.0.0.1", "::1"]
  {
    TokensOfTokensClean("localhost", "127.0.0.1", "::1");
  }

  lemma TokensOfTokensClean(a: string, b: string, c: string)
    requires Trimmed(a) && Trimmed(b) && Trimmed(c)
    ensures Clean([a, b, c]) == [a, b, c]
  {
    TrimTrims(a);
    TrimTrims(b);
    TrimTrims(c);
    assert [a, b, c][1..] == [b, c] && [b, c][1..] == [c] && [c][1..] == [];
    CleanStep([a, b, c]);
    CleanStep([b, c]);
    CleanStep([c]);
  }

  // ----- The variables -----

  /** A proxy that is inherited in neither spelling is the system's for that kind. */
  lemma SystemValuesByKind(env: Environment, system: Option<Settings>, kind: Kind)
    requires Upper(kind) !in Collect(env) && LowerCase(kind) !in Collect(env)
    ensures var output := Collect(Normalize(env, system));
            var value :=
              if system.None? then None
              else
                match kind
                case Http => system.value.http
                case Https => system.value.https
                case All => system.value.all;
            Get(output, Upper(kind)) == value && Get(output, LowerCase(kind)) == value
  {
    OutputValues(env, system);
    hide Collect, Normalize, Exceptions;
  }

  /** NO_PROXY is set exactly when it was inherited in some spelling or an upper-case proxy variable is set and
      not empty; NODE_USE_ENV_PROXY exactly when it was inherited or there is such a variable. */
  lemma ExceptionsAreSetExactly(env: Environment, system: Option<Settings>)
    ensures var inherited, output := Collect(env), Collect(Normalize(env, system));
            var active := exists kind: Kind :: Get(output, Upper(kind)).Some? && Get(output, Upper(kind)).value != "";
            && (Get(output, NoProxyUpper).Some? <==> active || NoProxyUpper in inherited || NoProxyLower in inherited)
            && (Get(output, NodeUseEnvProxy).Some? <==> active || NodeUseEnvProxy in inherited)
  {
    OutputValues(env, system);
    CollectOfPairs(Collect(env), system);
    ActiveExactly(Collect(env), system);
    hide Collect, Normalize, Exceptions, Active, Pairs, Join, ProxyValue;
  }

  lemma ActiveExactly(inherited: Inherited, system: Option<Settings>)
    ensures var m := Collect(Pairs(inherited, system));
            Active(Pairs(inherited, system))
            <==> exists kind: Kind :: Get(m, Upper(kind)).Some? && Get(m, Upper(kind)).value != ""
  {
    var pairs := Pairs(inherited, system);
    CollectOfPairs(inherited, system);
    hide Collect;
    var m := Collect(pairs);
    forall kind: Kind
      ensures Get(m, Upper(kind)).Some? ==> (Upper(kind), Get(m, Upper(kind)).value) in pairs
      ensures forall v | v in pairs && v.0 == Upper(kind) :: Get(m, Upper(kind)) == Some(v.1)
    {
      PairHolds(inherited, system, kind);
    }
    hide Pairs, Get;
    if Active(pairs) {
      var v :| v in pairs && v.0.Upper? && v.1 != "";
      assert v.0 == Upper(v.0.kind);
    }
  }

  lemma PairHolds(inherited: Inherited, system: Option<Settings>, kind: Kind)
    ensures var value := ProxyValue(inherited, kind, Upper(kind), LowerCase(kind), system);
            && (value.Some? ==> (Upper(kind), value.value) in Pairs(inherited, system))
            && forall v | v in Pairs(inherited, system) && v.0 == Upper(kind) :: value == Some(v.1)
  {
    OnePairHolds(inherited, kind, Http, system);
    OnePairHolds(inherited, kind, Https, system);
    OnePairHolds(inherited, kind, All, system);
    var http, https, all :=
      Pair(inherited, Http, SystemValue(system, Http)), Pair(inherited, Https, SystemValue(system, Https)),
      Pair(inherited, All, SystemValue(system, All));
    assert forall v :: v in Pairs(inherited, system) <==> v in http || v in https || v in all;
    hide Pair, Pairs, ProxyValue, SystemValue;
    match kind case Http => case Https => case All =>
  }

  lemma OnePairHolds(inherited: Inherited, kind: Kind, listed: Kind, system: Option<Settings>)
    ensures var value := ProxyValue(inherited, kind, Upper(kind), LowerCase(kind), system);
            var pair := Pair(inherited, listed, SystemValue(system, listed));
            && (value.Some? && kind == listed ==> (Upper(kind), value.value) in pair)
            && forall v | v in pair && v.0 == Upper(kind) :: value == Some(v.1)
  {
  }

  /** The fixed order of the variables. */
  function Rank(name: Name): nat {
    match name
    case Upper(Http) => 0 case LowerCase(Http) => 1
    case Upper(Https) => 2 case LowerCase(Https) => 3
    case Upper(All) => 4 case LowerCase(All) => 5
    case NoProxyUpper => 6 case NoProxyLower => 7
    case NodeUseEnvProxy => 8
    case Other(_) => 9
  }

  /** In ascending order, with ranks from `low` up to but not including `high`. */
  predicate Ordered(env: Environment, low: nat, high: nat) {
    && (forall v | v in env :: low <= Rank(v.0) < high)
    && forall i, j | 0 <= i < j < |env| :: Rank(env[i].0) < Rank(env[j].0)
  }

  lemma OrderedConcat(a: Environment, b: Environment, low: nat, middle: nat, high: nat)
    requires Ordered(a, low, middle) && Ordered(b, middle, high) && low <= middle <= high
    ensures Ordered(a + b, low, high)
  {
    hide Rank;
    forall i, j | 0 <= i < j < |a + b| ensures Rank((a + b)[i].0) < Rank((a + b)[j].0) {
      if i < |a| <= j {
        assert a[i] in a && b[j - |a|] in b;
      }
    }
  }

  /** The variables are listed in one fixed order, each once. */
  lemma OutputIsOrdered(env: Environment, system: Option<Settings>)
    ensures Ordered(Normalize(env, system), 0, 9)
  {
    var inherited := Collect(env);
    var pairs := Pairs(inherited, system);
    PairsAreOrdered(inherited, system);
    RestIsOrdered(inherited, system, Active(pairs));
    var noProxy, node := NoProxy(inherited, system, Active(pairs)), NodeSwitch(inherited, Active(pairs));
    hide *;
    OrderedConcat(pairs, noProxy, 0, 6, 8);
    OrderedConcat(pairs + noProxy, node, 0, 8, 9);
    NormalizeParts(env, system);
  }

  lemma NormalizeParts(env: Environment, system: Option<Settings>)
    ensures var inherited := Collect(env);
            var pairs := Pairs(inherited, system);
            Normalize(env, system)
            == pairs + NoProxy(inherited, system, Active(pairs)) + NodeSwitch(inherited, Active(pairs))
  {
  }

  lemma PairsAreOrdered(inherited: Inherited, system: Option<Settings>)
    ensures Ordered(Pairs(inherited, system), 0, 6)
  {
    var http, https, all :=
      Pair(inherited, Http, SystemValue(system, Http)), Pair(inherited, Https, SystemValue(system, Https)),
      Pair(inherited, All, SystemValue(system, All));
    PairIsOrdered(inherited, Http, SystemValue(system, Http));
    PairIsOrdered(inherited, Https, SystemValue(system, Https));
    PairIsOrdered(inherited, All, SystemValue(system, All));
    assert Pairs(inherited, system) == http + https + all;
    hide Pair, Ordered;
    OrderedConcat(http, https, 0, 2, 4);
    OrderedConcat(http + https, all, 0, 4, 6);
  }

  lemma PairIsOrdered(inherited: Inherited, kind: Kind, system: Option<string>)
    ensures Ordered(Pair(inherited, kind, system), Rank(Upper(kind)), Rank(Upper(kind)) + 2)
  {
  }

  lemma RestIsOrdered(inherited: Inherited, system: Option<Settings>, active: bool)
    ensures Ordered(NoProxy(inherited, system, active), 6, 8) && Ordered(NodeSwitch(inherited, active), 8, 9)
  {
    hide Exceptions, Join;
  }
}
