/** Normalizing a normalized proxy environment changes nothing. */
module ProxyFixedPoint {
  import opened Options
  import opened ProxyLists
  import opened ProxyTokens
  import opened ProxyEnvironment

  /** One reading of a joined exception list, from both spellings of NO_PROXY. */
  function Reread(values: seq<string>, system: seq<string>): seq<string> {
    KeepFrom([], Clean(Split(Join(values)) + Split(Join(values)) + system))
  }

  /** A kept exception list: distinct, trimmed, and covering what the system adds. */
  predicate Kept(values: seq<string>, system: seq<string>) {
    && values != [] && Clean(system) != [] && Distinct(values) && Covers(values, Clean(system))
    && forall v | v in values :: Trimmed(v)
  }

  lemma RereadIsTokensThenSystem(values: seq<string>, system: seq<string>)
    requires values != []
    ensures Reread(values, system) == KeepFrom(KeepFrom([], TokensOf(values)), Clean(system))
  {
    var pieces, tokens := Split(Join(values)), TokensOf(values);
    TokensOfJoin(values);
    CleanConcat(pieces + pieces, system);
    CleanConcat(pieces, pieces);
    KeepFromConcat([], tokens + tokens, Clean(system));
    KeepFromConcat([], tokens, tokens);
    KeepFromGrows([], tokens);
    KeepFromCovered(KeepFrom([], tokens), tokens);
  }

  /** A kept list without commas is read back unchanged. */
  lemma CommaFreeListIsStable(values: seq<string>, system: seq<string>)
    requires Kept(values, system) && forall v | v in values :: NoComma(v)
    ensures Reread(values, system) == values
  {
    RereadIsTokensThenSystem(values, system);
    TokensOfTokens(values);
    assert [] + values == values;
    KeepFromDistinct([], values);
    KeepFromCovered(values, Clean(system));
  }

  /** Whatever the list, reading it once more after one reading changes nothing. */
  lemma SecondReadingIsStable(values: seq<string>, system: seq<string>)
    requires Kept(values, system)
    ensures Reread(Reread(values, system), system) == Reread(values, system)
  {
    var d, added := ReadingSplits(values, system);
    AddedTokensAreCovered(values, system, d, added);
    TokensOfConcat(d, added);
    TokensOfTokens(d);
    RereadIsTokensThenSystem(values, system);
    RereadIsTokensThenSystem(d + added, system);
    KeepFromConcat([], d, TokensOf(added));
    assert [] + d == d;
    KeepFromDistinct([], d);
    KeepFromCovered(d, TokensOf(added));
    hide *;
  }

  /** A reading is the distinct tokens of the list followed by values of the system. */
  lemma ReadingSplits(values: seq<string>, system: seq<string>) returns (d: seq<string>, added: seq<string>)
    requires Kept(values, system)
    ensures d == KeepFrom([], TokensOf(values)) && Reread(values, system) == d + added && d + added != []
    ensures Distinct(d) && Covers(d, TokensOf(values)) && forall v | v in d :: IsToken(v)
    ensures forall a | a in added :: a in Clean(system)
  {
    hide Clean, Split, Join, TokensOf, Reread, KeepFrom, IsToken;
    var tokens := TokensOf(values);
    d := KeepFrom([], tokens);
    RereadIsTokensThenSystem(values, system);
    TokensAreTokens(values);
    KeepFromGrows([], tokens);
    KeepFromGrows(d, Clean(system));
    assert d[0..] == d;
    var second := Reread(values, system);
    added := second[|d|..];
    assert Clean(system)[0] in Clean(system);
    assert Has(second, Clean(system)[0]);
  }

  /** What the system adds after a reading has commas, and all of its tokens were there already. */
  lemma {:induction false} AddedTokensAreCovered(
      values: seq<string>, system: seq<string>, d: seq<string>, added: seq<string>)
    requires Kept(values, system) && Covers(d, TokensOf(values))
    requires forall a | a in added :: a in Clean(system)
    ensures Covers(d, TokensOf(added))
  {
    if added != [] {
      var a := added[0];
      assert a in added;
      assert Has(values, a);
      var v :| v in values && Lower(v) == Lower(a);
      SameCaseSameTokens(v, a);
      TokensAreIncluded(values, v);
      forall t | t in Tokens(a) ensures Has(d, t) {
        var i :| 0 <= i < |Tokens(a)| && Tokens(a)[i] == t;
        assert Lowers(Tokens(a))[i] == Lowers(Tokens(v))[i];
        var u := Tokens(v)[i];
        assert u in Tokens(v) && Has(d, u);
      }
      AddedTokensAreCovered(values, system, d, added[1..]);
    }
  }

  // ----- The whole environment -----

  lemma ExceptionsAreKept(inherited: Inherited, system: Option<Settings>)
    ensures Kept(Exceptions(inherited, system), SystemExceptions(system))
  {
    var pieces := Pieces(inherited, NoProxyUpper) + Pieces(inherited, NoProxyLower);
    CleanIsClean(pieces + SystemExceptions(system));
    CleanConcat(pieces, SystemExceptions(system));
    var values := Clean(pieces + SystemExceptions(system));
    KeepFromGrows([], values);
    var kept := Exceptions(inherited, system);
    assert kept[0..] == kept;
    forall v | v in Clean(SystemExceptions(system)) ensures Has(kept, v) {
      assert v in values;
    }
    LocalhostIsKept(system);
    assert Has(kept, "localhost");
  }

  lemma LocalhostIsKept(system: Option<Settings>)
    ensures "localhost" in Clean(SystemExceptions(system))
  {
    var given := if system.Some? then system.value.exceptions else [];
    CleanConcat(given, DEFAULT_EXCEPTIONS);
    TrimTrims("localhost");
    assert Clean(DEFAULT_EXCEPTIONS)[0] == "localhost";
  }

  /** Everything but the exception list is read back as it was written. */
  lemma OutputReadBack(env: Environment, system: Option<Settings>)
    ensures
      var inherited, again := Collect(env), Collect(Normalize(env, system));
      var active := Active(Pairs(inherited, system));
      && Pairs(again, system) == Pairs(inherited, system)
      && NodeSwitch(again, active) == NodeSwitch(inherited, active)
      && (ListsExceptions(again, active) <==> ListsExceptions(inherited, active))
      && (ListsExceptions(inherited, active) ==>
            Exceptions(again, system) == Reread(Exceptions(inherited, system), SystemExceptions(system)))
  {
    var inherited, again := Collect(env), Collect(Normalize(env, system));
    OutputValues(env, system);
    hide Normalize, Collect, Exceptions, Active, Reread;
    forall kind: Kind
      ensures Pair(again, kind, SystemValue(system, kind)) == Pair(inherited, kind, SystemValue(system, kind))
    {
      assert Get(again, Upper(kind)) == ProxyValue(inherited, kind, Upper(kind), LowerCase(kind), system);
      assert Get(again, LowerCase(kind)) == ProxyValue(inherited, kind, LowerCase(kind), Upper(kind), system);
    }
    var active := Active(Pairs(inherited, system));
    assert Get(again, NodeUseEnvProxy).Some? <==> NodeUseEnvProxy in again;
    assert Get(again, NoProxyUpper).Some? <==> NoProxyUpper in again;
    assert Get(again, NoProxyLower).Some? <==> NoProxyLower in again;
    if ListsExceptions(inherited, active) {
      ReadBackExceptions(inherited, again, system);
    }
  }

  lemma ReadBackExceptions(inherited: Inherited, again: Inherited, system: Option<Settings>)
    requires Get(again, NoProxyUpper) == Some(Join(Exceptions(inherited, system)))
    requires Get(again, NoProxyLower) == Some(Join(Exceptions(inherited, system)))
    ensures Exceptions(again, system) == Reread(Exceptions(inherited, system), SystemExceptions(system))
  {
  }

  predicate NoSystemCommas(system: Option<Settings>) {
    system.Some? ==> forall e | e in system.value.exceptions :: NoComma(e)
  }

  lemma ExceptionsHaveNoCommas(inherited: Inherited, system: Option<Settings>)
    requires NoSystemCommas(system)
    ensures forall v | v in Exceptions(inherited, system) :: NoComma(v)
  {
    var pieces := Pieces(inherited, NoProxyUpper) + Pieces(inherited, NoProxyLower) + SystemExceptions(system);
    if NoProxyUpper in inherited {
      PiecesHaveNoComma(inherited[NoProxyUpper]);
    }
    if NoProxyLower in inherited {
      PiecesHaveNoComma(inherited[NoProxyLower]);
    }
    forall p | p in pieces ensures NoComma(p) {
    }
    CleanIsClean(pieces);
    KeepFromGrows([], Clean(pieces));
    var kept := Exceptions(inherited, system);
    assert kept[0..] == kept;
  }

  /** Normalization is a fixed point when no system exception has a comma. */
  lemma NormalizationIsIdempotent(env: Environment, system: Option<Settings>)
    requires NoSystemCommas(system)
    ensures Normalize(Normalize(env, system), system) == Normalize(env, system)
  {
    var inherited := Collect(env);
    OutputReadBack(env, system);
    ExceptionsAreKept(inherited, system);
    ExceptionsHaveNoCommas(inherited, system);
    CommaFreeListIsStable(Exceptions(inherited, system), SystemExceptions(system));
  }

  /** With commas it can take one more round, and never more than that. */
  lemma TwiceNormalizedIsStable(env: Environment, system: Option<Settings>)
    ensures
      var twice := Normalize(Normalize(env, system), system);
      Normalize(twice, system) == twice
  {
    var inherited, once := Collect(env), Normalize(env, system);
    OutputReadBack(env, system);
    OutputReadBack(once, system);
    ExceptionsAreKept(inherited, system);
    SecondReadingIsStable(Exceptions(inherited, system), SystemExceptions(system));
  }

  /** With commas the extra round is needed: the system exception "," moves to the end of the list. */
  lemma CommaExceptionMoves(env: Environment, system: Option<Settings>)
    requires system.Some? && system.value.exceptions == [","]
    requires NoProxyUpper !in Collect(env) && NoProxyLower !in Collect(env) && Active(Pairs(Collect(env), system))
    ensures Normalize(Normalize(env, system), system) != Normalize(env, system)
  {
    hide Normalize, Collect, Pairs, Exceptions, Join, Reread, Active, Clean, SystemExceptions;
    var inherited, once := Collect(env), Normalize(env, system);
    var first, second := Exceptions(inherited, system), Exceptions(Collect(once), system);
    OutputReadBack(env, system);
    OutputValues(env, system);
    OutputValues(once, system);
    ExceptionsAreKept(inherited, system);
    FirstListStartsWithComma(inherited, system);
    LocalhostIsKept(system);
    RereadStartsWithToken(first, SystemExceptions(system));
    JoinHead(first);
    JoinHead(second);
    assert Get(Collect(once), NoProxyUpper) == Some(Join(first));
    assert Get(Collect(Normalize(once, system)), NoProxyUpper) == Some(Join(second));
  }

  lemma JoinHead(values: seq<string>)
    requires values != [] && values[0] != []
    ensures Join(values) != [] && Join(values)[0] == values[0][0]
  {
  }

  lemma FirstListStartsWithComma(inherited: Inherited, system: Option<Settings>)
    requires system.Some? && system.value.exceptions == [","]
    requires NoProxyUpper !in inherited && NoProxyLower !in inherited
    ensures Exceptions(inherited, system) != [] && Exceptions(inherited, system)[0] == ","
  {
    TrimTrims(",");
    var pieces := Pieces(inherited, NoProxyUpper) + Pieces(inherited, NoProxyLower) + SystemExceptions(system);
    assert pieces == [","] + DEFAULT_EXCEPTIONS;
    assert pieces[1..] == DEFAULT_EXCEPTIONS;
    var cleaned := Clean(pieces);
    assert cleaned[0] == ",";
    KeepFromGrows([","], cleaned[1..]);
    assert !Has([], cleaned[0]) && [] + [cleaned[0]] == [","];
    assert KeepFrom([], cleaned) == KeepFrom([","], cleaned[1..]);
  }

  lemma RereadStartsWithToken(values: seq<string>, system: seq<string>)
    requires Kept(values, system) && "localhost" in Clean(system)
    ensures var r := Reread(values, system); r != [] && r[0] != [] && r[0][0] != ','
  {
    hide Clean, Split, Join, TokensOf, Reread, KeepFrom, Tokens;
    var d, added := ReadingSplits(values, system);
    assert Has(values, "localhost");
    var v :| v in values && Lower(v) == Lower("localhost");
    LocalhostTokens(v);
    TokensAreIncluded(values, v);
    assert Has(d, Tokens(v)[0]);
    assert IsToken(d[0]);
  }

  lemma LocalhostTokens(v: string)
    requires Lower(v) == Lower("localhost")
    ensures Tokens(v) != []
  {
    hide *;
    SameCaseSameTokens(v, "localhost");
    LocalhostIsToken();
    assert |Lowers(Tokens("localhost"))| == |Lowers(Tokens(v))|;
  }

  lemma LocalhostIsToken()
    ensures Tokens("localhost") != []
  {
    SplitWithoutComma("localhost");
    TrimTrims("localhost");
    hide Split, Trim;
  }
}
