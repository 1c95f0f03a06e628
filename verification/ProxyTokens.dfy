/** What a joined exception list is read back as, and which of its values are kept. */
module ProxyTokens {
  import opened Sequences
  import opened ProxyLists

  // ----- The tokens of a list that was joined and is read again -----

  function Tokens(s: string): seq<string> {
    Clean(Split(s))
  }

  function TokensOf(values: seq<string>): seq<string> {
    if values == [] then [] else Tokens(values[0]) + TokensOf(values[1..])
  }

  lemma {:induction false} TokensOfJoin(values: seq<string>)
    requires values != []
    ensures Tokens(Join(values)) == TokensOf(values)
  {
    if |values| == 1 {
      assert TokensOf(values[1..]) == [];
    } else {
      SplitConcat(values[0], Join(values[1..]));
      CleanConcat(Split(values[0]), Split(Join(values[1..])));
      TokensOfJoin(values[1..]);
    }
  }

  lemma TokensOfStep(values: seq<string>)
    requires values != []
    ensures TokensOf(values) == Tokens(values[0]) + TokensOf(values[1..])
  {
  }

  lemma {:induction false} TokensOfConcat(a: seq<string>, b: seq<string>)
    ensures TokensOf(a + b) == TokensOf(a) + TokensOf(b)
  {
    if a == [] {
      assert [] + b == b;
    } else {
      hide *;
      ConcatTail(a, b);
      TokensOfStep(a);
      TokensOfStep(a + b);
      TokensOfConcat(a[1..], b);
      ConcatAssociates(Tokens(a[0]), TokensOf(a[1..]), TokensOf(b));
    }
  }

  predicate IsToken(s: string) {
    Trimmed(s) && NoComma(s)
  }

  lemma {:induction false} TokensOfTokens(values: seq<string>)
    requires forall v | v in values :: IsToken(v)
    ensures TokensOf(values) == values
  {
    if values != [] {
      assert IsToken(values[0]);
      SplitWithoutComma(values[0]);
      TrimTrims(values[0]);
      assert Clean([values[0]][1..]) == [];
      TokensOfTokens(values[1..]);
    }
  }

  lemma {:induction false} TokensAreTokens(values: seq<string>)
    ensures forall t | t in TokensOf(values) :: IsToken(t)
  {
    if values != [] {
      PiecesHaveNoComma(values[0]);
      CleanIsClean(Split(values[0]));
      TokensAreTokens(values[1..]);
    }
  }

  lemma {:induction false} TokensAreIncluded(values: seq<string>, v: string)
    requires v in values
    ensures forall t | t in Tokens(v) :: t in TokensOf(values)
  {
    if values[0] != v {
      TokensAreIncluded(values[1..], v);
    }
  }

  // ----- Case -----

  function Lowers(values: seq<string>): (ls: seq<string>)
    ensures |ls| == |values| && forall i | 0 <= i < |values| :: ls[i] == Lower(values[i])
  {
    seq(|values|, i requires 0 <= i < |values| => Lower(values[i]))
  }

  lemma {:induction false} LowerSplit(s: string)
    ensures Split(Lower(s)) == Lowers(Split(s))
  {
    if s != [] {
      LowerSplit(s[1..]);
      assert Lower(s)[1..] == Lower(s[1..]);
      assert s[0] != ',' ==> Lower([s[0]] + Split(s[1..])[0]) == [LowerChar(s[0])] + Lower(Split(s[1..])[0]);
    }
  }

  lemma {:induction false} LowerTrimStart(s: string)
    ensures TrimStart(Lower(s)) == Lower(TrimStart(s))
  {
    if s != [] && White(s[0]) {
      LowerTrimStart(s[1..]);
      assert Lower(s)[1..] == Lower(s[1..]);
    }
  }

  lemma {:induction false} LowerTrimEnd(s: string)
    ensures TrimEnd(Lower(s)) == Lower(TrimEnd(s))
  {
    if s != [] && White(s[|s| - 1]) {
      LowerTrimEnd(s[..|s| - 1]);
      assert Lower(s)[..|s| - 1] == Lower(s[..|s| - 1]);
    }
  }

  lemma {:induction false} LowerClean(pieces: seq<string>)
    ensures Clean(Lowers(pieces)) == Lowers(Clean(pieces))
  {
    if pieces != [] {
      LowerTrimStart(pieces[0]);
      LowerTrimEnd(TrimStart(pieces[0]));
      LowerClean(pieces[1..]);
      assert Lowers(pieces)[1..] == Lowers(pieces[1..]);
    }
  }

  /** Values that differ only in ASCII case have tokens that differ only in ASCII case. */
  lemma SameCaseSameTokens(a: string, b: string)
    requires Lower(a) == Lower(b)
    ensures Lowers(Tokens(a)) == Lowers(Tokens(b))
  {
    LowerSplit(a);
    LowerSplit(b);
    LowerClean(Split(a));
    LowerClean(Split(b));
  }

  // ----- Keeping first occurrences -----

  predicate Distinct(values: seq<string>) {
    forall i, j | 0 <= i < j < |values| :: Lower(values[i]) != Lower(values[j])
  }

  predicate Covers(kept: seq<string>, values: seq<string>) {
    forall v | v in values :: Has(kept, v)
  }

  lemma {:induction false} KeepFromConcat(kept: seq<string>, a: seq<string>, b: seq<string>)
    ensures KeepFrom(kept, a + b) == KeepFrom(KeepFrom(kept, a), b)
    decreases a
  {
    if a == [] {
      assert [] + b == b;
    } else {
      KeepFromConcat(if Has(kept, a[0]) then kept else kept + [a[0]], a[1..], b);
      assert (a + b)[1..] == a[1..] + b;
    }
  }

  lemma {:induction false} KeepFromGrows(kept: seq<string>, values: seq<string>)
    requires Distinct(kept)
    ensures var r := KeepFrom(kept, values);
            && kept <= r && Distinct(r) && Covers(r, values)
            && forall v | v in r[|kept|..] :: v in values && !Has(kept, v)
    decreases values
  {
    if values != [] {
      var r := KeepFrom(kept, values);
      if Has(kept, values[0]) {
        KeepFromGrows(kept, values[1..]);
        HasMore(kept, r, values[0]);
      } else {
        var next := kept + [values[0]];
        DistinctGrows(kept, values[0]);
        KeepFromGrows(next, values[1..]);
        assert r == KeepFrom(next, values[1..]);
        hide KeepFrom, Distinct, Has;
        assert values[0] in next;
        HasMore(next, r, values[0]);
        SuffixSplit(kept, values[0], r);
        forall v | v in r[|next|..] ensures v in values && !Has(kept, v) {
          HasMore(kept, next, v);
        }
      }
    }
  }

  lemma DistinctGrows(kept: seq<string>, value: string)
    requires Distinct(kept) && !Has(kept, value)
    ensures Distinct(kept + [value])
  {
    forall i | 0 <= i < |kept| ensures Lower(kept[i]) != Lower(value) {
      assert kept[i] in kept;
    }
  }

  lemma HasMore(kept: seq<string>, more: seq<string>, value: string)
    requires kept <= more
    ensures value in kept || Has(kept, value) ==> Has(more, value)
  {
    assert forall k | k in kept :: k in more;
  }

  lemma {:induction false} KeepFromCovered(kept: seq<string>, values: seq<string>)
    requires Covers(kept, values)
    ensures KeepFrom(kept, values) == kept
    decreases values
  {
    if values != [] {
      KeepFromCovered(kept, values[1..]);
    }
  }

  lemma {:induction false} KeepFromDistinct(kept: seq<string>, values: seq<string>)
    requires Distinct(kept + values)
    ensures KeepFrom(kept, values) == kept + values
    decreases values
  {
    if values == [] {
      assert kept + [] == kept;
    } else {
      assert (kept + values)[|kept|] == values[0];
      assert !Has(kept, values[0]) by {
        forall k | k in kept ensures Lower(k) != Lower(values[0]) {
          var i :| 0 <= i < |kept| && kept[i] == k;
          assert (kept + values)[i] == k;
        }
      }
      assert kept + [values[0]] + values[1..] == kept + values;
      KeepFromDistinct(kept + [values[0]], values[1..]);
    }
  }
}
