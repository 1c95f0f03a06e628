/** Comma-separated exception lists: splitting, trimming and first-wins deduplication that ignores ASCII case. */
module ProxyLists {
  import opened Sequences

  /** The Unicode White_Space property. */
  predicate White(c: char) {
    var n := c as int;
    0x09 <= n <= 0x0D || n == 0x20 || n == 0x85 || n == 0xA0 || n == 0x1680 || 0x2000 <= n <= 0x200A
    || n == 0x2028 || n == 0x2029 || n == 0x202F || n == 0x205F || n == 0x3000
  }

  function LowerChar(c: char): char {
    if 'A' <= c <= 'Z' then (c as int + 32) as char else c
  }

  function Lower(s: string): (l: string)
    ensures |l| == |s| && forall i | 0 <= i < |s| :: l[i] == LowerChar(s[i])
  {
    seq(|s|, i requires 0 <= i < |s| => LowerChar(s[i]))
  }

  function TrimStart(s: string): string {
    if s != [] && White(s[0]) then TrimStart(s[1..]) else s
  }

  function TrimEnd(s: string): string {
    if s != [] && White(s[|s| - 1]) then TrimEnd(s[..|s| - 1]) else s
  }

  function Trim(s: string): string {
    TrimEnd(TrimStart(s))
  }

  function Split(s: string): (pieces: seq<string>)
    ensures pieces != []
  {
    if s == [] then [[]]
    else
      var rest := Split(s[1..]);
      if s[0] == ',' then [[]] + rest else [[s[0]] + rest[0]] + rest[1..]
  }

  function Join(pieces: seq<string>): string {
    if pieces == [] then ""
    else if |pieces| == 1 then pieces[0]
    else pieces[0] + "," + Join(pieces[1..])
  }

  /** Trims every piece and drops the ones left empty. */
  function Clean(pieces: seq<string>): seq<string> {
    if pieces == [] then []
    else (if Trim(pieces[0]) == [] then [] else [Trim(pieces[0])]) + Clean(pieces[1..])
  }

  predicate Has(kept: seq<string>, value: string) {
    exists k | k in kept :: Lower(k) == Lower(value)
  }

  /** Appends, in order, the values that are not there yet in any ASCII case. */
  function KeepFrom(kept: seq<string>, values: seq<string>): seq<string>
    decreases values
  {
    if values == [] then kept
    else KeepFrom(if Has(kept, values[0]) then kept else kept + [values[0]], values[1..])
  }

  method RetainFirst(values: seq<string>) returns (kept: seq<string>)
    ensures kept == KeepFrom([], values)
  {
    kept := [];
    var seen: set<string> := {};
    for i := 0 to |values|
      invariant KeepFrom([], values) == KeepFrom(kept, values[i..])
      invariant seen == set k | k in kept :: Lower(k)
    {
      assert values[i..][1..] == values[i + 1..];
      var lowered := Lower(values[i]);
      assert lowered in seen <==> Has(kept, values[i]);
      if lowered !in seen {
        seen := seen + {lowered};
        kept := kept + [values[i]];
      }
    }
    assert values[|values|..] == [];
  }

  // ----- Splitting undoes joining -----

  predicate NoComma(s: string) {
    ',' !in s
  }

  lemma SplitStep(s: string)
    requires s != []
    ensures var rest := Split(s[1..]); Split(s) == if s[0] == ',' then [[]] + rest else [[s[0]] + rest[0]] + rest[1..]
  {
  }

  lemma SplitAfterComma(b: string)
    ensures Split("," + b) == [[]] + Split(b)
  {
    assert ("," + b)[1..] == b;
  }

  lemma CommaConcatTail(a: string, b: string)
    requires a != []
    ensures var s := a + "," + b; s != [] && s[0] == a[0] && s[1..] == a[1..] + "," + b
  {
  }

  lemma {:induction false} SplitConcat(a: string, b: string)
    ensures Split(a + "," + b) == Split(a) + Split(b)
  {
    if a == [] {
      SplitAfterComma(b);
      assert a + "," + b == "," + b;
    } else {
      CommaConcatTail(a, b);
      SplitStep(a + "," + b);
      SplitStep(a);
      hide *;
      SplitConcat(a[1..], b);
      var rest := Split(a[1..]);
      ConcatTail(rest, Split(b));
      ConcatAssociates(
        if a[0] == ',' then [[]] else [[a[0]] + rest[0]], if a[0] == ',' then rest else rest[1..], Split(b));
    }
  }

  lemma {:induction false} SplitWithoutComma(s: string)
    requires NoComma(s)
    ensures Split(s) == [s]
  {
    if s != [] {
      assert s[0] in s;
      SplitWithoutComma(s[1..]);
      assert s == [s[0]] + s[1..];
    }
  }

  lemma {:induction false} PiecesHaveNoComma(s: string)
    ensures forall p | p in Split(s) :: NoComma(p)
  {
    if s != [] {
      PiecesHaveNoComma(s[1..]);
      var rest := Split(s[1..]);
      assert rest[0] in rest;
    }
  }

  // ----- Trimming -----

  predicate Trimmed(s: string) {
    s != [] && !White(s[0]) && !White(s[|s| - 1])
  }

  lemma {:induction false} TrimTrims(s: string)
    ensures var t := Trim(s); (t == [] || Trimmed(t)) && (NoComma(s) ==> NoComma(t)) && (Trimmed(s) ==> t == s)
  {
    TrimStartTrims(s);
    TrimEndTrims(TrimStart(s));
  }

  lemma {:induction false} TrimStartTrims(s: string)
    ensures var t := TrimStart(s); (t == [] || !White(t[0])) && (NoComma(s) ==> NoComma(t)) && (Trimmed(s) ==> t == s)
  {
    if s != [] && White(s[0]) {
      TrimStartTrims(s[1..]);
    }
  }

  lemma {:induction false} TrimEndTrims(s: string)
    ensures var t := TrimEnd(s); (t == [] || !White(t[|t| - 1])) && t <= s && (Trimmed(s) ==> t == s)
  {
    if s != [] && White(s[|s| - 1]) {
      TrimEndTrims(s[..|s| - 1]);
    }
  }

  /** Every cleaned value is trimmed and not empty, and has a comma only if some input value had one. */
  lemma {:induction false} CleanIsClean(pieces: seq<string>)
    ensures forall c | c in Clean(pieces) :: Trimmed(c)
    ensures (forall p | p in pieces :: NoComma(p)) ==> forall c | c in Clean(pieces) :: NoComma(c)
  {
    if pieces != [] {
      TrimTrims(pieces[0]);
      CleanIsClean(pieces[1..]);
    }
  }

  lemma CleanStep(pieces: seq<string>)
    requires pieces != []
    ensures Clean(pieces) == (if Trim(pieces[0]) == [] then [] else [Trim(pieces[0])]) + Clean(pieces[1..])
  {
  }

  lemma {:induction false} CleanConcat(a: seq<string>, b: seq<string>)
    ensures Clean(a + b) == Clean(a) + Clean(b)
  {
    if a == [] {
      assert [] + b == b;
    } else {
      hide *;
      CleanStep(a);
      ConcatTail(a, b);
      CleanStep(a + b);
      CleanConcat(a[1..], b);
      ConcatAssociates(if Trim(a[0]) == [] then [] else [Trim(a[0])], Clean(a[1..]), Clean(b));
    }
  }
}
