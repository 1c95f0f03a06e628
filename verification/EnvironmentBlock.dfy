/** The environment block of a packaged Windows application: UTF-16 code units, entries sorted by name. */
module EnvironmentBlock {
  import opened Options

  type Unit = nat

  const EQUALS: Unit := 61

  datatype Variable = Variable(name: seq<Unit>, value: seq<Unit>)

  /** The case-folded name that entries are ordered by. */
  type Fold = seq<Unit> -> seq<Unit>

  predicate Valid(v: Variable) {
    v.name != [] && 0 !in v.name && EQUALS !in v.name && 0 !in v.value
  }

  // ----- Sorting -----

  predicate LexLe(a: seq<Unit>, b: seq<Unit>) {
    a == [] || (b != [] && (a[0] < b[0] || (a[0] == b[0] && LexLe(a[1..], b[1..]))))
  }

  lemma {:induction false} LexTotal(a: seq<Unit>, b: seq<Unit>)
    ensures LexLe(a, b) || LexLe(b, a)
  {
    if a != [] && b != [] {
      LexTotal(a[1..], b[1..]);
    }
  }

  lemma {:induction false} LexTransitive(a: seq<Unit>, b: seq<Unit>, c: seq<Unit>)
    requires LexLe(a, b) && LexLe(b, c)
    ensures LexLe(a, c)
  {
    if a != [] && a[0] == b[0] == c[0] {
      LexTransitive(a[1..], b[1..], c[1..]);
    }
  }

  function Insert(fold: Fold, v: Variable, sorted: seq<Variable>): seq<Variable> {
    if sorted == [] || LexLe(fold(v.name), fold(sorted[0].name)) then [v] + sorted
    else [sorted[0]] + Insert(fold, v, sorted[1..])
  }

  function Sort(fold: Fold, entries: seq<Variable>): seq<Variable> {
    if entries == [] then [] else Insert(fold, entries[0], Sort(fold, entries[1..]))
  }

  ghost predicate Ordered(fold: Fold, entries: seq<Variable>) {
    forall i, j | 0 <= i < j < |entries| :: LexLe(fold(entries[i].name), fold(entries[j].name))
  }

  /** The entries of one folded name, in order. */
  function Named(fold: Fold, entries: seq<Variable>, key: seq<Unit>): seq<Variable> {
    if entries == [] then []
    else
      var rest := Named(fold, entries[1..], key);
      if fold(entries[0].name) == key then [entries[0]] + rest else rest
  }

  lemma {:induction false} InsertKeeps(fold: Fold, v: Variable, sorted: seq<Variable>, key: seq<Unit>)
    ensures multiset(Insert(fold, v, sorted)) == multiset{v} + multiset(sorted)
    ensures Named(fold, Insert(fold, v, sorted), key) == Named(fold, [v] + sorted, key)
  {
    assert ([v] + sorted)[1..] == sorted;
    if !(sorted == [] || LexLe(fold(v.name), fold(sorted[0].name))) {
      assert sorted == [sorted[0]] + sorted[1..];
      InsertKeeps(fold, v, sorted[1..], key);
      var rest := Insert(fold, v, sorted[1..]);
      assert ([sorted[0]] + rest)[1..] == rest && ([v] + sorted[1..])[1..] == sorted[1..];
      LexReflexive(fold(v.name));
    }
  }

  lemma {:induction false} LexReflexive(a: seq<Unit>)
    ensures LexLe(a, a)
  {
    if a != [] {
      LexReflexive(a[1..]);
    }
  }

  lemma {:induction false} InsertKeepsOrder(fold: Fold, v: Variable, sorted: seq<Variable>)
    requires Ordered(fold, sorted)
    ensures Ordered(fold, Insert(fold, v, sorted))
  {
    if sorted == [] {
    } else if LexLe(fold(v.name), fold(sorted[0].name)) {
      forall j | 0 <= j < |sorted| ensures LexLe(fold(v.name), fold(sorted[j].name)) {
        if j > 0 {
          LexTransitive(fold(v.name), fold(sorted[0].name), fold(sorted[j].name));
        }
      }
    } else {
      InsertKeepsOrder(fold, v, sorted[1..]);
      LexTotal(fold(v.name), fold(sorted[0].name));
      InsertKeeps(fold, v, sorted[1..], []);
      var rest := Insert(fold, v, sorted[1..]);
      forall j | 0 <= j < |rest| ensures LexLe(fold(sorted[0].name), fold(rest[j].name)) {
        assert rest[j] in multiset(rest);
        assert rest[j] == v || rest[j] in sorted[1..];
      }
    }
  }

  /** The sort is a stable permutation in name order. */
  lemma {:induction false} SortIsStable(fold: Fold, entries: seq<Variable>)
    ensures multiset(Sort(fold, entries)) == multiset(entries)
    ensures Ordered(fold, Sort(fold, entries))
    ensures forall key :: Named(fold, Sort(fold, entries), key) == Named(fold, entries, key)
  {
    if entries != [] {
      assert entries == [entries[0]] + entries[1..];
      SortIsStable(fold, entries[1..]);
      var sorted := Sort(fold, entries[1..]);
      InsertKeepsOrder(fold, entries[0], sorted);
      InsertKeeps(fold, entries[0], sorted, []);
      forall key ensures Named(fold, Sort(fold, entries), key) == Named(fold, entries, key) {
        InsertKeeps(fold, entries[0], sorted, key);
        assert ([entries[0]] + sorted)[1..] == sorted;
      }
    }
  }

  // ----- The block -----

  function Entry(v: Variable): seq<Unit> {
    v.name + [EQUALS] + v.value + [0]
  }

  function Entries(entries: seq<Variable>): seq<Unit> {
    if entries == [] then [] else Entry(entries[0]) + Entries(entries[1..])
  }

  function Block(fold: Fold, environment: seq<Variable>): seq<Unit> {
    if environment == [] then [0, 0] else Entries(Sort(fold, environment)) + [0]
  }

  method BuildBlock(fold: Fold, environment: seq<Variable>) returns (block: Option<seq<Unit>>)
    ensures block.Some? <==>
              forall v | v in environment :: v.name != [] && 0 !in v.name && 61 !in v.name && 0 !in v.value
    ensures block.Some? ==> block.value == Block(fold, environment)
  {
    for i := 0 to |environment|
      invariant forall v | v in environment[..i] :: Valid(v)
    {
      if !Valid(environment[i]) {
        return None;
      }
      assert environment[..i + 1] == environment[..i] + [environment[i]];
    }
    assert environment[..|environment|] == environment;
    SortIsStable(fold, environment);
    assert |multiset(Sort(fold, environment))| == |multiset(environment)|;
    EntriesLength(Sort(fold, environment));
    var units := RenderEntries(Sort(fold, environment));
    units := units + [0];
    if |units| == 1 {
      units := units + [0];
    }
    return Some(units);
  }

  method RenderEntries(entries: seq<Variable>) returns (units: seq<Unit>)
    ensures units == Entries(entries)
  {
    units := [];
    for i := 0 to |entries|
      invariant Entries(entries) == units + Entries(entries[i..])
    {
      assert entries[i..][1..] == entries[i + 1..];
      assert Entries(entries[i..]) == Entry(entries[i]) + Entries(entries[i + 1..]);
      units := units + (entries[i].name + [EQUALS] + entries[i].value + [0]);
    }
  }

  lemma EntriesLength(entries: seq<Variable>)
    ensures entries != [] ==> |Entries(entries)| >= 2
    ensures entries == [] ==> Entries(entries) == []
  {
  }

  // ----- Reading it back -----

  function IndexOf(units: seq<Unit>, u: Unit): (i: nat)
    ensures i <= |units|
    ensures forall k | 0 <= k < i :: units[k] != u
    ensures i < |units| ==> units[i] == u
  {
    if units == [] || units[0] == u then 0 else 1 + IndexOf(units[1..], u)
  }

  /** Entries up to the empty one; each is split at its first equals sign. */
  function Decode(block: seq<Unit>): seq<Variable>
    decreases |block|
  {
    var end := IndexOf(block, 0);
    if end == 0 || end == |block| then []
    else
      var entry := block[..end];
      var split := IndexOf(entry, EQUALS);
      [Variable(entry[..split], if split < |entry| then entry[split + 1..] else [])] + Decode(block[end + 1..])
  }

  lemma FirstIndex(units: seq<Unit>, u: Unit, i: nat)
    requires i < |units| && units[i] == u && forall k | 0 <= k < i :: units[k] != u
    ensures IndexOf(units, u) == i
  {
  }

  lemma DecodeEntry(v: Variable, rest: seq<Unit>)
    requires Valid(v)
    ensures Decode(Entry(v) + rest) == [v] + Decode(rest)
  {
    var block := Entry(v) + rest;
    var text := v.name + [EQUALS] + v.value;
    assert block[..|text|] == text && block[|text|] == 0 && block[|text| + 1..] == rest;
    forall k | 0 <= k < |text| ensures block[k] != 0 {
      assert block[k] == text[k] && text[k] in v.name + [EQUALS] + v.value;
    }
    FirstIndex(block, 0, |text|);
    assert text[|v.name|] == EQUALS;
    forall k | 0 <= k < |v.name| ensures text[k] != EQUALS {
      assert text[k] == v.name[k];
    }
    FirstIndex(text, EQUALS, |v.name|);
    assert text[..|v.name|] == v.name && text[|v.name| + 1..] == v.value;
  }

  lemma {:induction false} DecodeEntries(entries: seq<Variable>)
    requires forall v | v in entries :: Valid(v)
    ensures Decode(Entries(entries) + [0]) == entries
  {
    if entries == [] {
      assert Entries(entries) + [0] == [0];
    } else {
      DecodeEntries(entries[1..]);
      assert Entries(entries) + [0] == Entry(entries[0]) + (Entries(entries[1..]) + [0]);
      DecodeEntry(entries[0], Entries(entries[1..]) + [0]);
      assert entries == [entries[0]] + entries[1..];
    }
  }

  /** Decoding the block of a valid environment gives the environment as a stable, name-sorted permutation. */
  lemma DecodeOfBlock(fold: Fold, environment: seq<Variable>)
    requires forall v | v in environment :: Valid(v)
    ensures var decoded := Decode(Block(fold, environment));
            && multiset(decoded) == multiset(environment)
            && Ordered(fold, decoded)
            && forall key :: Named(fold, decoded, key) == Named(fold, environment, key)
  {
    SortIsStable(fold, environment);
    var sorted := Sort(fold, environment);
    forall v | v in sorted ensures Valid(v) {
      assert v in multiset(sorted);
    }
    DecodeEntries(sorted);
    if environment == [] {
      assert Decode([0, 0]) == [];
    }
  }

  /** Two NULs in a row are the end of the block and occur nowhere else. */
  lemma DoubleNulIsTheEnd(fold: Fold, environment: seq<Variable>, i: nat)
    requires forall v | v in environment :: Valid(v)
    requires i + 1 < |Block(fold, environment)|
    ensures var block := Block(fold, environment);
            block[i] == 0 && block[i + 1] == 0 <==> i == |block| - 2
  {
    SortIsStable(fold, environment);
    var sorted := Sort(fold, environment);
    forall v | v in sorted ensures Valid(v) {
      assert v in multiset(sorted);
    }
    if environment != [] {
      assert |multiset(sorted)| == |multiset(environment)|;
      EntriesHaveNoDoubleNul(sorted, i);
    }
  }

  lemma {:induction false} EntriesHaveNoDoubleNul(entries: seq<Variable>, i: nat)
    requires entries != [] && forall v | v in entries :: Valid(v)
    requires i + 1 < |Entries(entries) + [0]|
    ensures var block := Entries(entries) + [0];
            block[i] == 0 && block[i + 1] == 0 <==> i == |block| - 2
  {
    var entry, rest := Entry(entries[0]), Entries(entries[1..]) + [0];
    var block := Entries(entries) + [0];
    assert block == entry + rest;
    assert Valid(entries[0]);
    EntryStart(entries[0]);
    if i < |entry| - 1 {
      assert block[i] == entry[i] != 0;
    } else if |entries| == 1 {
      assert rest == [0];
    } else {
      assert Valid(entries[1]);
      EntryStart(entries[1]);
      assert rest[0] == Entry(entries[1])[0] != 0;
      if i >= |entry| {
        EntriesHaveNoDoubleNul(entries[1..], i - |entry|);
      }
    }
  }

  lemma EntryStart(v: Variable)
    requires Valid(v)
    ensures var entry := Entry(v);
            entry[0] != 0 && entry[|entry| - 1] == 0 && forall k | 0 <= k < |entry| - 1 :: entry[k] != 0
  {
    var text := v.name + [EQUALS] + v.value;
    forall k | 0 <= k < |text| ensures Entry(v)[k] != 0 {
      assert text[k] in text;
    }
  }

  /** The order is the lexicographic one: a prefix comes first, otherwise the first difference decides. */
  lemma {:induction false} LexLeExact(a: seq<Unit>, b: seq<Unit>)
    ensures LexLe(a, b) <==>
            a <= b || exists i: nat | i < |a| && i < |b| :: a[..i] == b[..i] && a[i] < b[i]
  {
    if a != [] && b != [] && a[0] == b[0] {
      LexLeExact(a[1..], b[1..]);
      assert a == [a[0]] + a[1..] && b == [b[0]] + b[1..];
      if i: nat :| i < |a| && i < |b| && a[..i] == b[..i] && a[i] < b[i] {
        assert a[1..][..i - 1] == a[..i][1..] == b[..i][1..] == b[1..][..i - 1];
        assert a[1..][i - 1] < b[1..][i - 1];
      }
      if i: nat :| i < |a[1..]| && i < |b[1..]| && a[1..][..i] == b[1..][..i] && a[1..][i] < b[1..][i] {
        assert a[..i + 1] == [a[0]] + a[1..][..i] == [b[0]] + b[1..][..i] == b[..i + 1];
        assert a[i + 1] < b[i + 1];
      }
    } else if a != [] && b != [] {
      assert a[..0] == b[..0];
    }
  }
}
