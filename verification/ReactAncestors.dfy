/** Ancestors of a fiber in the tree that React has published. */
module ReactAncestors {
  import opened Options

  type Node = nat

  /** What the last node of the return chain says about a published root. */
  datatype Root = NoRootState | NoCurrent | Current(node: Node)

  datatype Fiber = Fiber(
    ret: Option<Node>, alternate: Option<Node>, child: Option<Node>, sibling: Option<Node>, root: Root)

  /** Any pointer graph: cycles, shared nodes and stale pointers are allowed. */
  type Heap = Node -> Fiber

  const MAX_VISITED_FIBERS: nat := 20_000

  ghost predicate Distinct(nodes: seq<Node>) {
    forall i, j | 0 <= i < j < |nodes| :: nodes[i] != nodes[j]
  }

  // ----- The return chain -----

  ghost predicate ReturnChain(h: Heap, first: Node, chain: seq<Node>) {
    && chain != [] && chain[0] == first
    && forall i | 0 <= i < |chain| - 1 :: h(chain[i]).ret == Some(chain[i + 1])
  }

  /** A return chain that ends where no return pointer is left. */
  ghost predicate CompleteChain(h: Heap, first: Node, chain: seq<Node>) {
    ReturnChain(h, first, chain) && h(chain[|chain| - 1]).ret.None?
  }

  lemma {:induction false} ChainsAgree(h: Heap, first: Node, a: seq<Node>, b: seq<Node>, i: nat)
    requires ReturnChain(h, first, a) && ReturnChain(h, first, b) && i < |a| && i < |b|
    ensures a[i] == b[i]
  {
    if i > 0 {
      ChainsAgree(h, first, a, b, i - 1);
      assert h(a[i - 1]).ret == Some(a[i]) && h(b[i - 1]).ret == Some(b[i]);
    }
  }

  lemma {:induction false} CompleteChainIsDistinct(h: Heap, first: Node, chain: seq<Node>, i: nat, j: nat)
    requires CompleteChain(h, first, chain) && i < j < |chain|
    ensures chain[i] != chain[j]
    decreases |chain| - j
  {
    if chain[i] == chain[j] {
      assert h(chain[i]).ret == Some(chain[i + 1]);
      if j + 1 < |chain| {
        assert h(chain[j]).ret == Some(chain[j + 1]);
        CompleteChainIsDistinct(h, first, chain, i + 1, j + 1);
      }
    }
  }

  /** Follows return pointers; gives up on a cycle or after the visit bound. */
  method WalkReturns(h: Heap, first: Node) returns (previous: Option<seq<Node>>)
    ensures previous.Some? ==>
              CompleteChain(h, first, previous.value) && Distinct(previous.value)
                  && |previous.value| <= MAX_VISITED_FIBERS
    ensures previous.None? ==> forall chain | CompleteChain(h, first, chain) :: |chain| > MAX_VISITED_FIBERS
  {
    var nodes: seq<Node>, seen: set<Node> := [], {};
    var node := Some(first);
    while node.Some?
      invariant seen == (set n | n in nodes) && |seen| == |nodes| <= MAX_VISITED_FIBERS
      invariant Distinct(nodes)
      invariant nodes == [] ==> node == Some(first)
      invariant nodes != [] ==> ReturnChain(h, first, nodes) && node == h(nodes[|nodes| - 1]).ret
      decreases MAX_VISITED_FIBERS - |nodes|, node
    {
      if node.value in seen || |seen| >= MAX_VISITED_FIBERS {
        forall chain | CompleteChain(h, first, chain) ensures |chain| > MAX_VISITED_FIBERS {
          ChainOutgrows(h, first, chain, nodes, node.value);
        }
        return None;
      }
      seen := seen + {node.value};
      nodes := nodes + [node.value];
      node := h(node.value).ret;
    }
    return Some(nodes);
  }

  /** A complete chain is longer than any chain that stopped at a repetition or at the bound. */
  lemma ChainOutgrows(h: Heap, first: Node, chain: seq<Node>, nodes: seq<Node>, next: Node)
    requires CompleteChain(h, first, chain)
    requires nodes != [] ==> ReturnChain(h, first, nodes) && h(nodes[|nodes| - 1]).ret == Some(next)
    requires nodes == [] ==> next == first
    requires next in nodes || |nodes| >= MAX_VISITED_FIBERS
    ensures |chain| > MAX_VISITED_FIBERS
  {
    var n := |nodes|;
    if |chain| <= n {
      if |chain| < n {
        assert h(nodes[|chain| - 1]).ret == Some(nodes[|chain|]);
      }
      ChainsAgree(h, first, chain, nodes, |chain| - 1);
      assert false;
    }
    if n > 0 {
      ChainsAgree(h, first, chain, nodes, n - 1);
      assert h(chain[n - 1]).ret == Some(chain[n]);
      if next in nodes {
        var i :| 0 <= i < n && nodes[i] == next;
        ChainsAgree(h, first, chain, nodes, i);
        CompleteChainIsDistinct(h, first, chain, i, n);
      }
    }
  }

  // ----- Parent paths in the published tree -----

  /** `kids` starts at the parent's first child and follows sibling pointers. */
  ghost predicate SiblingRun(h: Heap, parent: Node, kids: seq<Node>) {
    && kids != [] && h(parent).child == Some(kids[0])
    && forall i | 0 <= i < |kids| - 1 :: h(kids[i]).sibling == Some(kids[i + 1])
  }

  ghost predicate IsChild(h: Heap, parent: Node, node: Node) {
    exists kids :: SiblingRun(h, parent, kids) && kids[|kids| - 1] == node
  }

  /** From a node up to `current`, each element being a child of the next. */
  ghost predicate ParentPath(h: Heap, current: Node, path: seq<Node>) {
    && path != [] && path[|path| - 1] == current
    && forall i | 0 <= i < |path| - 1 :: IsChild(h, path[i + 1], path[i])
  }

  // ----- The search -----

  datatype Entry = Entry(node: Node, parent: Option<Entry>)

  function Path(entry: Entry): seq<Node> {
    [entry.node] + if entry.parent.Some? then Path(entry.parent.value) else []
  }

  function Above(entry: Entry): seq<Node> {
    if entry.parent.Some? then Path(entry.parent.value) else []
  }

  /** The part of the published tree below a child or sibling pointer, when it is finite. */
  datatype Forest = Empty | Cons(node: Node, kids: Forest, rest: Forest)

  ghost predicate Represents(h: Heap, pointer: Option<Node>, forest: Forest)
    decreases forest
  {
    match forest
    case Empty => pointer.None?
    case Cons(node, kids, rest) =>
      pointer == Some(node) && Represents(h, h(node).child, kids) && Represents(h, h(node).sibling, rest)
  }

  /** The tree under the current root; siblings of the root do not belong to it. */
  ghost predicate IsTree(h: Heap, current: Node, tree: Forest) {
    tree.Cons? && tree.node == current && tree.rest.Empty? && Represents(h, h(current).child, tree.kids)
  }

  lemma {:induction false} RepresentationIsUnique(h: Heap, pointer: Option<Node>, a: Forest, b: Forest)
    requires Represents(h, pointer, a) && Represents(h, pointer, b)
    ensures a == b
    decreases a
  {
    if a.Cons? {
      RepresentationIsUnique(h, h(a.node).child, a.kids, b.kids);
      RepresentationIsUnique(h, h(a.node).sibling, a.rest, b.rest);
    }
  }

  predicate NonEmpty(paths: seq<seq<Node>>) {
    forall i | 0 <= i < |paths| :: paths[i] != []
  }

  /** The parent paths of a forest in preorder. */
  function Preorder(forest: Forest, above: seq<Node>): (paths: seq<seq<Node>>)
    ensures NonEmpty(paths)
  {
    match forest
    case Empty => []
    case Cons(node, kids, rest) =>
      [[node] + above] + Preorder(kids, [node] + above) + Preorder(rest, above)
  }

  /** The reference search: the first target in `paths`, given up at a repetition or at the bound. */
  function Search(paths: seq<seq<Node>>, seen: set<Node>, targets: set<Node>): seq<Node>
    requires NonEmpty(paths)
  {
    if paths == [] || |seen| >= MAX_VISITED_FIBERS || paths[0][0] in seen then []
    else if paths[0][0] in targets then paths[0]
    else Search(paths[1..], seen + {paths[0][0]}, targets)
  }

  /** What is still to be visited, from the top of the stack down. */
  ghost function Remaining(stack: seq<Entry>, forests: seq<Forest>): (paths: seq<seq<Node>>)
    requires |stack| == |forests|
    ensures NonEmpty(paths)
  {
    if stack == [] then []
    else
      var top := |stack| - 1;
      Preorder(forests[top], Above(stack[top])) + Remaining(stack[..top], forests[..top])
  }

  lemma RemainingPush(stack: seq<Entry>, forests: seq<Forest>, entry: Entry, forest: Forest)
    requires |stack| == |forests|
    ensures Remaining(stack + [entry], forests + [forest]) == Preorder(forest, Above(entry)) + Remaining(stack, forests)
  {
    assert (stack + [entry])[..|stack|] == stack && (forests + [forest])[..|forests|] == forests;
  }

  ghost predicate Tracks(h: Heap, entry: Entry, forest: Forest) {
    && forest.Cons? && forest.node == entry.node
    && Represents(h, h(entry.node).child, forest.kids)
    && if entry.parent.Some? then Represents(h, h(entry.node).sibling, forest.rest) else forest.rest.Empty?
  }

  ghost predicate TracksAll(h: Heap, stack: seq<Entry>, forests: seq<Forest>) {
    |stack| == |forests| && forall i | 0 <= i < |stack| :: Tracks(h, stack[i], forests[i])
  }

  /** The entry's parents are visited, distinct, and form a parent path. */
  ghost predicate EntryOk(h: Heap, current: Node, seen: set<Node>, entry: Entry) {
    && ParentPath(h, current, Path(entry))
    && Distinct(Above(entry))
    && forall n | n in Above(entry) :: n in seen
  }

  lemma ChildEntryOk(h: Heap, current: Node, seen: set<Node>, entry: Entry, child: Node)
    requires EntryOk(h, current, seen, entry) && entry.node !in seen && h(entry.node).child == Some(child)
    ensures EntryOk(h, current, seen + {entry.node}, Entry(child, Some(entry)))
  {
    assert SiblingRun(h, entry.node, [child]);
    assert IsChild(h, entry.node, child);
    assert Path(entry) == [entry.node] + Above(entry);
  }

  lemma SiblingEntryOk(h: Heap, current: Node, seen: set<Node>, entry: Entry, sibling: Node)
    requires EntryOk(h, current, seen, entry) && entry.parent.Some? && h(entry.node).sibling == Some(sibling)
    ensures EntryOk(h, current, seen + {entry.node}, Entry(sibling, entry.parent))
  {
    var path := Path(entry);
    assert IsChild(h, path[1], path[0]);
    var kids :| SiblingRun(h, path[1], kids) && kids[|kids| - 1] == entry.node;
    assert SiblingRun(h, path[1], kids + [sibling]);
    var path' := Path(Entry(sibling, entry.parent));
    assert path' == [sibling] + path[1..];
    forall i | 0 <= i < |path'| - 1 ensures IsChild(h, path'[i + 1], path'[i]) {
      if i == 0 {
        assert (kids + [sibling])[|kids|] == sibling;
      } else {
        assert IsChild(h, path[i + 1], path[i]);
      }
    }
  }

  function Push(stack: seq<Entry>, pointer: Option<Node>, parent: Option<Entry>): seq<Entry> {
    if pointer.Some? then stack + [Entry(pointer.value, parent)] else stack
  }

  /** The sibling goes below the child on the stack; a root entry has no siblings. */
  function Pushed(h: Heap, entry: Entry, below: seq<Entry>): seq<Entry> {
    var sibling := if entry.parent.Some? then h(entry.node).sibling else None;
    Push(Push(below, sibling, entry.parent), h(entry.node).child, Some(entry))
  }

  /** The rest of the search, from one state of the stack and the visited set. */
  function Visit(h: Heap, stack: seq<Entry>, seen: set<Node>, targets: set<Node>): seq<Node>
    decreases MAX_VISITED_FIBERS - |seen|
  {
    if stack == [] || |seen| >= MAX_VISITED_FIBERS then []
    else
      var entry := stack[|stack| - 1];
      if entry.node in seen then []
      else if entry.node in targets then Path(entry)
      else Visit(h, Pushed(h, entry, stack[..|stack| - 1]), seen + {entry.node}, targets)
  }

  lemma {:induction false} VisitIsSound(h: Heap, current: Node, stack: seq<Entry>, seen: set<Node>, targets: set<Node>)
    requires forall e | e in stack :: EntryOk(h, current, seen, e)
    ensures var ancestors := Visit(h, stack, seen, targets);
            ancestors != [] ==>
              ParentPath(h, current, ancestors) && Distinct(ancestors) && ancestors[0] in targets
    decreases MAX_VISITED_FIBERS - |seen|
  {
    if stack != [] && |seen| < MAX_VISITED_FIBERS {
      var entry := stack[|stack| - 1];
      var below := stack[..|stack| - 1];
      assert EntryOk(h, current, seen, entry);
      if entry.node !in seen && entry.node in targets {
        assert Path(entry) == [entry.node] + Above(entry);
      } else if entry.node !in seen {
        var stack' := Pushed(h, entry, below);
        forall e | e in stack' ensures EntryOk(h, current, seen + {entry.node}, e) {
          if e in below {
            assert EntryOk(h, current, seen, e);
          } else if h(entry.node).child == Some(e.node) && e.parent == Some(entry) {
            ChildEntryOk(h, current, seen, entry, e.node);
          } else {
            SiblingEntryOk(h, current, seen, entry, e.node);
          }
        }
        VisitIsSound(h, current, stack', seen + {entry.node}, targets);
      }
    }
  }

  /** Pushing a pointer puts the forest it represents in front of what remains. */
  lemma PushRemains(
      h: Heap, stack: seq<Entry>, forests: seq<Forest>, pointer: Option<Node>, parent: Entry, forest: Forest)
    returns (forests': seq<Forest>)
    requires TracksAll(h, stack, forests) && Represents(h, pointer, forest)
    ensures TracksAll(h, Push(stack, pointer, Some(parent)), forests')
    ensures Remaining(Push(stack, pointer, Some(parent)), forests')
         == Preorder(forest, Path(parent)) + Remaining(stack, forests)
  {
    forests' := forests;
    if pointer.Some? {
      var entry := Entry(pointer.value, Some(parent));
      RemainingPush(stack, forests, entry, forest);
      forests' := forests + [forest];
      assert Tracks(h, entry, forest);
    }
  }

  lemma PushedRemains(h: Heap, entry: Entry, forest: Forest, below: seq<Entry>, forests: seq<Forest>)
    returns (forests': seq<Forest>)
    requires TracksAll(h, below, forests) && Tracks(h, entry, forest)
    ensures TracksAll(h, Pushed(h, entry, below), forests')
    ensures Preorder(forest, Above(entry)) + Remaining(below, forests)
         == [Path(entry)] + Remaining(Pushed(h, entry, below), forests')
  {
    var middle, middleForests := below, forests;
    if entry.parent.Some? {
      middle := Push(below, h(entry.node).sibling, entry.parent);
      middleForests := PushRemains(h, below, forests, h(entry.node).sibling, entry.parent.value, forest.rest);
    }
    assert Remaining(middle, middleForests) == Preorder(forest.rest, Above(entry)) + Remaining(below, forests);
    forests' := PushRemains(h, middle, middleForests, h(entry.node).child, entry, forest.kids);
    PreorderOfEntry(entry, forest);
    Regroup([Path(entry)], Preorder(forest.kids, Path(entry)), Preorder(forest.rest, Above(entry)),
      Remaining(below, forests));
  }

  lemma Regroup<T>(a: seq<T>, b: seq<T>, c: seq<T>, d: seq<T>)
    ensures (a + b + c) + d == a + (b + (c + d))
  {
  }

  lemma PreorderOfEntry(entry: Entry, forest: Forest)
    requires forest.Cons? && forest.node == entry.node
    ensures Preorder(forest, Above(entry))
      == [Path(entry)] + Preorder(forest.kids, Path(entry)) + Preorder(forest.rest, Above(entry))
  {
    assert Path(entry) == [entry.node] + Above(entry);
  }

  lemma {:induction false} VisitIsPreorderSearch(
      h: Heap, stack: seq<Entry>, forests: seq<Forest>, seen: set<Node>, targets: set<Node>)
    requires TracksAll(h, stack, forests)
    ensures Visit(h, stack, seen, targets) == Search(Remaining(stack, forests), seen, targets)
    decreases MAX_VISITED_FIBERS - |seen|
  {
    if stack != [] {
      var top := |stack| - 1;
      var entry, below := stack[top], stack[..top];
      assert Tracks(h, entry, forests[top]) && TracksAll(h, below, forests[..top]);
      var forests' := PushedRemains(h, entry, forests[top], below, forests[..top]);
      var remaining := Remaining(stack, forests);
      var remaining' := Remaining(Pushed(h, entry, below), forests');
      assert remaining == [Path(entry)] + remaining';
      assert remaining[0] == Path(entry) && remaining[1..] == remaining';
      if |seen| < MAX_VISITED_FIBERS && entry.node !in seen {
        VisitIsPreorderSearch(h, Pushed(h, entry, below), forests', seen + {entry.node}, targets);
      }
    }
  }

  function Targets(first: Node, alternate: Option<Node>): set<Node> {
    {first} + if alternate.Some? then {alternate.value} else {}
  }

  method CollectPath(entry: Entry) returns (ancestors: seq<Node>)
    ensures ancestors == Path(entry)
  {
    ancestors := [];
    var cursor := Some(entry);
    while cursor.Some?
      invariant Path(entry) == ancestors + if cursor.Some? then Path(cursor.value) else []
      decreases cursor
    {
      ancestors := ancestors + [cursor.value.node];
      cursor := cursor.value.parent;
    }
  }

  method SearchPublished(h: Heap, current: Node, first: Node, alternate: Option<Node>) returns (ancestors: seq<Node>)
    ensures ancestors == Visit(h, [Entry(current, None)], {}, Targets(first, alternate))
  {
    var stack := [Entry(current, None)];
    var seen: set<Node> := {};
    while |stack| > 0 && |seen| < MAX_VISITED_FIBERS
      invariant Visit(h, [Entry(current, None)], {}, Targets(first, alternate))
             == Visit(h, stack, seen, Targets(first, alternate))
      decreases MAX_VISITED_FIBERS - |seen|
    {
      var entry := stack[|stack| - 1];
      stack := stack[..|stack| - 1];
      if entry.node in seen {
        return [];
      }
      seen := seen + {entry.node};
      if entry.node == first || Some(entry.node) == alternate {
        ancestors := CollectPath(entry);
        return;
      }
      stack := Pushed(h, entry, stack);
    }
    return [];
  }

  lemma CompleteChainIsUnique(h: Heap, first: Node, a: seq<Node>, b: seq<Node>)
    requires CompleteChain(h, first, a) && CompleteChain(h, first, b)
    ensures a == b
  {
    if |a| < |b| {
      ShorterChainIsIncomplete(h, first, a, b);
    } else if |b| < |a| {
      ShorterChainIsIncomplete(h, first, b, a);
    }
    forall i | 0 <= i < |a| ensures a[i] == b[i] {
      ChainsAgree(h, first, a, b, i);
    }
  }

  lemma ShorterChainIsIncomplete(h: Heap, first: Node, a: seq<Node>, b: seq<Node>)
    requires ReturnChain(h, first, a) && ReturnChain(h, first, b) && |a| < |b|
    ensures h(a[|a| - 1]).ret.Some?
  {
    ChainsAgree(h, first, a, b, |a| - 1);
    assert h(b[|a| - 1]).ret == Some(b[|a|]);
  }

  // ----- What the published search answers -----

  /** On any pointer graph a non-empty answer is a duplicate-free path of child links from the fiber or its
      alternate up to the current root. */
  lemma PublishedPathIsCommitted(h: Heap, current: Node, first: Node, alternate: Option<Node>)
    ensures var ancestors := Visit(h, [Entry(current, None)], {}, Targets(first, alternate));
            ancestors != [] ==>
              && ParentPath(h, current, ancestors) && Distinct(ancestors)
              && (ancestors[0] == first || Some(ancestors[0]) == alternate)
  {
    assert EntryOk(h, current, {}, Entry(current, None));
    VisitIsSound(h, current, [Entry(current, None)], {}, Targets(first, alternate));
  }

  /** Position `i` of the preorder is the first target, is within the visit bound, and no node is met
      twice on the way to it. */
  ghost predicate FirstMatch(paths: seq<seq<Node>>, targets: set<Node>, i: nat)
    requires NonEmpty(paths)
  {
    && i < |paths| && i < MAX_VISITED_FIBERS && paths[i][0] in targets
    && (forall k | 0 <= k < i :: paths[k][0] !in targets)
    && (forall j, k | 0 <= j < k <= i :: paths[j][0] != paths[k][0])
  }

  function Heads(paths: seq<seq<Node>>): set<Node>
    requires NonEmpty(paths)
  {
    set i | 0 <= i < |paths| :: paths[i][0]
  }

  /** One step of the search over paths whose first `n` have been passed. */
  lemma SearchStep(paths: seq<seq<Node>>, n: nat, targets: set<Node>)
    requires NonEmpty(paths) && n <= |paths|
    ensures var seen := Heads(paths[..n]);
            Search(paths[n..], seen, targets) ==
              if n == |paths| || |seen| >= MAX_VISITED_FIBERS || paths[n][0] in seen then []
              else if paths[n][0] in targets then paths[n]
              else Search(paths[n + 1..], Heads(paths[..n + 1]), targets)
  {
    if n < |paths| {
      HeadsGrow(paths, n);
      assert paths[n..][0] == paths[n] && paths[n..][1..] == paths[n + 1..];
    }
    hide Heads;
  }

  /** The first `n` paths have different heads, none of them a target. */
  ghost predicate Passed(paths: seq<seq<Node>>, targets: set<Node>, n: nat)
    requires NonEmpty(paths) && n <= |paths|
  {
    && (forall j, k | 0 <= j < k < n :: paths[j][0] != paths[k][0])
    && (forall k | 0 <= k < n :: paths[k][0] !in targets)
  }

  lemma {:induction false} SearchFindsFirstMatch(paths: seq<seq<Node>>, targets: set<Node>, n: nat)
    requires NonEmpty(paths) && n <= |paths| && n <= MAX_VISITED_FIBERS && Passed(paths, targets, n)
    ensures var found := Search(paths[n..], Heads(paths[..n]), targets);
            && (forall i: nat | n <= i && FirstMatch(paths, targets, i) :: found == paths[i])
            && (found != [] ==> exists i: nat :: n <= i && FirstMatch(paths, targets, i))
    decreases |paths| - n
  {
    HeadsCount(paths, n);
    SearchStep(paths, n, targets);
    hide Search;
    if n < |paths| && n < MAX_VISITED_FIBERS {
      NextHead(paths, targets, n);
      if paths[n][0] in Heads(paths[..n]) {
        RepeatedHead(paths, targets, n);
      } else if paths[n][0] !in targets {
        hide Heads;
        SearchFindsFirstMatch(paths, targets, n + 1);
        assert !FirstMatch(paths, targets, n);
      } else {
        hide Heads;
        OnlyMatch(paths, targets, n);
      }
    }
  }

  lemma NextHead(paths: seq<seq<Node>>, targets: set<Node>, n: nat)
    requires NonEmpty(paths) && n < |paths| && Passed(paths, targets, n)
    ensures paths[n][0] !in Heads(paths[..n]) ==>
              && (forall j | 0 <= j < n :: paths[j][0] != paths[n][0])
              && (paths[n][0] !in targets ==> Passed(paths, targets, n + 1))
  {
    forall j | 0 <= j < n ensures paths[j][0] in Heads(paths[..n]) {
      assert paths[..n][j] == paths[j];
    }
  }

  /** A first match at `n` is the only one. */
  lemma OnlyMatch(paths: seq<seq<Node>>, targets: set<Node>, n: nat)
    requires NonEmpty(paths) && n < |paths| && n < MAX_VISITED_FIBERS && Passed(paths, targets, n)
    requires paths[n][0] in targets && forall j | 0 <= j < n :: paths[j][0] != paths[n][0]
    ensures FirstMatch(paths, targets, n)
    ensures forall i: nat | n <= i && FirstMatch(paths, targets, i) :: i == n
  {
  }

  lemma RepeatedHead(paths: seq<seq<Node>>, targets: set<Node>, n: nat)
    requires NonEmpty(paths) && n < |paths| && paths[n][0] in Heads(paths[..n])
    ensures forall i: nat | n <= i :: !FirstMatch(paths, targets, i)
  {
    var j :| 0 <= j < n && paths[..n][j][0] == paths[n][0];
    forall i: nat | n <= i ensures !FirstMatch(paths, targets, i) {
      assert paths[j][0] == paths[n][0];
    }
  }

  lemma HeadsGrow(paths: seq<seq<Node>>, n: nat)
    requires NonEmpty(paths) && n < |paths|
    ensures Heads(paths[..n + 1]) == Heads(paths[..n]) + {paths[n][0]}
  {
    assert forall i | 0 <= i < n :: paths[..n + 1][i] == paths[..n][i];
    assert paths[..n + 1][n] == paths[n];
  }

  lemma {:induction false} HeadsCount(paths: seq<seq<Node>>, n: nat)
    requires NonEmpty(paths) && n <= |paths|
    requires forall j, k | 0 <= j < k < n :: paths[j][0] != paths[k][0]
    ensures |Heads(paths[..n])| == n
  {
    if n > 0 {
      HeadsCount(paths, n - 1);
      assert paths[n - 1][0] !in Heads(paths[..n - 1]);
      HeadsGrow(paths, n - 1);
    }
  }

  /** When the published tree is finite, the search answers exactly the parent path of the preorder-first
      target, provided it is within the visit bound and no node repeats before it; otherwise it answers
      nothing. In a proper tree no node repeats at all. */
  lemma PublishedTreeIsSearchedInPreorder(h: Heap, current: Node, first: Node, alternate: Option<Node>, tree: Forest)
    requires IsTree(h, current, tree)
    ensures var ancestors := Visit(h, [Entry(current, None)], {}, Targets(first, alternate));
            var paths := Preorder(tree, []);
            && (forall i: nat | FirstMatch(paths, Targets(first, alternate), i) :: ancestors == paths[i])
            && (ancestors != [] ==> exists i: nat :: FirstMatch(paths, Targets(first, alternate), i))
  {
    var root := Entry(current, None);
    VisitIsPreorderSearch(h, [root], [tree], {}, Targets(first, alternate));
    RemainingPush([], [], root, tree);
    assert [] + [root] == [root] && [] + [tree] == [tree];
    var paths := Preorder(tree, []);
    assert Remaining([root], [tree]) == paths;
    SearchFindsFirstMatch(paths, Targets(first, alternate), 0);
    assert paths[0..] == paths && Heads(paths[..0]) == {};
  }

  /** Every path of the preorder is the parent path of its node, so a found path is not a stale one. */
  lemma {:induction false} PreorderPathsAreParentPaths(
      h: Heap, current: Node, pointer: Option<Node>, forest: Forest, above: seq<Node>, i: nat)
    requires Represents(h, pointer, forest) && i < |Preorder(forest, above)|
    requires above != [] && ParentPath(h, current, above)
    requires pointer.Some? ==> IsChild(h, above[0], pointer.value)
    ensures ParentPath(h, current, Preorder(forest, above)[i])
    decreases forest
  {
    var here := [forest.node] + above;
    var kids, rest := Preorder(forest.kids, here), Preorder(forest.rest, above);
    assert Preorder(forest, above) == [here] + kids + rest;
    assert ParentPath(h, current, here);
    FirstChildIsChild(h, forest.node);
    SiblingIsChild(h, above[0], forest.node);
    hide ParentPath, Preorder, IsChild;
    if i == 0 {
    } else if i - 1 < |kids| {
      PreorderPathsAreParentPaths(h, current, h(forest.node).child, forest.kids, here, i - 1);
    } else {
      PreorderPathsAreParentPaths(h, current, h(forest.node).sibling, forest.rest, above, i - 1 - |kids|);
    }
  }

  lemma FirstChildIsChild(h: Heap, node: Node)
    ensures h(node).child.Some? ==> IsChild(h, node, h(node).child.value)
  {
    if h(node).child.Some? {
      assert SiblingRun(h, node, [h(node).child.value]);
    }
  }

  lemma SiblingIsChild(h: Heap, parent: Node, node: Node)
    requires IsChild(h, parent, node)
    ensures h(node).sibling.Some? ==> IsChild(h, parent, h(node).sibling.value)
  {
    if h(node).sibling.Some? {
      var run :| SiblingRun(h, parent, run) && run[|run| - 1] == node;
      assert SiblingRun(h, parent, run + [h(node).sibling.value]);
    }
  }

  // ----- The whole operation -----

  function FromChain(h: Heap, first: Node, chain: seq<Node>): seq<Node>
    requires chain != []
  {
    if |chain| > MAX_VISITED_FIBERS then []
    else
      match h(chain[|chain| - 1]).root
      case NoRootState => chain
      case NoCurrent => []
      case Current(current) => Visit(h, [Entry(current, None)], {}, Targets(first, h(first).alternate))
  }

  /** Position `i` of the preorder holds the fiber or its alternate, is the first that does, is within the visit
      bound, and no node is met twice up to it. */
  ghost predicate CommittedMatch(paths: seq<seq<Node>>, first: Node, alternate: Option<Node>, i: nat)
    requires NonEmpty(paths)
  {
    && i < |paths| && i < MAX_VISITED_FIBERS && (paths[i][0] == first || Some(paths[i][0]) == alternate)
    && (forall k | 0 <= k < i :: paths[k][0] != first && Some(paths[k][0]) != alternate)
    && (forall j, k | 0 <= j < k <= i :: paths[j][0] != paths[k][0])
  }

  /** The answer for a fiber with this complete return chain: nothing past the visit bound; the chain itself when
      no published root is to be seen; nothing for a root without a tree. In a published tree it is a parent path
      of the fiber or its alternate; when that tree is finite, that of the first match in preorder, or nothing if
      there is none. */
  ghost predicate CommittedAnswer(h: Heap, first: Node, chain: seq<Node>, ancestors: seq<Node>)
    requires chain != []
  {
    if |chain| > MAX_VISITED_FIBERS then ancestors == []
    else
      match h(chain[|chain| - 1]).root
      case NoRootState => ancestors == chain
      case NoCurrent => ancestors == []
      case Current(current) =>
        && (ancestors != [] ==>
              && ParentPath(h, current, ancestors) && Distinct(ancestors)
              && (ancestors[0] == first || Some(ancestors[0]) == h(first).alternate))
        && forall tree | IsTree(h, current, tree) ::
             && (forall i: nat | CommittedMatch(Preorder(tree, []), first, h(first).alternate, i) ::
                   ancestors == Preorder(tree, [])[i])
             && (ancestors != [] ==>
                   exists i: nat :: CommittedMatch(Preorder(tree, []), first, h(first).alternate, i))
  }

  lemma FromChainIsCommitted(h: Heap, first: Node, chain: seq<Node>)
    requires chain != []
    ensures CommittedAnswer(h, first, chain, FromChain(h, first, chain))
  {
    var root := h(chain[|chain| - 1]).root;
    if |chain| <= MAX_VISITED_FIBERS && root.Current? {
      PublishedPathIsCommitted(h, root.node, first, h(first).alternate);
      forall tree | IsTree(h, root.node, tree)
        ensures var ancestors := FromChain(h, first, chain);
                && (forall i: nat | CommittedMatch(Preorder(tree, []), first, h(first).alternate, i) ::
                      ancestors == Preorder(tree, [])[i])
                && (ancestors != [] ==>
                      exists i: nat :: CommittedMatch(Preorder(tree, []), first, h(first).alternate, i))
      {
        PublishedTreeIsSearchedInPreorder(h, root.node, first, h(first).alternate, tree);
        forall i: nat
          ensures CommittedMatch(Preorder(tree, []), first, h(first).alternate, i)
                  <==> FirstMatch(Preorder(tree, []), Targets(first, h(first).alternate), i)
        {
        }
      }
    }
    hide Visit, Preorder, IsTree;
  }

  /** The whole operation: the return chain without a published root, the published tree with one. */
  method CommittedReactAncestors(h: Heap, value: Option<Node>) returns (ancestors: seq<Node>)
    ensures value.None? ==> ancestors == []
    ensures value.Some? ==> forall chain | CompleteChain(h, value.value, chain) ::
              ancestors == FromChain(h, value.value, chain) && CommittedAnswer(h, value.value, chain, ancestors)
    ensures value.Some? && (forall chain :: !CompleteChain(h, value.value, chain)) ==> ancestors == []
  {
    if value.None? {
      return [];
    }
    var first := value.value;
    var previous := WalkReturns(h, first);
    if previous.None? {
      forall chain | CompleteChain(h, first, chain) ensures CommittedAnswer(h, first, chain, []) {
        FromChainIsCommitted(h, first, chain);
      }
      return [];
    }
    forall chain | CompleteChain(h, first, chain) ensures chain == previous.value {
      CompleteChainIsUnique(h, first, chain, previous.value);
    }
    FromChainIsCommitted(h, first, previous.value);
    hide CommittedAnswer, Visit;
    match h(previous.value[|previous.value| - 1]).root {
      case NoRootState => return previous.value;
      case NoCurrent => return [];
      case Current(current) => ancestors := SearchPublished(h, current, first, h(first).alternate);
    }
  }
}
