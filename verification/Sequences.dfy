/** Concatenation. */
module Sequences {

  lemma ConcatAssociates<T>(a: seq<T>, b: seq<T>, c: seq<T>)
    ensures (a + b) + c == a + (b + c)
  {
  }

  lemma ConcatTail<T>(a: seq<T>, b: seq<T>)
    requires a != []
    ensures a + b != [] && (a + b)[0] == a[0] && (a + b)[1..] == a[1..] + b
  {
  }

  /** What follows a prefix, when one more element is known to come next. */
  lemma SuffixSplit<T>(prefix: seq<T>, next: T, all: seq<T>)
    requires prefix + [next] <= all
    ensures prefix <= all && all[|prefix|..] == [next] + all[|prefix| + 1..]
  {
  }
}
