/** Two facts about sequences that the list proofs use on sequences of
    large records, stated once for any element type. */
module Sequences {
  /** A non-empty sequence is its front followed by its last element. */
  lemma SplitLast<T>(xs: seq<T>)
    requires xs != []
    ensures xs == xs[..|xs| - 1] + [xs[|xs| - 1]]
  {
  }

  /** What occurs after the first element occurs in the sequence. */
  lemma InTail<T>(xs: seq<T>, x: T)
    requires xs != [] && x in xs[1..]
    ensures x in xs
  {
    var j :| 0 <= j < |xs| - 1 && xs[1..][j] == x;
    assert xs[j + 1] == x;
  }
}
