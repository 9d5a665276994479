/**
 * Sequence helpers shared by the block decoder and the selector lookup.
 */
module Sequences {
  /** Position of the first occurrence of x: where a left-to-right scan for
      x stops, and what Python's `list.index(x)` returns. */
  function FirstIndex<T(==)>(s: seq<T>, x: T): (k: nat)
    requires x in s
    ensures k < |s| && s[k] == x
    ensures forall j :: 0 <= j < k ==> s[j] != x
  {
    if s[0] == x then 0 else 1 + FirstIndex(s[1..], x)
  }

  /** A position holding x with no x before it is the first occurrence. */
  lemma FirstIndexAt<T>(s: seq<T>, x: T, k: nat)
    requires k < |s| && s[k] == x && forall j :: 0 <= j < k ==> s[j] != x
    ensures FirstIndex(s, x) == k
  {
  }
}
