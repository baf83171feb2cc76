/** Distinctness of sequences and cardinality facts about integer intervals,
    used where a loop or a draw must find a value that is not yet taken. */
module Counting {

  /** No value occurs twice. */
  predicate Distinct<T(==)>(s: seq<T>) {
    forall i, j :: 0 <= i < j < |s| ==> s[i] != s[j]
  }

  /** The integers lo, lo+1, ..., hi-1 as a set. */
  function IntervalSet(lo: int, hi: int): (s: set<int>)
    ensures forall x :: x in s <==> lo <= x < hi
    decreases hi - lo
  {
    if hi <= lo then {} else IntervalSet(lo, hi - 1) + {hi - 1}
  }

  lemma {:induction false} IntervalSetSize(lo: int, hi: int)
    requires lo <= hi
    ensures |IntervalSet(lo, hi)| == hi - lo
    decreases hi - lo
  {
    if lo < hi {
      IntervalSetSize(lo, hi - 1);
      assert hi - 1 !in IntervalSet(lo, hi - 1);
    }
  }

  /** A subset is no larger than its superset. */
  lemma SubsetSize<T>(a: set<T>, b: set<T>)
    requires a <= b
    ensures |a| <= |b|
    ensures |a| == |b| ==> a == b
  {
    assert b == a + (b - a);
    assert a !! (b - a);
  }

  /** A subset of [lo, hi) that is smaller than the interval leaves some value free. */
  lemma FreeValueExists(s: set<int>, lo: int, hi: int) returns (x: int)
    requires lo <= hi
    requires forall y :: y in s ==> lo <= y < hi
    requires |s| < hi - lo
    ensures lo <= x < hi && x !in s
  {
    IntervalSetSize(lo, hi);
    var full := IntervalSet(lo, hi);
    if full <= s {
      SubsetSize(full, s);
      assert false;
    }
    x :| x in full && x !in s;
  }

  /** A subset of [lo, hi) is at most as large as the interval, and is the whole
      interval exactly when it is that large. */
  lemma SubsetOfInterval(s: set<int>, lo: int, hi: int)
    requires lo <= hi
    requires forall y :: y in s ==> lo <= y < hi
    ensures |s| <= hi - lo
    ensures |s| == hi - lo <==> s == IntervalSet(lo, hi)
  {
    IntervalSetSize(lo, hi);
    SubsetSize(s, IntervalSet(lo, hi));
  }
}
