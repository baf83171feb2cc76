/** The in-place Fisher-Yates shuffle of generator.js (`shuffleArray`), on an
    immutable sequence. `Math.random` becomes a parameter `roll`: the step for
    position i swaps it with `roll(i) % (i + 1)`, which ranges over exactly the
    indices `Math.floor(Math.random() * (i + 1))` can produce. */
module Shuffle {
  import opened Counting

  /** `[array[i], array[j]] = [array[j], array[i]]` */
  function Swap<T>(a: seq<T>, i: nat, j: nat): (r: seq<T>)
    requires i < |a| && j < |a|
    ensures |r| == |a| && r[i] == a[j] && r[j] == a[i]
    ensures forall k :: 0 <= k < |a| && k != i && k != j ==> r[k] == a[k]
  {
    a[i := a[j]][j := a[i]]
  }

  /** A swap rearranges the elements: same multiset, and no duplicate appears. */
  lemma SwapPermutes<T>(a: seq<T>, i: nat, j: nat)
    requires i < |a| && j < |a|
    ensures multiset(Swap(a, i, j)) == multiset(a)
    ensures Distinct(a) ==> Distinct(Swap(a, i, j))
  {
    var r := Swap(a, i, j);
    if Distinct(a) {
      forall p, q | 0 <= p < q < |r|
        ensures r[p] != r[q]
      {
        var p' := if p == i then j else if p == j then i else p;
        var q' := if q == i then j else if q == j then i else q;
        assert r[p] == a[p'] && r[q] == a[q'];
        assert p' != q';
      }
    }
  }

  /** The loop `for (i = top; i > 0; i--)`, still to run from position top down. */
  function ShuffleDown<T>(a: seq<T>, top: nat, roll: nat -> nat): (r: seq<T>)
    requires top < |a|
    ensures |r| == |a|
    ensures multiset(r) == multiset(a)
    ensures Distinct(a) ==> Distinct(r)
    decreases top
  {
    if top == 0 then a
    else
      SwapPermutes(a, top, roll(top) % (top + 1));
      ShuffleDown(Swap(a, top, roll(top) % (top + 1)), top - 1, roll)
  }

  /** `shuffleArray(array)`: a rearrangement of its input. */
  function ShuffleArray<T>(a: seq<T>, roll: nat -> nat): (r: seq<T>)
    ensures |r| == |a|
    ensures multiset(r) == multiset(a)
    ensures Distinct(a) ==> Distinct(r)
  {
    if |a| == 0 then a else ShuffleDown(a, |a| - 1, roll)
  }
}
