/** The column ranges of a generated card: `[1, maxNumber]` cut into `cols`
    contiguous blocks of width `floor(maxNumber / cols)`, the last block running
    up to `maxNumber` (generator.js, `generateCardNumbers`). */
module ColumnRanges {
  import opened JsValues
  import opened Counting

  /** `rangeSize`: the width every column but the last gets. */
  function RangeSize(maxNumber: int, cols: int): int
    requires cols > 0
  {
    FloorDiv(maxNumber, cols)
  }

  /** Lowest value of column c. */
  function ColumnMin(maxNumber: int, cols: int, c: int): int
    requires cols > 0
  {
    c * RangeSize(maxNumber, cols) + 1
  }

  /** Highest value of column c; the last column absorbs the remainder. */
  function ColumnMax(maxNumber: int, cols: int, c: int): int
    requires cols > 0
  {
    if c == cols - 1 then maxNumber else (c + 1) * RangeSize(maxNumber, cols)
  }

  predicate InColumn(x: int, maxNumber: int, cols: int, c: int)
    requires cols > 0
  {
    ColumnMin(maxNumber, cols, c) <= x <= ColumnMax(maxNumber, cols, c)
  }

  /** The array `[lo, lo+1, ..., hi]` that `for (i = lo; i <= hi; i++) push(i)` builds. */
  function Interval(lo: int, hi: int): (r: seq<int>)
    ensures |r| == if hi < lo then 0 else hi - lo + 1
    ensures forall x :: x in r <==> lo <= x <= hi
    ensures Distinct(r)
  {
    var r := seq(if hi < lo then 0 else hi - lo + 1, k => lo + k);
    forall x | lo <= x <= hi
      ensures x in r
    {
      assert r[x - lo] == x;
    }
    r
  }

  /** The `available` array of column c before shuffling. */
  function ColumnValues(maxNumber: int, cols: int, c: int): (r: seq<int>)
    requires cols > 0
    ensures forall x :: x in r <==> InColumn(x, maxNumber, cols, c)
    ensures Distinct(r)
  {
    Interval(ColumnMin(maxNumber, cols, c), ColumnMax(maxNumber, cols, c))
  }

  lemma MulMonotone(a: int, b: int, k: int)
    requires a <= b && k >= 0
    ensures a * k <= b * k
  {
  }

  /** Two different columns never share a value, for any maxNumber. */
  lemma ColumnsDisjoint(maxNumber: int, cols: int, c1: int, c2: int, x: int)
    requires cols > 0
    requires 0 <= c1 < cols && 0 <= c2 < cols && c1 != c2
    ensures !(InColumn(x, maxNumber, cols, c1) && InColumn(x, maxNumber, cols, c2))
  {
    var rs := RangeSize(maxNumber, cols);
    var lo, hi := if c1 < c2 then c1 else c2, if c1 < c2 then c2 else c1;
    if rs >= 0 {
      // the lower column ends at or below where the higher one starts
      MulMonotone(lo + 1, hi, rs);
      assert ColumnMax(maxNumber, cols, lo) == (lo + 1) * rs;
      assert ColumnMin(maxNumber, cols, hi) == hi * rs + 1;
    } else {
      // a negative width leaves every column but the last empty
      assert (lo + 1) * rs == lo * rs + rs;
      assert ColumnMax(maxNumber, cols, lo) < ColumnMin(maxNumber, cols, lo);
    }
  }

  /** For a non-negative maxNumber every column lies inside [1, maxNumber]. */
  lemma ColumnInsideRange(maxNumber: int, cols: int, c: int, x: int)
    requires cols > 0 && maxNumber >= 0
    requires 0 <= c < cols
    requires InColumn(x, maxNumber, cols, c)
    ensures 1 <= x <= maxNumber
  {
    var rs := RangeSize(maxNumber, cols);
    assert rs >= 0;
    assert c * rs >= 0;
    if c < cols - 1 {
      MulMonotone(c + 1, cols, rs);
      assert rs * cols <= maxNumber;
    }
  }

  /** Each value of [1, maxNumber] lies in some column. */
  lemma ColumnCovers(maxNumber: int, cols: int, x: int) returns (c: int)
    requires cols > 0 && maxNumber >= 0
    requires 1 <= x <= maxNumber
    ensures 0 <= c < cols && InColumn(x, maxNumber, cols, c)
  {
    var rs := RangeSize(maxNumber, cols);
    assert rs >= 0;
    if rs == 0 {
      c := cols - 1;
      assert ColumnMin(maxNumber, cols, c) == 1;
    } else {
      c := QuotientColumn(x, rs, cols);
    }
  }

  /** The block of width rs > 0 that holds x >= 1, capped at the last block. */
  lemma QuotientColumn(x: int, rs: int, cols: int) returns (c: int)
    requires x >= 1 && rs > 0 && cols > 0
    ensures 0 <= c < cols
    ensures c * rs + 1 <= x
    ensures c < cols - 1 ==> x <= (c + 1) * rs
  {
    var q := (x - 1) / rs;
    DivBounds(x - 1, rs);
    c := if q < cols - 1 then q else cols - 1;
    MulMonotone(c, q, rs);
    if c < cols - 1 {
      assert (c + 1) * rs == q * rs + rs;
    }
  }

  /** Euclidean division by a positive divisor brackets the dividend. */
  lemma DivBounds(a: int, d: int)
    requires a >= 0 && d > 0
    ensures 0 <= a / d
    ensures (a / d) * d <= a < (a / d) * d + d
  {
  }

  /** The values a card with this maximum should carry: [1, maxNumber]. */
  predicate InCardRange(x: int, maxNumber: int) {
    1 <= x <= maxNumber
  }

  /** The column ranges partition [1, maxNumber]: every value in it lies in
      exactly one column, and nothing outside it lies in any column. */
  lemma ColumnsPartition(maxNumber: int, cols: int)
    requires cols > 0 && maxNumber >= 0
    ensures forall x :: InCardRange(x, maxNumber) <==>
                          exists c :: 0 <= c < cols && InColumn(x, maxNumber, cols, c)
    ensures forall x, c1, c2 :: 0 <= c1 < cols && 0 <= c2 < cols
                                && InColumn(x, maxNumber, cols, c1) && InColumn(x, maxNumber, cols, c2)
                                ==> c1 == c2
  {
    forall x | InCardRange(x, maxNumber)
      ensures exists c :: 0 <= c < cols && InColumn(x, maxNumber, cols, c)
    {
      var c := ColumnCovers(maxNumber, cols, x);
    }
    forall x, c | 0 <= c < cols && InColumn(x, maxNumber, cols, c)
      ensures 1 <= x <= maxNumber
    {
      ColumnInsideRange(maxNumber, cols, c, x);
    }
    forall x, c1, c2 | 0 <= c1 < cols && 0 <= c2 < cols
                       && InColumn(x, maxNumber, cols, c1) && InColumn(x, maxNumber, cols, c2)
      ensures c1 == c2
    {
      if c1 != c2 {
        ColumnsDisjoint(maxNumber, cols, c1, c2, x);
      }
    }
  }

  /** When `floor(maxNumber / cols) >= rows` every column holds at least `rows`
      values, so the generator never has to pad. */
  lemma ColumnWideEnough(maxNumber: int, cols: int, rows: int, c: int)
    requires cols > 0 && 0 <= c < cols
    requires RangeSize(maxNumber, cols) >= rows
    ensures |ColumnValues(maxNumber, cols, c)| >= rows
  {
    var rs := RangeSize(maxNumber, cols);
    if c == cols - 1 {
      assert cols * rs == (cols - 1) * rs + rs;
      assert ColumnMin(maxNumber, cols, c) + rs - 1 <= maxNumber;
    } else {
      assert (c + 1) * rs == c * rs + rs;
    }
  }
}
