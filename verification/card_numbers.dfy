/** The numbers printed on one card (generator.js, `generateCardNumbers`):
    column c takes the first `rows` values of a shuffle of its range, and
    pads with 0 when the range runs out. */
module CardNumbers {
  import opened JsValues
  import opened Counting
  import opened ColumnRanges
  import opened Shuffle

  /** `columnNumbers` for column c; `roll` stands for the shuffle's random draws. */
  function ColumnNumbers(maxNumber: int, cols: int, rows: int, c: int, roll: nat -> nat): (col: seq<int>)
    requires 0 <= c < cols
    ensures |col| == LoopCount(rows)
    ensures forall i :: 0 <= i < |col| && i < |ColumnValues(maxNumber, cols, c)| ==>
                          InColumn(col[i], maxNumber, cols, c)
    ensures forall i :: 0 <= i < |col| && i >= |ColumnValues(maxNumber, cols, c)| ==> col[i] == 0
    ensures forall i, j :: 0 <= i < j < |col| && j < |ColumnValues(maxNumber, cols, c)| ==>
                             col[i] != col[j]
  {
    var values := ColumnValues(maxNumber, cols, c);
    var available := ShuffleArray(values, roll);
    var col := seq(LoopCount(rows), i requires 0 <= i => if i < |available| then available[i] else 0);
    TakeFromShuffle(maxNumber, cols, c, available, col);
    col
  }

  /** The column taken from a shuffle of column c's range: values from the
      range while it lasts, zeros past it, and no value twice. */
  lemma TakeFromShuffle(maxNumber: int, cols: int, c: int, available: seq<int>, col: seq<int>)
    requires 0 <= c < cols
    requires multiset(available) == multiset(ColumnValues(maxNumber, cols, c)) && Distinct(available)
    requires forall i :: 0 <= i < |col| ==> col[i] == if i < |available| then available[i] else 0
    ensures forall i :: 0 <= i < |col| && i < |ColumnValues(maxNumber, cols, c)| ==>
                          InColumn(col[i], maxNumber, cols, c)
    ensures forall i :: 0 <= i < |col| && i >= |ColumnValues(maxNumber, cols, c)| ==> col[i] == 0
    ensures forall i, j :: 0 <= i < j < |col| && j < |ColumnValues(maxNumber, cols, c)| ==>
                             col[i] != col[j]
  {
    var values := ColumnValues(maxNumber, cols, c);
    assert |available| == |values| by {
      assert |multiset(available)| == |multiset(values)|;
    }
    PrefixOfPermutation(values, available, col);
  }

  /** Taking a prefix of a shuffle, padded with zeros: each taken entry is a
      value of the original, and no two taken entries are equal. */
  lemma PrefixOfPermutation(values: seq<int>, available: seq<int>, col: seq<int>)
    requires multiset(available) == multiset(values) && Distinct(available)
    requires forall i :: 0 <= i < |col| && i < |available| ==> col[i] == available[i]
    ensures forall i :: 0 <= i < |col| && i < |available| ==> col[i] in values
    ensures forall i, j :: 0 <= i < j < |col| && j < |available| ==> col[i] != col[j]
  {
    forall i | 0 <= i < |col| && i < |available|
      ensures col[i] in values
    {
      assert available[i] in multiset(available);
    }
  }

  /** `generateCardNumbers(maxNumber, cols, rows)`; `roll(c, i)` is the draw the
      shuffle of column c makes at position i. */
  function GenerateCardNumbers(maxNumber: int, cols: int, rows: int, roll: (nat, nat) -> nat)
    : (columns: seq<seq<int>>)
    ensures |columns| == LoopCount(cols)
    ensures forall c :: 0 <= c < |columns| ==> |columns[c]| == LoopCount(rows)
    ensures forall c, i :: 0 <= c < |columns| && 0 <= i < |columns[c]| ==>
                             (i < |ColumnValues(maxNumber, cols, c)| ==> InColumn(columns[c][i], maxNumber, cols, c))
                             && (i >= |ColumnValues(maxNumber, cols, c)| ==> columns[c][i] == 0)
    ensures forall c, i, j ::
              0 <= c < |columns| && 0 <= i < j < |columns[c]| && j < |ColumnValues(maxNumber, cols, c)|
              ==> columns[c][i] != columns[c][j]
  {
    seq(LoopCount(cols), c requires 0 <= c < LoopCount(cols) =>
      ColumnNumbers(maxNumber, cols, rows, c, i => roll(c, i)))
  }

  /** A padding 0 appears exactly at the positions past the end of the column's
      range, when maxNumber is non-negative (every range value is then >= 1). */
  lemma PaddingExactlyPastRange(maxNumber: int, cols: int, rows: int, roll: (nat, nat) -> nat, c: int, i: int)
    requires maxNumber >= 0
    requires 0 <= c < LoopCount(cols) && 0 <= i < LoopCount(rows)
    ensures GenerateCardNumbers(maxNumber, cols, rows, roll)[c][i] == 0
            <==> i >= |ColumnValues(maxNumber, cols, c)|
  {
    var columns := GenerateCardNumbers(maxNumber, cols, rows, roll);
    if i < |ColumnValues(maxNumber, cols, c)| {
      ColumnInsideRange(maxNumber, cols, c, columns[c][i]);
    }
  }

  /** What a card looks like when the range check of the form has passed
      (`floor(maxNumber / cols) >= rows`): `cols` columns of `rows` numbers,
      each number in its own column's range, no padding, and no number twice
      anywhere on the card. */
  predicate WellFormedCard(columns: seq<seq<int>>, maxNumber: int, cols: int, rows: int)
    requires cols > 0
  {
    && |columns| == cols
    && (forall c :: 0 <= c < cols ==> |columns[c]| == LoopCount(rows))
    && (forall c, i :: 0 <= c < cols && 0 <= i < |columns[c]| ==> InColumn(columns[c][i], maxNumber, cols, c))
    && (forall c1, i1, c2, i2 :: 0 <= c1 < cols && 0 <= c2 < cols
          && 0 <= i1 < |columns[c1]| && 0 <= i2 < |columns[c2]| && (c1, i1) != (c2, i2)
          ==> columns[c1][i1] != columns[c2][i2])
  }

  lemma {:induction false} ValidatedCardWellFormed(maxNumber: int, cols: int, rows: int, roll: (nat, nat) -> nat)
    requires cols > 0
    requires RangeSize(maxNumber, cols) >= rows
    ensures WellFormedCard(GenerateCardNumbers(maxNumber, cols, rows, roll), maxNumber, cols, rows)
  {
    var columns := GenerateCardNumbers(maxNumber, cols, rows, roll);
    forall c | 0 <= c < cols
      ensures |ColumnValues(maxNumber, cols, c)| >= rows
    {
      ColumnWideEnough(maxNumber, cols, rows, c);
    }
    forall c1, i1, c2, i2 | 0 <= c1 < cols && 0 <= c2 < cols
          && 0 <= i1 < |columns[c1]| && 0 <= i2 < |columns[c2]| && (c1, i1) != (c2, i2)
      ensures columns[c1][i1] != columns[c2][i2]
    {
      CellsDiffer(maxNumber, cols, rows, roll, c1, i1, c2, i2);
    }
  }

  /** Two different cells of a validated card hold different numbers. */
  lemma CellsDiffer(maxNumber: int, cols: int, rows: int, roll: (nat, nat) -> nat,
                    c1: int, i1: int, c2: int, i2: int)
    requires cols > 0
    requires RangeSize(maxNumber, cols) >= rows
    requires 0 <= c1 < cols && 0 <= c2 < cols && 0 <= i1 < LoopCount(rows) && 0 <= i2 < LoopCount(rows)
    requires (c1, i1) != (c2, i2)
    ensures GenerateCardNumbers(maxNumber, cols, rows, roll)[c1][i1]
            != GenerateCardNumbers(maxNumber, cols, rows, roll)[c2][i2]
  {
    if c1 != c2 {
      var columns := GenerateCardNumbers(maxNumber, cols, rows, roll);
      CellInColumn(maxNumber, cols, rows, roll, c1, i1);
      CellInColumn(maxNumber, cols, rows, roll, c2, i2);
      ColumnsDisjoint(maxNumber, cols, c1, c2, columns[c1][i1]);
    } else {
      SameColumnDiffer(maxNumber, cols, rows, roll, c1, i1, i2);
    }
  }

  /** Every cell of a validated card lies in its column's range: the range
      is wide enough that no cell is padding. */
  lemma CellInColumn(maxNumber: int, cols: int, rows: int, roll: (nat, nat) -> nat, c: int, i: int)
    requires cols > 0
    requires RangeSize(maxNumber, cols) >= rows
    requires 0 <= c < cols && 0 <= i < LoopCount(rows)
    ensures InColumn(GenerateCardNumbers(maxNumber, cols, rows, roll)[c][i], maxNumber, cols, c)
  {
    ColumnWideEnough(maxNumber, cols, rows, c);
  }

  /** Two different cells of one column of a validated card differ. */
  lemma SameColumnDiffer(maxNumber: int, cols: int, rows: int, roll: (nat, nat) -> nat, c: int, i1: int, i2: int)
    requires cols > 0
    requires RangeSize(maxNumber, cols) >= rows
    requires 0 <= c < cols && 0 <= i1 < LoopCount(rows) && 0 <= i2 < LoopCount(rows) && i1 != i2
    ensures GenerateCardNumbers(maxNumber, cols, rows, roll)[c][i1]
            != GenerateCardNumbers(maxNumber, cols, rows, roll)[c][i2]
  {
    ColumnWideEnough(maxNumber, cols, rows, c);
    var col := GenerateCardNumbers(maxNumber, cols, rows, roll)[c];
    var lo, hi := if i1 < i2 then i1 else i2, if i1 < i2 then i2 else i1;
    assert hi < |ColumnValues(maxNumber, cols, c)|;
    assert col[lo] != col[hi];
  }
}
