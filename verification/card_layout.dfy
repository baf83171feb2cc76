/** How a card is laid out and read back (generator.js, `createCardElement`
    and the grid-building part of `checkWin`): free-space selection, the
    row-major cell order, and the marks grid that the win check reads. */
module CardLayout {
  import opened JsValues
  import opened Counting
  import opened ColumnRanges

  // ---------------------------------------------------------------------------
  // Free spaces

  /** `cardData.freeSpaces || 1`: asking for 0 free spaces still gives one. */
  function FreeSpacesDesired(freeSpaces: int): (d: int)
    ensures freeSpaces == 0 ==> d == 1
    ensures freeSpaces != 0 ==> d == freeSpaces
  {
    OrDefault(Num(freeSpaces), 1)
  }

  /** The selection loop of `createCardElement`. Each pass of the source loop
      draws a random cell and adds it to the set; a pass that draws a cell
      already chosen changes nothing, so the model lets each pass choose any
      cell not chosen yet. */
  method ChooseFreeSpaces(freeSpaces: int, rows: int, cols: int) returns (indices: set<int>)
    ensures var desired := FreeSpacesDesired(freeSpaces);
            |indices| == if desired <= 0 || rows * cols <= 0 then 0 else Min(desired, rows * cols)
    ensures forall i :: i in indices ==> 0 <= i < rows * cols
  {
    var totalCells := cols * rows;
    var desired := FreeSpacesDesired(freeSpaces);
    indices := {};
    while |indices| < desired && |indices| < totalCells
      invariant forall i :: i in indices ==> 0 <= i < totalCells
      invariant |indices| == 0 || (|indices| <= desired && |indices| <= totalCells)
      decreases totalCells - |indices|
    {
      var _ := FreeValueExists(indices, 0, totalCells);
      var index :| 0 <= index < totalCells && index !in indices;
      indices := indices + {index};
    }
  }

  // ---------------------------------------------------------------------------
  // Row-major cell order

  /** `currentIndex = row * cols + col` */
  function CellIndex(row: int, col: int, cols: int): int {
    row * cols + col
  }

  /** Row-major numbering is a bijection between the rows x cols positions and
      the indices [0, rows * cols). */
  lemma CellIndexBijection(rows: int, cols: int)
    requires rows >= 0 && cols > 0
    ensures forall r, c :: 0 <= r < rows && 0 <= c < cols ==>
              0 <= CellIndex(r, c, cols) < rows * cols
              && CellIndex(r, c, cols) / cols == r && CellIndex(r, c, cols) % cols == c
    ensures forall i :: 0 <= i < rows * cols ==>
              0 <= i / cols < rows && CellIndex(i / cols, i % cols, cols) == i
  {
    forall r, c | 0 <= r < rows && 0 <= c < cols
      ensures 0 <= CellIndex(r, c, cols) < rows * cols
      ensures CellIndex(r, c, cols) / cols == r && CellIndex(r, c, cols) % cols == c
    {
      IndexOfCell(rows, cols, r, c);
    }
    forall i | 0 <= i < rows * cols
      ensures 0 <= i / cols < rows && CellIndex(i / cols, i % cols, cols) == i
    {
      CellOfIndex(rows, cols, i);
    }
  }

  /** Position (r, c) numbers an index in range that divides back to (r, c). */
  lemma IndexOfCell(rows: int, cols: int, r: int, c: int)
    requires cols > 0 && 0 <= r < rows && 0 <= c < cols
    ensures 0 <= CellIndex(r, c, cols) < rows * cols
    ensures CellIndex(r, c, cols) / cols == r && CellIndex(r, c, cols) % cols == c
  {
    MulMonotone(r + 1, rows, cols);
    assert r * cols + cols == (r + 1) * cols;
    MulMonotone(0, r, cols);
    DivModUnique(r * cols + c, cols, r, c);
  }

  /** An index in range divides into a position in range. */
  lemma CellOfIndex(rows: int, cols: int, i: int)
    requires cols > 0 && 0 <= i < rows * cols
    ensures 0 <= i / cols < rows && CellIndex(i / cols, i % cols, cols) == i
  {
    var q := i / cols;
    assert q * cols + i % cols == i;
    if q >= rows {
      MulMonotone(rows, q, cols);
      assert false;
    }
  }

  lemma DivModUnique(x: int, d: int, q: int, r: int)
    requires d > 0 && 0 <= r < d && x == q * d + r
    ensures x / d == q && x % d == r
  {
    var q', r' := x / d, x % d;
    assert (q - q') * d == r' - r;
    if q > q' {
      AtLeastOnce(q - q', d);
    } else if q < q' {
      AtLeastOnce(q' - q, d);
    }
  }

  lemma AtLeastOnce(k: int, d: int)
    requires k >= 1 && d > 0
    ensures k * d >= d
  {
  }

  /** Concatenation of the rows of a grid: the order in which the source emits cells. */
  function Flatten<T>(g: seq<seq<T>>): seq<T> {
    if |g| == 0 then [] else g[0] + Flatten(g[1..])
  }

  predicate Rectangular<T>(g: seq<seq<T>>, cols: nat) {
    forall r :: 0 <= r < |g| ==> |g[r]| == cols
  }

  lemma {:induction false} FlattenLength<T>(g: seq<seq<T>>, cols: nat)
    requires Rectangular(g, cols)
    ensures |Flatten(g)| == |g| * cols
  {
    if |g| > 0 {
      FlattenLength(g[1..], cols);
      assert |g| * cols == cols + (|g| - 1) * cols;
    }
  }

  /** Cell (r, c) of a rectangular grid sits at index r * cols + c of its flattening. */
  lemma {:induction false} FlattenAt<T>(g: seq<seq<T>>, cols: nat, r: int, c: int)
    requires Rectangular(g, cols)
    requires 0 <= r < |g| && 0 <= c < cols
    ensures 0 <= CellIndex(r, c, cols) < |Flatten(g)|
    ensures Flatten(g)[CellIndex(r, c, cols)] == g[r][c]
  {
    var rest := g[1..];
    FlattenLength(g, cols);
    FlattenLength(rest, cols);
    assert Flatten(g) == g[0] + Flatten(rest);
    if r > 0 {
      FlattenAt(rest, cols, r - 1, c);
      assert CellIndex(r, c, cols) == cols + CellIndex(r - 1, c, cols);
    }
  }

  lemma {:induction false} FlattenIndex<T>(g: seq<seq<T>>, cols: nat)
    requires Rectangular(g, cols)
    ensures |Flatten(g)| == |g| * cols
    ensures forall r, c :: 0 <= r < |g| && 0 <= c < cols ==>
              CellIndex(r, c, cols) < |Flatten(g)| && Flatten(g)[CellIndex(r, c, cols)] == g[r][c]
  {
    FlattenLength(g, cols);
    forall r, c | 0 <= r < |g| && 0 <= c < cols
      ensures CellIndex(r, c, cols) < |Flatten(g)| && Flatten(g)[CellIndex(r, c, cols)] == g[r][c]
    {
      FlattenAt(g, cols, r, c);
    }
  }

  // ---------------------------------------------------------------------------
  // Rendered cells and marks

  datatype Cell = FreeSpace | Number(n: int)

  /** The cells of `createCardElement` in emission order: row by row, a free
      space where the index was chosen, `columns[col][row]` elsewhere. */
  function CardCells(columns: seq<seq<int>>, rows: int, cols: int, free: set<int>): (cells: seq<Cell>)
    requires |columns| == LoopCount(cols)
    requires forall c :: 0 <= c < |columns| ==> |columns[c]| == LoopCount(rows)
    ensures |cells| == LoopCount(rows) * LoopCount(cols)
    ensures forall r, c :: 0 <= r < LoopCount(rows) && 0 <= c < LoopCount(cols) ==>
              CellIndex(r, c, cols) < |cells| && cells[CellIndex(r, c, cols)] ==
                if CellIndex(r, c, cols) in free then FreeSpace else Number(columns[c][r])
  {
    var grid := seq(LoopCount(rows), r requires 0 <= r < LoopCount(rows) =>
                  seq(LoopCount(cols), c requires 0 <= c < |columns| && r < |columns[c]| =>
                    if CellIndex(r, c, cols) in free then FreeSpace else Number(columns[c][r])));
    FlattenIndex(grid, LoopCount(cols));
    Flatten(grid)
  }

  /** Free-space cells start marked, the others unmarked. */
  function InitialMarks(cells: seq<Cell>): (marks: seq<bool>)
    ensures |marks| == |cells|
    ensures forall i :: 0 <= i < |cells| ==> (marks[i] <==> cells[i] == FreeSpace)
  {
    seq(|cells|, i requires 0 <= i < |cells| => cells[i].FreeSpace?)
  }

  /** A click toggles the `marked` class of one cell. */
  function ToggleMark(marks: seq<bool>, i: int): (m: seq<bool>)
    requires 0 <= i < |marks|
    ensures |m| == |marks| && m[i] == !marks[i]
    ensures forall k :: 0 <= k < |marks| && k != i ==> m[k] == marks[k]
  {
    marks[i := !marks[i]]
  }

  lemma ToggleMarkTwice(marks: seq<bool>, i: int)
    requires 0 <= i < |marks|
    ensures ToggleMark(ToggleMark(marks, i), i) == marks
  {
  }

  /** The marks grid `checkWin` builds: entry (r, c) is the mark of cell
      r * cols + c, or false when the card has no such cell. */
  function GridFromCells(marks: seq<bool>, rows: int, cols: int): (g: seq<seq<bool>>)
    ensures |g| == LoopCount(rows) && Rectangular(g, LoopCount(cols))
    ensures forall r, c :: 0 <= r < |g| && 0 <= c < LoopCount(cols) ==>
              g[r][c] == (CellIndex(r, c, cols) < |marks| && marks[CellIndex(r, c, cols)])
  {
    seq(LoopCount(rows), r requires 0 <= r =>
      seq(LoopCount(cols), c requires 0 <= c =>
        var index := CellIndex(r, c, cols);
        if 0 <= index < |marks| then marks[index] else false))
  }

  /** Reading marks back with the dimensions they were laid out with gives
      back exactly the grid that was laid out. */
  lemma ReadBackRoundTrip(g: seq<seq<bool>>, cols: nat)
    requires Rectangular(g, cols)
    ensures GridFromCells(Flatten(g), |g|, cols) == g
  {
    FlattenIndex(g, cols);
    var h := GridFromCells(Flatten(g), |g|, cols);
    forall r | 0 <= r < |g|
      ensures h[r] == g[r]
    {
      forall c | 0 <= c < cols
        ensures h[r][c] == g[r][c]
      {
        CellIndexBijection(|g|, cols);
      }
    }
  }
}
