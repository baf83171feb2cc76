/** The win decision of generator.js `checkWin`, over an explicit marks grid:
    full-house needs every cell marked; standard needs a full row, a full
    column, or (square grids only) a full main or anti-diagonal. The
    dimensions are the integers `checkWin` reads; the grid it builds has as
    many rows and columns as its `for` loops run. */
module WinCheck {
  import opened JsValues

  datatype WinMode = FullHouse | Standard

  /** `this.winCondition === 'fullhouse'`; every other value plays standard. */
  function ModeOf(winCondition: string): (m: WinMode)
    ensures m == FullHouse <==> winCondition == "fullhouse"
  {
    if winCondition == "fullhouse" then FullHouse else Standard
  }

  /** A rows x cols grid of marks. */
  predicate IsGrid(g: seq<seq<bool>>, rows: nat, cols: nat) {
    |g| == rows && forall r :: 0 <= r < rows ==> |g[r]| == cols
  }

  // ---------------------------------------------------------------------------
  // Reference definitions

  predicate AllMarked(g: seq<seq<bool>>, rows: nat, cols: nat)
    requires IsGrid(g, rows, cols)
  {
    forall r, c :: 0 <= r < rows && 0 <= c < cols ==> g[r][c]
  }

  predicate RowFull(g: seq<seq<bool>>, rows: nat, cols: nat, r: int)
    requires IsGrid(g, rows, cols) && 0 <= r < rows
  {
    forall c :: 0 <= c < cols ==> g[r][c]
  }

  predicate ColumnFull(g: seq<seq<bool>>, rows: nat, cols: nat, c: int)
    requires IsGrid(g, rows, cols) && 0 <= c < cols
  {
    forall r :: 0 <= r < rows ==> g[r][c]
  }

  /** Cells (i, i) of a square grid. */
  predicate MainDiagonalFull(g: seq<seq<bool>>, n: nat)
    requires IsGrid(g, n, n)
  {
    forall i :: 0 <= i < n ==> g[i][i]
  }

  /** Cells (i, n - 1 - i) of a square grid. */
  predicate AntiDiagonalFull(g: seq<seq<bool>>, n: nat)
    requires IsGrid(g, n, n)
  {
    forall i :: 0 <= i < n ==> g[i][n - 1 - i]
  }

  predicate SomeRowFull(g: seq<seq<bool>>, rows: nat, cols: nat)
    requires IsGrid(g, rows, cols)
  {
    exists r :: 0 <= r < rows && RowFull(g, rows, cols, r)
  }

  predicate SomeColumnFull(g: seq<seq<bool>>, rows: nat, cols: nat)
    requires IsGrid(g, rows, cols)
  {
    exists c :: 0 <= c < cols && ColumnFull(g, rows, cols, c)
  }

  /** The diagonals count only when the two dimensions as read are equal. */
  predicate SomeDiagonalFull(g: seq<seq<bool>>, rows: int, cols: int)
    requires IsGrid(g, LoopCount(rows), LoopCount(cols))
  {
    rows == cols && (MainDiagonalFull(g, LoopCount(rows)) || AntiDiagonalFull(g, LoopCount(rows)))
  }

  predicate StandardWin(g: seq<seq<bool>>, rows: int, cols: int)
    requires IsGrid(g, LoopCount(rows), LoopCount(cols))
  {
    || SomeRowFull(g, LoopCount(rows), LoopCount(cols))
    || SomeColumnFull(g, LoopCount(rows), LoopCount(cols))
    || SomeDiagonalFull(g, rows, cols)
  }

  predicate IsWin(g: seq<seq<bool>>, rows: int, cols: int, mode: WinMode)
    requires IsGrid(g, LoopCount(rows), LoopCount(cols))
  {
    match mode
    case FullHouse => AllMarked(g, LoopCount(rows), LoopCount(cols))
    case Standard => StandardWin(g, rows, cols)
  }

  // ---------------------------------------------------------------------------
  // The loops of checkWin

  /** `Array.prototype.every(m => m)` */
  method Every(s: seq<bool>) returns (b: bool)
    ensures b <==> forall i :: 0 <= i < |s| ==> s[i]
  {
    b := true;
    var i := 0;
    while i < |s|
      invariant 0 <= i <= |s|
      invariant b <==> forall k :: 0 <= k < i ==> s[k]
    {
      b := b && s[i];
      i := i + 1;
    }
  }

  /** `grid.every(row => row.every(marked => marked))` */
  method EveryCellMarked(g: seq<seq<bool>>, rows: nat, cols: nat) returns (all: bool)
    requires IsGrid(g, rows, cols)
    ensures all <==> AllMarked(g, rows, cols)
  {
    all := true;
    var r := 0;
    while r < rows
      invariant 0 <= r <= rows
      invariant all <==> forall r', c :: 0 <= r' < r && 0 <= c < cols ==> g[r'][c]
    {
      var rowAll := Every(g[r]);
      all := all && rowAll;
      r := r + 1;
    }
  }

  /** The row loop: `grid[r].every(m => m)` for each r. */
  method AnyRowFull(g: seq<seq<bool>>, rows: nat, cols: nat) returns (found: bool)
    requires IsGrid(g, rows, cols)
    ensures found <==> SomeRowFull(g, rows, cols)
  {
    found := false;
    var r := 0;
    while r < rows
      invariant 0 <= r <= rows
      invariant found <==> exists r' :: 0 <= r' < r && RowFull(g, rows, cols, r')
    {
      var full := Every(g[r]);
      assert full <==> RowFull(g, rows, cols, r);
      if full {
        found := true;
      }
      r := r + 1;
    }
  }

  /** The column loop: `grid.map(row => row[c]).every(m => m)` for each c. */
  method AnyColumnFull(g: seq<seq<bool>>, rows: nat, cols: nat) returns (found: bool)
    requires IsGrid(g, rows, cols)
    ensures found <==> SomeColumnFull(g, rows, cols)
  {
    found := false;
    var c := 0;
    while c < cols
      invariant 0 <= c <= cols
      invariant found <==> exists c' :: 0 <= c' < c && ColumnFull(g, rows, cols, c')
    {
      var column := seq(rows, i requires 0 <= i < rows => g[i][c]);
      assert forall i :: 0 <= i < rows ==> column[i] == g[i][c];
      var full := Every(column);
      assert full <==> ColumnFull(g, rows, cols, c);
      if full {
        found := true;
      }
      c := c + 1;
    }
  }

  /** The two diagonal tests of a square grid. */
  method EitherDiagonalFull(g: seq<seq<bool>>, n: nat) returns (found: bool)
    requires IsGrid(g, n, n)
    ensures found <==> MainDiagonalFull(g, n) || AntiDiagonalFull(g, n)
  {
    var mainLine := seq(n, i requires 0 <= i < n => g[i][i]);
    assert forall i :: 0 <= i < n ==> mainLine[i] == g[i][i];
    var main := Every(mainLine);
    assert main <==> MainDiagonalFull(g, n);
    var antiLine := seq(n, i requires 0 <= i < n => g[i][n - 1 - i]);
    assert forall i :: 0 <= i < n ==> antiLine[i] == g[i][n - 1 - i];
    var anti := Every(antiLine);
    assert anti <==> AntiDiagonalFull(g, n);
    found := main || anti;
  }

  /** `checkWin` once the grid is built: the row, column and diagonal loops
      each set `isWin` when their line is full. */
  method CheckWin(g: seq<seq<bool>>, gridRows: int, gridCols: int, mode: WinMode) returns (isWin: bool)
    requires IsGrid(g, LoopCount(gridRows), LoopCount(gridCols))
    ensures isWin <==> IsWin(g, gridRows, gridCols, mode)
  {
    var rows, cols := LoopCount(gridRows), LoopCount(gridCols);
    if mode == FullHouse {
      isWin := EveryCellMarked(g, rows, cols);
    } else {
      var row := AnyRowFull(g, rows, cols);
      var column := AnyColumnFull(g, rows, cols);
      var diagonal := false;
      if gridRows == gridCols {
        diagonal := EitherDiagonalFull(g, rows);
      }
      isWin := row || column || diagonal;
    }
  }

  // ---------------------------------------------------------------------------
  // Properties

  /** On a grid that is not square a standard win is a full row or column, never a diagonal. */
  lemma NonSquareNoDiagonalWin(g: seq<seq<bool>>, rows: int, cols: int)
    requires IsGrid(g, LoopCount(rows), LoopCount(cols)) && rows != cols
    ensures IsWin(g, rows, cols, Standard) <==>
              SomeRowFull(g, LoopCount(rows), LoopCount(cols)) || SomeColumnFull(g, LoopCount(rows), LoopCount(cols))
  {
  }

  /** On a square grid a full diagonal alone is a standard win. */
  lemma SquareDiagonalWins(g: seq<seq<bool>>, n: nat)
    requires IsGrid(g, n, n)
    requires MainDiagonalFull(g, n) || AntiDiagonalFull(g, n)
    ensures IsWin(g, n, n, Standard)
  {
  }

  /** A full house is also a standard win, except on the empty grid of two
      different non-positive dimensions: there no row, column or diagonal
      loop runs, while `every` over no rows holds. With one dimension
      positive, the source's `every` over no cells makes a line full. */
  lemma FullHouseIsStandardWin(g: seq<seq<bool>>, rows: int, cols: int)
    requires IsGrid(g, LoopCount(rows), LoopCount(cols))
    requires IsWin(g, rows, cols, FullHouse)
    ensures IsWin(g, rows, cols, Standard) <==> rows > 0 || cols > 0 || rows == cols
  {
    if rows > 0 {
      assert RowFull(g, LoopCount(rows), LoopCount(cols), 0);
    } else if cols > 0 {
      assert ColumnFull(g, LoopCount(rows), LoopCount(cols), 0);
    }
  }

  /** Marking more cells never takes a win away, in either mode. */
  lemma WinMonotone(g: seq<seq<bool>>, h: seq<seq<bool>>, rows: int, cols: int, mode: WinMode)
    requires IsGrid(g, LoopCount(rows), LoopCount(cols)) && IsGrid(h, LoopCount(rows), LoopCount(cols))
    requires forall r, c :: 0 <= r < |g| && 0 <= c < LoopCount(cols) && g[r][c] ==> h[r][c]
    requires IsWin(g, rows, cols, mode)
    ensures IsWin(h, rows, cols, mode)
  {
    var n, m := LoopCount(rows), LoopCount(cols);
    if mode == Standard {
      if SomeRowFull(g, n, m) {
        var r :| 0 <= r < n && RowFull(g, n, m, r);
        assert RowFull(h, n, m, r);
      } else if SomeColumnFull(g, n, m) {
        var c :| 0 <= c < m && ColumnFull(g, n, m, c);
        assert ColumnFull(h, n, m, c);
      }
    }
  }

  /** A full house needs every single cell: one unmarked cell loses it. */
  lemma FullHouseNeedsEveryCell(g: seq<seq<bool>>, rows: int, cols: int, r: int, c: int)
    requires IsGrid(g, LoopCount(rows), LoopCount(cols))
    requires 0 <= r < rows && 0 <= c < cols && !g[r][c]
    ensures !IsWin(g, rows, cols, FullHouse)
  {
  }
}
