/** The form side of generator.js: `adjustCount`, `handleGenerate` (defaults,
    the two validation checks, the card list) and the win check a cell click
    triggers (`checkWin`, which reads the grid dimensions from the generator's
    state rather than from the card). */
module GenerateForm {
  import opened JsValues
  import opened ColumnRanges
  import opened CardNumbers
  import opened CardLayout
  import opened WinCheck

  const MaxCards: int := 1000
  const DefaultTitle: string := "VNEXT G11 BINGO"

  // ---------------------------------------------------------------------------
  // adjustCount

  /** `adjustCount(delta)`: the counter moves by delta, clamped to [1, max],
      where the current value and the `max` attribute default to 1 and 1000. */
  function AdjustCount(value: Parsed, maxAttr: Parsed, delta: int): (r: int)
    ensures r >= 1
    ensures OrDefault(maxAttr, MaxCards) >= 1 ==> r <= OrDefault(maxAttr, MaxCards)
    ensures 1 <= OrDefault(value, 1) + delta <= OrDefault(maxAttr, MaxCards) ==> r == OrDefault(value, 1) + delta
    ensures OrDefault(value, 1) + delta < 1 ==> r == 1
    ensures OrDefault(value, 1) + delta > OrDefault(maxAttr, MaxCards) ==> r == Max(1, OrDefault(maxAttr, MaxCards))
  {
    var current := OrDefault(value, 1);
    var max := OrDefault(maxAttr, MaxCards);
    Max(1, Min(max, current + delta))
  }

  // ---------------------------------------------------------------------------
  // handleGenerate

  /** The form fields `handleGenerate` reads; numeric ones as `parseInt` yields them. */
  datatype Form = Form(
    title: string, subtitle: string,
    count: Parsed, maxNumber: Parsed, gridCols: Parsed, gridRows: Parsed,
    winCondition: string, freeSpaceCount: Parsed,
    titleColor: string, titleStyle: string, subtitleColor: string, subtitleStyle: string)

  datatype Card = Card(
    title: string, subtitle: string,
    rows: int, cols: int, freeSpaces: int,
    titleColor: string, titleStyle: string, subtitleColor: string, subtitleStyle: string,
    columns: seq<seq<int>>)

  /** The generator's state: the cards on screen and the settings `checkWin` uses. */
  datatype Generator = Generator(cards: seq<Card>, winCondition: string, gridCols: int, gridRows: int)

  /** The constructor's state. */
  function InitialGenerator(): (g: Generator)
    ensures g.cards == [] && g.gridCols == 5 && g.gridRows == 5 && ModeOf(g.winCondition) == Standard
  {
    Generator([], "standard", 5, 5)
  }

  datatype GenError = CountOutOfRange | RangeTooSmall(cols: int, rows: int, minMaxNumber: int)

  datatype Verdict = Accepted | Rejected(error: GenError)

  // the defaults of `parseInt(...) || d`
  function FormCount(f: Form): int { OrDefault(f.count, 1) }
  function FormMaxNumber(f: Form): int { OrDefault(f.maxNumber, 75) }
  function FormCols(f: Form): (c: int) ensures c != 0 { OrDefault(f.gridCols, 5) }
  function FormRows(f: Form): int { OrDefault(f.gridRows, 5) }
  function FormFreeSpaces(f: Form): int { OrDefault(f.freeSpaceCount, 0) }

  /** `title.trim() || 'VNEXT G11 BINGO'` */
  function FormTitle(f: Form): (t: string)
    ensures t != []
    ensures Trim(f.title) != [] ==> t == Trim(f.title)
    ensures Trim(f.title) == [] ==> t == DefaultTitle
  {
    var t := Trim(f.title);
    if t == [] then DefaultTitle else t
  }

  /** The two checks, in the order the source makes them. */
  function Validate(count: int, maxNumber: int, cols: int, rows: int): (v: Verdict)
    requires cols != 0
    ensures v == Accepted <==> 1 <= count <= MaxCards && FloorDiv(maxNumber, cols) >= rows
    ensures v == Rejected(CountOutOfRange) <==> count < 1 || count > MaxCards
    ensures v.Rejected? && v.error.RangeTooSmall? ==> v.error == RangeTooSmall(cols, rows, cols * rows)
  {
    if count < 1 || count > MaxCards then Rejected(CountOutOfRange)
    else if FloorDiv(maxNumber, cols) < rows then Rejected(RangeTooSmall(cols, rows, cols * rows))
    else Accepted
  }

  /** The range check says the same as the figure the message reports: for a
      positive column count, `floor(maxNumber / cols) < rows` exactly when
      maxNumber is below `cols * rows` (for a negative count the comparison flips). */
  lemma RangeCheckMatchesMessage(maxNumber: int, cols: int, rows: int)
    requires cols != 0
    ensures cols > 0 ==> (FloorDiv(maxNumber, cols) < rows <==> maxNumber < cols * rows)
    ensures cols < 0 ==> (FloorDiv(maxNumber, cols) < rows <==> maxNumber > cols * rows)
  {
    var q := FloorDiv(maxNumber, cols);
    if cols > 0 {
      if q < rows {
        MulMonotone(q + 1, rows, cols);
        assert (q + 1) * cols == cols * q + cols;
      } else {
        MulMonotone(rows, q, cols);
      }
      assert rows * cols == cols * rows;
    } else {
      NegativeDivisorFlips(maxNumber, cols, rows, q);
    }
  }

  /** The negative-divisor half: with c < 0, `c * q + c < a <= c * q`. */
  lemma NegativeDivisorFlips(a: int, c: int, rows: int, q: int)
    requires c < 0 && c * q + c < a <= c * q
    ensures q < rows <==> a > c * rows
  {
    var d := -c;
    assert c * q == -(q * d) && c * rows == -(rows * d);
    if q < rows {
      MulMonotone(q + 1, rows, d);
      assert (q + 1) * d == q * d + d;
    } else {
      MulMonotone(rows, q, d);
    }
  }

  /** One entry of `this.cards`; `roll(c, i)` drives the shuffle of column c. */
  function MakeCard(f: Form, roll: (nat, nat) -> nat): (card: Card)
    ensures card.rows == FormRows(f) && card.cols == FormCols(f) && card.freeSpaces == FormFreeSpaces(f)
    ensures card.title == FormTitle(f) && card.subtitle == Trim(f.subtitle)
    ensures card.columns == GenerateCardNumbers(FormMaxNumber(f), FormCols(f), FormRows(f), roll)
  {
    Card(FormTitle(f), Trim(f.subtitle), FormRows(f), FormCols(f), FormFreeSpaces(f),
         f.titleColor, f.titleStyle, f.subtitleColor, f.subtitleStyle,
         GenerateCardNumbers(FormMaxNumber(f), FormCols(f), FormRows(f), roll))
  }

  /** The cards of an accepted submission: `count` of them, each carrying the
      form's settings and well-formed numbers. */
  predicate CardsFor(cards: seq<Card>, f: Form)
  {
    && |cards| == FormCount(f)
    && forall k :: 0 <= k < |cards| ==>
         && cards[k].rows == FormRows(f) && cards[k].cols == FormCols(f)
         && cards[k].freeSpaces == FormFreeSpaces(f)
         && cards[k].title == FormTitle(f) && cards[k].subtitle == Trim(f.subtitle)
         && (FormCols(f) > 0 ==>
               WellFormedCard(cards[k].columns, FormMaxNumber(f), FormCols(f), FormRows(f)))
  }

  function MakeCards(f: Form, roll: (nat, nat, nat) -> nat): (cards: seq<Card>)
    requires Validate(FormCount(f), FormMaxNumber(f), FormCols(f), FormRows(f)) == Accepted
    ensures CardsFor(cards, f)
  {
    var cards := seq(LoopCount(FormCount(f)), k requires 0 <= k =>
                   MakeCard(f, (c, i) => roll(k, c, i)));
    forall k | 0 <= k < |cards| && FormCols(f) > 0
      ensures WellFormedCard(cards[k].columns, FormMaxNumber(f), FormCols(f), FormRows(f))
    {
      ValidatedCardWellFormed(FormMaxNumber(f), FormCols(f), FormRows(f), (c, i) => roll(k, c, i));
    }
    cards
  }

  /** `handleGenerate` as written: `gridCols`, `gridRows` and `winCondition`
      are stored BEFORE the checks run, so a rejected submission keeps the old
      cards but changes the dimensions and rule the win check will use on them. */
  function HandleGenerate(st: Generator, f: Form, roll: (nat, nat, nat) -> nat): (r: (Generator, Verdict))
    ensures r.1 == Validate(FormCount(f), FormMaxNumber(f), FormCols(f), FormRows(f))
    ensures r.1 == Accepted <==> 1 <= FormCount(f) <= MaxCards && FloorDiv(FormMaxNumber(f), FormCols(f)) >= FormRows(f)
    ensures r.0.gridCols == FormCols(f) && r.0.gridRows == FormRows(f) && r.0.winCondition == f.winCondition
    ensures r.1.Rejected? ==> r.0.cards == st.cards
    ensures r.1 == Accepted ==> CardsFor(r.0.cards, f)
  {
    var st1 := st.(gridCols := FormCols(f), gridRows := FormRows(f), winCondition := f.winCondition);
    var verdict := Validate(FormCount(f), FormMaxNumber(f), FormCols(f), FormRows(f));
    if verdict.Rejected? then (st1, verdict)
    else (st1.(cards := MakeCards(f, roll)), verdict)
  }

  /** `handleGenerate` with the settings stored only once the checks pass:
      a rejected submission changes nothing. */
  function HandleGenerateChecked(st: Generator, f: Form, roll: (nat, nat, nat) -> nat): (r: (Generator, Verdict))
    ensures r.1 == Accepted <==> 1 <= FormCount(f) <= MaxCards && FloorDiv(FormMaxNumber(f), FormCols(f)) >= FormRows(f)
    ensures r.1.Rejected? ==> r.0 == st
    ensures r.1 == Accepted ==>
              && r.0.gridCols == FormCols(f) && r.0.gridRows == FormRows(f) && r.0.winCondition == f.winCondition
              && CardsFor(r.0.cards, f)
  {
    var verdict := Validate(FormCount(f), FormMaxNumber(f), FormCols(f), FormRows(f));
    if verdict.Rejected? then (st, verdict)
    else (Generator(MakeCards(f, roll), f.winCondition, FormCols(f), FormRows(f)), verdict)
  }

  // ---------------------------------------------------------------------------
  // Clicking a cell

  /** `checkWin(cell)`: the clicked card's marks, in row-major cell order, read
      with the generator's current dimensions and rule. */
  predicate ClickWins(st: Generator, marks: seq<bool>) {
    var g := GridFromCells(marks, st.gridRows, st.gridCols);
    IsWin(g, st.gridRows, st.gridCols, ModeOf(st.winCondition))
  }

  /** The cards on screen have the dimensions `checkWin` will read them with. */
  predicate DimsAgree(st: Generator) {
    forall k :: 0 <= k < |st.cards| ==> st.cards[k].rows == st.gridRows && st.cards[k].cols == st.gridCols
  }

  /** While the dimensions agree, a click decides on exactly the marks the
      card shows, laid out row by row as `createCardElement` emits them. */
  lemma ClickReadsCardFaithfully(st: Generator, k: int, g: seq<seq<bool>>)
    requires DimsAgree(st) && 0 <= k < |st.cards|
    requires IsGrid(g, LoopCount(st.cards[k].rows), LoopCount(st.cards[k].cols))
    ensures ClickWins(st, Flatten(g)) <==>
            IsWin(g, st.cards[k].rows, st.cards[k].cols, ModeOf(st.winCondition))
  {
    var cols := LoopCount(st.gridCols);
    assert Rectangular(g, cols);
    ReadBackRoundTrip(g, cols);
    var read := GridFromCells(Flatten(g), |g|, cols);
    if st.gridCols >= 0 {
      assert GridFromCells(Flatten(g), st.gridRows, st.gridCols) == read;
    } else {
      assert GridFromCells(Flatten(g), st.gridRows, st.gridCols) == g;
    }
  }

  /** Dimensions a submission can store when it parses to non-positive
      numbers: `checkWin` builds an empty grid, so in standard play only equal
      dimensions open the diagonal test, whose `every` over no cells holds,
      while a full house holds whatever the dimensions. */
  lemma EmptyGridClicks()
    ensures !ClickWins(Generator([], "standard", -1, -2), [])
    ensures ClickWins(Generator([], "standard", -1, -1), [])
    ensures ClickWins(Generator([], "fullhouse", -1, -2), [])
  {
    assert GridFromCells([], -1, -2) == [];
    assert GridFromCells([], -1, -1) == [];
  }

  lemma InitialDimsAgree()
    ensures DimsAgree(InitialGenerator())
  {
  }

  /** The corrected submission keeps the cards and the dimensions in agreement. */
  lemma CheckedKeepsDimsAgree(st: Generator, f: Form, roll: (nat, nat, nat) -> nat)
    requires DimsAgree(st)
    ensures DimsAgree(HandleGenerateChecked(st, f, roll).0)
  {
  }

  // A 5 x 5 card with its top row marked, and a 10 x 10 submission that the
  // range check rejects (75 numbers cannot fill 10 columns of 10).
  const ExampleCard: Card := Card(DefaultTitle, "", 5, 5, 1, "", "", "", "", seq(5, c => seq(5, r => 0)))
  const ExampleState: Generator := Generator([ExampleCard], "standard", 5, 5)
  const WideForm: Form := Form("", "", Num(1), Num(75), Num(10), Num(10), "standard", Num(1), "", "", "", "")
  const TopRowMarks: seq<bool> := seq(25, i => i < 5)

  /** The submission as written does not keep them in agreement: the marked
      card is a win until the wide submission is rejected; the same card and
      marks then read as no win. */
  lemma RejectedSubmitMisreadsCard(roll: (nat, nat, nat) -> nat)
    ensures DimsAgree(ExampleState)
    ensures ClickWins(ExampleState, TopRowMarks)
    ensures HandleGenerate(ExampleState, WideForm, roll).1 == Rejected(RangeTooSmall(10, 10, 100))
    ensures HandleGenerate(ExampleState, WideForm, roll).0.cards == ExampleState.cards
    ensures !DimsAgree(HandleGenerate(ExampleState, WideForm, roll).0)
    ensures !ClickWins(HandleGenerate(ExampleState, WideForm, roll).0, TopRowMarks)
  {
    var before := GridFromCells(TopRowMarks, 5, 5);
    assert RowFull(before, 5, 5, 0);
    var st' := HandleGenerate(ExampleState, WideForm, roll).0;
    assert st'.gridRows == 10 && st'.gridCols == 10;
    assert st'.cards[0].rows == 5;
    TopRowReadWide();
  }

  /** Read as 10 x 10, the 25 marks of the 5 x 5 card fill no line: column 9
      and row 9 are past the marks, so no row, column or diagonal is full. */
  lemma TopRowReadWide()
    ensures !IsWin(GridFromCells(TopRowMarks, 10, 10), 10, 10, Standard)
  {
    var after := GridFromCells(TopRowMarks, 10, 10);
    forall r | 0 <= r < 10
      ensures !RowFull(after, 10, 10, r)
    {
      assert !after[r][9];
    }
    forall c | 0 <= c < 10
      ensures !ColumnFull(after, 10, 10, c)
    {
      assert !after[9][c];
    }
    assert !after[9][9] && !after[0][9];
  }

  /** With the corrected submission the same card still reads as a win after
      the wide submission is rejected. */
  lemma CheckedRejectKeepsWin(roll: (nat, nat, nat) -> nat)
    ensures HandleGenerateChecked(ExampleState, WideForm, roll).1.Rejected?
    ensures ClickWins(HandleGenerateChecked(ExampleState, WideForm, roll).0, TopRowMarks)
  {
    assert RowFull(GridFromCells(TopRowMarks, 5, 5), 5, 5, 0);
  }
}
