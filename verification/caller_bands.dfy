/** The caller's fixed universe 1..75 and its five letter bands (caller.js:
    `TOTAL_NUMBERS`, `LETTERS`, `getLetterForNumber`, the row index of
    `renderMasterBoard`, and the class names derived from a letter). */
module CallerBands {
  import opened JsValues
  import opened Counting

  const TotalNumbers: int := 75
  const Letters: seq<char> := ['B', 'I', 'N', 'G', 'O']

  /** `getLetterForNumber(num)`: bands of 15, anything above 60 is O. */
  function LetterForNumber(num: int): (l: char)
    ensures l in Letters
  {
    if num <= 15 then 'B'
    else if num <= 30 then 'I'
    else if num <= 45 then 'N'
    else if num <= 60 then 'G'
    else 'O'
  }

  /** `Math.floor((i - 1) / 15)`: the board row number i is placed in. */
  function BoardLetterIndex(i: int): (k: int)
    requires i >= 1
    ensures k >= 0
  {
    (i - 1) / 15
  }

  /** The letter of a number and the board row it is drawn in agree on 1..75,
      and row k holds exactly the fifteen numbers 15k+1 .. 15k+15. */
  lemma LetterMatchesBoardRow(i: int)
    requires 1 <= i <= TotalNumbers
    ensures 0 <= BoardLetterIndex(i) < |Letters|
    ensures Letters[BoardLetterIndex(i)] == LetterForNumber(i)
    ensures 15 * BoardLetterIndex(i) + 1 <= i <= 15 * BoardLetterIndex(i) + 15
  {
    var k := BoardLetterIndex(i);
    assert 15 * k <= i - 1 < 15 * k + 15;
  }

  /** Each letter's band of the board is exactly fifteen numbers. */
  lemma BoardRowsHoldFifteen(k: int)
    requires 0 <= k < |Letters|
    ensures forall i :: 1 <= i <= TotalNumbers ==>
              (BoardLetterIndex(i) == k <==> i in IntervalSet(15 * k + 1, 15 * k + 16))
    ensures |IntervalSet(15 * k + 1, 15 * k + 16)| == 15
  {
    forall i | 1 <= i <= TotalNumbers
      ensures BoardLetterIndex(i) == k <==> 15 * k + 1 <= i < 15 * k + 16
    {
      LetterMatchesBoardRow(i);
      if 15 * k + 1 <= i < 15 * k + 16 {
        RowOfBand(i, k);
      }
    }
    IntervalSetSize(15 * k + 1, 15 * k + 16);
  }

  /** The numbers 15k+1 .. 15k+15 all go to board row k. */
  lemma RowOfBand(i: int, k: int)
    requires 0 <= k && 15 * k + 1 <= i <= 15 * k + 15
    ensures BoardLetterIndex(i) == k
  {
    var q := (i - 1) / 15;
    assert 15 * q <= i - 1 < 15 * q + 15;
  }

  // ---------------------------------------------------------------------------
  // Class names

  predicate OccursAt(s: string, pat: string, j: int) {
    0 <= j && j + |pat| <= |s| && s[j..j + |pat|] == pat
  }

  /** Position of the first occurrence of pat in s at or after `from`, or -1. */
  function IndexOfFrom(s: string, pat: string, from: nat): (i: int)
    requires from <= |s|
    ensures i == -1 || (from <= i && OccursAt(s, pat, i))
    ensures forall j :: from <= j < (if i == -1 then |s| + 1 else i) ==> !OccursAt(s, pat, j)
    decreases |s| - from
  {
    if from + |pat| > |s| then -1
    else if s[from..from + |pat|] == pat then from
    else IndexOfFrom(s, pat, from + 1)
  }

  /** `s.replace(pat, rep)` with a string pattern: only the first occurrence. */
  function ReplaceFirst(s: string, pat: string, rep: string): (r: string)
    ensures pat <= s ==> r == rep + s[|pat|..]
  {
    var i := IndexOfFrom(s, pat, 0);
    if i < 0 then s else s[..i] + rep + s[i + |pat|..]
  }

  /** `toLowerCase` on the ASCII text the class names are made of. */
  function ToLowerCase(s: string): (r: string)
    ensures |r| == |s| && forall i :: 0 <= i < |s| ==> r[i] == AsciiLower(s[i])
  {
    seq(|s|, i requires 0 <= i < |s| => AsciiLower(s[i]))
  }

  /** `getClassForLetter(letter)` */
  function ClassForLetter(letter: char): (cls: string)
    ensures |cls| == 6 && cls[..5] == "ball-" && cls[5] == letter
  {
    "ball-" + [letter]
  }

  /** `getClassForNumber(num)`: the ball class, prefix removed, lower-cased,
      plus `-col`; what is left is the band letter in lower case. */
  function ClassForNumber(num: int): (cls: string)
    ensures cls == [AsciiLower(LetterForNumber(num))] + "-col"
  {
    var ball := ClassForLetter(LetterForNumber(num));
    assert "ball-" <= ball && ball[|"ball-"|..] == [LetterForNumber(num)];
    ToLowerCase(ReplaceFirst(ball, "ball-", "")) + "-col"
  }

  /** The class `updateHistoryUI` puts on a recent-call ball: the band letter
      in lower case, by way of `toLowerCase` on the letter itself. */
  function MiniBallClass(num: int): (cls: string)
    ensures cls == "mini-ball " + [AsciiLower(LetterForNumber(num))] + "-col"
  {
    "mini-ball " + ToLowerCase([LetterForNumber(num)]) + "-col"
  }

  /** The column class is one of the five lower-case band classes, and the
      recent-calls panel derives the same class by its own route. */
  lemma ColumnClassIsBandLetter(num: int)
    ensures ClassForNumber(num) in ["b-col", "i-col", "n-col", "g-col", "o-col"]
    ensures MiniBallClass(num) == "mini-ball " + ClassForNumber(num)
  {
    BandClass(LetterForNumber(num));
  }

  /** The class of each band letter, lower-cased. */
  lemma BandClass(l: char)
    requires l in Letters
    ensures [AsciiLower(l)] + "-col" in ["b-col", "i-col", "n-col", "g-col", "o-col"]
  {
    var cls := [AsciiLower(l)] + "-col";
    if l == 'B' {
      assert cls == "b-col";
    } else if l == 'I' {
      assert cls == "i-col";
    } else if l == 'N' {
      assert cls == "n-col";
    } else if l == 'G' {
      assert cls == "g-col";
    } else {
      assert cls == "o-col";
    }
  }
}
