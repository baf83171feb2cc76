/** JavaScript value-level behaviour that both bingo components lean on:
    `parseInt(...) || d` defaults, `for` loops over a possibly negative bound,
    `Math.floor(a / b)`, `String.prototype.trim`, number-to-text rendering and
    ASCII lower-casing. */
module JsValues {

  /** What `parseInt` yields for a form field: a number, or NaN. */
  datatype Parsed = NaN | Num(n: int)

  /** `parseInt(v) || d`: NaN and 0 are falsy, so both fall back to `d`. */
  function OrDefault(p: Parsed, d: int): (r: int)
    ensures d != 0 ==> r != 0
    ensures p.Num? && p.n != 0 ==> r == p.n
    ensures p == NaN || p == Num(0) ==> r == d
  {
    if p.Num? && p.n != 0 then p.n else d
  }

  /** How many times `for (let i = 0; i < n; i++)` runs. */
  function LoopCount(n: int): (k: nat)
    ensures n >= 0 ==> k == n
    ensures n <= 0 ==> k == 0
  {
    if n < 0 then 0 else n
  }

  /** `Math.floor(a / b)` for integers, b non-zero: the greatest q with q <= a/b. */
  function FloorDiv(a: int, b: int): (q: int)
    requires b != 0
    ensures b > 0 ==> b * q <= a < b * q + b
    ensures b < 0 ==> b * q + b < a <= b * q
  {
    if b > 0 then a / b else (-a) / (-b)
  }

  /** `Math.max(a, b)` */
  function Max(a: int, b: int): int {
    if a >= b then a else b
  }

  /** `Math.min(a, b)` */
  function Min(a: int, b: int): int {
    if a <= b then a else b
  }

  // ---------------------------------------------------------------------------
  // String.prototype.trim

  /** The WhiteSpace and LineTerminator code points that `trim` removes. */
  predicate IsJsWhitespace(c: char) {
    || c == '\t' || c == '\n' || c == '\U{000B}' || c == '\U{000C}' || c == '\r'
    || c == ' ' || c == '\U{00A0}' || c == '\U{1680}'
    || ('\U{2000}' <= c <= '\U{200A}')
    || c == '\U{2028}' || c == '\U{2029}' || c == '\U{202F}' || c == '\U{205F}'
    || c == '\U{3000}' || c == '\U{FEFF}'
  }

  /** Every character of s[lo..hi] is whitespace. */
  predicate WhiteSpan(s: string, lo: int, hi: int)
    requires 0 <= lo <= hi <= |s|
  {
    forall j :: lo <= j < hi ==> IsJsWhitespace(s[j])
  }

  /** Where the text of s starts, scanning from `from`: the end of the
      whitespace run beginning there. */
  function TextStart(s: string, from: nat): (a: nat)
    requires from <= |s|
    ensures from <= a <= |s| && WhiteSpan(s, from, a)
    ensures a < |s| ==> !IsJsWhitespace(s[a])
    decreases |s| - from
  {
    if from == |s| || !IsJsWhitespace(s[from]) then from else TextStart(s, from + 1)
  }

  /** Where the text of s[lo..hi] ends: the start of its trailing whitespace run. */
  function TextEnd(s: string, lo: nat, hi: nat): (e: nat)
    requires lo <= hi <= |s|
    ensures lo <= e <= hi && WhiteSpan(s, e, hi)
    ensures lo < e ==> !IsJsWhitespace(s[e - 1])
    decreases hi
  {
    if hi == lo || !IsJsWhitespace(s[hi - 1]) then hi else TextEnd(s, lo, hi - 1)
  }

  /** `s.trim()`: the slice left after dropping whitespace at both ends. */
  function Trim(s: string): (r: string)
    ensures |r| <= |s|
    ensures r == [] || (!IsJsWhitespace(r[0]) && !IsJsWhitespace(r[|r| - 1]))
    ensures exists i :: 0 <= i <= |s| - |r| && s[i..i + |r|] == r
                        && WhiteSpan(s, 0, i) && WhiteSpan(s, i + |r|, |s|)
  {
    var a := TextStart(s, 0);
    var e := TextEnd(s, a, |s|);
    assert a == |s| ==> e == a;
    s[a..e]
  }

  // ---------------------------------------------------------------------------
  // Number to text, as a template literal renders an integer

  function DigitChar(d: nat): (c: char)
    requires d < 10
    ensures '0' <= c <= '9'
  {
    ['0', '1', '2', '3', '4', '5', '6', '7', '8', '9'][d]
  }

  predicate IsDigit(c: char) {
    '0' <= c <= '9'
  }

  predicate AllDigits(s: string) {
    forall i :: 0 <= i < |s| ==> IsDigit(s[i])
  }

  /** The value a string of decimal digits denotes (reference reading). */
  function DecimalValue(s: string): nat
    requires AllDigits(s)
  {
    if |s| == 0 then 0
    else 10 * DecimalValue(s[..|s| - 1]) + ((s[|s| - 1] as int) - ('0' as int))
  }

  /** Shortest decimal rendering of a natural number. */
  function NatToDecimal(n: nat): (s: string)
    ensures |s| >= 1
    ensures AllDigits(s)
    ensures |s| > 1 ==> s[0] != '0'
    ensures s[0] == '0' <==> n == 0
  {
    if n < 10 then [DigitChar(n)]
    else NatToDecimal(n / 10) + [DigitChar(n % 10)]
  }

  lemma {:induction false} DecimalRoundTrip(n: nat)
    ensures DecimalValue(NatToDecimal(n)) == n
  {
    var s := NatToDecimal(n);
    if n < 10 {
      assert s[..0] == [];
    } else {
      DecimalRoundTrip(n / 10);
      assert s[..|s| - 1] == NatToDecimal(n / 10);
    }
  }

  /** `${i}` for an integer i. */
  function IntToDecimal(i: int): (s: string)
    ensures |s| >= 1
    ensures i >= 0 ==> AllDigits(s) && DecimalValue(s) == i
    ensures i < 0 ==> s[0] == '-' && AllDigits(s[1..]) && DecimalValue(s[1..]) == -i
    ensures i >= 0 ==> (s[0] == '0' <==> i == 0) && (|s| > 1 ==> s[0] != '0')
    ensures i < 0 ==> |s| >= 2 && s[1] != '0'
  {
    if i < 0 then
      DecimalRoundTrip(-i);
      "-" + NatToDecimal(-i)
    else
      DecimalRoundTrip(i);
      NatToDecimal(i)
  }

  /** Two integers with the same rendering are the same integer. */
  lemma IntToDecimalInjective(i: int, j: int)
    requires IntToDecimal(i) == IntToDecimal(j)
    ensures i == j
  {
  }

  /** `toLowerCase` on one character, for the ASCII letters the program feeds it. */
  function AsciiLower(c: char): (l: char)
    ensures 'A' <= c <= 'Z' ==> 'a' <= l <= 'z' && l as int == c as int + 32
    ensures !('A' <= c <= 'Z') ==> l == c
  {
    if 'A' <= c <= 'Z' then (c as int + 32) as char else c
  }
}
