/** The spoken announcement of a completed draw (caller.js `speakNumber`):
    only the text and the locale it is spoken in; voices, rate and pitch are
    browser settings outside the model. */
module CallerAnnounce {
  import opened JsValues
  import opened CallerBands

  /** The `vietLetters` table, with `|| letter` for a letter it does not list. */
  function VietLetter(letter: char): (v: string)
    ensures letter == 'B' ==> v == "B\U{00EA}"
    ensures letter == 'I' ==> v == "I"
    ensures letter == 'N' ==> v == "N\U{1EDD}"
    ensures letter == 'G' ==> v == "G\U{1EDD}"
    ensures letter == 'O' ==> v == "\U{00D4}"
    ensures letter !in Letters ==> v == [letter]
  {
    match letter
    case 'B' => "B\U{00EA}"
    case 'I' => "I"
    case 'N' => "N\U{1EDD}"
    case 'G' => "G\U{1EDD}"
    case 'O' => "\U{00D4}"
    case _ => [letter]
  }

  /** How the letter is said in the given language setting. */
  function SpokenLetter(language: string, letter: char): string {
    if language == "vi" then VietLetter(letter) else [letter]
  }

  /** The locale the utterance is tagged with. */
  function LangCode(language: string): (code: string)
    ensures code == "vi-VN" || code == "en-US"
    ensures code == "vi-VN" <==> language == "vi"
  {
    if language == "vi" then "vi-VN" else "en-US"
  }

  datatype Speech = Silent | Speak(text: string, langCode: string)

  /** `speakNumber(num, letter)`: nothing when muted or when the browser has no
      speech synthesis, otherwise "<letter as said> <num>" in the chosen locale. */
  function SpeakNumber(language: string, isMuted: bool, speechAvailable: bool, num: int, letter: char)
    : (r: Speech)
    ensures r.Silent? <==> isMuted || !speechAvailable
    ensures r.Speak? ==> r.langCode == LangCode(language)
    ensures r.Speak? ==> exists k :: 0 <= k < |r.text| && r.text[k] == ' '
                                     && r.text[k + 1..] == IntToDecimal(num)
                                     && r.text[..k] == SpokenLetter(language, letter)
  {
    if isMuted || !speechAvailable then Silent
    else
      var spoken, digits := SpokenLetter(language, letter), IntToDecimal(num);
      JoinAtSpace(spoken, digits);
      Speak(spoken + " " + digits, LangCode(language))
  }

  /** "a b" has its space at position |a|, with a before it and b after it. */
  lemma JoinAtSpace(a: string, b: string)
    ensures var t := a + " " + b;
            |a| < |t| && t[|a|] == ' ' && t[..|a|] == a && t[|a| + 1..] == b
  {
    var t := a + " " + b;
    assert t[..|a|] == a;
    assert t[|a| + 1..] == b;
  }

  /** The text announced for a drawn number, letter taken from its band. */
  function CallText(language: string, num: int): string {
    SpokenLetter(language, LetterForNumber(num)) + " " + IntToDecimal(num)
  }

  /** No spoken letter contains a space, in either language. */
  lemma SpokenLetterHasNoSpace(language: string, num: int)
    ensures ' ' !in SpokenLetter(language, LetterForNumber(num))
  {
  }

  /** Splitting "a b" at its first space recovers both parts when a has no space. */
  lemma SplitAtFirstSpace(a: string, b: string, c: string, d: string)
    requires ' ' !in a && ' ' !in c
    requires a + " " + b == c + " " + d
    ensures a == c && b == d
  {
    var x := a + " " + b;
    var y := c + " " + d;
    assert x[|a|] == ' ' && y[|c|] == ' ';
    assert a == x[..|a|] && c == y[..|c|];
    assert b == x[|a| + 1..] && d == y[|c| + 1..];
  }

  /** Two different calls never sound alike: the announcement text determines
      the number, in either language. */
  lemma CallTextInjective(language: string, n1: int, n2: int)
    requires CallText(language, n1) == CallText(language, n2)
    ensures n1 == n2
  {
    SpokenLetterHasNoSpace(language, n1);
    SpokenLetterHasNoSpace(language, n2);
    SplitAtFirstSpace(SpokenLetter(language, LetterForNumber(n1)), IntToDecimal(n1),
                      SpokenLetter(language, LetterForNumber(n2)), IntToDecimal(n2));
    IntToDecimalInjective(n1, n2);
  }

  /** The five Vietnamese letter names are pairwise different, so a listener
      can tell the bands apart as well as in English. */
  lemma VietLettersDistinct(a: char, b: char)
    requires a in Letters && b in Letters && a != b
    ensures VietLetter(a) != VietLetter(b)
  {
  }

  /** In English the announcement begins with the band letter itself; in
      Vietnamese it begins with the letter's Vietnamese name. */
  lemma CallTextStartsWithLetter(language: string, num: int)
    ensures language != "vi" ==> CallText(language, num)[0] == LetterForNumber(num)
    ensures language == "vi" ==> VietLetter(LetterForNumber(num)) <= CallText(language, num)
  {
  }
}
