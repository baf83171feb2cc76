/** The caller's two persisted preferences (caller.js): the announcement
    language, kept under `bingoLang`, and the page theme, kept under
    `bingoTheme`. Storage reads are inputs and writes are outputs here. */
module CallerPrefs {

  /** What `localStorage.getItem(key)` returns: null, or the stored string. */
  datatype Stored = Missing | Value(s: string)

  // ---------------------------------------------------------------------------
  // Language

  /** `localStorage.getItem('bingoLang') || 'vi'`: null and "" fall back to Vietnamese. */
  function InitialLanguage(stored: Stored): (language: string)
    ensures language != ""
    ensures stored.Value? && stored.s != "" ==> language == stored.s
    ensures stored == Missing || stored == Value("") ==> language == "vi"
  {
    match stored
    case Missing => "vi"
    case Value(s) => if s == "" then "vi" else s
  }

  /** The language button: Vietnamese becomes English, anything else Vietnamese. */
  function ToggleLanguage(language: string): (next: string)
    ensures next == "vi" || next == "en"
    ensures next != language
    ensures next == "en" <==> language == "vi"
  {
    if language == "vi" then "en" else "vi"
  }

  /** Toggling twice restores the language exactly when it was one of the two
      the button produces; a foreign stored value is replaced for good. */
  lemma ToggleLanguageTwice(language: string)
    ensures ToggleLanguage(ToggleLanguage(language)) == language <==> language == "vi" || language == "en"
  {
  }

  /** The value the toggle writes is the value the next page load starts with. */
  lemma StoredLanguageRoundTrip(language: string)
    ensures InitialLanguage(Value(ToggleLanguage(language))) == ToggleLanguage(language)
  {
  }

  // ---------------------------------------------------------------------------
  // Theme

  const TetClass: string := "theme-tet"
  const TetAdvanceClass: string := "theme-tet-advance"

  datatype Theme = DefaultTheme | Tet | TetAdvance

  /** The theme classes the body carries for a theme. */
  function ThemeClasses(t: Theme): set<string> {
    match t
    case DefaultTheme => {}
    case Tet => {TetClass}
    case TetAdvance => {TetAdvanceClass}
  }

  /** The string the toggle stores for a theme. */
  function StoredName(t: Theme): string {
    match t
    case DefaultTheme => "default"
    case Tet => TetClass
    case TetAdvance => TetAdvanceClass
  }

  /** The theme button on the body's class list: it returns the new class list
      and the string written to `bingoTheme`. */
  function ToggleTheme(body: set<string>): (r: (set<string>, string))
    ensures TetClass in body ==> r.0 == body - {TetClass} + {TetAdvanceClass}
    ensures TetClass !in body && TetAdvanceClass in body ==> r.0 == body - {TetAdvanceClass}
    ensures TetClass !in body && TetAdvanceClass !in body ==> r.0 == body + {TetClass}
    ensures r.0 - {TetClass, TetAdvanceClass} == body - {TetClass, TetAdvanceClass}
    ensures TetClass in body ==> r.1 == TetAdvanceClass
    ensures TetClass !in body && TetAdvanceClass in body ==> r.1 == "default"
    ensures TetClass !in body && TetAdvanceClass !in body ==> r.1 == TetClass
  {
    if TetClass in body then (body - {TetClass} + {TetAdvanceClass}, TetAdvanceClass)
    else if TetAdvanceClass in body then (body - {TetAdvanceClass}, "default")
    else (body + {TetClass}, TetClass)
  }

  /** Default -> Tet -> Tet advance -> Default. */
  function NextTheme(t: Theme): Theme {
    match t
    case DefaultTheme => Tet
    case Tet => TetAdvance
    case TetAdvance => DefaultTheme
  }

  /** The start-up restore: a stored `theme-tet` or `theme-tet-advance` adds
      that class; anything else, `default` and null included, adds none. */
  function RestoreTheme(stored: Stored): (t: Theme)
    ensures stored == Value(TetClass) <==> t == Tet
    ensures stored == Value(TetAdvanceClass) <==> t == TetAdvance
  {
    if stored == Value(TetClass) then Tet
    else if stored == Value(TetAdvanceClass) then TetAdvance
    else DefaultTheme
  }

  /** Bodies whose only theme classes are those of one theme, plus any others. */
  predicate ShowsTheme(body: set<string>, t: Theme) {
    body * {TetClass, TetAdvanceClass} == ThemeClasses(t)
  }

  /** On a body showing theme t, the button shows the next theme, keeps every
      other class, and stores the name that restores the next theme. */
  lemma ToggleThemeAdvances(body: set<string>, t: Theme)
    requires ShowsTheme(body, t)
    ensures ShowsTheme(ToggleTheme(body).0, NextTheme(t))
    ensures ToggleTheme(body).1 == StoredName(NextTheme(t))
    ensures RestoreTheme(Value(ToggleTheme(body).1)) == NextTheme(t)
  {
    var r := ToggleTheme(body).0;
    if t == DefaultTheme {
      assert TetClass !in body && TetAdvanceClass !in body by {
        assert TetClass !in body * {TetClass, TetAdvanceClass};
        assert TetAdvanceClass !in body * {TetClass, TetAdvanceClass};
      }
      assert r == body + {TetClass};
    } else if t == Tet {
      assert TetClass in body by {
        assert TetClass in body * {TetClass, TetAdvanceClass};
      }
      assert TetAdvanceClass !in body by {
        assert TetAdvanceClass !in body * {TetClass, TetAdvanceClass};
      }
    } else {
      assert TetClass !in body by {
        assert TetClass !in body * {TetClass, TetAdvanceClass};
      }
      assert TetAdvanceClass in body by {
        assert TetAdvanceClass in body * {TetClass, TetAdvanceClass};
      }
    }
  }

  /** Three presses of the theme button give back the class list it started
      from, whatever theme that was. */
  lemma ThemeTogglePeriodThree(body: set<string>, t: Theme)
    requires ShowsTheme(body, t)
    ensures ToggleTheme(ToggleTheme(ToggleTheme(body).0).0).0 == body
  {
  }

  /** Restoring a stored name gives back the theme it was stored for. */
  lemma RestoreRoundTrip(t: Theme)
    ensures RestoreTheme(Value(StoredName(t))) == t
  {
  }
}
