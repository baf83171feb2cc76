/** The number caller of caller.js (`BingoCaller`) as a state machine over
    the universe 1..75. A draw takes two steps: `drawNumber` starts the roll
    and schedules a timeout, and the timeout picks an uncalled number and runs
    `finalizeDraw`. The auto-draw interval is a `Tick` event. */
module CallerState {
  import opened JsValues
  import opened Counting
  import opened CallerBands
  import opened CallerAnnounce
  import opened CallerPrefs

  /** `autoInterval`: null, or a running interval with its period in ms. */
  datatype AutoTimer = Stopped | Running(period: int)

  datatype Caller = Caller(
    called: set<int>,     // calledNumbers
    history: seq<int>,    // most recent first
    isRolling: bool,      // a roll timeout is pending
    auto: AutoTimer,
    autoSpeed: int,       // ms
    isMuted: bool,
    language: string)

  /** The constructor's state; the language comes from storage. */
  function InitialCaller(storedLanguage: Stored): (r: Caller)
    ensures r.called == {} && r.history == []
    ensures !r.isRolling && r.auto == Stopped
    ensures r.autoSpeed == 3000 && !r.isMuted
    ensures r.language == InitialLanguage(storedLanguage)
  {
    Caller({}, [], false, Stopped, 3000, false, InitialLanguage(storedLanguage))
  }

  /** Every number called lies in 1..75 and appears exactly once in the
      history, which holds nothing else; a pending roll means a number is
      still free; a running interval ticks at the current speed. */
  predicate Valid(s: Caller) {
    && (forall x :: x in s.called ==> 1 <= x <= TotalNumbers)
    && Distinct(s.history)
    && (forall x :: x in s.history ==> x in s.called)
    && (forall x :: x in s.called ==> x in s.history)
    && |s.history| == |s.called|
    && (s.isRolling ==> |s.called| < TotalNumbers)
    && (s.auto.Running? ==> s.auto.period == s.autoSpeed)
  }

  lemma InitialValid(storedLanguage: Stored)
    ensures Valid(InitialCaller(storedLanguage))
    ensures InitialCaller(storedLanguage).called == {} && InitialCaller(storedLanguage).history == []
    ensures !InitialCaller(storedLanguage).isRolling && InitialCaller(storedLanguage).auto == Stopped
  {
  }

  // ---------------------------------------------------------------------------
  // Transitions

  /** `drawNumber`: when all 75 are called it only stops auto-draw (after the
      alert); otherwise it starts a roll. */
  function DrawNumber(s: Caller): (r: Caller)
    ensures |s.called| >= TotalNumbers ==> r == s.(auto := Stopped)
    ensures |s.called| < TotalNumbers ==> r == s.(isRolling := true)
  {
    if |s.called| >= TotalNumbers then StopAutoDraw(s)
    else s.(isRolling := true)
  }

  /** `finalizeDraw(num)`: record the number, newest first, and end the roll. */
  function FinalizeDraw(s: Caller, num: int): (r: Caller)
    ensures r.called == s.called + {num}
    ensures |r.history| == |s.history| + 1 && r.history[0] == num && r.history[1..] == s.history
    ensures !r.isRolling && r.auto == s.auto && r.autoSpeed == s.autoSpeed
    ensures r.isMuted == s.isMuted && r.language == s.language
  {
    s.(called := s.called + {num}, history := [num] + s.history, isRolling := false)
  }

  /** The timeout's number: the rejection loop `do … while (has(num))` stops at
      a number in 1..75 not called yet. */
  predicate Fresh(s: Caller, num: int) {
    1 <= num <= TotalNumbers && num !in s.called
  }

  /** The draw button's handler: ignored while a roll is pending. */
  function ClickDraw(s: Caller): (r: Caller)
    ensures s.isRolling ==> r == s
    ensures !s.isRolling ==> r == DrawNumber(s)
  {
    if s.isRolling then s else DrawNumber(s)
  }

  /** `startAutoDraw`: nothing once all are called; otherwise draw now unless
      rolling, and start the interval at the current speed. */
  function StartAutoDraw(s: Caller): (r: Caller)
    ensures |s.called| >= TotalNumbers ==> r == s
    ensures |s.called| < TotalNumbers ==> r.auto == Running(s.autoSpeed) && r.isRolling
    ensures |s.called| < TotalNumbers ==> r == s.(isRolling := true, auto := Running(s.autoSpeed))
    ensures r.called == s.called && r.history == s.history
    ensures r.autoSpeed == s.autoSpeed && r.isMuted == s.isMuted && r.language == s.language
  {
    if |s.called| >= TotalNumbers then s
    else
      var drawn := if !s.isRolling then DrawNumber(s) else s;
      drawn.(auto := Running(s.autoSpeed))
  }

  /** `stopAutoDraw`: always clears the interval. */
  function StopAutoDraw(s: Caller): (r: Caller)
    ensures r.auto == Stopped
    ensures r.(auto := s.auto) == s
  {
    s.(auto := Stopped)
  }

  /** The auto button. */
  function ToggleAutoDraw(s: Caller): (r: Caller)
    ensures s.auto.Running? ==> r.auto == Stopped && r.isRolling == s.isRolling
    ensures s.auto.Running? ==> r == s.(auto := Stopped)
    ensures s.auto == Stopped && |s.called| < TotalNumbers ==> r.auto == Running(s.autoSpeed) && r.isRolling
    ensures s.auto == Stopped && |s.called| >= TotalNumbers ==> r == s
    ensures r.called == s.called && r.history == s.history && r.autoSpeed == s.autoSpeed
    ensures r.isMuted == s.isMuted && r.language == s.language
  {
    if s.auto.Running? then StopAutoDraw(s) else StartAutoDraw(s)
  }

  /** One firing of the interval: draw when idle and numbers remain, stop once
      all 75 are called, otherwise wait. */
  function AutoTick(s: Caller): (r: Caller)
    ensures r.called == s.called && r.history == s.history
    ensures r.isRolling != s.isRolling <==> !s.isRolling && |s.called| < TotalNumbers
    ensures r.auto == Stopped <==> s.auto == Stopped || |s.called| >= TotalNumbers
    ensures !s.isRolling && |s.called| < TotalNumbers ==> r == s.(isRolling := true)
    ensures s.isRolling && |s.called| < TotalNumbers ==> r == s
    ensures |s.called| >= TotalNumbers ==> r == s.(auto := Stopped)
  {
    if !s.isRolling && |s.called| < TotalNumbers then DrawNumber(s)
    else if |s.called| >= TotalNumbers then StopAutoDraw(s)
    else s
  }

  /** The speed slider: store `seconds * 1000` and restart a running interval. */
  function ChangeSpeed(s: Caller, seconds: int): (r: Caller)
    ensures r.autoSpeed == seconds * 1000
    ensures r.auto.Running? ==> r.auto.period == seconds * 1000
    ensures r.called == s.called && r.history == s.history
    ensures r.isMuted == s.isMuted && r.language == s.language
    ensures s.auto.Running? && |s.called| < TotalNumbers ==> r.auto == Running(seconds * 1000) && r.isRolling
    ensures s.auto.Running? && |s.called| >= TotalNumbers ==> r.auto == Stopped && r.isRolling == s.isRolling
    ensures s.auto == Stopped ==> r.auto == Stopped && r.isRolling == s.isRolling
  {
    var t := s.(autoSpeed := seconds * 1000);
    if t.auto.Running? then StartAutoDraw(StopAutoDraw(t)) else t
  }

  /** `resetGame`: stop auto-draw and forget every call. A roll already
      pending is not cancelled: its timeout still lands afterwards. */
  function ResetGame(s: Caller): (r: Caller)
    ensures r.called == {} && r.history == [] && r.auto == Stopped
    ensures r.isRolling == s.isRolling
    ensures r.autoSpeed == s.autoSpeed && r.isMuted == s.isMuted && r.language == s.language
  {
    s.(called := {}, history := [], auto := Stopped)
  }

  /** The recent-calls panel: `history.slice(1, 6)`. */
  function RecentCalls(history: seq<int>): (recent: seq<int>)
    ensures |recent| <= 5
    ensures |history| <= 1 ==> recent == []
    ensures |history| > 1 ==> |recent| == Min(5, |history| - 1)
    ensures forall i :: 0 <= i < |recent| ==> recent[i] == history[i + 1]
  {
    if |history| <= 1 then [] else history[1..Min(6, |history|)]
  }

  // ---------------------------------------------------------------------------
  // Events

  datatype Event =
    | DrawClick                    // button or Space key
    | Timeout(num: int)            // the roll timeout, with the number it picked
    | Tick                         // the auto-draw interval fires
    | AutoClick
    | SpeedInput(seconds: int)
    | ResetClick(confirmed: bool)  // the answer to `confirm`
    | SoundClick
    | LanguageClick

  /** When the environment can deliver an event: a timeout only while its roll
      is pending, and only with a number the rejection loop can return; a tick
      only while the interval runs. */
  predicate Enabled(s: Caller, e: Event) {
    match e
    case Timeout(num) => s.isRolling && Fresh(s, num)
    case Tick => s.auto.Running?
    case _ => true
  }

  /** Only a completed roll and a confirmed reset touch the calls; a roll
      records exactly its number, newest first. Only the sound button changes
      the mute flag, and the language button always changes the language. */
  function Step(s: Caller, e: Event): (r: Caller)
    requires Enabled(s, e)
    ensures r.called != s.called || r.history != s.history ==> e.Timeout? || e == ResetClick(true)
    ensures e.Timeout? ==> r.history == [e.num] + s.history && r.called == s.called + {e.num}
    ensures r.isMuted != s.isMuted <==> e == SoundClick
    ensures r.language != s.language <==> e == LanguageClick
    ensures r.autoSpeed != s.autoSpeed ==> e.SpeedInput?
  {
    match e
    case DrawClick => ClickDraw(s)
    case Timeout(num) => FinalizeDraw(s, num)
    case Tick => AutoTick(s)
    case AutoClick => ToggleAutoDraw(s)
    case SpeedInput(seconds) => ChangeSpeed(s, seconds)
    case ResetClick(confirmed) => if confirmed then ResetGame(s) else s
    case SoundClick => s.(isMuted := !s.isMuted)
    case LanguageClick => s.(language := ToggleLanguage(s.language))
  }

  /** The announcement `finalizeDraw` makes for its number, with the letter
      of the number's band. */
  function Announcement(s: Caller, num: int, speechAvailable: bool): (r: Speech)
    ensures r.Silent? <==> s.isMuted || !speechAvailable
    ensures r.Speak? ==> r.langCode == LangCode(s.language)
  {
    SpeakNumber(s.language, s.isMuted, speechAvailable, num, LetterForNumber(num))
  }

  /** What is said for a drawn number is its call text: band letter as said
      in the current language, a space, and the number. */
  lemma AnnouncementSaysCall(s: Caller, num: int, speechAvailable: bool)
    ensures Announcement(s, num, speechAvailable).Speak? ==>
              Announcement(s, num, speechAvailable).text == CallText(s.language, num)
  {
    var r := Announcement(s, num, speechAvailable);
    if r.Speak? {
      var k :| 0 <= k < |r.text| && r.text[k] == ' ' && r.text[k + 1..] == IntToDecimal(num)
               && r.text[..k] == SpokenLetter(s.language, LetterForNumber(num));
      assert r.text == r.text[..k] + [r.text[k]] + r.text[k + 1..];
    }
  }

  /** Two spoken announcements in the same game sound different whenever the
      numbers differ. */
  lemma AnnouncementsTellNumbersApart(s: Caller, n1: int, n2: int, speechAvailable: bool)
    requires Announcement(s, n1, speechAvailable).Speak?
    requires Announcement(s, n1, speechAvailable) == Announcement(s, n2, speechAvailable)
    ensures n1 == n2
  {
    AnnouncementSaysCall(s, n1, speechAvailable);
    AnnouncementSaysCall(s, n2, speechAvailable);
    CallTextInjective(s.language, n1, n2);
  }

  // ---------------------------------------------------------------------------
  // Invariant

  /** A completed draw with a fresh number keeps the invariant: no repeats,
      history and called set agree, at most 75. */
  lemma FinalizeKeepsValid(s: Caller, num: int)
    requires Valid(s) && Fresh(s, num)
    ensures Valid(FinalizeDraw(s, num))
    ensures |FinalizeDraw(s, num).called| == |s.called| + 1
  {
  }

  /** Finalizing a number already called breaks the invariant: the history
      would list it twice. The rejection loop is what rules this out. */
  lemma FinalizeRepeatBreaksValid(s: Caller, num: int)
    requires Valid(s) && num in s.called
    ensures !Valid(FinalizeDraw(s, num))
  {
  }

  /** Every event the environment can deliver keeps the invariant. */
  lemma StepKeepsValid(s: Caller, e: Event)
    requires Valid(s) && Enabled(s, e)
    ensures Valid(Step(s, e))
  {
  }

  /** A run of events from a state, or None when some event is not enabled
      at the point it arrives. */
  function Run(s: Caller, events: seq<Event>): (r: Option<Caller>)
    decreases |events|
  {
    if |events| == 0 then Some(s)
    else if !Enabled(s, events[0]) then None
    else Run(Step(s, events[0]), events[1..])
  }

  datatype Option<T> = None | Some(value: T)

  /** Every reachable state satisfies the invariant. */
  lemma {:induction false} RunKeepsValid(s: Caller, events: seq<Event>)
    requires Valid(s)
    requires Run(s, events).Some?
    ensures Valid(Run(s, events).value)
    decreases |events|
  {
    if |events| > 0 {
      StepKeepsValid(s, events[0]);
      RunKeepsValid(Step(s, events[0]), events[1..]);
    }
  }

  /** The roll timeout as an algorithm: the rejection loop always has a number
      to stop at, because a pending roll means fewer than 75 are called. */
  method RollTimeout(s: Caller) returns (num: int, r: Caller)
    requires Valid(s) && s.isRolling
    ensures Fresh(s, num) && Enabled(s, Timeout(num))
    ensures r == Step(s, Timeout(num)) && Valid(r)
    ensures r.history == [num] + s.history && r.called == s.called + {num}
  {
    var _ := FreeValueExists(s.called, 1, TotalNumbers + 1);
    num :| 1 <= num < TotalNumbers + 1 && num !in s.called;
    r := FinalizeDraw(s, num);
    FinalizeKeepsValid(s, num);
  }

  // ---------------------------------------------------------------------------
  // Properties of the guards

  /** When all 75 are called the state holds exactly 1..75, in some order. */
  lemma ExhaustedMeansAllCalled(s: Caller)
    requires Valid(s) && |s.called| >= TotalNumbers
    ensures |s.called| == TotalNumbers && s.called == IntervalSet(1, TotalNumbers + 1)
    ensures forall x :: 1 <= x <= TotalNumbers ==> x in s.history
  {
    SubsetOfInterval(s.called, 1, TotalNumbers + 1);
  }

  /** A draw once everything is called leaves the calls alone, starts no roll
      and stops auto-draw. */
  lemma DrawWhenExhausted(s: Caller)
    requires Valid(s) && |s.called| >= TotalNumbers
    ensures DrawNumber(s).called == s.called && DrawNumber(s).history == s.history
    ensures DrawNumber(s).auto == Stopped && !DrawNumber(s).isRolling
  {
  }

  /** While a roll is pending the draw button and the auto tick are no-ops
      on the calls; the tick stops auto-draw only when nothing is left. */
  lemma RollingIgnoresDraws(s: Caller)
    requires s.isRolling
    ensures Step(s, DrawClick) == s
    ensures s.auto.Running? ==> Step(s, Tick).called == s.called && Step(s, Tick).isRolling
  {
  }

  /** A tick starts a roll exactly when the caller is idle and numbers remain. */
  lemma TickDrawsIffIdle(s: Caller)
    requires s.auto.Running?
    ensures Step(s, Tick).isRolling && !s.isRolling <==> !s.isRolling && |s.called| < TotalNumbers
    ensures Step(s, Tick).auto == Stopped <==> |s.called| >= TotalNumbers
  {
  }

  /** A reset with confirmation empties the game; a cancelled one changes nothing. */
  lemma ResetClears(s: Caller, confirmed: bool)
    ensures confirmed ==> Step(s, ResetClick(confirmed)).called == {}
                          && Step(s, ResetClick(confirmed)).history == []
                          && Step(s, ResetClick(confirmed)).auto == Stopped
    ensures !confirmed ==> Step(s, ResetClick(confirmed)) == s
  {
  }

  /** A pending roll survives a reset, and its timeout then opens the new game. */
  lemma ResetDuringRoll(s: Caller, num: int)
    requires Valid(s) && s.isRolling && 1 <= num <= TotalNumbers
    ensures var t := ResetGame(s);
            Valid(t) && Enabled(t, Timeout(num)) && Step(t, Timeout(num)).history == [num]
  {
  }

  /** The recent-calls panel after a draw shows the up to five draws before
      it, newest first, and never the number just drawn. */
  lemma RecentCallsAfterDraw(s: Caller, num: int)
    requires Valid(s) && Fresh(s, num)
    ensures RecentCalls(FinalizeDraw(s, num).history) == s.history[..Min(5, |s.history|)]
    ensures num !in RecentCalls(FinalizeDraw(s, num).history)
  {
  }
}
