/** Interview mode: five fixed questions, ninety seconds each, driven by a
    start button, a next-question button and a once-a-second timer. The
    state the page keeps is a `Screen`; each handler is a pure function from
    the old screen to the new one. */
module Interview {

  import opened Outcome
  import opened Decimal

  const Questions: seq<string> := [
    "What excites you about working at TechNova Inc?",
    "How would you handle a situation where a project deadline is at risk?",
    "Describe a technical decision you made and what trade-offs were involved.",
    "How do you stay updated with current trends in our industry?",
    "Walk me through how you would approach leading a new team."]

  /** Seconds allowed per question. */
  const QuestionTime := 90

  // ---------------------------------------------------------------------
  // Python list indexing
  // ---------------------------------------------------------------------

  /** `xs[i]` with Python's negative indices, or `IndexError`. */
  function PyIndex<T>(xs: seq<T>, i: int): (r: Result<T>)
    ensures r.Ok? <==> -|xs| <= i < |xs|
    ensures r.Err? ==> r.error == IndexError
    ensures 0 <= i < |xs| ==> r == Ok(xs[i])
    ensures -|xs| <= i < 0 ==> r == Ok(xs[|xs| + i])
  {
    if 0 <= i < |xs| then Ok(xs[i])
    else if -|xs| <= i < 0 then Ok(xs[|xs| + i])
    else Err(IndexError)
  }

  // ---------------------------------------------------------------------
  // The countdown text
  // ---------------------------------------------------------------------

  const TimerPrefix := "Time Left: "

  /** `f"Time Left: {mins}:{secs:02d}"` with `mins, secs = divmod(t, 60)`. */
  function TimerText(t: nat): string {
    TimerPrefix + Show(t / 60) + ":" + Pad2(t % 60)
  }

  /** Reads the number of seconds back out of a countdown text. */
  function ParseTimerText(s: string): Option<nat> {
    if |s| >= |TimerPrefix| && s[..|TimerPrefix|] == TimerPrefix then
      var body := s[|TimerPrefix|..];
      var mins := LeadingDigits(body);
      if |mins| >= 1 && |body| == |mins| + 3 && body[|mins|] == ':' && AllDigits(body[|mins| + 1..]) then
        Some(Value(mins) * 60 + Value(body[|mins| + 1..]))
      else None
    else None
  }

  /** The countdown text shows exactly the seconds it was made from. */
  lemma TimerTextRoundTrip(t: nat)
    ensures ParseTimerText(TimerText(t)) == Some(t)
  {
    var s := TimerText(t);
    var rest := ":" + Pad2(t % 60);
    assert s == TimerPrefix + (Show(t / 60) + rest);
    assert s[..|TimerPrefix|] == TimerPrefix;
    var body := s[|TimerPrefix|..];
    assert body == Show(t / 60) + rest;
    LeadingDigitsOfShow(t / 60, rest);
    var mins := LeadingDigits(body);
    assert mins == Show(t / 60);
    PadValue(t % 60);
    assert body[|mins| + 1..] == Pad2(t % 60);
    ValueShow(t / 60);
  }

  /** The full allowance reads as one and a half minutes. */
  lemma FullTimeText()
    ensures TimerText(QuestionTime) == "Time Left: 1:30"
  {
    assert Show(1) == "1";
    assert Show(30) == "30" by {
      assert Show(3) == "3";
    }
  }

  // ---------------------------------------------------------------------
  // The screen
  // ---------------------------------------------------------------------

  /** The question box: the invitation to start, question number `number`,
      or the closing message. */
  datatype Display = Prompt | Asking(number: int, text: string) | Complete

  /** Everything the interview tab shows or keeps between events. */
  datatype Screen = Screen(
    display: Display,
    index: int,          // position in `Questions`
    timerText: string,
    nextVisible: bool,   // whether the next-question button is shown
    timeLeft: int,       // seconds left on the current question
    timerActive: bool,
    timerState: bool)    // whether the timer handler does anything

  /** The page as first loaded. */
  const Initial := Screen(Prompt, 0, "Time Left: 1:30", false, QuestionTime, false, false)

  /** The closing screen, keeping the index reached. */
  function CompleteScreen(index: int): Screen {
    Screen(Complete, index, "", false, 0, false, false)
  }

  /** The question box for position `i`, numbered `i + 1`. */
  function Ask(i: int): Display
    requires -|Questions| <= i < |Questions|
  {
    Asking(i + 1, PyIndex(Questions, i).value)
  }

  /** `start_interview`: whatever the state, show the first question with
      the full time on a running timer. */
  function Start(s: Screen): (r: Screen)
    ensures r.display == Asking(1, Questions[0]) && r.index == 0
    ensures r.timerText == TimerText(QuestionTime) && r.timeLeft == QuestionTime
    ensures r.nextVisible && r.timerActive && r.timerState
  {
    FullTimeText();
    Screen(Asking(1, Questions[0]), 0, "Time Left: 1:30", true, QuestionTime, true, true)
  }

  /** The question position a call works on: one further after a skip. */
  function Target(index: int, skip: bool): int {
    if skip then index + 1 else index
  }

  /** The seconds a call counts from: the full time after a skip or when the
      timer was not yet active, otherwise what was left. */
  function Clock(timeLeft: int, timerActive: bool, skip: bool): int {
    if skip || !timerActive then QuestionTime else timeLeft
  }

  /** `run_interview(index, time_left, timer_active, skip)`. A skip moves
      to the next question with the clock reset; then either the interview
      is over, or the question is shown and one second is taken off the
      clock, or the clock has run out and the next question starts with the
      full time. An index below -5 fails as Python's list indexing does. */
  function RunInterview(index: int, timeLeft: int, timerActive: bool, skip: bool): (r: Result<Screen>)
    ensures r.Err? <==> Target(index, skip) < -|Questions|
    ensures r.Err? ==> r.error == IndexError
    ensures r.Ok? ==> Target(index, skip) <= r.value.index <= Target(index, skip) + 1
    ensures r.Ok? ==> (r.value.display == Complete <==> r.value.index >= |Questions|)
    ensures r.Ok? && r.value.index >= |Questions| ==> r.value == CompleteScreen(r.value.index)
    ensures r.Ok? && r.value.index < |Questions| ==>
              && r.value.display == Ask(r.value.index)
              && r.value.nextVisible && r.value.timerActive && r.value.timerState
    ensures r.Ok? && Target(index, skip) < |Questions| && Clock(timeLeft, timerActive, skip) > 0 ==>
              && r.value.index == Target(index, skip)
              && r.value.timeLeft == Clock(timeLeft, timerActive, skip) - 1
              && r.value.timerText == TimerText(Clock(timeLeft, timerActive, skip))
    ensures r.Ok? && Target(index, skip) < |Questions| && Clock(timeLeft, timerActive, skip) <= 0 ==>
              && r.value.index == Target(index, skip) + 1
              && (r.value.index < |Questions| ==>
                    r.value.timeLeft == QuestionTime && r.value.timerText == TimerText(QuestionTime))
    ensures r.Ok? && Target(index, skip) >= |Questions| ==> r.value.index == Target(index, skip)
  {
    var i := Target(index, skip);
    if i >= |Questions| then Ok(CompleteScreen(i))
    else if i < -|Questions| then Err(IndexError)
    else
      var t := Clock(timeLeft, timerActive, skip);
      if t > 0 then
        Ok(Screen(Ask(i), i, TimerText(t), true, t - 1, true, true))
      else if i + 1 < |Questions| then
        Ok(Screen(Ask(i + 1), i + 1, TimerText(QuestionTime), true, QuestionTime, true, true))
      else
        Ok(CompleteScreen(i + 1))
  }

  /** The next-question button: `run_interview` with `skip` set. Whatever
      the clock showed, the next question comes up with the full time, one
      second of which is taken at once. */
  function Skip(s: Screen): (r: Result<Screen>)
    ensures r.Err? <==> s.index + 1 < -|Questions|
    ensures r.Ok? && s.index + 1 >= |Questions| ==> r.value == CompleteScreen(s.index + 1)
    ensures r.Ok? && s.index + 1 < |Questions| ==>
              && r.value.index == s.index + 1
              && r.value.display == Ask(s.index + 1)
              && r.value.timerText == TimerText(QuestionTime)
              && r.value.timeLeft == QuestionTime - 1
              && r.value.nextVisible && r.value.timerActive && r.value.timerState
  {
    RunInterview(s.index, s.timeLeft, s.timerActive, true)
  }

  /** What the timer handler returns: the new screen and whether the timer
      component stays active. */
  datatype Step = Step(screen: Screen, ticking: bool)

  /** `update_timer_if_active`: with `timerState` off nothing changes and the
      timer is switched off; otherwise one step of `run_interview`, with the
      timer left on even when that step closes the interview. */
  function Tick(s: Screen): (r: Result<Step>)
    ensures !s.timerState ==> r == Ok(Step(s, false))
    ensures s.timerState ==> r.Ok? == RunInterview(s.index, s.timeLeft, s.timerActive, false).Ok?
    ensures s.timerState && r.Ok? ==> r.value == Step(RunInterview(s.index, s.timeLeft, s.timerActive, false).value, true)
  {
    if !s.timerState then Ok(Step(s, false))
    else
      match RunInterview(s.index, s.timeLeft, s.timerActive, false)
      case Ok(next) => Ok(Step(next, true))
      case Err(e) => Err(e)
  }

  // ---------------------------------------------------------------------
  // The interview as a transition system
  // ---------------------------------------------------------------------

  /** The screens reachable from the page as loaded: the index never
      negative, the clock within the allowance, and past the last question
      only the closing screen. */
  predicate Valid(s: Screen) {
    && 0 <= s.index
    && 0 <= s.timeLeft <= QuestionTime
    && (s.index >= |Questions| ==> s == CompleteScreen(s.index))
  }

  lemma InitialValid()
    ensures Valid(Initial)
  {
  }

  /** Starting from any screen, even an invalid one, gives a valid screen
      showing the first question. */
  lemma StartValid(s: Screen)
    ensures Valid(Start(s)) && Start(s).display == Ask(0)
  {
  }

  /** Start, skip and tick keep a screen valid; skip and tick never fail on
      a valid screen, never go back, and move on by at most one question. */
  lemma StepsPreserveValid(s: Screen)
    requires Valid(s)
    ensures Skip(s).Ok? && Valid(Skip(s).value) && Skip(s).value.index == s.index + 1
    ensures Tick(s).Ok? && Valid(Tick(s).value.screen)
    ensures s.index <= Tick(s).value.screen.index <= s.index + 1
  {
  }

  /** A tick on a running question shows the seconds left and takes one
      off, staying on the same question. */
  lemma TickCountsDown(s: Screen)
    requires Valid(s) && s.timerState && s.timerActive && s.index < |Questions| && s.timeLeft > 0
    ensures Tick(s).Ok?
    ensures Tick(s).value.screen.index == s.index
    ensures Tick(s).value.screen.display == Ask(s.index)
    ensures Tick(s).value.screen.timeLeft == s.timeLeft - 1
    ensures Tick(s).value.screen.timerText == TimerText(s.timeLeft)
  {
  }

  /** The countdown text after such a tick reads back as the seconds that
      were left before it. */
  lemma TickShowsSeconds(s: Screen)
    requires Valid(s) && s.timerState && s.timerActive && s.index < |Questions| && s.timeLeft > 0
    ensures Tick(s).Ok? && ParseTimerText(Tick(s).value.screen.timerText) == Some(s.timeLeft)
  {
    TickCountsDown(s);
    TimerTextRoundTrip(s.timeLeft);
  }

  /** When the clock has run out, the next tick moves to the next question
      with the full allowance, or closes the interview after the last. */
  lemma TickExpires(s: Screen)
    requires Valid(s) && s.timerState && s.timerActive && s.index < |Questions| && s.timeLeft == 0
    ensures Tick(s).Ok? && Tick(s).value.screen.index == s.index + 1
    ensures s.index + 1 < |Questions| ==> Tick(s).value.screen.timeLeft == QuestionTime
    ensures s.index + 1 == |Questions| ==> Tick(s).value.screen == CompleteScreen(|Questions|)
  {
  }

  /** Skipping to a question that exists shows it with the full time and
      already one second taken off. */
  lemma SkipShowsNext(s: Screen)
    requires Valid(s) && s.index + 1 < |Questions|
    ensures Skip(s).Ok? && Valid(Skip(s).value)
    ensures Skip(s).value.index == s.index + 1
    ensures Skip(s).value.display == Ask(s.index + 1)
    ensures Skip(s).value.timeLeft == QuestionTime - 1
    ensures Skip(s).value.timerText == "Time Left: 1:30"
  {
    FullTimeText();
  }

  /** `n` presses of the next-question button. */
  function Skips(s: Screen, n: nat): Result<Screen>
    decreases n
  {
    if n == 0 then Ok(s)
    else
      match Skip(s)
      case Ok(t) => Skips(t, n - 1)
      case Err(e) => Err(e)
  }

  /** The last of `n + 1` skips is one skip after the first `n`. */
  lemma {:induction false} SkipsLast(s: Screen, n: nat)
    requires Skips(s, n).Ok?
    ensures Skips(s, n + 1) == Skip(Skips(s, n).value)
    decreases n
  {
    if n > 0 {
      SkipsLast(Skip(s).value, n - 1);
    }
  }

  /** After `k` skips from a screen showing a question, the question `k`
      places further on is on screen. */
  lemma {:induction false} SkipsFrom(s: Screen, k: nat)
    requires Valid(s) && s.index + k < |Questions| && s.display == Ask(s.index)
    ensures Skips(s, k).Ok?
    ensures Skips(s, k).value.index == s.index + k
    ensures Skips(s, k).value.display == Ask(s.index + k)
    ensures Valid(Skips(s, k).value)
    decreases k
  {
    if k > 0 {
      SkipShowsNext(s);
      var p := Skip(s).value;
      assert Skips(s, k) == Skips(p, k - 1);
      SkipsFrom(p, k - 1);
    }
  }

  /** Five skips from the start close the interview at index 5. */
  lemma FiveSkipsComplete(s: Screen)
    ensures Skips(Start(s), |Questions|) == Ok(CompleteScreen(|Questions|))
  {
    var p := Start(s);
    StartValid(s);
    SkipsFrom(p, |Questions| - 1);
    SkipsLast(p, |Questions| - 1);
  }

  /** `n` firings of the timer. */
  function Ticks(s: Screen, n: nat): Result<Screen>
    decreases n
  {
    if n == 0 then Ok(s)
    else
      match Tick(s)
      case Ok(step) => Ticks(step.screen, n - 1)
      case Err(e) => Err(e)
  }

  /** On a running question, `n` ticks within the time left keep the
      question on screen and take `n` seconds off the clock. */
  /** The last of `n + 1` ticks is one tick after the first `n`. */
  lemma {:induction false} TicksLast(s: Screen, n: nat)
    requires Ticks(s, n).Ok?
    ensures Ticks(s, n + 1) == match Tick(Ticks(s, n).value)
                               case Ok(step) => Ok(step.screen)
                               case Err(e) => Err(e)
    decreases n
  {
    if n > 0 {
      TicksLast(Tick(s).value.screen, n - 1);
    }
  }

  lemma {:induction false} Countdown(s: Screen, n: nat)
    requires Valid(s) && s.timerState && s.timerActive && s.index < |Questions|
    requires s.display == Ask(s.index) && n <= s.timeLeft
    ensures Ticks(s, n).Ok?
    ensures Ticks(s, n).value.index == s.index
    ensures Ticks(s, n).value.display == Ask(s.index)
    ensures Ticks(s, n).value.timeLeft == s.timeLeft - n
    ensures Ticks(s, n).value.timerState && Ticks(s, n).value.timerActive
    ensures Valid(Ticks(s, n).value)
    decreases n
  {
    if n > 0 {
      TickCountsDown(s);
      StepsPreserveValid(s);
      var p := Tick(s).value.screen;
      assert Ticks(s, n) == Ticks(p, n - 1);
      Countdown(p, n - 1);
    }
  }

  /** From the start, the first question stays up for `QuestionTime` ticks
      while the clock runs down to zero. */
  lemma FirstQuestionCountdown(s: Screen, n: nat)
    requires n <= QuestionTime
    ensures Ticks(Start(s), n).Ok?
    ensures Ticks(Start(s), n).value.index == 0
    ensures Ticks(Start(s), n).value.timeLeft == QuestionTime - n
    ensures Ticks(Start(s), n).value.timerState && Ticks(Start(s), n).value.timerActive
  {
    StartValid(s);
    Countdown(Start(s), n);
  }

  /** The tick after that brings up the second question with the full
      allowance: each question lasts `QuestionTime + 1` ticks. */
  lemma SecondQuestionAfterExpiry(s: Screen)
    ensures Ticks(Start(s), QuestionTime + 1).Ok?
    ensures Ticks(Start(s), QuestionTime + 1).value.index == 1
    ensures Ticks(Start(s), QuestionTime + 1).value.display == Ask(1)
    ensures Ticks(Start(s), QuestionTime + 1).value.timeLeft == QuestionTime
  {
    StartValid(s);
    Countdown(Start(s), QuestionTime);
    var p := Ticks(Start(s), QuestionTime).value;
    TicksLast(Start(s), QuestionTime);
    TickExpires(p);
    assert Ticks(Start(s), QuestionTime + 1) == Ok(Tick(p).value.screen);
  }
}
