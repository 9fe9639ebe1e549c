/**
 * The timer state machine of `CountDownTimerViewModel`: four observable fields
 * (`remainingTime`, `timerState`, `totalTime`, `progress`), the handle of the
 * platform count-down ticker, the caller operations `startTimer`, `pauseTimer`
 * and `resetTimer`, and the ticker's callbacks `onTick` and `onFinish`.
 *
 * The platform ticker is an external event source: `startTimer` installs a
 * ticker that counts down from the current `totalTime`; while it is installed
 * it may deliver `onTick(ms)` with `0 <= ms <=` that starting value, and
 * eventually `onFinish`, after which it delivers nothing more. Cancelling it
 * (pause, reset) stops all further callbacks.
 *
 * Each transition is first a function on a snapshot of the fields
 * (`ViewModelState`), then a method of the class that updates the fields in
 * place and is proved against that function.
 */
module CountDownTimer {

  import opened Wrappers

  /** TIMER_START, TIMER_RUNNING, TIMER_PAUSE and TIMER_END. */
  datatype TimerState = TimerStart | TimerRunning | TimerPause | TimerEnd

  /**
   * The `timer` handle, as far as the view model can observe it: no ticker
   * will deliver callbacks, or one is counting down from `from` milliseconds.
   */
  datatype Ticker = NoTicker | Ticking(from: int)

  /** A snapshot of the view model's fields. */
  datatype ViewModelState = ViewModelState(
    remainingTime: int,
    timerState: TimerState,
    totalTime: int,
    progress: real,
    timer: Ticker)

  /** `ms.toFloat() / CHALLENGE_TIME`, as an exact rational. */
  function Fraction(ms: int, challengeTime: nat): real
    requires challengeTime > 0
  {
    ms as real / challengeTime as real
  }

  /**
   * What holds of the fields between any two operations or callbacks, for a
   * challenge time of `c` milliseconds.
   */
  predicate Inv(s: ViewModelState, c: nat) {
    && c > 0
    && 0 <= s.remainingTime <= c
    && 0 <= s.totalTime <= c
    && s.progress == Fraction(s.remainingTime, c)
    && (s.timerState == TimerRunning ==> s.timer.Ticking?)
    && (s.timer.Ticking? ==> s.timer.from == s.totalTime)
  }

  /** The field initialisers. */
  function Initial(c: nat): ViewModelState
    requires c > 0
  {
    ViewModelState(c, TimerStart, c, 1.0, NoTicker)
  }

  /** `startTimer`: install a ticker counting down from `totalTime`. */
  function AfterStart(s: ViewModelState): ViewModelState {
    s.(timer := Ticking(s.totalTime))
  }

  /** `onTick(ms)`. */
  function AfterTick(s: ViewModelState, ms: int, c: nat): ViewModelState
    requires c > 0
  {
    s.(remainingTime := ms, progress := Fraction(ms, c), timerState := TimerRunning)
  }

  /** `onFinish`; the ticker delivers nothing after it. */
  function AfterFinish(s: ViewModelState, c: nat): ViewModelState {
    s.(timerState := TimerEnd, totalTime := c, progress := 0.0, remainingTime := 0, timer := NoTicker)
  }

  /** `pauseTimer`. */
  function AfterPause(s: ViewModelState): ViewModelState {
    s.(timer := NoTicker, timerState := TimerPause, totalTime := s.remainingTime)
  }

  /** `resetTimer`. */
  function AfterReset(s: ViewModelState, c: nat): ViewModelState {
    s.(timer := NoTicker, timerState := TimerStart, totalTime := c, remainingTime := c, progress := 1.0)
  }

  /** The calls and callbacks that drive the view model. */
  datatype Event = Start | Pause | Reset | Tick(ms: int) | Finish

  /**
   * When an event can happen: callbacks only come from an installed ticker,
   * with tick values between 0 and the value it counts down from; `startTimer`
   * is only called when no ticker is installed.
   */
  predicate Enabled(s: ViewModelState, e: Event) {
    match e
    case Start => s.timer.NoTicker?
    case Tick(ms) => s.timer.Ticking? && 0 <= ms <= s.timer.from
    case Finish => s.timer.Ticking?
    case Pause => true
    case Reset => true
  }

  function Step(s: ViewModelState, e: Event, c: nat): ViewModelState
    requires c > 0
  {
    match e
    case Start => AfterStart(s)
    case Tick(ms) => AfterTick(s, ms, c)
    case Finish => AfterFinish(s, c)
    case Pause => AfterPause(s)
    case Reset => AfterReset(s, c)
  }

  /** The state after a sequence of events, or None if one of them cannot happen. */
  function Run(s: ViewModelState, events: seq<Event>, c: nat): Option<ViewModelState>
    requires c > 0
    decreases |events|
  {
    if events == [] then Some(s)
    else if Enabled(s, events[0]) then Run(Step(s, events[0], c), events[1..], c)
    else None
  }

  /** Tick events delivering the values of `ms` in order. */
  function Ticks(ms: seq<int>): (events: seq<Event>)
    ensures |events| == |ms|
    ensures forall i :: 0 <= i < |ms| ==> events[i] == Tick(ms[i])
  {
    if ms == [] then [] else [Tick(ms[0])] + Ticks(ms[1..])
  }

  lemma FractionBounds(ms: int, c: nat)
    requires c > 0 && 0 <= ms <= c
    ensures 0.0 <= Fraction(ms, c) <= 1.0
    ensures ms == 0 ==> Fraction(ms, c) == 0.0
    ensures ms == c ==> Fraction(ms, c) == 1.0
  {
  }

  /** The initial state keeps the invariant, with full time and a full ring. */
  lemma InitialInv(c: nat)
    requires c > 0
    ensures Inv(Initial(c), c)
    ensures Initial(c).remainingTime == Initial(c).totalTime == c
    ensures Initial(c).progress == 1.0 && Initial(c).timer == NoTicker
  {
    FractionBounds(c, c);
  }

  /** `progress` stays within [0, 1]. */
  lemma ProgressInUnitInterval(s: ViewModelState, c: nat)
    requires Inv(s, c)
    ensures 0.0 <= s.progress <= 1.0
  {
    FractionBounds(s.remainingTime, c);
  }

  /** Every event that can happen keeps the invariant. */
  lemma StepPreservesInv(s: ViewModelState, e: Event, c: nat)
    requires Inv(s, c) && Enabled(s, e)
    ensures Inv(Step(s, e, c), c)
  {
    match e
    case Reset => FractionBounds(c, c);
    case Finish => FractionBounds(0, c);
    case _ =>
  }

  /** The bounds hold after every sequence of operations and callbacks. */
  lemma {:induction false} RunPreservesInv(s: ViewModelState, events: seq<Event>, c: nat)
    requires Inv(s, c)
    ensures Run(s, events, c).Some? ==> Inv(Run(s, events, c).value, c)
    decreases |events|
  {
    if events != [] && Enabled(s, events[0]) {
      StepPreservesInv(s, events[0], c);
      RunPreservesInv(Step(s, events[0], c), events[1..], c);
    }
  }

  /** Every state reachable from the initial one keeps the bounds. */
  lemma ReachableInv(events: seq<Event>, c: nat)
    requires c > 0
    ensures Run(Initial(c), events, c).Some? ==> Inv(Run(Initial(c), events, c).value, c)
    ensures Run(Initial(c), events, c).Some? ==>
      var t := Run(Initial(c), events, c).value;
      0 <= t.remainingTime <= c && 0 <= t.totalTime <= c && 0.0 <= t.progress <= 1.0
  {
    InitialInv(c);
    RunPreservesInv(Initial(c), events, c);
    if Run(Initial(c), events, c).Some? {
      ProgressInUnitInterval(Run(Initial(c), events, c).value, c);
    }
  }

  /** `resetTimer` from any state restores the initial state. */
  lemma ResetRestoresInitial(s: ViewModelState, c: nat)
    requires c > 0
    ensures AfterReset(s, c) == Initial(c)
  {
  }

  /** Resetting twice is resetting once. */
  lemma ResetIdempotent(s: ViewModelState, c: nat)
    ensures AfterReset(AfterReset(s, c), c) == AfterReset(s, c)
  {
  }

  /** Pausing twice is pausing once. */
  lemma PauseIdempotent(s: ViewModelState)
    ensures AfterPause(AfterPause(s)) == AfterPause(s)
  {
  }

  /**
   * A pause snapshots the remaining time: the next start counts down from the
   * paused `remainingTime`, and the display fields are left as they were.
   */
  lemma PauseThenStartResumes(s: ViewModelState)
    ensures AfterStart(AfterPause(s)).timer == Ticking(s.remainingTime)
    ensures AfterPause(s).remainingTime == s.remainingTime && AfterPause(s).progress == s.progress
    ensures AfterPause(s).timer == NoTicker && AfterPause(s).timerState == TimerPause
  {
  }

  /** After the countdown finishes, the next start counts down from the full challenge time. */
  lemma FinishThenStartRestarts(s: ViewModelState, c: nat)
    ensures AfterStart(AfterFinish(s, c)).timer == Ticking(c)
    ensures AfterFinish(s, c).remainingTime == 0 && AfterFinish(s, c).progress == 0.0
    ensures AfterFinish(s, c).timerState == TimerEnd
  {
  }

  /**
   * While a ticker runs, a sequence of ticks leaves the last tick value as the
   * remaining time, the matching progress, and the ticker untouched.
   */
  lemma {:induction false} RunTicks(s: ViewModelState, ms: seq<int>, c: nat)
    requires c > 0 && s.timer.Ticking?
    requires forall i :: 0 <= i < |ms| ==> 0 <= ms[i] <= s.timer.from
    ensures Run(s, Ticks(ms), c) == Some(if ms == [] then s else AfterTick(s, ms[|ms| - 1], c))
    decreases |ms|
  {
    if ms != [] {
      var t := AfterTick(s, ms[0], c);
      assert Ticks(ms)[1..] == Ticks(ms[1..]);
      RunTicks(t, ms[1..], c);
      if ms[1..] != [] {
        assert AfterTick(t, ms[1..][|ms[1..]| - 1], c) == AfterTick(s, ms[|ms| - 1], c);
      }
    }
  }

  lemma {:induction false} RunAppend(s: ViewModelState, xs: seq<Event>, ys: seq<Event>, c: nat)
    requires c > 0
    ensures Run(s, xs + ys, c) ==
      match Run(s, xs, c)
      case None => None
      case Some(t) => Run(t, ys, c)
    decreases |xs|
  {
    if xs != [] {
      assert (xs + ys)[0] == xs[0] && (xs + ys)[1..] == xs[1..] + ys;
      if Enabled(s, xs[0]) {
        RunAppend(Step(s, xs[0], c), xs[1..], ys, c);
      }
    } else {
      assert xs + ys == ys;
    }
  }

  /**
   * Started with no ticker installed and left alone until the ticker finishes,
   * the timer ends finished: no time left, an empty ring, and the full
   * challenge time ready for the next run.
   */
  lemma RunToCompletion(s: ViewModelState, ms: seq<int>, c: nat)
    requires Inv(s, c) && s.timer.NoTicker?
    requires forall i :: 0 <= i < |ms| ==> 0 <= ms[i] <= s.totalTime
    ensures Run(s, [Start] + Ticks(ms) + [Finish], c) ==
      Some(ViewModelState(0, TimerEnd, c, 0.0, NoTicker))
  {
    var started := AfterStart(s);
    RunAppend(s, [Start], Ticks(ms) + [Finish], c);
    assert [Start] + Ticks(ms) + [Finish] == [Start] + (Ticks(ms) + [Finish]);
    RunAppend(started, Ticks(ms), [Finish], c);
    RunTicks(started, ms, c);
  }

  /**
   * A challenge time of 10 s: start, three ticks, pause, start again. The
   * pause leaves 7 s and 70 % progress; the second run counts down from 7 s,
   * not from 10 s.
   */
  lemma PauseResumeScenario()
    ensures Run(Initial(10000), [Start, Tick(9000), Tick(8000), Tick(7000), Pause], 10000) ==
      Some(ViewModelState(7000, TimerPause, 7000, 0.7, NoTicker))
    ensures Run(Initial(10000), [Start, Tick(9000), Tick(8000), Tick(7000), Pause, Start], 10000) ==
      Some(ViewModelState(7000, TimerPause, 7000, 0.7, Ticking(7000)))
  {
  }

  /** The view model object; its methods update the fields in place. */
  class CountDownTimerViewModel {

    /** CHALLENGE_TIME, in milliseconds. */
    const challengeTime: nat

    var remainingTime: int
    var timerState: TimerState
    var totalTime: int
    var progress: real
    var timer: Ticker

    function Model(): ViewModelState
      reads this
    {
      ViewModelState(remainingTime, timerState, totalTime, progress, timer)
    }

    ghost predicate Valid()
      reads this
    {
      Inv(Model(), challengeTime)
    }

    constructor (challengeTime: nat)
      requires challengeTime > 0
      ensures this.challengeTime == challengeTime
      ensures Valid() && Model() == Initial(challengeTime)
    {
      this.challengeTime := challengeTime;
      remainingTime := challengeTime;
      timerState := TimerStart;
      totalTime := challengeTime;
      progress := 1.0;
      timer := NoTicker;
      InitialInv(challengeTime);
    }

    /**
     * Installs a ticker counting down from `totalTime`. It is called only when
     * no ticker is installed: the source would overwrite the handle of a
     * running ticker without cancelling it.
     */
    method StartTimer()
      requires Valid() && timer.NoTicker?
      modifies this
      ensures Valid() && Model() == AfterStart(old(Model()))
    {
      timer := Ticking(totalTime);
    }

    /** The ticker's `onTick` callback. */
    method OnTick(millisUntilFinished: int)
      requires Valid() && timer.Ticking? && 0 <= millisUntilFinished <= timer.from
      modifies this
      ensures Valid() && Model() == AfterTick(old(Model()), millisUntilFinished, challengeTime)
    {
      remainingTime := millisUntilFinished;
      progress := Fraction(millisUntilFinished, challengeTime);
      timerState := TimerRunning;
      StepPreservesInv(old(Model()), Tick(millisUntilFinished), challengeTime);
    }

    /** The ticker's `onFinish` callback; the ticker then stops. */
    method OnFinish()
      requires Valid() && timer.Ticking?
      modifies this
      ensures Valid() && Model() == AfterFinish(old(Model()), challengeTime)
    {
      timerState := TimerEnd;
      totalTime := challengeTime;
      progress := 0.0;
      remainingTime := 0;
      timer := NoTicker;
      StepPreservesInv(old(Model()), Finish, challengeTime);
    }

    method PauseTimer()
      requires Valid()
      modifies this
      ensures Valid() && Model() == AfterPause(old(Model()))
    {
      timer := NoTicker;
      timerState := TimerPause;
      totalTime := remainingTime;
    }

    method ResetTimer()
      requires Valid()
      modifies this
      ensures Valid() && Model() == AfterReset(old(Model()), challengeTime)
      ensures Model() == Initial(challengeTime)
    {
      timer := NoTicker;
      timerState := TimerStart;
      totalTime := challengeTime;
      remainingTime := totalTime;
      progress := 1.0;
      StepPreservesInv(old(Model()), Reset, challengeTime);
    }
  }
}
