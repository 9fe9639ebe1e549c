/**
 * The display rules of the timer screen: the `Long.formattedTime()` and
 * `Long.formattedTimeTwo()` formatters, and the conditions that choose the
 * text, its font size, colour and blinking, the background ring, and the
 * start/pause button's action and icon from the view model's fields.
 * FINAL_SECONDS, a number of milliseconds, is the parameter `finalSeconds`.
 */
module TimerDisplay {

  import opened Wrappers
  import opened DecimalFormat
  import opened CountDownTimer

  /** `TimeUnit.MILLISECONDS.toMinutes(ms)`. */
  function ToMinutes(ms: int): int {
    JavaDiv(ms, 60000)
  }

  /** `TimeUnit.MILLISECONDS.toSeconds(ms)`. */
  function ToSeconds(ms: int): int {
    JavaDiv(ms, 1000)
  }

  /** `Long.formattedTime()`: "%02d:%02d" of the minutes and the seconds within the minute. */
  function FormattedTime(ms: int): string {
    Format02d(ToMinutes(ms)) + ":" + Format02d(JavaRem(ToSeconds(ms), 60))
  }

  /** `Long.formattedTimeTwo()`: "%02d" of the seconds within the minute. */
  function FormattedTimeTwo(ms: int): string {
    Format02d(JavaRem(ToSeconds(ms), 60))
  }

  /**
   * Reads a "minutes:seconds" text back as a number of whole seconds: the
   * digits before the third-last character, which must be ':', are minutes,
   * the two digits after it are seconds.
   */
  function ParseClock(s: string): Option<int> {
    if |s| >= 5 && s[|s| - 3] == ':' && AllDigits(s[..|s| - 3]) && AllDigits(s[|s| - 2..]) then
      Some(Value(s[..|s| - 3]) * 60 + Value(s[|s| - 2..]))
    else
      None
  }

  /** Whole minutes and seconds-within-the-minute add up to the whole seconds. */
  lemma MinutesAndSeconds(ms: nat)
    ensures ToMinutes(ms) * 60 + JavaRem(ToSeconds(ms), 60) == ms / 1000
    ensures 0 <= JavaRem(ToSeconds(ms), 60) < 60
  {
    var t := ms / 1000;
    var q, p := t / 60, t % 60;
    assert ms == 60000 * q + (1000 * p + ms % 1000);
  }

  /**
   * The seconds-only text has exactly two digits, the seconds within the
   * minute, and it is what follows the ':' of the full text.
   */
  lemma FormattedTimeTwoShape(ms: int)
    ensures FormattedTime(ms) == Format02d(ToMinutes(ms)) + ":" + FormattedTimeTwo(ms)
    ensures ':' !in Format02d(ToMinutes(ms)) && ':' !in FormattedTimeTwo(ms)
    ensures ms >= 0 ==>
      |FormattedTimeTwo(ms)| == 2 && AllDigits(FormattedTimeTwo(ms)) &&
      Value(FormattedTimeTwo(ms)) == (ms / 1000) % 60 < 60
  {
  }

  /**
   * Below 100 minutes the full text is five characters "MM:SS", and reading
   * the two fields back gives the elapsed whole seconds.
   */
  lemma FormattedTimeShape(ms: int)
    requires 0 <= ms < 6000000
    ensures var r := FormattedTime(ms);
      |r| == 5 && r[2] == ':' && AllDigits(r[..2]) && AllDigits(r[3..]) &&
      Value(r[..2]) == ms / 60000 && Value(r[3..]) == (ms / 1000) % 60 &&
      Value(r[..2]) * 60 + Value(r[3..]) == ms / 1000
  {
    var m, sec := Format02d(ToMinutes(ms)), Format02d(JavaRem(ToSeconds(ms), 60));
    var r := FormattedTime(ms);
    assert r[..2] == m && r[3..] == sec;
    MinutesAndSeconds(ms);
  }

  /** For every non-negative time the full text reads back as its whole seconds. */
  lemma FormattedTimeRoundTrip(ms: int)
    requires ms >= 0
    ensures ParseClock(FormattedTime(ms)) == Some(ms / 1000)
  {
    var m, sec := Format02d(ToMinutes(ms)), Format02d(JavaRem(ToSeconds(ms), 60));
    var r := FormattedTime(ms);
    assert r[..|r| - 3] == m && r[|r| - 2..] == sec;
    MinutesAndSeconds(ms);
  }

  lemma FormattedTimeExamples()
    ensures FormattedTime(65000) == "01:05"
    ensures FormattedTimeTwo(4000) == "04"
    ensures FormattedTimeTwo(0) == "00"
  {
  }

  /** A font size, in sp. */
  type FontSize = nat

  datatype TextColor = Red | White

  /** The ring behind the progress ring: blinking red, or steady teal. */
  datatype RingStyle = BlinkingRed | SteadyTeal

  /** What a click on the start/pause button calls. */
  datatype ButtonAction = CallPauseTimer | CallStartTimer

  datatype ButtonIcon = PauseCircleFilled | PlayCircleFilled

  /** `formattedTime(viewModel)`: seconds only within the final seconds, minutes and seconds before. */
  function TimeText(vm: ViewModelState, finalSeconds: nat): string {
    if vm.remainingTime <= finalSeconds then
      FormattedTimeTwo(vm.remainingTime)
    else
      FormattedTime(vm.remainingTime)
  }

  /** `timeFontSize(viewModel)`. */
  function TimeFontSize(vm: ViewModelState, finalSeconds: nat): FontSize {
    if vm.remainingTime <= finalSeconds then 100 else 60
  }

  /** `timeTextColor(viewModel)`. */
  function TimeTextColor(vm: ViewModelState, finalSeconds: nat): TextColor {
    if 1 <= vm.remainingTime <= finalSeconds then Red else White
  }

  /** Whether the time text is drawn with the blinking alpha animation. */
  predicate TimeBlinks(vm: ViewModelState, finalSeconds: nat) {
    vm.timerState == TimerPause || 1 <= vm.remainingTime <= finalSeconds
  }

  function BackgroundRing(vm: ViewModelState): RingStyle {
    if vm.remainingTime == 0 then BlinkingRed else SteadyTeal
  }

  /** The start/pause button's click handler's choice. */
  function StartPauseAction(vm: ViewModelState): ButtonAction {
    if vm.timerState == TimerRunning then CallPauseTimer else CallStartTimer
  }

  /** `UpdateTimerIcon`. */
  function StartPauseIcon(vm: ViewModelState): ButtonIcon {
    match vm.timerState
    case TimerRunning => PauseCircleFilled
    case _ => PlayCircleFilled
  }

  /**
   * Format and font size are chosen by the same test: the text has no ':'
   * exactly when it is drawn at 100 sp.
   */
  lemma FormatAgreesWithFontSize(vm: ViewModelState, finalSeconds: nat)
    ensures TimeFontSize(vm, finalSeconds) == 100 <==> ':' !in TimeText(vm, finalSeconds)
    ensures TimeFontSize(vm, finalSeconds) == 100 <==> vm.remainingTime <= finalSeconds
    ensures TimeFontSize(vm, finalSeconds) == 100 ==> TimeText(vm, finalSeconds) == FormattedTimeTwo(vm.remainingTime)
  {
    FormattedTimeTwoShape(vm.remainingTime);
    var r := FormattedTime(vm.remainingTime);
    assert r[|Format02d(ToMinutes(vm.remainingTime))|] == ':';
  }

  /**
   * The text is red exactly within the final seconds, so a finished timer
   * (white "00") is told apart from the final-seconds window; red text is
   * always drawn large.
   */
  lemma ColorMarksFinalSeconds(vm: ViewModelState, finalSeconds: nat)
    ensures TimeTextColor(vm, finalSeconds) == Red <==> 1 <= vm.remainingTime <= finalSeconds
    ensures vm.remainingTime == 0 ==> TimeTextColor(vm, finalSeconds) == White
    ensures TimeTextColor(vm, finalSeconds) == Red ==> TimeFontSize(vm, finalSeconds) == 100
  {
  }

  /** The text blinks when paused or exactly when it is red. */
  lemma BlinkRule(vm: ViewModelState, finalSeconds: nat)
    ensures TimeBlinks(vm, finalSeconds) <==>
      vm.timerState == TimerPause || TimeTextColor(vm, finalSeconds) == Red
  {
  }

  /**
   * The red blinking ring marks a finished countdown and never the final
   * seconds: under it the text is the steady white large seconds-only text,
   * and a red text always sits in the teal ring.
   */
  lemma RingDistinguishesFinish(vm: ViewModelState, finalSeconds: nat)
    ensures BackgroundRing(vm) == BlinkingRed ==>
      TimeTextColor(vm, finalSeconds) == White && TimeFontSize(vm, finalSeconds) == 100 &&
      TimeText(vm, finalSeconds) == "00"
    ensures TimeTextColor(vm, finalSeconds) == Red ==> BackgroundRing(vm) == SteadyTeal
  {
    if vm.remainingTime == 0 {
      FormattedTimeExamples();
    }
  }

  /** The button shows the pause icon exactly when a click pauses. */
  lemma IconMatchesAction(vm: ViewModelState)
    ensures StartPauseAction(vm) == CallPauseTimer <==> StartPauseIcon(vm) == PauseCircleFilled
  {
  }

  /** A finished countdown shows a white, large "00" inside the blinking red ring. */
  lemma FinishedDisplay(s: ViewModelState, c: nat, finalSeconds: nat)
    ensures var t := AfterFinish(s, c);
      TimeText(t, finalSeconds) == "00" && TimeFontSize(t, finalSeconds) == 100 &&
      TimeTextColor(t, finalSeconds) == White && BackgroundRing(t) == BlinkingRed &&
      !TimeBlinks(t, finalSeconds) && StartPauseAction(t) == CallStartTimer
  {
    FormattedTimeExamples();
  }

  /**
   * After a reset, when the challenge lasts longer than the final seconds, the
   * full time is shown as a steady white "MM:SS" and the button offers start.
   */
  lemma ResetDisplay(s: ViewModelState, c: nat, finalSeconds: nat)
    requires finalSeconds < c
    ensures var t := AfterReset(s, c);
      TimeText(t, finalSeconds) == FormattedTime(c) && TimeFontSize(t, finalSeconds) == 60 &&
      TimeTextColor(t, finalSeconds) == White && BackgroundRing(t) == SteadyTeal &&
      !TimeBlinks(t, finalSeconds) && StartPauseIcon(t) == PlayCircleFilled &&
      StartPauseAction(t) == CallStartTimer
  {
  }

  /**
   * The button's guard does not rule out a second `startTimer`: between
   * `startTimer` and the first tick the state is not yet TIMER_RUNNING, so a
   * click calls `startTimer` again while a ticker is installed.
   */
  lemma StartGuardAdmitsSecondStart(c: nat)
    requires c > 0
    ensures var t := AfterStart(Initial(c));
      StartPauseAction(t) == CallStartTimer && t.timer.Ticking? && !Enabled(t, Start)
  {
  }

  /**
   * A click on the start/pause button, for the states where it does not start
   * a second ticker.
   */
  method OnStartPauseClick(vm: CountDownTimerViewModel)
    requires vm.Valid()
    requires StartPauseAction(vm.Model()) == CallStartTimer ==> vm.timer.NoTicker?
    modifies vm
    ensures vm.Valid()
    ensures vm.Model() ==
      if StartPauseAction(old(vm.Model())) == CallPauseTimer then AfterPause(old(vm.Model()))
      else AfterStart(old(vm.Model()))
  {
    if vm.timerState == TimerRunning {
      vm.PauseTimer();
    } else {
      vm.StartTimer();
    }
  }
}
