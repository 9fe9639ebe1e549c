# Countdown timer: a Dafny model

This project models the core of a single-screen Android countdown-timer app.

The first part is the timer state machine of `CountDownTimerViewModel`. It has four observable fields: `remainingTime`, `timerState`, `totalTime` and `progress`. It also holds the handle of the platform ticker. Callers use `startTimer`, `pauseTimer` and `resetTimer`. The ticker calls back `onTick(ms)` and `onFinish()`.

The second part is the display rules in `MainActivity.kt`:
- the `Long.formattedTime()` ("MM:SS") and `Long.formattedTimeTwo()` ("SS") formatters;
- the choice of text, font size, colour and blinking;
- the background ring;
- the start/pause button's action and icon.

Modules:
- `CountDownTimer` (`count_down_timer_view_model.dfy`) models the view model.
  - `ViewModelState` is a snapshot of the fields.
  - `Initial`, `AfterStart`, `AfterTick`, `AfterFinish`, `AfterPause` and `AfterReset` are the transitions as functions.
  - `Inv` is the invariant that holds between events.
  - `Run` replays a sequence of `Event`s. It gives `None` when an event cannot happen in the state it meets.
  - The class `CountDownTimerViewModel` has the same fields, updated in place. Each of its methods is proved against the matching function and keeps `Inv`.
- `TimerDisplay` (`main_activity.dfy`) models the display rules as functions over a `ViewModelState`. These are `FormattedTime`, `FormattedTimeTwo`, `TimeText`, `TimeFontSize`, `TimeTextColor`, `TimeBlinks`, `BackgroundRing`, `StartPauseAction` and `StartPauseIcon`. The button's click handler is the method `OnStartPauseClick`.
- `DecimalFormat` (`decimal_format.dfy`) covers the arithmetic and rendering those rules use.
  - `JavaDiv` and `JavaRem` are Kotlin `Long` division and remainder, which round toward zero.
  - `Format02d` is `String.format("%02d", n)`.
  - `Digits` and `Value` render and read decimal digits.
- `Wrappers` holds `Option`.

Constants:
- The constant file of the app is not part of this model.
- `CHALLENGE_TIME` is the class constant `challengeTime`, in milliseconds. The constructor requires it to be positive.
- `FINAL_SECONDS` is the parameter `finalSeconds`, a non-negative number of milliseconds.
- `TIMER_START`, `TIMER_RUNNING`, `TIMER_PAUSE` and `TIMER_END` form the datatype `TimerState`.

The platform ticker is modelled as a source of events.
- The `timer` field is a `Ticker`. It is `NoTicker`, or `Ticking(from)` for an installed ticker counting down from `from` milliseconds.
- `onTick(ms)` may arrive only while a ticker is installed, with `0 <= ms <= from`. `onFinish` may also arrive only then, and the ticker delivers nothing after it.
- Cancelling a ticker (pause, reset) turns the field back to `NoTicker`.

`startTimer` requires that no ticker is installed. In the source (`CountDownTimerViewModel.kt:33`) a second `startTimer` would overwrite the handle without cancelling the running ticker. The button guards with `timerState == TIMER_RUNNING`, but the state only becomes `TIMER_RUNNING` on the first tick. `StartGuardAdmitsSecondStart` shows that this guard does not exclude a second start.

Notes on what the code does:
- The state becomes `TIMER_RUNNING` on the first tick, not when `startTimer` is called.
- Each tick sets `remainingTime` to the value the ticker delivers. It does not subtract an interval.
- The seconds-only text and the 100 sp font are chosen for every `remainingTime <= FINAL_SECONDS`, including 0, which shows "00". The red colour is what excludes 0.

## Model

| member | source | states |
|---|---|---|
| `CountDownTimer.CountDownTimerViewModel.constructor` | app/src/main/java/com/example/androiddevchallenge/CountDownTimerViewModel.kt:26-30 | a new view model has full time in `remainingTime` and `totalTime`, `TIMER_START`, progress 1.0, no ticker, and satisfies the invariant |
| `CountDownTimer.CountDownTimerViewModel.StartTimer` | app/src/main/java/com/example/androiddevchallenge/CountDownTimerViewModel.kt:32-47 | with no ticker installed, installs one counting down from `totalTime` and changes none of the four observable fields; keeps the invariant |
| `CountDownTimer.CountDownTimerViewModel.OnTick` | app/src/main/java/com/example/androiddevchallenge/CountDownTimerViewModel.kt:34-38 | a tick sets `remainingTime` to the tick value, `progress` to its fraction of `CHALLENGE_TIME` and the state to `TIMER_RUNNING`; keeps the invariant |
| `CountDownTimer.CountDownTimerViewModel.OnFinish` | app/src/main/java/com/example/androiddevchallenge/CountDownTimerViewModel.kt:40-45 | finishing sets `TIMER_END`, `totalTime` to `CHALLENGE_TIME`, progress and `remainingTime` to 0, and stops the ticker; keeps the invariant |
| `CountDownTimer.CountDownTimerViewModel.PauseTimer` | app/src/main/java/com/example/androiddevchallenge/CountDownTimerViewModel.kt:49-53 | pausing cancels the ticker, sets `TIMER_PAUSE` and `totalTime := remainingTime`, and leaves `remainingTime` and `progress` alone; keeps the invariant |
| `CountDownTimer.CountDownTimerViewModel.ResetTimer` | app/src/main/java/com/example/androiddevchallenge/CountDownTimerViewModel.kt:55-61 | from any state, resetting gives exactly the initial state, with the ticker cancelled |
| `CountDownTimer.InitialInv` | app/src/main/java/com/example/androiddevchallenge/CountDownTimerViewModel.kt:26-30 | the field initialisers satisfy the invariant: full time, progress 1.0, no ticker |
| `CountDownTimer.ProgressInUnitInterval` | app/src/main/java/com/example/androiddevchallenge/CountDownTimerViewModel.kt:36 | under the invariant, `progress` lies in [0, 1] |
| `CountDownTimer.StepPreservesInv` | app/src/main/java/com/example/androiddevchallenge/CountDownTimerViewModel.kt:32-61 | every operation and callback that can happen keeps `0 <= remainingTime, totalTime <= CHALLENGE_TIME`, `progress == remainingTime / CHALLENGE_TIME`, "running implies a ticker" and "a ticker counts down from `totalTime`" |
| `CountDownTimer.RunPreservesInv` | app/src/main/java/com/example/androiddevchallenge/CountDownTimerViewModel.kt:32-61 | the invariant holds after every admissible sequence of operations and callbacks |
| `CountDownTimer.ReachableInv` | app/src/main/java/com/example/androiddevchallenge/CountDownTimerViewModel.kt:26-61 | every state reachable from the initial one has `remainingTime` and `totalTime` in [0, `CHALLENGE_TIME`] and `progress` in [0, 1] |
| `CountDownTimer.ResetRestoresInitial` | app/src/main/java/com/example/androiddevchallenge/CountDownTimerViewModel.kt:55-61 | `resetTimer` from any state gives the initial state |
| `CountDownTimer.ResetIdempotent` | app/src/main/java/com/example/androiddevchallenge/CountDownTimerViewModel.kt:55-61 | resetting twice equals resetting once |
| `CountDownTimer.PauseIdempotent` | app/src/main/java/com/example/androiddevchallenge/CountDownTimerViewModel.kt:49-53 | pausing twice equals pausing once |
| `CountDownTimer.PauseThenStartResumes` | app/src/main/java/com/example/androiddevchallenge/CountDownTimerViewModel.kt:32-53 | after a pause, the next start counts down from the paused `remainingTime`; a pause keeps `remainingTime` and `progress` and cancels the ticker |
| `CountDownTimer.FinishThenStartRestarts` | app/src/main/java/com/example/androiddevchallenge/CountDownTimerViewModel.kt:32-45 | after the countdown finishes, the next start counts down from the full `CHALLENGE_TIME`; a finished timer has 0 left, progress 0 and `TIMER_END` |
| `CountDownTimer.RunTicks` | app/src/main/java/com/example/androiddevchallenge/CountDownTimerViewModel.kt:34-38 | a sequence of ticks leaves the last tick's value and its progress, `TIMER_RUNNING`, and the ticker untouched |
| `CountDownTimer.RunToCompletion` | app/src/main/java/com/example/androiddevchallenge/CountDownTimerViewModel.kt:32-46 | a start followed by any admissible ticks and the finish ends in `TIMER_END` with 0 left, progress 0, `totalTime == CHALLENGE_TIME` and no ticker |
| `CountDownTimer.PauseResumeScenario` | app/src/main/java/com/example/androiddevchallenge/CountDownTimerViewModel.kt:32-53 | with a 10 s challenge: start, ticks at 9, 8 and 7 s, and pause leave 7000 ms, progress 0.7 and `totalTime` 7000; the next start counts from 7000 |
| `CountDownTimer.Inv` | app/src/main/java/com/example/androiddevchallenge/CountDownTimerViewModel.kt:26-61 | the invariant: remaining and total time in [0, `CHALLENGE_TIME`], `progress == remainingTime / CHALLENGE_TIME`, RUNNING only with a ticker, and a ticker counts down from `totalTime`; preservation is `StepPreservesInv` |
| `CountDownTimer.Initial` | app/src/main/java/com/example/androiddevchallenge/CountDownTimerViewModel.kt:26-30 | the field initialisers; `InitialInv` proves the invariant of it |
| `CountDownTimer.AfterStart` | app/src/main/java/com/example/androiddevchallenge/CountDownTimerViewModel.kt:32-47 | `startTimer`: a ticker counting down from `totalTime`, other fields unchanged; its properties are in `PauseThenStartResumes`, `FinishThenStartRestarts` and `StepPreservesInv` |
| `CountDownTimer.AfterTick` | app/src/main/java/com/example/androiddevchallenge/CountDownTimerViewModel.kt:34-38 | `onTick(ms)`: remaining time `ms`, its fraction as progress, `TIMER_RUNNING`; its properties are in `RunTicks` and `StepPreservesInv` |
| `CountDownTimer.AfterFinish` | app/src/main/java/com/example/androiddevchallenge/CountDownTimerViewModel.kt:40-45 | `onFinish`: `TIMER_END`, full `totalTime`, progress and remaining time 0, ticker stopped; its properties are in `FinishThenStartRestarts` and `RunToCompletion` |
| `CountDownTimer.AfterPause` | app/src/main/java/com/example/androiddevchallenge/CountDownTimerViewModel.kt:49-53 | `pauseTimer`: ticker cancelled, `TIMER_PAUSE`, `totalTime := remainingTime`; its properties are in `PauseIdempotent` and `PauseThenStartResumes` |
| `CountDownTimer.AfterReset` | app/src/main/java/com/example/androiddevchallenge/CountDownTimerViewModel.kt:55-61 | `resetTimer`: ticker cancelled and every field back to its initial value; its properties are in `ResetRestoresInitial` and `ResetIdempotent` |
| `TimerDisplay.ToMinutes` | app/src/main/java/com/example/androiddevchallenge/MainActivity.kt:312 | `TimeUnit.MILLISECONDS.toMinutes`, truncating `Long` division by 60000; used in `MinutesAndSeconds` |
| `TimerDisplay.ToSeconds` | app/src/main/java/com/example/androiddevchallenge/MainActivity.kt:313 | `TimeUnit.MILLISECONDS.toSeconds`, truncating `Long` division by 1000; used in `MinutesAndSeconds` |
| `TimerDisplay.FormattedTime` | app/src/main/java/com/example/androiddevchallenge/MainActivity.kt:310-314 | `Long.formattedTime()`, "%02d:%02d" of minutes and seconds within the minute; its properties are in `FormattedTimeShape` and `FormattedTimeRoundTrip` |
| `TimerDisplay.FormattedTimeTwo` | app/src/main/java/com/example/androiddevchallenge/MainActivity.kt:316-319 | `Long.formattedTimeTwo()`, "%02d" of the seconds within the minute; its properties are in `FormattedTimeTwoShape` |
| `TimerDisplay.TimeText` | app/src/main/java/com/example/androiddevchallenge/MainActivity.kt:203-210 | `formattedTime(viewModel)`: seconds-only text when `remainingTime <= FINAL_SECONDS`, else the full text; related to the font by `FormatAgreesWithFontSize` |
| `TimerDisplay.TimeFontSize` | app/src/main/java/com/example/androiddevchallenge/MainActivity.kt:194-201 | `timeFontSize`: 100 sp when `remainingTime <= FINAL_SECONDS`, else 60 sp; related to the text by `FormatAgreesWithFontSize` |
| `TimerDisplay.TimeTextColor` | app/src/main/java/com/example/androiddevchallenge/MainActivity.kt:212-219 | `timeTextColor`: red for `remainingTime` in 1..`FINAL_SECONDS`, else white; related to font and ring by `ColorMarksFinalSeconds` and `RingDistinguishesFinish` |
| `TimerDisplay.TimeBlinks` | app/src/main/java/com/example/androiddevchallenge/MainActivity.kt:167 | the blinking condition of the time text; related to the colour by `BlinkRule` |
| `TimerDisplay.BackgroundRing` | app/src/main/java/com/example/androiddevchallenge/MainActivity.kt:145 | the ring condition, blinking red at `remainingTime == 0`; related to the text by `RingDistinguishesFinish` |
| `TimerDisplay.StartPauseAction` | app/src/main/java/com/example/androiddevchallenge/MainActivity.kt:256-262 | the start/pause click dispatch on `TIMER_RUNNING`; related to the icon by `IconMatchesAction` |
| `TimerDisplay.StartPauseIcon` | app/src/main/java/com/example/androiddevchallenge/MainActivity.kt:271-290 | the icon choice of `UpdateTimerIcon`; related to the dispatch by `IconMatchesAction` |
| `DecimalFormat.JavaDiv` | app/src/main/java/com/example/androiddevchallenge/MainActivity.kt:312 | the `Long` quotient used by `toMinutes`/`toSeconds` rounds toward zero |
| `DecimalFormat.JavaRem` | app/src/main/java/com/example/androiddevchallenge/MainActivity.kt:313 | the `Long` remainder `% 60` satisfies quotient times divisor plus remainder equals the dividend, and has the dividend's sign |
| `DecimalFormat.Digits` | app/src/main/java/com/example/androiddevchallenge/MainActivity.kt:311 | decimal rendering gives at least one ASCII digit with no leading zero; one digit below 10, two below 100 |
| `DecimalFormat.ValueOfDigits` | app/src/main/java/com/example/androiddevchallenge/MainActivity.kt:311 | reading the rendered digits back gives the number |
| `DecimalFormat.Format02d` | app/src/main/java/com/example/androiddevchallenge/MainActivity.kt:311 | "%02d" has at least two characters and no ':'; for `n >= 0` its digits read back as `n`; it is exactly two digits iff `0 <= n < 100`; below 10 it is '0' and the digit, from 10 on it is the plain digits with no leading zero; a negative number is '-' followed by its digits |
| `TimerDisplay.MinutesAndSeconds` | app/src/main/java/com/example/androiddevchallenge/MainActivity.kt:310-314 | `toMinutes(ms) * 60 + toSeconds(ms) % 60` is the whole seconds of `ms`, and the seconds field is below 60 |
| `TimerDisplay.FormattedTimeTwoShape` | app/src/main/java/com/example/androiddevchallenge/MainActivity.kt:310-319 | the full text is the minutes field, ':' and the seconds-only text, and only that ':'; for `ms >= 0` the seconds-only text is exactly two digits reading `(ms / 1000) % 60 < 60` |
| `TimerDisplay.FormattedTimeShape` | app/src/main/java/com/example/androiddevchallenge/MainActivity.kt:310-314 | for `0 <= ms < 6000000` the full text has 5 characters with ':' at index 2; its fields read back as minutes and seconds, which add up to `ms / 1000` |
| `TimerDisplay.FormattedTimeRoundTrip` | app/src/main/java/com/example/androiddevchallenge/MainActivity.kt:310-314 | for every `ms >= 0` the full text reads back as `ms / 1000` whole seconds (the round trip up to sub-second truncation) |
| `TimerDisplay.FormattedTimeExamples` | app/src/main/java/com/example/androiddevchallenge/MainActivity.kt:310-319 | 65000 ms is "01:05"; the seconds-only texts of 4000 ms and 0 ms are "04" and "00" |
| `TimerDisplay.FormatAgreesWithFontSize` | app/src/main/java/com/example/androiddevchallenge/MainActivity.kt:195-210 | the 100 sp font is chosen iff `remainingTime <= FINAL_SECONDS`, iff the text has no ':'; the text is then the seconds-only format |
| `TimerDisplay.ColorMarksFinalSeconds` | app/src/main/java/com/example/androiddevchallenge/MainActivity.kt:213-219 | the text is red iff `1 <= remainingTime <= FINAL_SECONDS`; at 0 it is white; red text is always 100 sp |
| `TimerDisplay.BlinkRule` | app/src/main/java/com/example/androiddevchallenge/MainActivity.kt:167-175 | the time text blinks iff the timer is paused or the text is red |
| `TimerDisplay.RingDistinguishesFinish` | app/src/main/java/com/example/androiddevchallenge/MainActivity.kt:145-219 | under the blinking red ring the text is a white 100 sp "00", and red text is always inside the steady teal ring, so a finished timer looks different from the final seconds |
| `TimerDisplay.IconMatchesAction` | app/src/main/java/com/example/androiddevchallenge/MainActivity.kt:254-290 | the button shows the pause icon iff a click calls `pauseTimer`, so icon and action always match |
| `TimerDisplay.FinishedDisplay` | app/src/main/java/com/example/androiddevchallenge/MainActivity.kt:145-219 | after `onFinish` the screen shows a steady white 100 sp "00" inside the blinking red ring, and the button starts |
| `TimerDisplay.ResetDisplay` | app/src/main/java/com/example/androiddevchallenge/MainActivity.kt:145-219 | after a reset, with `CHALLENGE_TIME > FINAL_SECONDS`, the screen shows the full time as steady white 60 sp "MM:SS" in the teal ring, and the button shows play and starts |
| `TimerDisplay.StartGuardAdmitsSecondStart` | app/src/main/java/com/example/androiddevchallenge/MainActivity.kt:257-261 | right after `startTimer` and before the first tick, a click still calls `startTimer` although a ticker is installed |
| `TimerDisplay.OnStartPauseClick` | app/src/main/java/com/example/androiddevchallenge/MainActivity.kt:256-262 | a click pauses when the state is `TIMER_RUNNING` and starts otherwise, and keeps the view model's invariant |

## Left out

- `CountDownTimer.CountDownTimerViewModel.StartTimer`: requires that no ticker is installed. The source does not guard against a second `startTimer`, which would leave two tickers updating the same fields. Two concurrent tickers are not modelled.
- `TimerDisplay.OnStartPauseClick`: requires that a click which starts finds no ticker installed, for the same reason.
- The platform `CountDownTimer` (scheduling, wall-clock time, the one-second interval) is not modelled. Ticks and the finish are events, allowed whenever a ticker is installed, with tick values in [0, the value the ticker counts down from]. The platform's decreasing order of tick values is not assumed. Its synchronous `onFinish` for a zero duration is an ordinary finish event.
- The `timer` handle is modelled only as "which ticker, if any, will still deliver callbacks". Whether the reference is null is not modelled, since cancelling a finished or absent ticker has no effect.
- `progress` is an exact rational `remainingTime / CHALLENGE_TIME`, not a 32-bit float quotient.
- `Long` values are unbounded integers. Overflow cannot arise in these operations.
- The Compose layout, theming, resources and activity setup are not modelled. Neither are the alpha and progress animations, `ANIMATION_DURATION`, state observation and recomposition, or the view-model lifecycle.
- `String.format` is modelled with ASCII digits and no locale.
