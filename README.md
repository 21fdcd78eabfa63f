# LED dashboard input and screen logic, in Dafny

This project models the logic of a small LED-matrix dashboard that is driven
by a KY-040 rotary encoder with a push button:

- **The encoder poller** (`Ky040`). One poll tick samples the CLK, DT and
  switch lines. It decodes quadrature steps through the 8-entry Gray-code
  table, applies a minimum time between accepted steps, and accumulates steps
  until a whole detent produces one ROTATE. It also debounces the button and
  classifies each press as SHORT_CLICK or LONG_CLICK when it is released.
- **The screen coordinator** (`Manager`). It keeps the active index over a
  non-empty list of screens. Each event goes to the active screen first. An
  unconsumed ROTATE moves to the next or previous screen, wrapping around,
  with `on_exit` and then `on_enter` recorded in a ghost trace.
- **The screens**: the default behaviour (`Base`), the stopwatch
  (`Stopwatch`), the colour-cycling text screen (`Text`), the image screen
  (`Image`) and the seconds-to-midnight countdown (`Countdown`). `Format`
  holds the integer-to-decimal rendering that the stopwatch and countdown
  texts use (Python's `f"{n:02d}"`), together with its inverse.

All times are whole microseconds (`Events.Second == 1_000_000`). Python's `%`
with a positive divisor and Dafny's `%` agree, so every wrap-around
(`(idx - 1) % n`, the colour index, the accumulators) is written with `%`.

Three behaviours of the code that are easy to misread are modelled as written:
- An unconsumed ROTATE whose delta is 0 or missing moves to the **previous**
  screen, because only delta > 0 selects `next` (manager/screen_manager.py:44-47).
- `_prev_sw` takes the sampled level on every tick, even when the edge is
  rejected by the debounce (input/ky040.py:159). As a result, a release that
  comes within the debounce interval of its press is never seen: the button
  stays pressed, no click is emitted, and the next tap is timed from the old
  press (`Ky040.QuickReleaseIsLost`).
- Between ticks the step accumulator stays strictly inside
  (-steps_per_detent, steps_per_detent), because reaching either bound emits
  a ROTATE and resets it to 0 (input/ky040.py:134-139).

## Model

| member | source | states |
|---|---|---|
| `Ky040.Pack` | input/ky040.py:123 | The packed state keeps CLK in bit 1 and DT in bit 0; both levels can be read back. |
| `Ky040.Trans` | input/ky040.py:107-117 | +1 exactly for one step forward in the Gray cycle 00→01→11→10→00, -1 exactly for one step back, and 0 for every other pair (a repeated state or a jump over two positions). |
| `Ky040.EmitRotate` | input/ky040.py:88-92 | The queued ROTATE carries the delta, negated when `invert_direction` is set. |
| `Ky040.ClampSteps` | input/ky040.py:44 | steps_per_detent is at least 1; a value of at least 1 is kept as given. |
| `Ky040.RotateStep` | input/ky040.py:122-139 | A repeated state changes nothing and emits nothing. Any other state becomes `_last_state`, even when its step is 0 or debounced. A step that is not accepted leaves `_accum` and `_last_rot_time` alone. An accepted step sets `_last_rot_time` to now. A ROTATE is emitted exactly when the accumulator reaches ±steps_per_detent; it is then reset to 0 and the ROTATE's delta is the completing step's sign. Otherwise the accumulator stays strictly inside (-spd, spd). The accepted step always equals the accumulator change plus spd times the emitted delta. |
| `Ky040.InvertOnlyNegates` | input/ky040.py:88-92 | Setting `invert_direction` leaves the decoder's fields exactly as they would be without it, and negates each emitted delta. |
| `Ky040.RotateRun` | input/ky040.py:119-139 | Over any run of ticks, the accumulator stays within one detent and every event emitted is ROTATE +1 or ROTATE -1. |
| `Ky040.DetentConservation` | input/ky040.py:128-139 | Over any run of ticks, the accepted steps plus the starting accumulator equal the final accumulator plus steps_per_detent times the net (un-inverted) ROTATE delta. So one ROTATE is emitted per detent, and no step is lost or counted twice. |
| `Ky040.Classify` | input/ky040.py:153-157 | LONG_CLICK exactly when held ≥ long_press, SHORT_CLICK exactly when held < long_press. |
| `Ky040.ButtonStep` | input/ky040.py:141-159 | `_prev_sw` always takes the new level. An edge is accepted only when the level changed and strictly more than the debounce interval has passed since the last accepted edge; a rejected edge changes nothing else and emits nothing. A press records the press time and emits nothing. A release clears `_pressed` and emits exactly one click, classified by the hold time. Any other accepted edge only moves `_last_btn_edge`. A click is emitted only when a press ends. |
| `Ky040.ButtonRun` | input/ky040.py:141-159 | Over any run of ticks, the button emits only SHORT_CLICK and LONG_CLICK events. |
| `Ky040.OneClickPerPress` | input/ky040.py:147-157 | Over any run of ticks, clicks emitted plus a press still held at the end equal presses registered plus a press held at the start. So each press/release cycle yields exactly one click, never two. |
| `Ky040.KY040Input.constructor` | input/ky040.py:17-59 | Stores the configuration with steps_per_detent clamped. The rotation fields start at (0, 0, 0) and the button fields at (not pressed, 0, 0, idle level 1). |
| `Ky040.KY040Input.Start` | input/ky040.py:75-77 | Takes the initial quadrature state and switch level from the pins and changes no other field. |
| `Ky040.QuickReleaseIsLost` | input/ky040.py:144-159 | With the default timings, a press at 100 ms, a release at 110 ms and a high level still at 200 ms leave the button pressed, with the press time 100 ms and no click emitted. |
| `Ky040.KY040Input.PollRotation` | input/ky040.py:122-139 | The rotation section changes the rotation fields exactly as `RotateStep` prescribes, returns its events, and leaves the button fields alone. |
| `Ky040.KY040Input.PollButton` | input/ky040.py:141-159 | The button section changes the button fields exactly as `ButtonStep` prescribes, returns its click, and leaves the rotation fields alone. |
| `Ky040.KY040Input.Tick` | input/ky040.py:120-159 | One polling iteration updates the seven fields exactly as `RotateStep` and `ButtonStep` prescribe. It returns their events in queue order, rotation first, and keeps the accumulator within one detent. |
| `Manager.NextIndex` | manager/screen_manager.py:29-31 | `(idx + 1) % n` is the next screen, with the last one wrapping to the first. |
| `Manager.PrevIndex` | manager/screen_manager.py:33-35 | `(idx - 1) % n` is the previous screen, with the first one wrapping to the last. |
| `Manager.SwitchHooks` | manager/screen_manager.py:22-27 | A switch calls no hook when it targets the active index. Otherwise it calls exactly `on_exit` of the old screen and then `on_enter` of the new one. |
| `Manager.Navigate` | manager/screen_manager.py:37-47 | The index stays in range. A consumed event or an unconsumed non-ROTATE leaves the index alone. An unconsumed ROTATE with delta > 0 moves to the next screen, and one with delta ≤ 0 (or missing) to the previous one. |
| `Manager.EntersExceedExitsByOne` | manager/screen_manager.py:11-27 | In every lifecycle history the coordinator produces, `on_enter` calls outnumber `on_exit` calls by exactly one: only the active screen is entered and not yet exited. |
| `Manager.SwitchKeepsLifecycle` | manager/screen_manager.py:22-27 | A switch keeps the history well formed: each exit is of the screen that was active, and is followed by the entry of a different screen. |
| `Manager.NextPrevInverse` | manager/screen_manager.py:29-35 | `next` then `prev`, and `prev` then `next`, restore the index. |
| `Manager.SingleScreenStays` | manager/screen_manager.py:22-35 | With a single screen, no event moves the index and no hook is called. |
| `Manager.ScreenManager.Init` | manager/screen_manager.py:14-16 | A non-empty list gives index 0 and exactly one `on_enter` of screen 0. |
| `Manager.ScreenManager.Create` | manager/screen_manager.py:11-16 | Construction fails exactly when the list is empty. Otherwise index 0 is active and screen 0 has received exactly one `on_enter`. |
| `Manager.ScreenManager.Current` | manager/screen_manager.py:18-20 | The active screen is exactly the entry at the active index, `screens[idx]`, and so one of the managed screens. |
| `Manager.ScreenManager.SwitchTo` | manager/screen_manager.py:22-27 | Sets the index and appends exactly `SwitchHooks(old, new)` to the trace. |
| `Manager.ScreenManager.Next` | manager/screen_manager.py:29-31 | Moves to the next index, wrapping, with at most one exit/enter pair. |
| `Manager.ScreenManager.Prev` | manager/screen_manager.py:33-35 | Moves to the previous index, wrapping, with at most one exit/enter pair. |
| `Manager.ScreenManager.Handle` | manager/screen_manager.py:37-47 | The new index is `Navigate` of the old one. The hooks called are exactly those of that switch. The index stays in range and the lifecycle history stays well formed. |
| `Base.OnEnter` | screens/base.py:4-5 | The default `on_enter` leaves the screen's state unchanged. |
| `Base.OnExit` | screens/base.py:7-8 | The default `on_exit` leaves the screen's state unchanged. |
| `Base.Handle` | screens/base.py:10-14 | The default `handle` consumes no event. |
| `Base.Update` | screens/base.py:16-20 | The default `update` leaves the state unchanged for every dt. |
| `Base.DefaultScreenNavigates` | screens/base.py:10-14 | Under the coordinator, a screen with the default `handle` lets every ROTATE navigate (forward for delta > 0, back otherwise). Any other event leaves the active screen in place. |
| `Format.Decimal` | screens/countdown.py:34 | The decimal text is non-empty, all digits, with no leading zero for a positive number. |
| `Format.ZeroPad` | screens/stopwatch.py:98 | A `{n:0Wd}` field has width max(W, digits of n) and consists only of digits. |
| `Format.ParseZeroPad` | screens/stopwatch.py:98 | Reading a zero-padded field back gives the number, at any width. |
| `Stopwatch.FramePeriod` | screens/stopwatch.py:45-46 | A frame period is positive and at most one second. It is exactly a second divided by the rate for rates 1..10^6, and a full second for rates below 1. |
| `Stopwatch.TotalMs` | screens/stopwatch.py:91-93 | The whole milliseconds of a non-negative elapsed time; a negative elapsed time is shown as 0. |
| `Stopwatch.SplitTime` | screens/stopwatch.py:94-97 | ms < 1000, sec < 60, minutes < 100, and minutes·60000 + sec·1000 + ms equals the total modulo 100 minutes. |
| `Stopwatch.FormatTime` | screens/stopwatch.py:90-98 | The text is always nine characters, "MM:SS.mmm", with ':' and '.' in place and digits elsewhere. |
| `Stopwatch.FormatTimeRoundTrip` | screens/stopwatch.py:90-98 | Each column reads back as its own field of `SplitTime`: MM as the minutes, SS as the seconds (< 60) and mmm as the milliseconds. Together they give the elapsed milliseconds modulo 100 minutes. |
| `Stopwatch.FormatTimeExact` | screens/stopwatch.py:94-97 | Below 6,000,000 ms, reading the text back gives exactly the elapsed milliseconds. |
| `Stopwatch.ZeroTextIsFormatOfZero` | screens/stopwatch.py:51 | The reset text "00:00.000" is what zero elapsed time formats to. |
| `Stopwatch.AnimAdvance` | screens/stopwatch.py:129-134 | The frame index stays in [0, 8) and the accumulator ends below one frame period. Time that does not complete a period only accumulates. |
| `Stopwatch.StopwatchScreen.constructor` | screens/stopwatch.py:23-51 | Periods from the two rates; default state (idle, all zero); text "00:00.000". |
| `Stopwatch.StopwatchScreen.Handle` | screens/stopwatch.py:100-125 | LONG_CLICK resets every field to its default and the text to "00:00.000". SHORT_CLICK moves idle→running with elapsed reset to 0, running→paused and paused→running. Both return True. Any other event returns False and changes nothing. |
| `Stopwatch.StopwatchScreen.Animate` | screens/stopwatch.py:129-134 | The idle loop turns whole frame periods into frame steps, leaving `AnimAdvance` of the old frame and accumulator. It touches nothing else. |
| `Stopwatch.StopwatchScreen.AdvanceClock` | screens/stopwatch.py:137-143 | Running adds dt to the elapsed time and paused keeps it. The display accumulator grows by dt, and a refresh is due exactly when it reaches a period; it then keeps only the remainder. Nothing else changes. |
| `Stopwatch.StopwatchScreen.Update` | screens/stopwatch.py:127-144 | Idle: only the animation advances. Running: elapsed grows by dt. Paused: elapsed stays. Outside idle the text is refreshed (to the new elapsed time) exactly when the display accumulator reaches a period, and the accumulator then keeps only the remainder. |
| `Text.NextColor` | screens/text.py:31-33 | The next palette index, with the last wrapping to the first; always in [0, 7). |
| `Text.RotateColor` | screens/text.py:46-49 | Forward for delta > 0, back otherwise (0 wraps to 6); always in [0, 7). |
| `Text.ShortClicksAdvance` | screens/text.py:31-33 | k short clicks advance the colour index by k modulo 7. |
| `Text.SevenShortClicksRestore` | screens/text.py:31-33 | Seven short clicks restore the colour index. |
| `Text.RotateBackRestores` | screens/text.py:46-49 | A rotation one way then the other restores the colour index. |
| `Text.TextScreen.constructor` | screens/text.py:8-25 | Colour 0 and edit mode off. |
| `Text.TextScreen.CurrentColor` | screens/text.py:55 | The drawing colour is exactly the palette entry at `color_i`, and so a palette entry. |
| `Text.TextScreen.Handle` | screens/text.py:27-51 | SHORT_CLICK advances the colour and LONG_CLICK resets it to 0; both return True. ROTATE is consumed exactly in edit mode, where it steps the colour. Anything else returns False and changes nothing. `edit_mode` never changes and the index stays in [0, 7). |
| `Image.NormalisePaths` | screens/image.py:15-18 | A single path becomes a one-element list; a list is kept as given. |
| `Image.StepIndex` | screens/image.py:58-64 | The index stays in [0, n). delta > 0 moves forward, delta < 0 moves back (both wrapping), and delta 0 keeps it. |
| `Image.StepBackRestores` | screens/image.py:58-64 | Stepping by delta and then by -delta restores the index. |
| `Image.Name` | screens/image.py:25 | Covers bare names that are boolean literals or bound nowhere in the module: `True` and `False` evaluate to booleans, and any other such (unbound) name raises NameError. |
| `Image.Construct` | screens/image.py:9-25 | Construction fails exactly when the name given for the initial edit mode fails to evaluate. Otherwise it yields the normalised paths, index 0, no inversion and that edit mode. |
| `Image.ConstructAsWrittenRaises` | screens/image.py:25 | With the name `false` as written, construction raises NameError for every argument. |
| `Image.ConstructIntendedSucceeds` | screens/image.py:15-25 | With `False`, construction succeeds for every argument: image 0, edit mode off, not inverted. |
| `Image.ImageScreen.constructor` | screens/image.py:9-25 | Construction as intended: normalised paths, index 0, not inverted, edit mode off. |
| `Image.ImageScreen.Handle` | screens/image.py:44-67 | SHORT_CLICK toggles edit mode and LONG_CLICK toggles inversion; each returns True and changes nothing else. In edit mode ROTATE returns True and steps the index. Outside edit mode ROTATE, like any other event, returns False and changes nothing. With an empty list, a non-zero rotation in edit mode raises ZeroDivisionError and changes nothing. |
| `Countdown.Clamp` | screens/countdown.py:26-28 | A negative count becomes 0; a non-negative one is kept. |
| `Countdown.SplitHms` | screens/countdown.py:31-33 | m < 60, s < 60 and h·3600 + m·60 + s equals the clamped count. |
| `Countdown.CountdownText` | screens/countdown.py:31-34 | The text is at least 12 characters plus the digits of the count, and ends in ')'. `CountdownTextCount` and `CountdownTextRoundTrip` state what it reads back to. |
| `Countdown.CountdownTextCount` | screens/countdown.py:34 | At any count the text ends in "  (N)", where N is all digits and reads back as the clamped count. |
| `Countdown.CountdownTextRoundTrip` | screens/countdown.py:30-34 | Under 100 hours the text is "HH:MM:SS  (N)" in fixed columns. HH, MM and SS are two digits each and read back as the hours, minutes and seconds of `SplitHms`, which together give the clamped count. N reads back as the clamped count too. |
| `Countdown.CountdownScreen.constructor` | screens/countdown.py:17-20 | Accumulator 0; text computed from the clock reading at construction. |
| `Countdown.CountdownScreen.Accumulate` | screens/countdown.py:38-40 | The accumulator grows by dt, and a refresh is due exactly when it reaches one second; it then keeps only the sub-second remainder. The text is unchanged. |
| `Countdown.CountdownScreen.Update` | screens/countdown.py:36-41 | The text is recomputed only once the accumulator reaches one second, and the accumulator then keeps only the sub-second remainder. Otherwise only the accumulator grows. The accumulator is always below one second afterwards. |

## Findings

| source | as written | input that shows it | evidently intended | confidence | as-written member | corrected member |
|---|---|---|---|---|---|---|
| screens/image.py:25 | `self.edit_mode = false` names `false`, which Python does not define, so every construction raises NameError | any argument, e.g. a single path "a.png" | `self.edit_mode = False`: the screen starts out of edit mode | high (not executed) | `Image.ConstructAsWrittenRaises` | `Image.ImageScreen.constructor` |

## Left out

- The polling thread, `start`'s pin set-up and glitch filters, `stop`, `time.monotonic`, `time.sleep`, the debug `print`s and the output queue (input/ky040.py:61-86, 91, 95, 99, 120, 161). These are I/O and concurrency. `Tick` takes the time and the three pin levels, and returns the events it would queue. `poll_s` only sets the sleep, so it is not modelled.
- `Ky040.KY040Input.Start`: only the initial samples (lines 75-77) are modelled. The pin configuration and the thread start are I/O.
- input/gpio_pigpio.py and display/matrix.py are thin wrappers over pigpio and rgbmatrix and are not part of this model.
- main.py is not part of this model (render-loop glue: queue draining, sleep, canvas swap). As written it hands each drained event to `mgr.handle` twice (main.py:75 and 78), and the `encoder.start()` call is commented out (main.py:59).
- screens/clock.py is not part of this model (wall-clock formatting with `strftime`).
- Every `draw` method, `_load_frames`, `_load_image` and its `_cache`, and the fonts are drawing and file-system work. The stopwatch's frame count is the constant 8 that `_load_frames` always produces (or raises).
- The datetime and time-zone computation of the seconds to midnight (screens/countdown.py:23-26) is wall-clock work. That reading, before clamping, is passed in as `remaining`.
- Floating point: seconds are whole microseconds and the float `%=` is integer `%`. `int(elapsed_s * 1000.0)` becomes integer division by 1000; for negative values the clamp to 0 makes the rounding direction irrelevant.
- `Stopwatch.FramePeriod`: `1.0 / max(fps, 1.0)` becomes whole microseconds, rounded down and never below 1 µs (a rate above 10^6 gets a 1 µs period). The rate is an integer.
- `Stopwatch.StopwatchScreen.Animate`: the loop runs on local copies of the frame index and the accumulator and stores them once at the end. The source updates the fields on every iteration, and nothing observes them in between.
- The coordinator does not call a concrete screen's `handle`; the caller passes its result as `consumed`. Screens are an abstract list, and the lifecycle hooks are recorded as indices in a ghost trace. The text and image screens keep the default `update`, `on_enter` and `on_exit` (`Base`).
- Events are a closed datatype. A record whose "type" is missing or unknown is `Unknown`, and a ROTATE without "delta" is `Rotate(0)`, since every reader defaults the delta to 0. Other fields of the record are ignored, as the code ignores them.
- `Countdown.CountdownTextRoundTrip`: covers counts under 100 hours, where every field has fixed width. A real count to midnight is at most about 25 hours.
- The screens' `name` class attributes and the image screen's `size`, `nearest` and font fields are used only for drawing and are not modelled.
