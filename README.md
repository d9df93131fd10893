# Desk clock alarm — a Dafny model

This project models the alarm logic of a React desk clock. The `Clock` page holds the
alarm state: the target time `alarmTime`, the flag `isAlarmActive`, a sticky
`audioError` message, the audio context reference and the `showAlarmSettings` flag.
Once a second, while a target is set, an interval compares the "HH:MM" of the current
time with that of the target; on a match it activates the alarm and plays a sound.
`stopAlarm` clears the target and the active flag, and closes and recreates the audio
context when there is one. It never clears `audioError`, but a failed reset sets it to the
reset message. It leaves `showAlarmSettings` as it was. The alarm settings dialog
turns the "HH:MM" value of a time input into the next instant, strictly after now, at
that hour and minute.

Files:

- `instants.dfy` (module `Instants`): `Date` as integer milliseconds with fixed 24-hour
  days; hour, minute, second and millisecond getters; `At` for
  `new Date(y, m, d, hours, minutes)`.
- `time_text.dfy` (module `TimeText`): `toTimeString().slice(0, 5)` (`ShortTime`),
  `split(':')` (`Split`, with `Join` as its inverse), `Number` on digit strings, and the
  time-input parse, with round trips between formatting and parsing.
- `alarm_settings.dfy` (module `AlarmSettingsDialog`): target resolution and the dialog's
  form state (class `AlarmSettings`).
- `clock_page.dfy` (module `ClockPage`): clock-hand angles, the tick match, and class
  `Clock` with the alarm transitions.

Time is an integer count of milliseconds. Audio is a flag saying whether a context exists,
plus the error message. Whether creating or resetting the context succeeds is a boolean
argument supplied by the environment. Two counters make `playAlarmSound` observable:
`playCalls` counts its calls and `tonesStarted` counts the calls that got past its guard.
Hand angles are exact integers; the hour hand is counted in half-degrees.

The alarm behaves as follows. Where this differs from a strict idle, armed and firing
lifecycle (one firing per alarm, stop only while firing, no re-arming while firing), the
model follows the code:

- There is no cancel operation. The dialog's `onClose` only hides the dialog.
- `setAlarm` is accepted while the alarm is active. It replaces the target and leaves
  `isAlarmActive` as it was.
- There is no single-fire guard. Every matching tick in the target minute sets the alarm
  active again and calls `playAlarmSound` again (`TwoTicksInOneMinute`).
- `stopAlarm` has no guard of its own. Its only call site is the Stop button of the
  notification (page.tsx:236), which is rendered only while `isAlarmActive` holds
  (page.tsx:235). `StopAlarm` from Idle or Armed is therefore a generalisation the program
  never reaches, and an armed alarm cannot be cleared before it fires.
- An active alarm stays active after its minute has passed, until it is stopped. A tick
  that does not match leaves the alarm firing (`FiringOutlastsItsMinute`).

## Model

| member | source | states |
|---|---|---|
| `Instants.At` | alarm-settings.tsx:19 | the built instant has the given day, hour and minute, and zero seconds and milliseconds |
| `TimeText.TwoDigits` | page.tsx:45 | the zero-padded field has two digits and reads back as the number it prints |
| `TimeText.ShortTime` | page.tsx:45 | the first five characters of the time string are the padded hour, a colon and the padded minute |
| `TimeText.Split` | alarm-settings.tsx:17 | the parts contain no separator, and joining them with the separator gives back the input |
| `TimeText.SplitTimeInput` | alarm-settings.tsx:17 | splitting an "HH:MM" input at ':' yields exactly the hour field and the minute field |
| `TimeText.ParseTimeInput` | alarm-settings.tsx:17 | the parsed hour is in 0..23 and the minute in 0..59, and printing them zero-padded gives back the input |
| `TimeText.ParseShortTime` | page.tsx:45 | the "HH:MM" of any instant is a valid time input that parses back to that instant's hour and minute |
| `TimeText.ShortTimeEqual` | page.tsx:45 | two instants show the same "HH:MM" exactly when their hours and minutes are equal |
| `AlarmSettingsDialog.ResolveAlarmTarget` | alarm-settings.tsx:18-22 | the target is strictly after now and at most one day after it, with the entered hour and minute and zero seconds and milliseconds |
| `AlarmSettingsDialog.ResolveIsNextOccurrence` | alarm-settings.tsx:19-22 | no instant after now with the entered hour and minute and zero seconds comes before the target |
| `AlarmSettingsDialog.ResolveDay` | alarm-settings.tsx:20-21 | the target is today when the entered time is later than now's hour and minute, and tomorrow otherwise (an equal minute goes to tomorrow) |
| `AlarmSettingsDialog.ResolveAtTwoPm` | alarm-settings.tsx:19-22 | at 14:00, 09:30 resolves to the next day and 15:00 to the same day |
| `AlarmSettingsDialog.AlarmSettings.constructor` | alarm-settings.tsx:13 | the input value starts empty |
| `AlarmSettingsDialog.AlarmSettings.SetAlarmTime` | alarm-settings.tsx:37 | the input value becomes the changed value |
| `AlarmSettingsDialog.AlarmSettings.HandleSubmit` | alarm-settings.tsx:15-24 | the returned target is the resolution of the parsed input; it is after now and within a day, and its "HH:MM" is the input |
| `ClockPage.HourHandHalfDegrees` | page.tsx:176 | the hour hand lies in [0, 720) half-degrees and equals minutes since midnight modulo 720, so h and h+12 give the same angle |
| `ClockPage.MinuteHandDegrees` | page.tsx:183 | the minute hand lies in [0, 354] degrees and is a multiple of 6 |
| `ClockPage.SecondHandDegrees` | page.tsx:190 | the second hand lies in [0, 354] degrees and is a multiple of 6 |
| `ClockPage.HandsAgree` | page.tsx:176-190 | the hour hand is the minutes since midnight modulo 720, twice the minute hand is twelve times the hour hand modulo 720, and the second hand is six degrees per whole second of the instant's minute |
| `ClockPage.TickMatchesIff` | page.tsx:45 | the tick matches exactly when hour and minute agree; date, seconds and milliseconds are ignored |
| `ClockPage.TickMatchesEnteredTime` | page.tsx:44-47 | a target resolved from an input matches exactly the ticks whose "HH:MM" is that input |
| `ClockPage.CurrentMinuteFiresToday` | page.tsx:45 | entering the current minute resolves to tomorrow, yet the tick already matches now |
| `ClockPage.Clock.State` | page.tsx:13-14 | the alarm is idle exactly when no target is set, and firing exactly when it is active |
| `ClockPage.Clock.constructor` | page.tsx:10-16 | the initial state has no target, is inactive, has no audio error, no context and a closed dialog |
| `ClockPage.Clock.InitAudio` | page.tsx:28-33 | success makes a context present; failure records the unsupported-audio message and never clears an earlier error; nothing else changes |
| `ClockPage.Clock.DisplayTick` | page.tsx:19-21 | the displayed time becomes now and the invariant holds |
| `ClockPage.Clock.ToggleAlarmSettings` | page.tsx:89-91 | the dialog flag flips |
| `ClockPage.Clock.CloseAlarmSettings` | page.tsx:231 | the dialog flag becomes false |
| `ClockPage.Clock.SetAlarm` | page.tsx:93-96 | the target is replaced and the dialog closed, while the active flag and the audio state are left unchanged |
| `ClockPage.Clock.PlayAlarmSound` | page.tsx:55-56 | every call is counted, and a tone starts only when a context exists and no audio error is set |
| `ClockPage.Clock.AlarmTick` | page.tsx:43-52 | the alarm becomes active exactly on a matching tick and the target is kept; each matching tick plays the sound once more; without a target nothing changes |
| `ClockPage.Clock.StopAlarm` | page.tsx:98-109 | the alarm ends inactive with no target (the method has no guard; its only caller exists while the alarm is active); a failed reset of an existing context records the reset message; an error is never cleared |
| `ClockPage.Clock.SubmitAlarmSettings` | page.tsx:231 | submitting the dialog sets the target to the resolved input through `setAlarm` exactly once |
| `ClockPage.StopTwice` | page.tsx:98-100 | a second stop leaves the same alarm state as the first: inactive with no target |
| `ClockPage.TwoTicksInOneMinute` | page.tsx:44-47 | two matching ticks in the same minute leave the alarm firing and play the sound twice |
| `ClockPage.FiringOutlastsItsMinute` | page.tsx:44-48 | a tick outside the target minute leaves an active alarm firing, with its target, and plays no sound |
| `ClockPage.ArmAndFire` | page.tsx:44-47 | setting an alarm from the dialog, then ticking when the clock shows the entered time, makes the alarm fire with or without audio |

Every `Clock` method also keeps `Clock.Valid`. Its invariant is that an active alarm has a
target, that an audio error is one of the two messages, and that no more tones start than
there are calls.

## Left out

- Web Audio: the oscillator and gain graph, the 440 Hz sine, the 10 ms gain ramp and the 1 s tone (page.tsx:57-70). These are browser API calls. A started tone is counted in `tonesStarted` and nothing more is modelled.
- The 1.2 s beep-repeat interval (page.tsx:73-80). It reads a stale `isAlarmActive` from its closure and restarts an oscillator that was already started. This is timer and closure behaviour.
- `setInterval`, `clearInterval` and React effect scheduling (page.tsx:18-24, 42-53). Ticks are explicit calls to `DisplayTick` and `AlarmTick`, and the environment calls `AlarmTick` only while a target is set.
- Closing the audio context on unmount (page.tsx:35-39). Unmounting is not modelled.
- ClockPage.Clock.StopAlarm: the promise-based close and recreate of the context (page.tsx:102-107) is treated as finishing within the call. Ticks, or a new alarm, that happen before the promise settles are not modelled. Because of this, the interval's stale copy of `audioError` always equals the current value.
- Error logging through `console.error` (page.tsx:31, 105).
- The clock-face numerals and dial lines (page.tsx:121-164). They are floating-point layout using `Math.cos` and `Math.sin`.
- Dark mode, JSX, styling, the buttons, and all of alarm-notification.tsx. These are presentation only.
- Time zones, daylight saving time, and month or year rollover in `Date` and `setDate`. Every day is 24 hours long and a day is a plain integer.
- The time-zone suffix of `toTimeString()`. Only its "HH:MM:SS" head is modelled, because `slice(0, 5)` never reaches the suffix.
- Malformed time input. A required time input always submits a zero-padded "HH:MM", so `HandleSubmit` and `SubmitAlarmSettings` take that as a precondition (`IsTimeInput`). The NaN values that `Number` would give are not modelled.
- The `currentAlarm` prop of the dialog (alarm-settings.tsx:9, 30-32). It is only rendered, and page.tsx:231 never passes it.
