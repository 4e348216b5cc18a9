# SuperTime timer engine, modelled in Dafny

SuperTime is a stopwatch/countdown app with a lock-screen live activity and a
home-screen widget. This project models its timer engine, `TimerViewModel`,
together with the three pieces around it: the time display helpers of the
timer screen, the button actions of the control strip, and the widget's
timeline provider.

- `TimerSpec` (timer_spec.dfy) is the state machine as values: a `TimerState`
  record holding the view model's fields, one function per operation, and an
  `Event` trace (`Run`) of calls and platform callbacks. Its lemmas state what
  the operations promise. The main ones are drift-free banking across pauses,
  at most one alarm per run, and at most one live-activity update per
  displayed second.
- `TimerModel.TimerViewModel` (timer_view_model.dfy) is the class. Its methods
  update the fields in place in the Swift order. Each method is proved to
  reach `TimerSpec`'s state for that operation.
- `Controls.ControlView` (control_view.dfy) holds the dialled countdown length
  `countdownInput`, in seconds. It models the five button actions.
- `TimeFormat` (time_format.dfy) splits milliseconds into minutes, seconds and
  milliseconds and renders them as `%01d`/`%03d` strings.
- `WidgetTimeline` (timeline_provider.dfy) reads the shared store with
  defaults and builds the one-entry timeline.
- `SwiftInt` (swift_int.dfy) gives Swift's truncating `/` and `%`.
  `Wrappers` (wrappers.dfy) gives `Option`, which stands for Swift's `T?`.

Time is an integer number of milliseconds. The wall clock (`Date()`) is a
parameter `now`. The methods that bank or display elapsed time require that
`now` is not earlier than the start anchor. This is the monotonic-clock assumption, and it keeps
`elapsedTime` non-negative. The platform side effects become ghost flags and
counters: display link attached, live-activity timer scheduled, alarm
requested, sound played, notification scheduled or pending, and live-activity
update issued. In a trace, a display-link frame is delivered only while the
display link is attached. A live-activity tick is delivered only while its
timer is scheduled.

Behaviour the model keeps as the code has it:
- There is no separate "Finished" state. A countdown that reaches zero ends
  stopped and paused with `currentTime == 0`, which the start button shows
  as "Ended".
- `toggleMode` is not refused while the timer runs. It never starts, stops or
  pauses the timer.
- Pausing does not cancel the pending expiry notification. Only `resetTime`
  removes it (`PauseKeepsNotification`).
- Nothing in the modelled code writes to the shared store.

## Model

| member | source | states |
|---|---|---|
| TimerSpec.InitialIsValid | Timer/TimerViewModel.swift:16-33 | the initial field values satisfy the invariant; the timer starts stopped, unpaused, in stopwatch mode at 0 |
| TimerSpec.StepKeepsInv | Timer/TimerViewModel.swift:41-152 | every operation and callback keeps the invariant: running implies an anchor and not paused, and both periodic callbacks are attached exactly while running |
| TimerSpec.RunKeepsInv | Timer/TimerViewModel.swift:41-152 | the invariant holds after any trace of calls and callbacks |
| TimerSpec.StartTimerSpec | Timer/TimerViewModel.swift:61-83 | a no-op when running; otherwise running, unpaused, anchored at `now - elapsedTime`, callbacks attached, display and mode untouched |
| TimerSpec.StartSchedulesNotification | Timer/TimerViewModel.swift:79-81 | a notification is scheduled on start exactly when a stopped countdown shows at least one whole second (guard at lines 336-340) |
| TimerSpec.StopTimerSpec | Timer/TimerViewModel.swift:86-102 | a no-op when stopped; otherwise banks `now - startTime`, stops, pauses and detaches both callbacks, keeping the display |
| TimerSpec.ResetTimeSpec | Timer/TimerViewModel.swift:105-124 | from any state: stopped, unpaused, nothing banked, display at 0 or the countdown target, no pending notification; mode, target and mute kept |
| TimerSpec.ResetIdempotent | Timer/TimerViewModel.swift:105-124 | resetting a second time changes nothing |
| TimerSpec.ToggleModeSpec | Timer/TimerViewModel.swift:50-58 | always sets the mode; overwrites target and display only for countdown with a duration; running, paused, anchor, banked time and effects untouched |
| TimerSpec.ToggleStartStopFlips | Timer/TimerViewModel.swift:41-47 | start/stop flips between running and paused |
| TimerSpec.StopwatchTickSpec | Timer/TimerViewModel.swift:127-137 | a stopwatch frame shows the time banked since the anchor and changes nothing else; with no anchor it changes nothing |
| TimerSpec.CountdownTickSpec | Timer/TimerViewModel.swift:139-152 | a countdown frame shows the positive time left, or shows 0, stops, pauses and requests the alarm (sounding unless muted); the display is never negative |
| TimerSpec.CountdownNonIncreasing | Timer/TimerViewModel.swift:139-152 | of two frames of a running countdown, the later one never shows more time left, and neither shows less than 0 |
| TimerSpec.CountdownNeverRises | Timer/TimerViewModel.swift:139-152 | over any trace of frames in time order, live ticks and mute switches, a countdown's display never rises above where it started and never drops below 0 |
| TimerSpec.PlayAlarmSpec | Timer/TimerViewModel.swift:183-187 | the alarm is requested every time but plays a sound only when not muted; no other field and no other effect changes |
| TimerSpec.LiveActivityTickSpec | Timer/TimerViewModel.swift:164-169 | an update is issued exactly when `currentTime / 1000` differs from the last published second, which it then records |
| TimerSpec.LiveActivityTickIdempotent | Timer/TimerViewModel.swift:164-169 | a second firing within the same displayed second issues nothing |
| TimerSpec.PauseKeepsNotification | Timer/TimerViewModel.swift:86-124 | stopping leaves the expiry notification pending; resetting removes it (line 120) |
| TimerSpec.DriftFree | Timer/TimerViewModel.swift:61-102 | over any trace without reset or countdown expiry, the banked time at the end equals the banked time at the start plus the running time given by the start/stop calls alone, and so does the running flag |
| TimerSpec.PauseResumeDriftFree | Timer/TimerViewModel.swift:63-90 | start t0, stop t1, start t2, stop t3 with any frames, live ticks and mute switches in between banks exactly (t1-t0)+(t3-t2) more and ends stopped, unless a frame ends a countdown |
| TimerSpec.PauseResumeStopwatch | Timer/TimerViewModel.swift:127-135 | in stopwatch mode the pause/resume sum holds for every interleaving of frames |
| TimerSpec.NeverExpiresInStopwatch | Timer/TimerViewModel.swift:131-135 | without a mode switch a stopwatch frame never ends the run |
| TimerSpec.StoppedStaysPut | Timer/TimerViewModel.swift:86-102 | once stopped, frames and live ticks are no longer delivered, so only the mute switch can change the state |
| TimerSpec.AlarmAtMostOncePerRun | Timer/TimerViewModel.swift:139-152 | during a run, frames and live ticks request the alarm at most once, and only by ending the run stopped, paused and showing 0 |
| TimerSpec.AlarmAtMostOnceWithoutStart | Timer/TimerViewModel.swift:50-152 | with no new start, any trace (mode switches, stops and resets included) requests the alarm at most once, and never once stopped |
| TimerSpec.ThrottleOncePerSecond | Timer/TimerViewModel.swift:156-174 | while the display stays within one second, any number of frames and live ticks issue at most one live-activity update, none if that second was already published |
| TimerSpec.CountdownScenario | Timer/TimerViewModel.swift:50-152 | a 5000 ms countdown started at t and ticked at t+5000 shows 0, is paused, and has one alarm, one sound and one notification |
| TimerSpec.StopwatchScenario | Timer/TimerViewModel.swift:61-137 | 2300 ms running, any pause, then 700 ms more: the display reads 2300 after the first part and 3000 at the end |
| TimerModel.TimerViewModel.constructor | Timer/TimerViewModel.swift:15-38 | the new object holds the initial state |
| TimerModel.TimerViewModel.ToggleStartStop | Timer/TimerViewModel.swift:41-47 | reaches `TimerSpec.ToggleStartStop` of the old state and keeps the invariant |
| TimerModel.TimerViewModel.ToggleMode | Timer/TimerViewModel.swift:50-58 | reaches `TimerSpec.ToggleMode`; the mode is as asked and running/paused are unchanged |
| TimerModel.TimerViewModel.StartTimer | Timer/TimerViewModel.swift:61-83 | reaches `TimerSpec.StartTimer`; a fresh anchor is not after `now` |
| TimerModel.TimerViewModel.StopTimer | Timer/TimerViewModel.swift:86-102 | reaches `TimerSpec.StopTimer`; the banked time stays non-negative |
| TimerModel.TimerViewModel.ResetTime | Timer/TimerViewModel.swift:105-124 | reaches `TimerSpec.ResetTime`: stopped, unpaused, nothing banked, display at the mode's start value |
| TimerModel.TimerViewModel.UpdateTime | Timer/TimerViewModel.swift:127-137 | reaches `TimerSpec.UpdateTime` |
| TimerModel.TimerViewModel.UpdateCountdownTimer | Timer/TimerViewModel.swift:139-152 | reaches `TimerSpec.UpdateCountdownTimer`, calling stop and the alarm in place; the display is never negative |
| TimerModel.TimerViewModel.LiveActivityTimerFired | Timer/TimerViewModel.swift:161-171 | reaches `TimerSpec.LiveActivityTick` |
| TimerModel.TimerViewModel.PlayAlarm | Timer/TimerViewModel.swift:183-202 | reaches `TimerSpec.PlayAlarm` |
| TimerModel.TimerViewModel.ScheduleNotification | Timer/TimerViewModel.swift:334-356 | reaches `TimerSpec.ScheduleNotification` |
| SwiftInt.Div | Timer/TimerView.swift:75 | Swift's quotient has the sign of the dividend |
| SwiftInt.Rem | Timer/TimerView.swift:85 | Swift's remainder has the sign of the dividend and is smaller than the divisor |
| SwiftInt.DivRem | Timer/TimerView.swift:75-85 | quotient times divisor plus remainder rebuilds the dividend |
| SwiftInt.AgreesOnNonNegative | Timer/TimerViewModel.swift:164 | on a non-negative dividend Swift's `/` and `%` are the Euclidean ones |
| TimeFormat.ComponentsOfNonNegative | Timer/TimerView.swift:74-87 | for time >= 0: minutes is `time / 60000`, seconds lies in 0..59, milliseconds in 0..999 |
| TimeFormat.ComponentsRebuild | Timer/TimerView.swift:75-85 | `minutes*60000 + seconds*1000 + ms == time` for every time, negative ones included |
| TimeFormat.DecimalRoundTrip | Timer/TimerView.swift:76 | the `%01d` spelling of a non-negative number is all digits, has no leading zero and parses back to the number |
| TimeFormat.LeadingZerosParse | Timer/TimerView.swift:86 | zero padding does not change the value read back |
| TimeFormat.MinutesString | Timer/TimerView.swift:74-77 | for time >= 0 the minutes string is the unpadded decimal of `time / 60000` |
| TimeFormat.SecondsString | Timer/TimerView.swift:79-82 | for time >= 0 the seconds string is one or two digits, unpadded, reading back as the seconds in the minute |
| TimeFormat.MillisecondsString | Timer/TimerView.swift:84-87 | for time >= 0 the milliseconds string is exactly three digits and reads back as `time % 1000` |
| Controls.ControlView.constructor | Timer/ControlView.swift:11-13 | `countdownInput` starts at 0 |
| Controls.ControlView.TimerResetButton | Timer/ControlView.swift:21-34 | on a zero display adds 60 s and enters countdown with `countdownInput*1000` ms; otherwise zeroes the input and leaves a reset stopwatch; the input stays a non-negative multiple of 60 |
| Controls.ControlView.MinusButton | Timer/ControlView.swift:47-61 | removes 60 s and enters countdown with it; if at most one second is left, zeroes the input and leaves a reset stopwatch; the input is 0 or above 1, never negative |
| Controls.ControlView.ArrowButton | Timer/ControlView.swift:64-84 | keeps the input; on a zero display enters countdown with `countdownInput*1000` ms, otherwise leaves a reset stopwatch |
| Controls.ControlView.PlusButton | Timer/ControlView.swift:88-100 | while enabled (below 3600 s) adds exactly 60 s and enters countdown with `countdownInput*1000` ms |
| Controls.ControlView.MuteButton | Timer/ControlView.swift:106-107 | flips the mute switch and nothing else |
| WidgetTimeline.Lookup | SuperTimeWidget/TimelineProvider.swift:34-37 | a stored string under the key if the suite opens and has one, the fallback otherwise |
| WidgetTimeline.Placeholder | SuperTimeWidget/TimelineProvider.swift:23-25 | an entry dated now with "00:00:00", "stopped", "stopwatch" |
| WidgetTimeline.GetSnapshot | SuperTimeWidget/TimelineProvider.swift:28-31 | the snapshot is the placeholder entry |
| WidgetTimeline.ReadsSpec | SuperTimeWidget/TimelineProvider.swift:34-47 | each of the three reads gives the stored value or its default: "00:00:00", "stopped", "stopwatch" |
| WidgetTimeline.GetTimeline | SuperTimeWidget/TimelineProvider.swift:49-62 | exactly one entry, dated now, with the refresh due one second after it |
| WidgetTimeline.TimelineCarriesStore | SuperTimeWidget/TimelineProvider.swift:53-58 | the entry carries the three looked-up values |
| WidgetTimeline.EmptyStoreShowsPlaceholder | SuperTimeWidget/TimelineProvider.swift:23-62 | with no suite or an empty one the timeline's entry is the placeholder |

## Left out

- Platform calls are not modelled: the display link, the DispatchSource timer, the audio session and player, user notifications, ActivityKit, haptics and the idle-timer switch. Each one is reduced to a ghost flag or counter.
- Live-activity content is not modelled: the start and end dates built in `startLiveActivity`, `updateLiveActivity` and `endLiveActivity` are Date arithmetic. `endLiveActivity` is not modelled, and neither is `updateLiveActivity`'s guard on a missing activity. The model counts the updates the throttle issues.
- `requestNotificationPermissions` and its call from the Timer and "+" buttons are not modelled. They are permission prompts with no effect on the timer state.
- Floating-point time is not modelled. Date, TimeInterval and the `Int(elapsed)` truncation are replaced by an integer millisecond clock, which is assumed monotonic.
- A missing or unplayable alarm asset, and audio errors, are not modelled. `soundsPlayed` counts `playAlarm` calls that get past the mute gate.
- Concurrency is not modelled. The live-activity handler runs on a background queue and hops to the main queue; the model runs it as one sequential step.
- `TimerModel.TimerViewModel.UpdateCountdownTimer`: the stop inside a countdown frame reads the same `now` as the frame. The source reads the clock a second time, an instant later.
- `TimerSpec.DriftFree`: stated only for traces without `resetTime`, and without a frame that ends a countdown. Either one resets or stops the banking by design.
- `Controls.ControlView.MinusButton`, `Controls.ControlView.ArrowButton`, `Controls.ControlView.PlusButton`: the button's disabled condition is a precondition, because a disabled button cannot be pressed.
- `TimeFormat`: `String(format:)` with `%d` is modelled as C's decimal conversion on an unbounded integer. A value outside 32 bits is not modelled.
- `WidgetTimeline`: the store maps strings to strings. A non-string value under a key, which `string(forKey:)` also reads as missing, is not modelled.
- The SwiftUI views, the widget's state-to-label mapping, the live-activity view, the `RoundedCorner` shape and the app and widget entry points are not part of this model.
