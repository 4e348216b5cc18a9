/**
 * `TimerViewModel` (Timer/TimerViewModel.swift) as a class whose methods
 * update its fields in place, in the order the Swift code does. Each method
 * is proved to produce the state that the matching function of `TimerSpec`
 * describes, so the lemmas of `TimerSpec` apply to the object.
 *
 * The wall clock (`Date()`) is the parameter `now`, in milliseconds. Platform
 * calls become ghost flags and counters.
 */
module TimerModel {
  import opened Wrappers
  import SwiftInt
  import TimerSpec

  class TimerViewModel {
    var currentTime: int        // milliseconds on display
    var countdownTime: int      // countdown target, milliseconds
    var isRunning: bool
    var isPaused: bool
    var isCountingDown: bool
    var isMuted: bool
    var startTime: Option<int>  // start anchor
    var elapsedTime: int        // milliseconds banked while paused
    var lastSecondUpdated: int  // last second sent to the live activity

    ghost var displayLinkActive: bool
    ghost var liveActivityTimerActive: bool
    ghost var alarmsRequested: nat
    ghost var soundsPlayed: nat
    ghost var notificationsScheduled: nat
    ghost var notificationPending: bool
    ghost var liveActivityUpdates: nat

    /** The object's fields as a `TimerSpec` state. */
    ghost function State(): TimerSpec.TimerState
      reads this
    {
      TimerSpec.TimerState(
        currentTime, countdownTime, isRunning, isPaused, isCountingDown, isMuted,
        startTime, elapsedTime, lastSecondUpdated,
        TimerSpec.Effects(displayLinkActive, liveActivityTimerActive, alarmsRequested, soundsPlayed,
                          notificationsScheduled, notificationPending, liveActivityUpdates))
    }

    /** The state-machine invariant, and nothing banked is ever negative. */
    ghost predicate Valid()
      reads this
    {
      TimerSpec.Inv(State()) && elapsedTime >= 0
    }

    /** The clock has not gone back before the start anchor. */
    predicate NotBeforeAnchor(now: int)
      reads this
    {
      startTime.Some? ==> startTime.value <= now
    }

    constructor ()
      ensures Valid() && State() == TimerSpec.Initial()
    {
      currentTime, countdownTime := 0, 0;
      isRunning, isPaused, isCountingDown, isMuted := false, false, false, false;
      startTime, elapsedTime, lastSecondUpdated := None, 0, 0;
      displayLinkActive, liveActivityTimerActive := false, false;
      alarmsRequested, soundsPlayed, notificationsScheduled := 0, 0, 0;
      notificationPending, liveActivityUpdates := false, 0;
    }

    method ToggleStartStop(now: int)
      requires Valid() && NotBeforeAnchor(now)
      modifies this
      ensures Valid() && State() == TimerSpec.ToggleStartStop(old(State()), now)
    {
      if isRunning {
        StopTimer(now);
      } else {
        StartTimer(now);
      }
    }

    method ToggleMode(isCountdown: bool, milliseconds: Option<int>)
      requires Valid()
      modifies this
      ensures Valid() && State() == TimerSpec.ToggleMode(old(State()), isCountdown, milliseconds)
      ensures isCountingDown == isCountdown && isRunning == old(isRunning) && isPaused == old(isPaused)
    {
      isCountingDown := isCountdown;
      if isCountingDown && milliseconds.Some? {
        countdownTime := milliseconds.value;
        currentTime := milliseconds.value;
      }
    }

    method StartTimer(now: int)
      requires Valid()
      modifies this
      ensures Valid() && State() == TimerSpec.StartTimer(old(State()), now)
      ensures !old(isRunning) ==> NotBeforeAnchor(now)
    {
      if !isRunning {
        startTime := Some(now - elapsedTime);
        displayLinkActive := true;
        isRunning := true;
        isPaused := false;
        liveActivityTimerActive := true;
        if isCountingDown {
          ScheduleNotification();
        }
      }
    }

    method StopTimer(now: int)
      requires Valid() && NotBeforeAnchor(now)
      modifies this
      ensures Valid() && State() == TimerSpec.StopTimer(old(State()), now)
    {
      if isRunning {
        displayLinkActive := false;
        elapsedTime := now - startTime.GetOr(now);
        isRunning := false;
        isPaused := true;
        liveActivityTimerActive := false;
      }
    }

    method ResetTime(now: int)
      requires Valid() && NotBeforeAnchor(now)
      modifies this
      ensures Valid() && State() == TimerSpec.ResetTime(old(State()), now)
      ensures !isRunning && !isPaused && elapsedTime == 0
      ensures currentTime == (if isCountingDown then countdownTime else 0)
    {
      StopTimer(now);
      currentTime := if isCountingDown then countdownTime else 0;
      elapsedTime := 0;
      isPaused := false;
      notificationPending := false;
    }

    /** The display-link callback. */
    method UpdateTime(now: int)
      requires Valid() && NotBeforeAnchor(now)
      modifies this
      ensures Valid() && State() == TimerSpec.UpdateTime(old(State()), now)
    {
      if startTime.None? {
        return;
      }
      var elapsed := now - startTime.value;
      if isCountingDown {
        UpdateCountdownTimer(elapsed, now);
      } else {
        currentTime := elapsed;
      }
    }

    method UpdateCountdownTimer(elapsed: int, now: int)
      requires Valid() && NotBeforeAnchor(now)
      modifies this
      ensures Valid() && State() == TimerSpec.UpdateCountdownTimer(old(State()), elapsed, now)
      ensures currentTime >= 0
    {
      var remainingTime := countdownTime - elapsed;
      if remainingTime > 0 {
        currentTime := remainingTime;
      } else {
        currentTime := 0;
        StopTimer(now);
        PlayAlarm();
      }
    }

    /** The event handler of the once-a-second live-activity timer. */
    method LiveActivityTimerFired()
      requires Valid()
      modifies this
      ensures Valid() && State() == TimerSpec.LiveActivityTick(old(State()))
    {
      var secondsElapsed := SwiftInt.Div(currentTime, 1000);
      if secondsElapsed != lastSecondUpdated {
        lastSecondUpdated := secondsElapsed;
        liveActivityUpdates := liveActivityUpdates + 1;
      }
    }

    method PlayAlarm()
      requires Valid()
      modifies this
      ensures Valid() && State() == TimerSpec.PlayAlarm(old(State()))
    {
      alarmsRequested := alarmsRequested + 1;
      if isMuted {
        return;
      }
      soundsPlayed := soundsPlayed + 1;
    }

    method ScheduleNotification()
      requires Valid()
      modifies this
      ensures Valid() && State() == TimerSpec.ScheduleNotification(old(State()))
    {
      var timeInterval := SwiftInt.Div(currentTime, 1000);
      if timeInterval <= 0 {
        return;
      }
      notificationsScheduled := notificationsScheduled + 1;
      notificationPending := true;
    }
  }
}
