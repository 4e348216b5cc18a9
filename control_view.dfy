/**
 * The button actions of the control strip (Timer/ControlView.swift). The view
 * keeps the countdown length the user is dialling in, `countdownInput`, in
 * whole seconds, and drives the shared view model. A button that the view
 * disables cannot be pressed, so its enabling condition is a precondition.
 */
module Controls {
  import opened Wrappers
  import TimerSpec
  import TimerModel

  class ControlView {
    const viewModel: TimerModel.TimerViewModel
    var countdownInput: int  // seconds

    /** The view model is consistent and the dialled length is a non-negative whole number of minutes. */
    ghost predicate Valid()
      reads this, viewModel
    {
      viewModel.Valid() && countdownInput >= 0 && countdownInput % 60 == 0
    }

    constructor (viewModel: TimerModel.TimerViewModel)
      requires viewModel.Valid()
      ensures Valid() && this.viewModel == viewModel && countdownInput == 0
    {
      this.viewModel := viewModel;
      countdownInput := 0;
    }

    /**
     * "Timer"/"Reset": on a zero display, one more minute and countdown mode
     * with it; otherwise back to a reset stopwatch.
     */
    method TimerResetButton(now: int)
      requires Valid() && viewModel.NotBeforeAnchor(now)
      modifies this, viewModel
      ensures Valid()
      ensures old(viewModel.currentTime) == 0 ==>
        countdownInput == old(countdownInput) + 60 &&
        viewModel.State() == TimerSpec.ToggleMode(old(viewModel.State()), true, Some(countdownInput * 1000)) &&
        viewModel.isCountingDown && viewModel.countdownTime == viewModel.currentTime == countdownInput * 1000
      ensures old(viewModel.currentTime) != 0 ==>
        countdownInput == 0 &&
        viewModel.State() == TimerSpec.ResetTime(TimerSpec.ToggleMode(old(viewModel.State()), false, Some(0)), now) &&
        !viewModel.isCountingDown && !viewModel.isRunning && !viewModel.isPaused && viewModel.currentTime == 0
    {
      if viewModel.currentTime == 0 {
        countdownInput := countdownInput + 60;
        var countdownSeconds := countdownInput;
        viewModel.ToggleMode(true, Some(countdownSeconds * 1000));
      } else {
        countdownInput := 0;
        viewModel.ToggleMode(false, Some(countdownInput));
        viewModel.ResetTime(now);
      }
    }

    /**
     * "–": one minute less and countdown mode with it; when that leaves at most
     * one second, back to zero and a reset stopwatch. Never negative.
     */
    method MinusButton(now: int)
      requires Valid() && countdownInput > 0 && viewModel.NotBeforeAnchor(now)
      modifies this, viewModel
      ensures Valid()
      ensures countdownInput == 0 || countdownInput > 1
      ensures old(countdownInput) - 60 > 1 ==>
        countdownInput == old(countdownInput) - 60 &&
        viewModel.State() == TimerSpec.ToggleMode(old(viewModel.State()), true, Some(countdownInput * 1000))
      ensures old(countdownInput) - 60 <= 1 ==>
        countdownInput == 0 &&
        viewModel.State() == TimerSpec.ResetTime(
          TimerSpec.ToggleMode(TimerSpec.ToggleMode(old(viewModel.State()), true, Some((old(countdownInput) - 60) * 1000)), false, Some(0)), now) &&
        !viewModel.isCountingDown && !viewModel.isRunning && !viewModel.isPaused && viewModel.currentTime == 0
    {
      countdownInput := countdownInput - 60;
      var countdownSeconds := countdownInput;
      viewModel.ToggleMode(true, Some(countdownSeconds * 1000));
      if countdownInput <= 1 {
        countdownInput := 0;
        viewModel.ToggleMode(false, Some(countdownInput));
        viewModel.ResetTime(now);
      }
    }

    /**
     * The arrow: leaves the dialled length alone; on a zero display enters
     * countdown with it, otherwise returns to a reset stopwatch.
     */
    method ArrowButton(now: int)
      requires Valid() && countdownInput > 0 && viewModel.NotBeforeAnchor(now)
      modifies viewModel
      ensures Valid()
      ensures old(viewModel.currentTime) == 0 ==>
        viewModel.State() == TimerSpec.ToggleMode(old(viewModel.State()), true, Some(countdownInput * 1000))
      ensures old(viewModel.currentTime) != 0 ==>
        viewModel.State() == TimerSpec.ResetTime(TimerSpec.ToggleMode(old(viewModel.State()), false, Some(countdownInput)), now) &&
        !viewModel.isCountingDown && !viewModel.isRunning && !viewModel.isPaused && viewModel.currentTime == 0
    {
      if viewModel.currentTime == 0 {
        var countdownSeconds := countdownInput;
        viewModel.ToggleMode(true, Some(countdownSeconds * 1000));
      } else {
        viewModel.ToggleMode(false, Some(countdownInput));
        viewModel.ResetTime(now);
      }
    }

    /** "+": exactly one minute more and countdown mode with it; disabled from one hour on. */
    method PlusButton()
      requires Valid() && countdownInput < 3600
      modifies this, viewModel
      ensures Valid()
      ensures countdownInput == old(countdownInput) + 60 && countdownInput <= 3600
      ensures viewModel.State() == TimerSpec.ToggleMode(old(viewModel.State()), true, Some(countdownInput * 1000))
      ensures viewModel.isCountingDown && viewModel.countdownTime == viewModel.currentTime == countdownInput * 1000
    {
      countdownInput := countdownInput + 60;
      var countdownSeconds := countdownInput;
      viewModel.ToggleMode(true, Some(countdownSeconds * 1000));
    }

    /** The speaker: flips the mute switch and nothing else. */
    method MuteButton()
      requires Valid()
      modifies viewModel
      ensures Valid()
      ensures viewModel.State() == TimerSpec.ToggleMute(old(viewModel.State()))
    {
      viewModel.isMuted := !viewModel.isMuted;
    }
  }
}
