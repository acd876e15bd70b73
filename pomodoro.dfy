/**
 * The Pomodoro timer (src/components/Pomodoro.tsx): 25 minutes of focus
 * alternating with 5 minutes of break. The effect that either schedules a
 * one-second tick or, at 0, switches phase is modelled as one atomic step.
 */
module Pomodoro {
  import Clock

  const FocusSeconds := 25 * 60
  const BreakSeconds := 5 * 60

  class Pomodoro {
    var timeLeft: int
    var isRunning: bool
    var isBreak: bool

    /** The remaining time stays within its phase's length. */
    predicate Valid()
      reads this
    {
      0 <= timeLeft <= FocusSeconds && (isBreak ==> timeLeft <= BreakSeconds)
    }

    /** Focus phase, full 25 minutes, stopped. */
    constructor()
      ensures Valid()
      ensures timeLeft == FocusSeconds && !isRunning && !isBreak
    {
      timeLeft := FocusSeconds;
      isRunning := false;
      isBreak := false;
    }

    /** The text shown: the remaining time as `mm:ss`. */
    function Display(): string
      reads this
    {
      Clock.FormatTime(timeLeft)
    }

    /**
     * One step of the effect: a second off while running with time left; at 0,
     * running or not, focus turns into a full break and a break into a full
     * focus period; otherwise nothing.
     */
    method Step()
      modifies this
      ensures old(isRunning) && old(timeLeft) > 0 ==> timeLeft == old(timeLeft) - 1 && isBreak == old(isBreak)
      ensures old(timeLeft) == 0 && !old(isBreak) ==> timeLeft == BreakSeconds && isBreak
      ensures old(timeLeft) == 0 && old(isBreak) ==> timeLeft == FocusSeconds && !isBreak
      ensures !old(isRunning) && old(timeLeft) != 0 ==> timeLeft == old(timeLeft) && isBreak == old(isBreak)
      ensures isRunning == old(isRunning)
      ensures old(Valid()) ==> Valid()
    {
      if isRunning && timeLeft > 0 {
        timeLeft := timeLeft - 1;
      } else if timeLeft == 0 {
        if !isBreak {
          timeLeft := BreakSeconds;
          isBreak := true;
        } else {
          timeLeft := FocusSeconds;
          isBreak := false;
        }
      }
    }

    /** `toggleTimer`: flips `isRunning` and nothing else. */
    method ToggleTimer()
      modifies this
      ensures isRunning == !old(isRunning)
      ensures timeLeft == old(timeLeft) && isBreak == old(isBreak)
      ensures old(Valid()) ==> Valid()
    {
      isRunning := !isRunning;
    }

    /** `resetTimer`: stopped, in focus, with the full 25 minutes. */
    method ResetTimer()
      modifies this
      ensures timeLeft == FocusSeconds && !isRunning && !isBreak
      ensures Valid()
    {
      isRunning := false;
      timeLeft := FocusSeconds;
      isBreak := false;
    }
  }

  /**
   * A running focus period with t seconds left reaches the break after t + 1
   * steps: t ticks down to 0, then the switch to a full break, still running.
   */
  method FinishFocus(p: Pomodoro) returns (steps: nat)
    requires p.Valid() && p.isRunning && !p.isBreak
    modifies p
    ensures steps == old(p.timeLeft) + 1
    ensures p.Valid() && p.isRunning && p.isBreak && p.timeLeft == BreakSeconds
  {
    steps := 0;
    while p.timeLeft > 0
      invariant p.Valid() && p.isRunning && !p.isBreak
      invariant steps + p.timeLeft == old(p.timeLeft)
      decreases p.timeLeft
    {
      p.Step();
      steps := steps + 1;
    }
    p.Step();
    steps := steps + 1;
  }

  /** Reset, start, run out the focus period and then the break: the timer is back on a full focus period, still running. */
  method FullCycle(p: Pomodoro)
    modifies p
    ensures p.Valid() && p.isRunning && !p.isBreak && p.timeLeft == FocusSeconds
  {
    p.ResetTimer();
    p.ToggleTimer();
    var _ := FinishFocus(p);
    while p.timeLeft > 0
      invariant p.Valid() && p.isRunning && p.isBreak
      decreases p.timeLeft
    {
      p.Step();
    }
    p.Step();
  }

  /** The switch at 0 happens also while the timer is stopped: a stopped focus period at 0 becomes a break. */
  method SwitchWhileStopped(p: Pomodoro)
    requires p.timeLeft == 0 && !p.isRunning && !p.isBreak
    modifies p
    ensures p.isBreak && p.timeLeft == BreakSeconds && !p.isRunning
  {
    p.Step();
  }

  /** Any time a phase can hold shows as five characters `mm:ss` that read back as that time. */
  lemma DisplayReadsBack(p: Pomodoro)
    requires p.Valid()
    ensures |p.Display()| == 5 && p.Display()[2] == ':'
    ensures Clock.ParseClock(p.Display()) == p.timeLeft
  {
    Clock.FormatTimeRoundTrip(p.timeLeft);
  }
}
