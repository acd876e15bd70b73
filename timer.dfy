/**
 * The countdown timer (src/components/Timer.tsx): three state slots, a
 * one-second tick that runs only while the timer is running with time left,
 * `handleStart`, `handleReset`, the minutes field and the play/pause button.
 * Each handler is one atomic step; the interval's scheduling is not modelled.
 */
module Timer {
  import opened Wrappers
  import Text
  import Clock

  class Timer {
    var time: int
    var isRunning: bool
    var inputTime: string

    constructor()
      ensures time == 0 && !isRunning && inputTime == ""
    {
      time := 0;
      isRunning := false;
      inputTime := "";
    }

    /** The text shown: the remaining time as `mm:ss`. */
    function Display(): string
      reads this
    {
      Clock.FormatTime(time)
    }

    /** An interval is scheduled only while running with time left. */
    predicate TickScheduled()
      reads this
    {
      isRunning && time > 0
    }

    /**
     * One interval callback. Without a scheduled interval nothing happens; a
     * tick at one second or less lands on 0 and stops the timer, any other
     * tick takes one second off.
     */
    method Tick()
      modifies this
      ensures !old(TickScheduled()) ==> time == old(time) && isRunning == old(isRunning)
      ensures old(TickScheduled()) && old(time) <= 1 ==> time == 0 && !isRunning
      ensures old(TickScheduled()) && old(time) > 1 ==> time == old(time) - 1 && isRunning
      ensures inputTime == old(inputTime)
      ensures old(time) >= 0 ==> 0 <= time <= old(time)
    {
      if !TickScheduled() {
        return;
      }
      if time <= 1 {
        isRunning := false;
        time := 0;
      } else {
        time := time - 1;
      }
    }

    /**
     * `handleStart`: with minutes typed in, the timer stopped and at 0, the
     * time becomes the minutes in seconds; the timer runs afterwards in every
     * case. Typed text `parseInt` cannot read leaves the time at 0.
     */
    method HandleStart()
      modifies this
      ensures var loads := old(inputTime) != "" && !old(isRunning) && old(time) == 0;
        (loads && Text.ParseInt(old(inputTime)).Some? ==> time == Text.ParseInt(old(inputTime)).value * 60)
        && (!(loads && Text.ParseInt(old(inputTime)).Some?) ==> time == old(time))
      ensures isRunning && inputTime == old(inputTime)
    {
      if inputTime != "" && !isRunning && time == 0 {
        var minutes := Text.ParseInt(inputTime);
        if minutes.Some? {
          time := minutes.value * 60;
        }
      }
      isRunning := true;
    }

    /** `handleReset`: stopped, at 0, with the minutes field emptied. */
    method HandleReset()
      modifies this
      ensures time == 0 && !isRunning && inputTime == ""
    {
      isRunning := false;
      time := 0;
      inputTime := "";
    }

    /** Typing into the minutes field, which is shown only while stopped at 0. */
    method TypeMinutes(value: string)
      modifies this
      ensures !old(isRunning) && old(time) == 0 ==> inputTime == value
      ensures !(!old(isRunning) && old(time) == 0) ==> inputTime == old(inputTime)
      ensures time == old(time) && isRunning == old(isRunning)
    {
      if !isRunning && time == 0 {
        inputTime := value;
      }
    }

    /** Whether the play/pause button is disabled: at 0 with nothing typed. */
    predicate PlayDisabled()
      reads this
    {
      time == 0 && inputTime == ""
    }

    /** The play/pause button as wired: it only flips `isRunning`, and does nothing while disabled. */
    method PlayButton()
      modifies this
      ensures old(PlayDisabled()) ==> isRunning == old(isRunning)
      ensures !old(PlayDisabled()) ==> isRunning == !old(isRunning)
      ensures time == old(time) && inputTime == old(inputTime)
    {
      if !PlayDisabled() {
        isRunning := !isRunning;
      }
    }

    /** The play/pause button as evidently intended: pause while running, otherwise `handleStart`. */
    method StartPauseButton()
      modifies this
      ensures old(PlayDisabled()) ==> time == old(time) && isRunning == old(isRunning)
      ensures !old(PlayDisabled()) && old(isRunning) ==> time == old(time) && !isRunning
      ensures !old(PlayDisabled()) && !old(isRunning) && old(time) == 0 && Text.ParseInt(old(inputTime)).Some? ==>
        time == Text.ParseInt(old(inputTime)).value * 60 && isRunning
      ensures !old(PlayDisabled()) && !old(isRunning) && old(time) != 0 ==> time == old(time) && isRunning
      ensures inputTime == old(inputTime)
    {
      if PlayDisabled() {
        return;
      }
      if isRunning {
        isRunning := false;
      } else {
        HandleStart();
      }
    }
  }

  /** What a user can do to the timer panel. */
  datatype Action = Play | Reset | Type(value: string) | Second

  /**
   * As wired, no sequence of clicks, keystrokes and seconds ever moves the
   * time off 0: the play button never calls `handleStart`, so nothing loads
   * the typed minutes and no tick is ever scheduled.
   */
  method OperateAsWired(t: Timer, actions: seq<Action>)
    requires t.time == 0
    modifies t
    ensures t.time == 0 && t.Display() == "00:00"
  {
    for i := 0 to |actions|
      invariant t.time == 0
    {
      match actions[i]
      case Play => t.PlayButton();
      case Reset => t.HandleReset();
      case Type(v) => t.TypeMinutes(v);
      case Second => t.Tick();
    }
    Clock.FormatTimeRoundTrip(0);
    assert Clock.FormatTime(0) == "00:00";
  }

  /**
   * With the intended button, typing a whole number of minutes m > 0 and
   * pressing play loads m * 60 seconds, and exactly that many seconds later
   * the timer stands at 0 and has stopped.
   */
  method CountdownAsIntended(t: Timer, m: nat)
    requires m > 0
    modifies t
    ensures t.time == 0 && !t.isRunning
  {
    t.HandleReset();
    t.TypeMinutes(Text.NatToString(m));
    Text.ParseIntOfIntToString(m);
    t.StartPauseButton();
    assert t.time == m * 60 && t.isRunning;
    var ticks := 0;
    while ticks < m * 60
      invariant 0 <= ticks <= m * 60
      invariant t.time == m * 60 - ticks
      invariant ticks < m * 60 ==> t.isRunning
      invariant ticks == m * 60 ==> !t.isRunning
    {
      t.Tick();
      ticks := ticks + 1;
    }
  }
}
