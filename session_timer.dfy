/** The lesson countdown (components/SessionTimer.tsx): a timer that starts at the lesson's
    duration, counts down one second per tick while running, completes at zero, can be
    paused, resumed and reset, and shows its time as `m:ss`. The interval is an explicit
    `Tick`; the `onComplete` callback is counted. */
module SessionTimer {
  import opened Wrappers
  import opened Strings

  /** `formatTime`: whole minutes, a colon, then the seconds with a leading zero below 10. */
  function FormatTime(seconds: nat): string
  {
    NatToString(seconds / 60) + ":" + (if seconds % 60 < 10 then "0" else "") + NatToString(seconds % 60)
  }

  /** The seconds part is always two digits: the rendering is minutes, ':' and `Pad2` of the
      seconds. */
  lemma FormatTimeShape(seconds: nat)
    ensures FormatTime(seconds) == NatToString(seconds / 60) + [':'] + Pad2(seconds % 60)
  {
    var x := seconds % 60;
    if x >= 10 {
      assert |NatToString(x)| >= 2 by {
        assert NatToString(x) == NatToString(x / 10) + [DigitChar(x % 10)];
      }
    }
  }

  /** Reading the text back gives the minutes and the two-digit seconds. */
  lemma FormatTimeRoundTrip(seconds: nat)
    ensures ReadNumber(FormatTime(seconds), ':') == Some((seconds / 60, Pad2(seconds % 60)))
    ensures |Pad2(seconds % 60)| == 2 && DigitsValue(Pad2(seconds % 60)) == seconds % 60
  {
    FormatTimeShape(seconds);
    NatToStringRoundTrip(seconds / 60);
    ReadNumberJoin(NatToString(seconds / 60), ':', Pad2(seconds % 60));
  }

  /** Different times never look the same. */
  lemma FormatTimeInjective(a: nat, b: nat)
    requires FormatTime(a) == FormatTime(b)
    ensures a == b
  {
    FormatTimeRoundTrip(a);
    FormatTimeRoundTrip(b);
    assert a == a / 60 * 60 + a % 60 && b == b / 60 * 60 + b % 60;
  }

  /** The timer's state. */
  datatype TimerState = TimerState(timeLeft: nat, isActive: bool, isCompleted: bool)

  /** One second: a running timer with time left counts down, and a timer at zero is
      stopped and completed. */
  function Ticked(s: TimerState): (r: TimerState)
    ensures s.isActive && s.timeLeft > 0 ==> r.timeLeft == s.timeLeft - 1
    ensures !(s.isActive && s.timeLeft > 0) ==> r.timeLeft == s.timeLeft
    ensures r.timeLeft == 0 ==> !r.isActive && r.isCompleted
    ensures r.timeLeft > 0 ==> r.isActive == s.isActive && r.isCompleted == s.isCompleted
  {
    var left := if s.isActive && s.timeLeft > 0 then s.timeLeft - 1 else s.timeLeft;
    if left == 0 then TimerState(0, false, true) else s.(timeLeft := left)
  }

  function Run(s: TimerState, k: nat): TimerState
    decreases k
  {
    if k == 0 then s else Run(Ticked(s), k - 1)
  }

  /** A running timer with `n` seconds left is still running with `n - k` left after `k < n`
      ticks, and completes at zero after exactly `n`. */
  lemma {:induction false} RunsDown(n: nat, k: nat, completed: bool)
    requires 0 < n && k <= n
    ensures var r := Run(TimerState(n, true, completed), k);
            && r.timeLeft == n - k
            && (k < n ==> r.isActive && r.isCompleted == completed)
            && (k == n ==> !r.isActive && r.isCompleted)
    decreases k
  {
    if k > 0 {
      if n == 1 {
        assert Run(TimerState(n, true, completed), k) == Run(TimerState(0, false, true), 0);
      } else {
        assert Ticked(TimerState(n, true, completed)) == TimerState(n - 1, true, completed);
        RunsDown(n - 1, k - 1, completed);
      }
    }
  }

  /** A paused timer stays where it is. */
  lemma {:induction false} PausedStays(s: TimerState, k: nat)
    requires !s.isActive && s.timeLeft > 0
    ensures Run(s, k) == s
    decreases k
  {
    if k > 0 {
      PausedStays(Ticked(s), k - 1);
    }
  }

  class Timer {
    const durationSeconds: nat
    var timeLeft: nat
    var isActive: bool
    var isCompleted: bool
    /** How often `onComplete` was called. */
    var completions: nat

    function State(): TimerState
      reads this
    {
      TimerState(timeLeft, isActive, isCompleted)
    }

    predicate Valid()
      reads this
    {
      timeLeft <= durationSeconds && (isCompleted ==> timeLeft == 0)
    }

    /** The first render: the full duration, paused, not completed. */
    constructor (durationSeconds: nat)
      ensures Valid() && this.durationSeconds == durationSeconds
      ensures State() == TimerState(durationSeconds, false, false) && completions == 0
    {
      this.durationSeconds := durationSeconds;
      timeLeft, isActive, isCompleted, completions := durationSeconds, false, false, 0;
    }

    /** One second of the interval, and the effect that completes the timer at zero and calls
        `onComplete` when it gets there. */
    method Tick()
      requires Valid()
      modifies this`timeLeft, this`isActive, this`isCompleted, this`completions
      ensures Valid()
      ensures State() == Ticked(old(State()))
      ensures completions == old(completions) + (if timeLeft == 0 && !old(isCompleted) then 1 else 0)
    {
      if isActive && timeLeft > 0 {
        timeLeft := timeLeft - 1;
      }
      if timeLeft == 0 {
        if !isCompleted {
          completions := completions + 1;
        }
        isActive, isCompleted := false, true;
      }
    }

    /** `toggleTimer`. */
    method Toggle()
      modifies this`isActive
      ensures isActive == !old(isActive)
    {
      isActive := !isActive;
    }

    /** `resetTimer`: the full duration again, paused and not completed. */
    method Reset()
      modifies this`timeLeft, this`isActive, this`isCompleted
      ensures Valid()
      ensures State() == TimerState(durationSeconds, false, false)
    {
      isActive, timeLeft, isCompleted := false, durationSeconds, false;
    }
  }
}
