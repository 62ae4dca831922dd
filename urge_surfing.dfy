/** The urge-surfing exercise (components/UrgeSurfingModal.tsx): three steps (acknowledge,
    breathe, ride the wave) over a three-minute countdown that starts with the breathing
    step. The interval is an explicit `Tick`. Its clock text is `SessionTimer.FormatTime`,
    which the modal's `formatTime` repeats character for character. */
module UrgeSurfing {
  datatype Step = Acknowledge | Breathe | Ride

  /** The countdown's length: three minutes. */
  const StartSeconds: nat := 180

  /** "Continue" is shown once the countdown is below two and a half minutes. */
  const ContinueBelow: nat := 150

  datatype UrgeState = UrgeState(step: Step, timeLeft: nat, isActive: bool)

  /** One second: a running countdown with time left counts down, and at zero it stops. */
  function Ticked(s: UrgeState): (r: UrgeState)
    ensures r.step == s.step
    ensures r.timeLeft == if s.isActive && s.timeLeft > 0 then s.timeLeft - 1 else s.timeLeft
    ensures r.isActive <==> s.isActive && r.timeLeft > 0
  {
    var left := if s.isActive && s.timeLeft > 0 then s.timeLeft - 1 else s.timeLeft;
    UrgeState(s.step, left, s.isActive && left > 0)
  }

  function Run(s: UrgeState, k: nat): UrgeState
    decreases k
  {
    if k == 0 then s else Run(Ticked(s), k - 1)
  }

  /** Whether the breathing step offers "Continue". */
  predicate ContinueOffered(s: UrgeState)
  {
    s.step == Breathe && s.timeLeft < ContinueBelow
  }

  /** The state right after "I'm Ready to Ride It". */
  const Ready: UrgeState := UrgeState(Breathe, StartSeconds, true)

  /** `k` seconds into a breathing step with `n` seconds left, the countdown shows `n - k` and stops at 0. */
  lemma {:induction false} RunFromReady(n: nat, k: nat)
    requires 0 < n && k <= n
    ensures Run(UrgeState(Breathe, n, true), k) == UrgeState(Breathe, n - k, n - k > 0)
    decreases k
  {
    if k > 0 {
      if n == 1 {
        assert Run(UrgeState(Breathe, n, true), k) == Run(UrgeState(Breathe, 0, false), 0);
      } else {
        assert Ticked(UrgeState(Breathe, n, true)) == UrgeState(Breathe, n - 1, true);
        RunFromReady(n - 1, k - 1);
      }
    }
  }

  /** "Continue" appears exactly from the 31st second of the breathing step on. */
  lemma ContinueAfterThirtyOneSeconds(k: nat)
    requires k <= StartSeconds
    ensures ContinueOffered(Run(Ready, k)) <==> k >= 31
  {
    RunFromReady(StartSeconds, k);
  }

  class UrgeModal {
    var step: Step
    var timeLeft: nat
    var isActive: bool

    function State(): UrgeState
      reads this
    {
      UrgeState(step, timeLeft, isActive)
    }

    /** The effect on opening: step one, three minutes, stopped. */
    constructor Open()
      ensures State() == UrgeState(Acknowledge, StartSeconds, false)
    {
      step, timeLeft, isActive := Acknowledge, StartSeconds, false;
    }

    /** Opening again resets the same way. */
    method Reopen()
      modifies this
      ensures State() == UrgeState(Acknowledge, StartSeconds, false)
    {
      step, timeLeft, isActive := Acknowledge, StartSeconds, false;
    }

    method Tick()
      modifies this`timeLeft, this`isActive
      ensures State() == Ticked(old(State()))
    {
      if isActive && timeLeft > 0 {
        timeLeft := timeLeft - 1;
      }
      if timeLeft == 0 {
        isActive := false;
      }
    }

    /** "I'm Ready to Ride It", shown on step one: the breathing step with the countdown
        running. */
    method ReadyToRide()
      modifies this`step, this`isActive
      ensures old(step) == Acknowledge ==> step == Breathe && isActive && timeLeft == old(timeLeft)
      ensures old(step) != Acknowledge ==> State() == old(State())
    {
      if step == Acknowledge {
        step, isActive := Breathe, true;
      }
    }

    /** "Continue", shown on the breathing step below 150 seconds: the ride step. */
    method Continue()
      modifies this`step
      ensures ContinueOffered(old(State())) ==> step == Ride
      ensures !ContinueOffered(old(State())) ==> step == old(step)
    {
      if step == Breathe && timeLeft < ContinueBelow {
        step := Ride;
      }
    }
  }
}
