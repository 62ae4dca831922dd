/** The guided-breathing player (components/BreathingExercise.tsx): the three techniques and
    their phase durations, the one-second tick that counts a phase down and moves to the
    next, start/pause, reset and the total reported on close. The interval timer is an
    explicit `Tick`. */
module Breathing {
  import opened Wrappers

  datatype Technique = FourSevenEight | Box | Resonant

  /** The phase durations in seconds of each technique, `TECHNIQUES[t].phases`. */
  function Phases(t: Technique): (r: seq<nat>)
    ensures |r| >= 2 && forall i :: 0 <= i < |r| ==> r[i] > 0
  {
    match t
    case FourSevenEight => [4, 7, 8]
    case Box => [4, 4, 4, 4]
    case Resonant => [6, 6]
  }

  /** `(phaseIndex + 1) % phases.length`. */
  function NextPhase(t: Technique, i: nat): (r: nat)
    ensures r < |Phases(t)|
    ensures i < |Phases(t)| ==> (r == 0 <==> i == |Phases(t)| - 1)
    ensures i < |Phases(t)| - 1 ==> r == i + 1
  {
    if i + 1 < |Phases(t)| then i + 1 else (i + 1) % |Phases(t)|
  }

  /** The counters the player keeps while a technique is selected. */
  datatype Session = Session(phaseIndex: nat, timeLeft: nat, cycleCount: nat, totalSeconds: nat)

  /** One tick of the running interval: the total grows by a second; a phase with time left
      counts down; a finished phase gives way to the next with its full duration, and a new
      cycle is counted when the phases wrap round. */
  function Ticked(s: Session, t: Technique): (r: Session)
    ensures r.totalSeconds == s.totalSeconds + 1
    ensures s.timeLeft > 0 ==> r == s.(timeLeft := s.timeLeft - 1, totalSeconds := s.totalSeconds + 1)
    ensures s.timeLeft == 0 ==>
              r.phaseIndex == NextPhase(t, s.phaseIndex) && r.timeLeft == Phases(t)[r.phaseIndex] &&
              r.cycleCount == s.cycleCount + (if r.phaseIndex == 0 then 1 else 0)
  {
    if s.timeLeft > 0 then s.(timeLeft := s.timeLeft - 1, totalSeconds := s.totalSeconds + 1)
    else
      var next := NextPhase(t, s.phaseIndex);
      Session(next, Phases(t)[next], s.cycleCount + (if next == 0 then 1 else 0), s.totalSeconds + 1)
  }

  /** `k` ticks in a row. */
  function Run(s: Session, t: Technique, k: nat): Session
    decreases k
  {
    if k == 0 then s else Run(Ticked(s, t), t, k - 1)
  }

  lemma {:induction false} RunAdd(s: Session, t: Technique, a: nat, b: nat)
    ensures Run(s, t, a + b) == Run(Run(s, t, a), t, b)
    decreases a
  {
    if a > 0 {
      RunAdd(Ticked(s, t), t, a - 1, b);
    }
  }

  /** Counting a phase down to zero takes as many ticks as it has seconds left. */
  lemma {:induction false} CountDown(s: Session, t: Technique)
    ensures Run(s, t, s.timeLeft) == s.(timeLeft := 0, totalSeconds := s.totalSeconds + s.timeLeft)
    decreases s.timeLeft
  {
    if s.timeLeft > 0 {
      CountDown(Ticked(s, t), t);
    }
  }

  function Sum(s: seq<nat>): nat
  {
    if s == [] then 0 else s[0] + Sum(s[1..])
  }

  /** The seconds a technique's full cycle lasts: each phase shows its duration down to 0,
      one second more than its duration. */
  function CycleTicks(t: Technique): nat
  {
    Sum(Phases(t)) + |Phases(t)|
  }

  /** The ticks from the start of phase `i` to the end of the cycle. */
  function RestTicks(t: Technique, i: nat): nat
    requires i <= |Phases(t)|
  {
    Sum(Phases(t)[i..]) + (|Phases(t)| - i)
  }

  lemma RestTicksStep(t: Technique, i: nat)
    requires i < |Phases(t)|
    ensures RestTicks(t, i) == Phases(t)[i] + 1 + RestTicks(t, i + 1)
    ensures i == |Phases(t)| - 1 ==> RestTicks(t, i + 1) == 0
  {
    var ph := Phases(t);
    assert ph[i..][1..] == ph[i + 1..];
    assert ph[|ph|..] == [];
  }

  /** From the start of phase `i`, the remaining phases run out and the player is back at the
      start of phase 0 with one more cycle counted. */
  lemma {:induction false} RestOfCycle(t: Technique, i: nat, c: nat, total: nat)
    requires i < |Phases(t)|
    ensures Run(Session(i, Phases(t)[i], c, total), t, RestTicks(t, i)) ==
            Session(0, Phases(t)[0], c + 1, total + RestTicks(t, i))
    decreases |Phases(t)| - i
  {
    if i == |Phases(t)| - 1 {
      LastPhaseRunsOut(t, i, c, total);
    } else {
      var d := Phases(t)[i];
      RestTicksStep(t, i);
      var s1 := PhaseRunsOut(t, i, c, total);
      assert s1 == Session(i + 1, Phases(t)[i + 1], c, total + d + 1);
      RestOfCycle(t, i + 1, c, total + d + 1);
      RunChain(Session(i, d, c, total), t, d + 1, RestTicks(t, i + 1), RestTicks(t, i), s1,
               Session(0, Phases(t)[0], c + 1, total + RestTicks(t, i)));
    }
  }

  /** The last phase runs out straight into the next cycle. */
  lemma LastPhaseRunsOut(t: Technique, i: nat, c: nat, total: nat)
    requires i == |Phases(t)| - 1
    ensures Run(Session(i, Phases(t)[i], c, total), t, RestTicks(t, i)) ==
            Session(0, Phases(t)[0], c + 1, total + RestTicks(t, i))
  {
    RestTicksStep(t, i);
    var s1 := PhaseRunsOut(t, i, c, total);
  }

  /** `a` ticks to `mid` and `b` more to `end` are `n = a + b` ticks to `end`. */
  lemma RunChain(s: Session, t: Technique, a: nat, b: nat, n: nat, mid: Session, end: Session)
    requires n == a + b
    requires Run(s, t, a) == mid && Run(mid, t, b) == end
    ensures Run(s, t, n) == end
  {
    RunAdd(s, t, a, b);
  }

  /** Phase `i` shows its duration down to 0 and then gives way to the next phase. */
  lemma PhaseRunsOut(t: Technique, i: nat, c: nat, total: nat) returns (s1: Session)
    requires i < |Phases(t)|
    ensures var next := NextPhase(t, i);
            s1 == Session(next, Phases(t)[next], c + (if next == 0 then 1 else 0), total + Phases(t)[i] + 1)
    ensures Run(Session(i, Phases(t)[i], c, total), t, Phases(t)[i] + 1) == s1
  {
    var s := Session(i, Phases(t)[i], c, total);
    CountDown(s, t);
    RunAdd(s, t, Phases(t)[i], 1);
    s1 := Ticked(s.(timeLeft := 0, totalSeconds := total + Phases(t)[i]), t);
  }

  /** A full cycle from the start of phase 0 takes `CycleTicks` seconds and comes back to the
      start of phase 0 with the cycle count one higher: 22 seconds for 4-7-8, 20 for box and
      14 for resonant breathing. */
  lemma FullCycle(t: Technique, c: nat, total: nat)
    ensures Run(Session(0, Phases(t)[0], c, total), t, CycleTicks(t)) ==
            Session(0, Phases(t)[0], c + 1, total + CycleTicks(t))
    ensures CycleTicks(FourSevenEight) == 22 && CycleTicks(Box) == 20 && CycleTicks(Resonant) == 14
  {
    RestOfCycle(t, 0, c, total);
    assert Phases(t)[0..] == Phases(t);
    assert RestTicks(t, 0) == CycleTicks(t);
  }

  /** The player's state. */
  class Breather {
    var technique: Option<Technique>
    var phaseIndex: nat
    var timeLeft: nat
    var isActive: bool
    var cycleCount: nat
    var totalSeconds: nat

    function State(): Session
      reads this
    {
      Session(phaseIndex, timeLeft, cycleCount, totalSeconds)
    }

    /** The phase index is a phase of the selected technique. */
    predicate Valid()
      reads this
    {
      technique.Some? ==> phaseIndex < |Phases(technique.value)|
    }

    /** The duration of the phase the session screen shows: the current phase while active,
        the first one otherwise; `None` where the screen reads past the technique's phases. */
    function ShownPhase(): (r: Option<nat>)
      reads this
      requires technique.Some?
      ensures Valid() ==> r.Some?
      ensures r.Some? ==> r.value in Phases(technique.value)
    {
      var ph := Phases(technique.value);
      if !isActive then Some(ph[0])
      else if phaseIndex < |ph| then Some(ph[phaseIndex])
      else None
    }

    constructor ()
      ensures Valid() && technique.None? && !isActive
      ensures State() == Session(0, 0, 0, 0)
    {
      technique, phaseIndex, timeLeft, isActive, cycleCount, totalSeconds := None, 0, 0, false, 0, 0;
    }

    /** A technique card's `onClick` as written: only the technique changes. */
    method SelectAsWritten(t: Technique)
      modifies this`technique
      ensures technique == Some(t)
    {
      technique := Some(t);
    }

    /** Choosing a technique starts a fresh session of it: paused at its first phase, with
        the cycle count cleared and the total kept. */
    method Select(t: Technique)
      modifies this
      ensures Valid() && technique == Some(t) && !isActive
      ensures State() == Session(0, 0, 0, old(totalSeconds))
    {
      technique := Some(t);
      isActive, phaseIndex, timeLeft, cycleCount := false, 0, 0, 0;
    }

    /** The back arrow: the selection screen again, every counter kept. */
    method Back()
      modifies this`technique
      ensures technique.None?
    {
      technique := None;
    }

    /** One second of the interval, which runs only while active with a technique selected. */
    method Tick()
      requires Valid()
      modifies this`phaseIndex, this`timeLeft, this`cycleCount, this`totalSeconds
      ensures Valid()
      ensures isActive && technique.Some? ==> State() == Ticked(old(State()), technique.value)
      ensures !(isActive && technique.Some?) ==> State() == old(State())
    {
      if !isActive || technique.None? {
        return;
      }
      totalSeconds := totalSeconds + 1;
      if timeLeft > 0 {
        timeLeft := timeLeft - 1;
      } else {
        var ph := Phases(technique.value);
        var next := (phaseIndex + 1) % |ph|;
        if next == 0 {
          cycleCount := cycleCount + 1;
        }
        phaseIndex := next;
        timeLeft := ph[next];
      }
    }

    /** `toggleStart`: nothing without a technique; starting with no time left begins at the
        first phase with its full duration; the active flag always flips. */
    method ToggleStart()
      requires Valid()
      modifies this`phaseIndex, this`timeLeft, this`isActive
      ensures Valid()
      ensures technique.None? ==> State() == old(State()) && isActive == old(isActive)
      ensures technique.Some? ==>
                isActive == !old(isActive) &&
                if !old(isActive) && old(timeLeft) == 0 then
                  phaseIndex == 0 && timeLeft == Phases(technique.value)[0]
                else phaseIndex == old(phaseIndex) && timeLeft == old(timeLeft)
    {
      if technique.None? {
        return;
      }
      if !isActive && timeLeft == 0 {
        phaseIndex := 0;
        timeLeft := Phases(technique.value)[0];
      }
      isActive := !isActive;
    }

    /** `reset`: paused at the first phase with no time and no cycles; the total is kept. */
    method Reset()
      modifies this`isActive, this`phaseIndex, this`timeLeft, this`cycleCount
      ensures Valid() && !isActive
      ensures State() == Session(0, 0, 0, old(totalSeconds))
    {
      isActive, phaseIndex, timeLeft, cycleCount := false, 0, 0, 0;
    }

    /** `handleClose`: the seconds breathed, reported to the caller. */
    method Close() returns (seconds: nat)
      ensures seconds == totalSeconds
    {
      seconds := totalSeconds;
    }
  }

  /** With the card handler as written, going back from a running box session in its fourth
      phase and choosing resonant breathing (two phases) leaves the session screen reading a
      phase that does not exist. */
  method SelectAsWrittenOverruns() returns (shown: Option<nat>)
    ensures shown.None?
  {
    var b := new Breather();
    b.SelectAsWritten(Box);
    b.ToggleStart();
    var k := 0;
    while k < 15
      invariant 0 <= k <= 15
      invariant b.technique == Some(Box) && b.isActive
      invariant b.phaseIndex == k / 5 && b.timeLeft == 4 - k % 5
    {
      b.Tick();
      k := k + 1;
    }
    assert b.phaseIndex == 3;
    b.Back();
    b.SelectAsWritten(Resonant);
    shown := b.ShownPhase();
  }

  /** With the corrected handler the same steps show the first resonant phase. */
  method SelectKeepsPhaseInRange() returns (shown: Option<nat>)
    ensures shown == Some(6)
  {
    var b := new Breather();
    b.Select(Box);
    b.ToggleStart();
    var k := 0;
    while k < 15
      invariant 0 <= k <= 15
      invariant b.Valid() && b.technique == Some(Box) && b.isActive
    {
      b.Tick();
      k := k + 1;
    }
    b.Back();
    b.Select(Resonant);
    shown := b.ShownPhase();
  }
}
