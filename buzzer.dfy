/** The buzzer alarm routine `onBuzzerTimer` of src/main.cpp.

    Each firing of the hardware alarm toggles the tone and re-arms the alarm
    at the previous deadline plus an interval that depends on the shared
    "light is green" flag. A firing is modelled as one atomic step that reads
    the flag's current value; the tone output is recorded as a log of
    `tone`/`noTone` calls. */
module Buzzer {

  /** Audible tone frequency (`BUZZER_FREQ`). */
  const BUZZER_FREQ: nat := 500

  /** Microseconds the buzzer stays on during a green light. */
  const BUZZER_GREEN_ON_US: nat := 500000

  /** Microseconds the buzzer stays off during a green light. */
  const BUZZER_GREEN_OFF_US: nat := 1500000

  /** Microseconds of each on and off half while the light is not green. */
  const BUZZER_RED_US: nat := 250000

  /** A call on the tone output: `tone(pin, freq)` or `noTone(pin)`. */
  datatype ToneAction = StartTone(freq: nat) | StopTone

  /** The buzzer's two globals: `isBuzzerOn` and the timer's alarm value. */
  datatype BuzzerState = BuzzerState(on: bool, alarm: nat)

  /** The outcome of one firing: the new state and the tone call it made. */
  datatype Firing = Firing(next: BuzzerState, action: ToneAction)

  /** The delay choice of `onBuzzerTimer`, made after the toggle, so
      `isBuzzerOn` is the buzzer's new state. */
  function NextDelay(isLightGreen: bool, isBuzzerOn: bool): (delay: nat)
    ensures BUZZER_RED_US <= delay <= BUZZER_GREEN_OFF_US
    ensures !isLightGreen ==> delay == BUZZER_RED_US
    ensures isLightGreen ==> (delay == BUZZER_GREEN_ON_US <==> isBuzzerOn)
    ensures isLightGreen ==> (delay == BUZZER_GREEN_OFF_US <==> !isBuzzerOn)
  {
    if isLightGreen then
      (if isBuzzerOn then BUZZER_GREEN_ON_US else BUZZER_GREEN_OFF_US)
    else
      BUZZER_RED_US
  }

  /** One firing of `onBuzzerTimer` from state `b`, with the flag's current value. */
  function Fire(b: BuzzerState, isLightGreen: bool): (f: Firing)
    ensures f.next.on == !b.on
    ensures f.action.StartTone? <==> !b.on
    ensures f.action.StartTone? ==> f.action.freq == BUZZER_FREQ
    ensures f.next.alarm - b.alarm == NextDelay(isLightGreen, f.next.on)
    ensures f.next.alarm > b.alarm
  {
    var action := if b.on then StopTone else StartTone(BUZZER_FREQ);
    var on := !b.on;
    Firing(BuzzerState(on, b.alarm + NextDelay(isLightGreen, on)), action)
  }

  /** The state after a run of firings; `flags[i]` is the flag read by the i-th firing. */
  function Run(b: BuzzerState, flags: seq<bool>): BuzzerState
    decreases |flags|
  {
    if flags == [] then b else Run(Fire(b, flags[0]).next, flags[1..])
  }

  /** The alarm deadlines written by a run of firings, one per firing. */
  function Schedule(b: BuzzerState, flags: seq<bool>): (deadlines: seq<nat>)
    ensures |deadlines| == |flags|
    decreases |flags|
  {
    if flags == [] then []
    else
      var next := Fire(b, flags[0]).next;
      [next.alarm] + Schedule(next, flags[1..])
  }

  /** The interval before the i-th deadline of a schedule that started at `start`. */
  function Gap(start: nat, deadlines: seq<nat>, i: nat): int
    requires i < |deadlines|
  {
    deadlines[i] - (if i == 0 then start else deadlines[i - 1])
  }

  /** A flag that holds for all of `n` consecutive firings. */
  function Constant(flag: bool, n: nat): (flags: seq<bool>)
    ensures |flags| == n && forall i :: 0 <= i < n ==> flags[i] == flag
  {
    seq(n, _ => flag)
  }

  /** Every firing toggles the buzzer: after a run the buzzer is on exactly
      when the initial state and the parity of the run's length differ. */
  lemma {:induction false} RunToggles(b: BuzzerState, flags: seq<bool>)
    ensures Run(b, flags).on == (b.on != (|flags| % 2 == 1))
    decreases |flags|
  {
    if flags != [] {
      RunToggles(Fire(b, flags[0]).next, flags[1..]);
    }
  }

  /** The deadlines of a run are re-armed from the previous deadline, never
      from "now": they are all beyond the start and strictly increasing, each
      interval is at least BUZZER_RED_US, and the last one is the alarm the
      run ends with. */
  lemma {:induction false} ScheduleIncreasing(b: BuzzerState, flags: seq<bool>)
    ensures forall i :: 0 <= i < |flags| ==> Gap(b.alarm, Schedule(b, flags), i) >= BUZZER_RED_US
    ensures forall i, j :: 0 <= i < j < |flags| ==> Schedule(b, flags)[i] < Schedule(b, flags)[j]
    ensures forall i :: 0 <= i < |flags| ==> Schedule(b, flags)[i] > b.alarm
    ensures flags != [] ==> Schedule(b, flags)[|flags| - 1] == Run(b, flags).alarm
    decreases |flags|
  {
    if flags != [] {
      var next := Fire(b, flags[0]).next;
      var rest := Schedule(next, flags[1..]);
      ScheduleIncreasing(next, flags[1..]);
      var ds := Schedule(b, flags);
      assert ds == [next.alarm] + rest;
      forall i | 0 < i < |flags|
        ensures Gap(b.alarm, ds, i) == Gap(next.alarm, rest, i - 1)
      {
      }
    }
  }

  /** While the light is green the intervals alternate strictly: the on
      interval follows a firing that switched the buzzer on, the off
      interval one that switched it off. */
  lemma {:induction false} GreenCadence(b: BuzzerState, n: nat)
    ensures forall i :: 0 <= i < n ==>
      Gap(b.alarm, Schedule(b, Constant(true, n)), i)
        == if b.on == (i % 2 == 1) then BUZZER_GREEN_ON_US else BUZZER_GREEN_OFF_US
    decreases n
  {
    if n > 0 {
      var next := Fire(b, true).next;
      GreenCadence(next, n - 1);
      var ds := Schedule(b, Constant(true, n));
      var rest := Schedule(next, Constant(true, n - 1));
      assert Constant(true, n)[1..] == Constant(true, n - 1);
      assert ds == [next.alarm] + rest;
      forall i | 0 < i < n
        ensures Gap(b.alarm, ds, i) == Gap(next.alarm, rest, i - 1)
      {
      }
    }
  }

  /** While the light is not green every interval is BUZZER_RED_US,
      whatever the buzzer's state: the k-th deadline is k intervals on. */
  lemma {:induction false} RedCadence(b: BuzzerState, n: nat)
    ensures forall i :: 0 <= i < n ==>
      Schedule(b, Constant(false, n))[i] == b.alarm + BUZZER_RED_US * (i + 1)
    decreases n
  {
    if n > 0 {
      var next := Fire(b, false).next;
      RedCadence(next, n - 1);
      assert Constant(false, n)[1..] == Constant(false, n - 1);
    }
  }

  /** Two firings while green advance the deadline by 2 s in total and
      restore the buzzer's state. */
  lemma TwoGreenFirings(b: BuzzerState)
    ensures Run(b, [true, true]) == BuzzerState(b.on, b.alarm + 2000000)
  {
    var first := Fire(b, true).next;
    assert [true, true][1..] == [true];
    assert Run(b, [true, true]) == Run(first, [true]);
  }

  /** Two firings while not green advance the deadline by 0.5 s in total and
      restore the buzzer's state. */
  lemma TwoRedFirings(b: BuzzerState)
    ensures Run(b, [false, false]) == BuzzerState(b.on, b.alarm + 500000)
  {
    var first := Fire(b, false).next;
    assert [false, false][1..] == [false];
    assert Run(b, [false, false]) == Run(first, [false]);
  }

  /** The tone call made by the i-th firing counted from boot. */
  function ToneAt(i: nat): ToneAction {
    if i % 2 == 0 then StartTone(BUZZER_FREQ) else StopTone
  }

  /** The buzzer timer and the globals that `onBuzzerTimer` rewrites. */
  class BuzzerTimer {
    var isBuzzerOn: bool
    /** The timer's alarm register, read and written by `timerAlarmRead`/`timerAlarmWrite`. */
    var alarm: nat
    /** Every tone call made so far, in order. */
    ghost var tones: seq<ToneAction>
    /** The alarm value at boot followed by every deadline written since. */
    ghost var deadlines: seq<nat>

    /** The tone calls alternate, starting with a `tone`, so the buzzer is on
        exactly after an odd number of firings; each firing wrote the next,
        strictly later, deadline. */
    ghost predicate Valid()
      reads this
    {
      && |deadlines| == |tones| + 1
      && deadlines[|tones|] == alarm
      && (isBuzzerOn <==> |tones| % 2 == 1)
      && (forall i :: 0 <= i < |tones| ==> tones[i] == ToneAt(i))
      && (forall i :: 0 <= i < |tones| ==> deadlines[i] < deadlines[i + 1])
    }

    function State(): BuzzerState
      reads this
    {
      BuzzerState(isBuzzerOn, alarm)
    }

    /** The boot state: `isBuzzerOn` is false and the alarm register is zero. */
    constructor ()
      ensures Valid()
      ensures State() == BuzzerState(false, 0)
      ensures tones == [] && deadlines == [0]
    {
      isBuzzerOn := false;
      alarm := 0;
      tones := [];
      deadlines := [0];
    }

    /** `onBuzzerTimer`, with `isLightGreen` the value of the shared flag when
        the alarm fires. */
    method OnBuzzerTimer(isLightGreen: bool)
      requires Valid()
      modifies this
      ensures Valid()
      ensures State() == Fire(old(State()), isLightGreen).next
      ensures tones == old(tones) + [Fire(old(State()), isLightGreen).action]
      ensures deadlines == old(deadlines) + [alarm]
    {
      // Flip the buzzer state
      if isBuzzerOn {
        tones := tones + [StopTone];
      } else {
        tones := tones + [StartTone(BUZZER_FREQ)];
      }
      isBuzzerOn := !isBuzzerOn;

      // Determine when the alarm fires next
      var nextDelay := NextDelay(isLightGreen, isBuzzerOn);

      // Schedule the next alarm from the current deadline
      var currentAlarmVal := alarm;
      alarm := currentAlarmVal + nextDelay;
      deadlines := deadlines + [alarm];
    }
  }
}
