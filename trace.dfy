/** The outward actions of the controller's main thread (src/main.cpp) as a
    log of events, and what the three lamps and the shared flag show while
    that log is carried out.

    A `delay(ms)` is a `Sleep(ms)` event: the model keeps no clock; it
    records how long each lamp pattern is held. */
module Trace {
  import Cap1188

  datatype Led = GreenLed | YellowLed | RedLed

  datatype Event =
    | StartBuzzerTimer                         // timerBegin + timerAttachInterrupt
    | WriteLed(led: Led, high: bool)           // digitalWrite on a lamp pin
    | SetLightGreen(green: bool)               // assignment to the shared flag isLightGreen
    | CapBegin(address: bv8)                   // cap.begin(address)
    | CapWrite(write: Cap1188.RegisterWrite)   // cap.writeRegister(address, value)
    | ReadTouched(mask: bv8)                   // cap.touched(), with the mask it returned
    | Sleep(ms: nat)                           // delay(ms)

  /** The three lamp outputs (true is HIGH) and the shared flag. */
  datatype Panel = Panel(green: bool, yellow: bool, red: bool, lightGreen: bool)

  /** The lamp pattern a pedestrian sees. */
  datatype Phase = Dark | Green | Yellow | Red | RedYellow | Mixed

  /** A lamp pattern, the flag's value, and how long both are held. */
  datatype Hold = Hold(phase: Phase, lightGreen: bool, ms: nat)

  function PhaseOf(p: Panel): Phase
  {
    match (p.green, p.yellow, p.red)
    case (false, false, false) => Dark
    case (true, false, false) => Green
    case (false, true, false) => Yellow
    case (false, false, true) => Red
    case (false, true, true) => RedYellow
    case _ => Mixed
  }

  /** The effect of one event on the panel. */
  function Apply(p: Panel, e: Event): Panel
  {
    match e
    case WriteLed(GreenLed, high) => p.(green := high)
    case WriteLed(YellowLed, high) => p.(yellow := high)
    case WriteLed(RedLed, high) => p.(red := high)
    case SetLightGreen(green) => p.(lightGreen := green)
    case _ => p
  }

  function HoldOf(p: Panel, ms: nat): Hold {
    Hold(PhaseOf(p), p.lightGreen, ms)
  }

  /** What carrying out a log shows: the panel at its end, what was held
      during each `Sleep`, and the masks returned by the `touched()` reads,
      each in order. */
  datatype View = View(panel: Panel, holds: seq<Hold>, masks: seq<bv8>)

  /** Nothing carried out yet, from panel `p`. */
  function Start(p: Panel): View {
    View(p, [], [])
  }

  /** The effect of one event: a `Sleep` holds the current panel, a read
      records its mask, a lamp or flag write changes the panel. */
  function Step(v: View, e: Event): View {
    match e
    case Sleep(ms) => v.(holds := v.holds + [HoldOf(v.panel, ms)])
    case ReadTouched(mask) => v.(masks := v.masks + [mask])
    case _ => v.(panel := Apply(v.panel, e))
  }

  /** Carries out the log `t` after what `v` shows. */
  function Perform(v: View, t: seq<Event>): View
    decreases |t|
  {
    if t == [] then v else Step(Perform(v, t[..|t| - 1]), t[|t| - 1])
  }

  /** `n` copies of `x`. */
  function Repeat<T>(x: T, n: nat): (s: seq<T>)
    ensures |s| == n
  {
    if n == 0 then [] else Repeat(x, n - 1) + [x]
  }

  lemma {:induction false} RepeatAll<T>(x: T, n: nat)
    ensures forall i :: 0 <= i < n ==> Repeat(x, n)[i] == x
  {
    if n > 0 {
      RepeatAll(x, n - 1);
      assert forall i :: 0 <= i < n - 1 ==> Repeat(x, n)[i] == Repeat(x, n - 1)[i];
    }
  }

  /** A prefix whose elements are all `x` is a repetition of `x`. */
  lemma {:induction false} RepeatPrefix<T>(s: seq<T>, x: T, n: nat)
    requires n <= |s| && forall i :: 0 <= i < n ==> s[i] == x
    ensures s[..n] == Repeat(x, n)
  {
    if n > 0 {
      RepeatPrefix(s, x, n - 1);
      assert s[..n] == s[..n - 1] + [s[n - 1]];
    }
  }

  lemma {:induction false} PerformAppend(v: View, t: seq<Event>, u: seq<Event>)
    ensures Perform(v, t + u) == Perform(Perform(v, t), u)
    decreases |u|
  {
    if u == [] {
      assert t + u == t;
    } else {
      var u' := u[..|u| - 1];
      assert (t + u)[..|t + u| - 1] == t + u';
      PerformAppend(v, t, u');
    }
  }

  lemma AppendAssoc<T>(a: seq<T>, b: seq<T>, c: seq<T>)
    ensures a + b + c == a + (b + c)
  {
  }

  /** Appending the next element of `s` to a history ending in a prefix of `s`. */
  lemma AppendNext<T>(a: seq<T>, s: seq<T>, k: nat)
    requires k < |s|
    ensures a + s[..k] + [s[k]] == a + s[..k + 1]
  {
    assert s[..k + 1] == s[..k] + [s[k]];
  }

  /** Carrying out a log after some history only extends that history. */
  lemma {:induction false} PerformShift(p: Panel, holds: seq<Hold>, masks: seq<bv8>, t: seq<Event>)
    ensures var w := Perform(Start(p), t);
      Perform(View(p, holds, masks), t) == View(w.panel, holds + w.holds, masks + w.masks)
    decreases |t|
  {
    if t != [] {
      PerformShift(p, holds, masks, t[..|t| - 1]);
    }
  }

  /** One event appended to a log. */
  lemma PerformSnoc(v: View, t: seq<Event>, e: Event)
    ensures Perform(v, t + [e]) == Step(Perform(v, t), e)
  {
    assert (t + [e])[..|t|] == t;
  }
}
