/** The pedestrian-crossing controller of src/main.cpp: `setup`, `doRedCycle`
    and `loop` driving the three lamps and the shared flag `isLightGreen`,
    with the buzzer alarm of module Buzzer.

    The results of `cap.begin` and `cap.touched()` are parameters; lamp
    writes, flag writes, sensor calls and delays are appended to a ghost log
    whose meaning (the lamp pattern and flag held during each delay) is given
    by module Trace. */
module Crossing {
  import Cap1188
  import opened Buzzer
  import opened Trace

  /** I2C address of the CAP1188. */
  const CAP1188_ADDRESS: bv8 := 0x28

  /** The compiled-in sensitivity. */
  const CAP1188_SENSITIVITY: int := 5

  /** Milliseconds of red at the start of a red cycle. */
  const RED_MS: nat := 10000
  /** Milliseconds of red and yellow before green. */
  const RED_YELLOW_MS: nat := 2000
  /** Milliseconds a crossing request is held back while green stays on. */
  const BANK_MS: nat := 5000
  /** Milliseconds of yellow before red. */
  const YELLOW_MS: nat := 2000
  /** Milliseconds between two polls of the touch sensor. */
  const POLL_MS: nat := 50

  /** All lamps LOW and the flag false, as at boot. */
  const POWER_ON: Panel := Panel(false, false, false, false)

  /** Green lamp alone, and the flag true. */
  const GREEN_PANEL: Panel := Panel(true, false, false, true)

  // ---------------------------------------------------------------------
  // The logs of the three routines

  /** `doRedCycle(cap)`: red, red and yellow, green, then one `touched()`
      read whose result is discarded. */
  function RedCycleTrace(stale: bv8): seq<Event> {
    RedHalf() + GreenHalf(stale)
  }

  /** The first half of a red cycle: red, then red and yellow, with the flag false. */
  function RedHalf(): seq<Event> {
    [ WriteLed(YellowLed, false), WriteLed(RedLed, true), SetLightGreen(false),
      Sleep(RED_MS),
      WriteLed(YellowLed, true),
      Sleep(RED_YELLOW_MS) ]
  }

  /** The second half of a red cycle: green alone, the flag true, one drain read. */
  function GreenHalf(stale: bv8): seq<Event> {
    [ WriteLed(RedLed, false), WriteLed(YellowLed, false), WriteLed(GreenLed, true), SetLightGreen(true),
      ReadTouched(stale) ]
  }

  /** Index of the first non-zero `touched()` result, or |polls| when all are zero. */
  function FirstTouch(polls: seq<bv8>): (k: nat)
    ensures k <= |polls|
    ensures forall j :: 0 <= j < k ==> polls[j] == 0
    ensures k < |polls| ==> polls[k] != 0
    decreases |polls|
  {
    if polls == [] then 0
    else if polls[0] != 0 then 0
    else 1 + FirstTouch(polls[1..])
  }

  /** k polls that read no touch, each followed by a 50 ms delay. */
  function Waiting(k: nat): (t: seq<Event>)
    ensures |t| == 2 * k
  {
    if k == 0 then [] else Waiting(k - 1) + [ReadTouched(0), Sleep(POLL_MS)]
  }

  /** `while (cap.touched() == 0) delay(50);` given the successive results of
      `touched()`: it stops right after the first non-zero read. */
  function PollTrace(polls: seq<bv8>): seq<Event> {
    var k := FirstTouch(polls);
    Waiting(k) + (if k < |polls| then [ReadTouched(polls[k])] else [])
  }

  /** The `touched()` results the polling loop consumes: up to and including
      the first touch, or all of them when there is none. */
  function Polled(polls: seq<bv8>): seq<bv8> {
    var k := FirstTouch(polls);
    if k < |polls| then polls[..k + 1] else polls
  }

  /** The rest of `loop` once a touch is seen: hold green 5 s, yellow 2 s,
      then a red cycle. */
  function CrossTrace(stale: bv8): seq<Event> {
    YellowHalf() + RedCycleTrace(stale)
  }

  /** Green held 5 s after the touch, then yellow for 2 s. */
  function YellowHalf(): seq<Event> {
    [Sleep(BANK_MS), WriteLed(GreenLed, false), WriteLed(YellowLed, true), Sleep(YELLOW_MS)]
  }

  /** One call of `loop`. When no result in `polls` is a touch the model stops
      while still polling. */
  function RoundTrace(polls: seq<bv8>, stale: bv8): seq<Event> {
    PollTrace(polls) + (if FirstTouch(polls) < |polls| then CrossTrace(stale) else [])
  }

  /** The register writes of `setCapSensitivity`, as logged events. */
  function SensitivityEvents(writes: seq<Cap1188.RegisterWrite>): seq<Event>
    decreases |writes|
  {
    if writes == [] then [] else [CapWrite(writes[0])] + SensitivityEvents(writes[1..])
  }

  /** `setup()` with the result of `cap.begin` and the sensitivity it configures. */
  function SetupTrace(beginOk: bool, sensitivity: int, stale: bv8): seq<Event> {
    var r := Cap1188.SetCapSensitivity(sensitivity);
    SetupStart()
    + if !beginOk then []
      else SensitivityEvents(r.writes) + (if r.ok then RedCycleTrace(stale) else [])
  }

  /** What `setup` does before configuring the sensitivity. */
  function SetupStart(): seq<Event> {
    [ StartBuzzerTimer,
      WriteLed(GreenLed, false), WriteLed(YellowLed, false), WriteLed(RedLed, false),
      CapBegin(CAP1188_ADDRESS) ]
  }

  /** The register writes in a log. */
  function CapWrites(t: seq<Event>): set<Event> {
    set e | e in t && e.CapWrite?
  }

  /** The inputs of one call of `loop`: its `touched()` results and the one
      drained by the red cycle that ends it. */
  datatype Round = Round(polls: seq<bv8>, stale: bv8)

  /** Successive calls of `loop`. */
  function Session(rounds: seq<Round>): seq<Event>
    decreases |rounds|
  {
    if rounds == [] then []
    else
      var last := rounds[|rounds| - 1];
      Session(rounds[..|rounds| - 1]) + RoundTrace(last.polls, last.stale)
  }

  predicate AllTouched(rounds: seq<Round>) {
    forall i :: 0 <= i < |rounds| ==> FirstTouch(rounds[i].polls) < |rounds[i].polls|
  }

  // ---------------------------------------------------------------------
  // The phase cycle

  /** The next lamp pattern of the cycle. */
  function Succ(phase: Phase): Phase {
    match phase
    case Green => Yellow
    case Yellow => Red
    case Red => RedYellow
    case RedYellow => Green
    case _ => phase
  }

  /** The four patterns of the cycle. */
  predicate InCycle(phase: Phase) {
    phase == Green || phase == Yellow || phase == Red || phase == RedYellow
  }

  /** `b` may be shown right after `a`: the next pattern of the cycle, or
      green again while waiting. */
  predicate Follows(a: Phase, b: Phase) {
    InCycle(a) && (b == Succ(a) || (a == Green && b == Green))
  }

  /** No pattern of the cycle is skipped, and only green is repeated. */
  predicate Cyclic(hs: seq<Hold>) {
    forall i :: 0 <= i < |hs| - 1 ==> Follows(hs[i].phase, hs[i + 1].phase)
  }

  /** The flag and duration each pattern is held with. */
  predicate Timed(h: Hold) {
    match h.phase
    case Green => h.lightGreen && (h.ms == POLL_MS || h.ms == BANK_MS)
    case Yellow => h.lightGreen && h.ms == YELLOW_MS
    case Red => !h.lightGreen && h.ms == RED_MS
    case RedYellow => !h.lightGreen && h.ms == RED_YELLOW_MS
    case _ => false
  }

  /** What a red cycle shows. */
  const RED_CYCLE_HOLDS: seq<Hold> :=
    [Hold(Red, false, RED_MS), Hold(RedYellow, false, RED_YELLOW_MS)]

  /** What the rest of `loop` shows after a touch. */
  const CROSS_HOLDS: seq<Hold> :=
    [Hold(Green, true, BANK_MS), Hold(Yellow, true, YELLOW_MS)] + RED_CYCLE_HOLDS

  /** k polls shown while green. */
  function GreenWaits(k: nat): seq<Hold> {
    Repeat(Hold(Green, true, POLL_MS), k)
  }

  // ---------------------------------------------------------------------
  // Lemmas about the logs

  lemma RedHalfShows(v: View)
    ensures Perform(v, RedHalf()) == View(Panel(v.panel.green, true, true, false),
        v.holds + [HoldOf(Panel(v.panel.green, false, true, false), RED_MS)] + [HoldOf(Panel(v.panel.green, true, true, false), RED_YELLOW_MS)],
        v.masks)
  {
    var red := Panel(v.panel.green, false, true, false);
    var redYellow := Panel(v.panel.green, true, true, false);
    var t0: seq<Event> := [];
    var t1 := t0 + [WriteLed(YellowLed, false)];
    PerformSnoc(v, t0, WriteLed(YellowLed, false));
    var t2 := t1 + [WriteLed(RedLed, true)];
    PerformSnoc(v, t1, WriteLed(RedLed, true));
    var t3 := t2 + [SetLightGreen(false)];
    PerformSnoc(v, t2, SetLightGreen(false));
    assert Perform(v, t3) == v.(panel := red);
    var t4 := t3 + [Sleep(RED_MS)];
    PerformSnoc(v, t3, Sleep(RED_MS));
    var w4 := View(red, v.holds + [HoldOf(red, RED_MS)], v.masks);
    assert Perform(v, t4) == w4;
    var t5 := t4 + [WriteLed(YellowLed, true)];
    PerformSnoc(v, t4, WriteLed(YellowLed, true));
    assert Perform(v, t5) == w4.(panel := redYellow);
    var t6 := t5 + [Sleep(RED_YELLOW_MS)];
    PerformSnoc(v, t5, Sleep(RED_YELLOW_MS));
    assert t6 == RedHalf();
  }

  lemma GreenHalfShows(v: View, stale: bv8)
    ensures Perform(v, GreenHalf(stale)) == View(GREEN_PANEL, v.holds, v.masks + [stale])
    ensures Perform(v, GreenHalf(stale)[..4]).panel == GREEN_PANEL
  {
    var t0: seq<Event> := [];
    var t1 := t0 + [WriteLed(RedLed, false)];
    PerformSnoc(v, t0, WriteLed(RedLed, false));
    var t2 := t1 + [WriteLed(YellowLed, false)];
    PerformSnoc(v, t1, WriteLed(YellowLed, false));
    var t3 := t2 + [WriteLed(GreenLed, true)];
    PerformSnoc(v, t2, WriteLed(GreenLed, true));
    var t4 := t3 + [SetLightGreen(true)];
    PerformSnoc(v, t3, SetLightGreen(true));
    var t5 := t4 + [ReadTouched(stale)];
    PerformSnoc(v, t4, ReadTouched(stale));
    assert t5 == GreenHalf(stale);
    assert t4 == GreenHalf(stale)[..4];
  }

  /** Whatever the lamps showed before, a red cycle shows red, then red and
      yellow, with the flag false, and ends with green alone and the flag
      true; its only `touched()` read comes after that transition, as the
      last action. */
  lemma RedCycleEndsGreen(v: View, stale: bv8)
    ensures Perform(v, RedCycleTrace(stale)) == View(GREEN_PANEL,
        v.holds + [HoldOf(Panel(v.panel.green, false, true, false), RED_MS)] + [HoldOf(Panel(v.panel.green, true, true, false), RED_YELLOW_MS)],
        v.masks + [stale])
    ensures RedCycleTrace(stale)[|RedCycleTrace(stale)| - 1] == ReadTouched(stale)
    ensures Perform(v, RedCycleTrace(stale)[..|RedCycleTrace(stale)| - 1]).panel == GREEN_PANEL
  {
    var t, red, green := RedCycleTrace(stale), RedHalf(), GreenHalf(stale);
    RedHalfShows(v);
    GreenHalfShows(Perform(v, red), stale);
    PerformAppend(v, red, green);
    assert t[..|t| - 1] == red + green[..4];
    PerformAppend(v, red, green[..4]);
  }

  /** Entered with the green lamp off, as both callers do, a red cycle shows
      red for 10 s and red and yellow for 2 s, with the flag false in both. */
  lemma RedCyclePhases(v: View, stale: bv8)
    requires !v.panel.green
    ensures Perform(v, RedCycleTrace(stale)).holds == v.holds + RED_CYCLE_HOLDS
  {
    RedCycleEndsGreen(v, stale);
    var red, redYellow := HoldOf(Panel(false, false, true, false), RED_MS), HoldOf(Panel(false, true, true, false), RED_YELLOW_MS);
    assert [red] + [redYellow] == RED_CYCLE_HOLDS;
    AppendAssoc(v.holds, [red], [redYellow]);
  }

  /** Polls that see no touch change nothing on the panel; each is shown as
      one 50 ms hold of the current pattern and reads a zero mask. */
  lemma {:induction false} WaitingShows(v: View, k: nat)
    ensures Perform(v, Waiting(k)) ==
      View(v.panel, v.holds + Repeat(HoldOf(v.panel, POLL_MS), k), v.masks + Repeat(0 as bv8, k))
  {
    if k > 0 {
      WaitingShows(v, k - 1);
      var w := Waiting(k - 1);
      PerformSnoc(v, w, ReadTouched(0));
      PerformSnoc(v, w + [ReadTouched(0)], Sleep(POLL_MS));
      assert Waiting(k) == w + [ReadTouched(0)] + [Sleep(POLL_MS)];
      var h := HoldOf(v.panel, POLL_MS);
      assert v.holds + Repeat(h, k - 1) + [h] == v.holds + Repeat(h, k);
      assert v.masks + Repeat(0 as bv8, k - 1) + [0] == v.masks + Repeat(0 as bv8, k);
    }
  }

  /** The polls of `loop` read exactly the results up to and including the
      first touch (all of them if there is none) and leave the panel as it
      was, holding it 50 ms per poll that saw no touch. */
  lemma PollShows(v: View, polls: seq<bv8>)
    ensures Perform(v, PollTrace(polls)) ==
      View(v.panel, v.holds + Repeat(HoldOf(v.panel, POLL_MS), FirstTouch(polls)), v.masks + Polled(polls))
  {
    var k := FirstTouch(polls);
    var h := HoldOf(v.panel, POLL_MS);
    var w := View(v.panel, v.holds + Repeat(h, k), v.masks + Repeat(0 as bv8, k));
    WaitingShows(v, k);
    RepeatPrefix(polls, 0, k);
    if k < |polls| {
      var t := Waiting(k) + [ReadTouched(polls[k])];
      assert PollTrace(polls) == t;
      PerformSnoc(v, Waiting(k), ReadTouched(polls[k]));
      AppendNext(v.masks, polls, k);
      assert Perform(v, t) == View(v.panel, v.holds + Repeat(h, k), v.masks + polls[..k + 1]);
    } else {
      assert PollTrace(polls) == Waiting(k);
      assert polls[..k] == polls;
    }
  }

  /** Green held 5 s after the touch, then yellow with the flag unchanged. */
  lemma YellowHalfShows(v: View)
    ensures Perform(v, YellowHalf()) == View(Panel(false, true, v.panel.red, v.panel.lightGreen),
      v.holds + [HoldOf(v.panel, BANK_MS)] + [HoldOf(Panel(false, true, v.panel.red, v.panel.lightGreen), YELLOW_MS)], v.masks)
  {
    var yellow := Panel(false, true, v.panel.red, v.panel.lightGreen);
    var t0: seq<Event> := [];
    var t1 := t0 + [Sleep(BANK_MS)];
    PerformSnoc(v, t0, Sleep(BANK_MS));
    var w1 := v.(holds := v.holds + [HoldOf(v.panel, BANK_MS)]);
    assert Perform(v, t1) == w1;
    var t2 := t1 + [WriteLed(GreenLed, false)];
    PerformSnoc(v, t1, WriteLed(GreenLed, false));
    var t3 := t2 + [WriteLed(YellowLed, true)];
    PerformSnoc(v, t2, WriteLed(YellowLed, true));
    assert Perform(v, t3) == w1.(panel := yellow);
    var t4 := t3 + [Sleep(YELLOW_MS)];
    PerformSnoc(v, t3, Sleep(YELLOW_MS));
    assert t4 == YellowHalf();
  }

  /** Whatever the panel showed, a call of `loop` that sees a touch ends in
      green with the flag true; it reads the polls up to the touch and then
      one stale mask. It holds the current pattern for the polls and the 5 s
      bank, yellow for 2 s with the flag unchanged, then a red cycle. */
  lemma RoundShows(v: View, polls: seq<bv8>, stale: bv8)
    requires FirstTouch(polls) < |polls|
    ensures Perform(v, RoundTrace(polls, stale)) == View(GREEN_PANEL,
      v.holds + Repeat(HoldOf(v.panel, POLL_MS), FirstTouch(polls))
        + [HoldOf(v.panel, BANK_MS)] + [HoldOf(Panel(false, true, v.panel.red, v.panel.lightGreen), YELLOW_MS)]
        + [HoldOf(Panel(false, false, true, false), RED_MS)] + [HoldOf(Panel(false, true, true, false), RED_YELLOW_MS)],
      v.masks + polls[..FirstTouch(polls) + 1] + [stale])
  {
    var poll, yellow, red := PollTrace(polls), YellowHalf(), RedCycleTrace(stale);
    assert RoundTrace(polls, stale) == poll + yellow + red;
    PollShows(v, polls);
    var v1 := Perform(v, poll);
    YellowHalfShows(v1);
    var v2 := Perform(v1, yellow);
    RedCycleEndsGreen(v2, stale);
    PerformAppend(v, poll, yellow);
    PerformAppend(v, poll + yellow, red);
  }

  /** A call of `loop` that sees a touch, entered in green: green for the
      polls and its 5 s bank, yellow for 2 s with the flag still true, then a
      red cycle back to green. */
  lemma RoundPhases(v: View, polls: seq<bv8>, stale: bv8)
    requires FirstTouch(polls) < |polls| && v.panel == GREEN_PANEL
    ensures Perform(v, RoundTrace(polls, stale)) == View(GREEN_PANEL,
      v.holds + (GreenWaits(FirstTouch(polls)) + CROSS_HOLDS), v.masks + polls[..FirstTouch(polls) + 1] + [stale])
  {
    RoundShows(v, polls, stale);
    var k := FirstTouch(polls);
    var waits := GreenWaits(k);
    assert HoldOf(GREEN_PANEL, POLL_MS) == Hold(Green, true, POLL_MS);
    var g, y, r, ry := CROSS_HOLDS[0], CROSS_HOLDS[1], CROSS_HOLDS[2], CROSS_HOLDS[3];
    assert [g] + [y] + [r] + [ry] == CROSS_HOLDS;
    assert v.holds + waits + [g] + [y] + [r] + [ry] == v.holds + waits + CROSS_HOLDS by {
      AppendAssoc(v.holds + waits, [g], [y]);
      AppendAssoc(v.holds + waits, [g] + [y], [r]);
      AppendAssoc(v.holds + waits, [g] + [y] + [r], [ry]);
    }
    AppendAssoc(v.holds, waits, CROSS_HOLDS);
  }

  /** A call of `loop` whose polls see no touch keeps polling: the panel is
      unchanged and every result is read. */
  lemma RoundKeepsWaiting(v: View, polls: seq<bv8>, stale: bv8)
    requires FirstTouch(polls) == |polls|
    ensures Perform(v, RoundTrace(polls, stale)) ==
      View(v.panel, v.holds + Repeat(HoldOf(v.panel, POLL_MS), |polls|), v.masks + polls)
  {
    PollShows(v, polls);
    assert RoundTrace(polls, stale) == PollTrace(polls);
  }

  /** The register writes of `setup`: exactly one, to the sensitivity control
      register with the encoded value, when the sensor starts and the
      sensitivity is in range; none otherwise. */
  lemma SetupRegisterWrites(beginOk: bool, sensitivity: int, stale: bv8)
    ensures beginOk && 0 <= sensitivity <= Cap1188.MAX_SENSITIVITY ==>
      CapWrites(SetupTrace(beginOk, sensitivity, stale))
        == {CapWrite(Cap1188.RegisterWrite(Cap1188.SENSITIVITY_CONTROL_REGISTER, Cap1188.EncodeSensitivity(sensitivity)))}
    ensures !(beginOk && 0 <= sensitivity <= Cap1188.MAX_SENSITIVITY) ==>
      CapWrites(SetupTrace(beginOk, sensitivity, stale)) == {}
  {
    var r := Cap1188.SetCapSensitivity(sensitivity);
    var t := SetupTrace(beginOk, sensitivity, stale);
    var start := SetupStart();
    assert forall e :: e in start ==> !e.CapWrite?;
    if beginOk && r.ok {
      var w := CapWrite(r.writes[0]);
      var red := RedCycleTrace(stale);
      assert SensitivityEvents(r.writes) == [w];
      assert t == start + [w] + red;
      assert forall e :: e in red ==> !e.CapWrite?;
    } else if beginOk {
      assert SensitivityEvents(r.writes) == [];
      assert t == start;
    } else {
      assert t == start;
    }
  }

  /** `setup` before the sensitivity: all three lamps LOW, nothing held or read. */
  lemma SetupStartShows(v: View)
    ensures Perform(v, SetupStart()) == v.(panel := v.panel.(green := false, yellow := false, red := false))
  {
    var t0: seq<Event> := [];
    var t1 := t0 + [StartBuzzerTimer];
    PerformSnoc(v, t0, StartBuzzerTimer);
    var t2 := t1 + [WriteLed(GreenLed, false)];
    PerformSnoc(v, t1, WriteLed(GreenLed, false));
    var t3 := t2 + [WriteLed(YellowLed, false)];
    PerformSnoc(v, t2, WriteLed(YellowLed, false));
    var t4 := t3 + [WriteLed(RedLed, false)];
    PerformSnoc(v, t3, WriteLed(RedLed, false));
    var t5 := t4 + [CapBegin(CAP1188_ADDRESS)];
    PerformSnoc(v, t4, CapBegin(CAP1188_ADDRESS));
    assert t5 == SetupStart();
  }

  /** A failed `setup` stops before any delay with every lamp LOW and the flag
      false; a successful one shows red for 10 s, red and yellow for 2 s, and
      ends in green after one drain read. */
  lemma SetupShows(beginOk: bool, sensitivity: int, stale: bv8)
    ensures beginOk && 0 <= sensitivity <= Cap1188.MAX_SENSITIVITY ==>
      Perform(Start(POWER_ON), SetupTrace(beginOk, sensitivity, stale)) == View(GREEN_PANEL, RED_CYCLE_HOLDS, [stale])
    ensures !(beginOk && 0 <= sensitivity <= Cap1188.MAX_SENSITIVITY) ==>
      Perform(Start(POWER_ON), SetupTrace(beginOk, sensitivity, stale)) == Start(POWER_ON)
  {
    var r := Cap1188.SetCapSensitivity(sensitivity);
    var start := SetupStart();
    SetupStartShows(Start(POWER_ON));
    if beginOk && r.ok {
      var w := CapWrite(r.writes[0]);
      assert SensitivityEvents(r.writes) == [w];
      assert SetupTrace(beginOk, sensitivity, stale) == start + [w] + RedCycleTrace(stale);
      PerformSnoc(Start(POWER_ON), start, w);
      PerformAppend(Start(POWER_ON), start + [w], RedCycleTrace(stale));
      RedCycleEndsGreen(Start(POWER_ON), stale);
    } else if beginOk {
      assert SensitivityEvents(r.writes) == [];
      assert SetupTrace(beginOk, sensitivity, stale) == start;
    } else {
      assert SetupTrace(beginOk, sensitivity, stale) == start;
    }
  }

  /** The compiled-in sensitivity is in range and written as 0x50. */
  lemma CompiledSensitivityAccepted()
    ensures Cap1188.SetCapSensitivity(CAP1188_SENSITIVITY).ok
    ensures Cap1188.SetCapSensitivity(CAP1188_SENSITIVITY).writes
      == [Cap1188.RegisterWrite(Cap1188.SENSITIVITY_CONTROL_REGISTER, 0x50)]
  {
  }

  lemma CyclicAppend(a: seq<Hold>, b: seq<Hold>)
    requires Cyclic(a) && Cyclic(b)
    requires a != [] && b != [] ==> Follows(a[|a| - 1].phase, b[0].phase)
    ensures Cyclic(a + b)
  {
    var ab := a + b;
    forall i | 0 <= i < |ab| - 1
      ensures Follows(ab[i].phase, ab[i + 1].phase)
    {
      if i + 1 < |a| {
        assert ab[i] == a[i] && ab[i + 1] == a[i + 1];
      } else if i + 1 == |a| {
        assert ab[i] == a[|a| - 1] && ab[i + 1] == b[0];
      } else {
        assert ab[i] == b[i - |a|] && ab[i + 1] == b[i - |a| + 1];
      }
    }
  }

  /** The holds of one call of `loop` that sees a touch follow the cycle from
      green to red and yellow, each with its flag and duration. */
  lemma RoundHoldsCyclic(k: nat)
    ensures Cyclic(GreenWaits(k) + CROSS_HOLDS)
    ensures forall h :: h in GreenWaits(k) + CROSS_HOLDS ==> Timed(h)
  {
    RepeatAll(Hold(Green, true, POLL_MS), k);
    CyclicAppend(GreenWaits(k), CROSS_HOLDS);
  }

  /** What successive calls of `loop` show, started in green. */
  function SessionView(rounds: seq<Round>): View {
    Perform(Start(GREEN_PANEL), Session(rounds))
  }

  /** Successive calls of `loop` that each see a touch, started in green,
      follow the cycle, end in green, and show each pattern with its flag
      and duration. */
  lemma {:induction false} SessionCycles(rounds: seq<Round>)
    requires AllTouched(rounds)
    ensures SessionView(rounds).panel == GREEN_PANEL
    ensures Cyclic(SessionView(rounds).holds)
    ensures forall h :: h in SessionView(rounds).holds ==> Timed(h)
    ensures rounds != [] ==> |SessionView(rounds).holds| > 0
    ensures rounds != [] ==> SessionView(rounds).holds[0].phase == Green
    ensures rounds != [] ==> SessionView(rounds).holds[|SessionView(rounds).holds| - 1].phase == RedYellow
    decreases |rounds|
  {
    if rounds != [] {
      var init := rounds[..|rounds| - 1];
      var last := rounds[|rounds| - 1];
      assert AllTouched(init) by {
        forall i | 0 <= i < |init| ensures FirstTouch(init[i].polls) < |init[i].polls| {
          assert init[i] == rounds[i];
        }
      }
      SessionCycles(init);
      var before := Session(init);
      var round := RoundTrace(last.polls, last.stale);
      assert Session(rounds) == before + round;
      var w0 := SessionView(init);
      PerformAppend(Start(GREEN_PANEL), before, round);
      RoundPhases(w0, last.polls, last.stale);
      var k := FirstTouch(last.polls);
      RoundHoldsCyclic(k);
      RepeatAll(Hold(Green, true, POLL_MS), k);
      var hs1 := GreenWaits(k) + CROSS_HOLDS;
      assert hs1[0].phase == Green;
      assert hs1[|hs1| - 1] == CROSS_HOLDS[|CROSS_HOLDS| - 1];
      CyclicAppend(w0.holds, hs1);
      assert SessionView(rounds).holds == w0.holds + hs1;
    }
  }

  /** What is held from boot through a successful `setup` and successive calls of `loop`. */
  function BootHolds(sensitivity: int, stale: bv8, rounds: seq<Round>): seq<Hold> {
    Perform(Start(POWER_ON), SetupTrace(true, sensitivity, stale) + Session(rounds)).holds
  }

  /** From boot, a successful `setup` followed by calls of `loop` that each
      see a touch shows red, red and yellow, green, yellow, red, ... with no
      pattern skipped and only green repeated; the flag is true exactly in
      the green and yellow patterns, and each pattern lasts its fixed time. */
  lemma PhaseOrderFromBoot(sensitivity: int, stale: bv8, rounds: seq<Round>)
    requires 0 <= sensitivity <= Cap1188.MAX_SENSITIVITY
    requires AllTouched(rounds)
    ensures |BootHolds(sensitivity, stale, rounds)| >= 2
    ensures BootHolds(sensitivity, stale, rounds)[..2] == RED_CYCLE_HOLDS
    ensures Cyclic(BootHolds(sensitivity, stale, rounds))
    ensures forall h :: h in BootHolds(sensitivity, stale, rounds) ==> Timed(h)
    ensures forall h :: h in BootHolds(sensitivity, stale, rounds) ==>
      (h.lightGreen <==> h.phase == Green || h.phase == Yellow)
  {
    var boot := SetupTrace(true, sensitivity, stale);
    SetupShows(true, sensitivity, stale);
    SessionCycles(rounds);
    PerformAppend(Start(POWER_ON), boot, Session(rounds));
    PerformShift(GREEN_PANEL, RED_CYCLE_HOLDS, [stale], Session(rounds));
    var later := SessionView(rounds).holds;
    assert Cyclic(RED_CYCLE_HOLDS);
    CyclicAppend(RED_CYCLE_HOLDS, later);
    var hs := RED_CYCLE_HOLDS + later;
    assert BootHolds(sensitivity, stale, rounds) == hs;
    assert hs[..2] == RED_CYCLE_HOLDS;
  }

  /** A buzzer firing during any hold since boot reads the flag that hold
      shows, so it uses the green intervals exactly in the green and yellow
      patterns, and 250000 µs exactly in red and red-yellow. */
  lemma CadenceFromBoot(sensitivity: int, stale: bv8, rounds: seq<Round>, i: nat, on: bool)
    requires 0 <= sensitivity <= Cap1188.MAX_SENSITIVITY
    requires AllTouched(rounds)
    requires i < |BootHolds(sensitivity, stale, rounds)|
    ensures NextDelay(BootHolds(sensitivity, stale, rounds)[i].lightGreen, on) == BUZZER_RED_US
      <==> BootHolds(sensitivity, stale, rounds)[i].phase in {Red, RedYellow}
    ensures BootHolds(sensitivity, stale, rounds)[i].phase in {Green, Yellow} ==>
      NextDelay(BootHolds(sensitivity, stale, rounds)[i].lightGreen, on)
        == if on then BUZZER_GREEN_ON_US else BUZZER_GREEN_OFF_US
  {
    var hs := BootHolds(sensitivity, stale, rounds);
    PhaseOrderFromBoot(sensitivity, stale, rounds);
    assert hs[i] in hs;
  }

  // ---------------------------------------------------------------------
  // The controller's state

  /** The globals of src/main.cpp: the three lamp outputs, the shared flag,
      the buzzer timer, and whether `setup` halted. */
  class Controller {
    const buzzer: BuzzerTimer
    var isLightGreen: bool
    var greenLed: bool
    var yellowLed: bool
    var redLed: bool
    var halted: bool
    /** Every outward action of the main thread since boot. */
    ghost var trace: seq<Event>

    /** The lamps and the flag are what the logged writes produced. */
    ghost predicate Valid()
      reads this, buzzer
    {
      buzzer.Valid() && Outputs() == Perform(Start(POWER_ON), trace).panel
    }

    function Outputs(): Panel
      reads this
    {
      Panel(greenLed, yellowLed, redLed, isLightGreen)
    }

    /** The state at boot, before `setup` runs. */
    constructor ()
      ensures Valid() && fresh(buzzer)
      ensures trace == [] && !halted
      ensures buzzer.State() == BuzzerState(false, 0) && buzzer.tones == []
    {
      buzzer := new BuzzerTimer();
      isLightGreen := false;
      greenLed, yellowLed, redLed := false, false, false;
      halted := false;
      trace := [];
    }

    /** Logs an action that leaves the lamps and the flag alone. */
    method Record(e: Event)
      requires !e.WriteLed? && !e.SetLightGreen?
      modifies this
      ensures trace == old(trace) + [e]
      ensures Outputs() == old(Outputs()) && halted == old(halted)
    {
      trace := trace + [e];
    }

    /** `digitalWrite` on one lamp pin. */
    method DigitalWrite(led: Led, high: bool)
      modifies this
      ensures trace == old(trace) + [WriteLed(led, high)]
      ensures Outputs() == Apply(old(Outputs()), WriteLed(led, high))
      ensures halted == old(halted)
    {
      match led {
        case GreenLed => greenLed := high;
        case YellowLed => yellowLed := high;
        case RedLed => redLed := high;
      }
      trace := trace + [WriteLed(led, high)];
    }

    /** An assignment to `isLightGreen`. */
    method SetFlag(green: bool)
      modifies this
      ensures trace == old(trace) + [SetLightGreen(green)]
      ensures Outputs() == old(Outputs()).(lightGreen := green)
      ensures halted == old(halted)
    {
      isLightGreen := green;
      trace := trace + [SetLightGreen(green)];
    }

    /** `delay(ms)`. */
    method Delay(ms: nat)
      modifies this
      ensures trace == old(trace) + [Sleep(ms)]
      ensures Outputs() == old(Outputs()) && halted == old(halted)
    {
      Record(Sleep(ms));
    }

    /** The buzzer alarm fires: `onBuzzerTimer` reads the flag as it is now. */
    method BuzzerAlarm()
      requires Valid()
      modifies buzzer
      ensures Valid()
      ensures buzzer.State() == Fire(old(buzzer.State()), isLightGreen).next
      ensures buzzer.tones == old(buzzer.tones) + [Fire(old(buzzer.State()), isLightGreen).action]
    {
      buzzer.OnBuzzerTimer(isLightGreen);
    }

    /** `doRedCycle`; `stale` is the result of its final `touched()` call. */
    method DoRedCycle(stale: bv8)
      requires Valid()
      modifies this
      ensures Valid()
      ensures trace == old(trace) + RedCycleTrace(stale)
      ensures Outputs() == GREEN_PANEL
      ensures halted == old(halted)
    {
      ghost var before := trace;

      // Switch to red
      DigitalWrite(YellowLed, false);
      DigitalWrite(RedLed, true);
      SetFlag(false);
      Delay(RED_MS);

      // Red and yellow
      DigitalWrite(YellowLed, true);
      Delay(RED_YELLOW_MS);
      assert trace == before + RedHalf();

      // Back to green
      DigitalWrite(RedLed, false);
      DigitalWrite(YellowLed, false);
      DigitalWrite(GreenLed, true);
      SetFlag(true);

      // Drain one touch reading
      Record(ReadTouched(stale));

      assert trace == before + RedHalf() + GreenHalf(stale);
      assert Outputs() == GREEN_PANEL;
      AppendAssoc(before, RedHalf(), GreenHalf(stale));
      PerformAppend(Start(POWER_ON), before, RedCycleTrace(stale));
      RedCycleEndsGreen(Perform(Start(POWER_ON), before), stale);
    }

    /** `setup()`, given whether `cap.begin` succeeds, the sensitivity it
        configures (CAP1188_SENSITIVITY in the program) and the result of the
        red cycle's drain read. A failure leaves the controller halted. */
    method Setup(beginOk: bool, sensitivity: int, stale: bv8)
      requires Valid() && trace == [] && !halted
      requires !buzzer.isBuzzerOn
      modifies this, buzzer
      ensures Valid()
      ensures trace == SetupTrace(beginOk, sensitivity, stale)
      ensures halted <==> !beginOk || !(0 <= sensitivity <= Cap1188.MAX_SENSITIVITY)
      ensures halted ==> Outputs() == POWER_ON
      ensures !halted ==> Outputs() == GREEN_PANEL
      ensures buzzer.State() == BuzzerState(true, old(buzzer.alarm) + BUZZER_RED_US)
      ensures buzzer.tones == old(buzzer.tones) + [StartTone(BUZZER_FREQ)]
    {
      // Arm the buzzer timer and seed the pattern with one firing
      Record(StartBuzzerTimer);
      BuzzerAlarm();

      // Default lamp states
      DigitalWrite(GreenLed, false);
      DigitalWrite(YellowLed, false);
      DigitalWrite(RedLed, false);

      // Initialize capacitive touch
      Record(CapBegin(CAP1188_ADDRESS));
      assert trace == SetupStart();
      SetupStartShows(Start(POWER_ON));
      if !beginOk {
        halted := true;
        return;
      }

      // Set capacitive touch sensitivity
      var r := Cap1188.SetCapSensitivity(sensitivity);
      if !r.ok {
        assert SensitivityEvents(r.writes) == [];
        assert SetupTrace(beginOk, sensitivity, stale) == SetupStart() + [];
        halted := true;
        return;
      }
      var w := CapWrite(r.writes[0]);
      Record(w);
      assert SensitivityEvents(r.writes) == [w];
      PerformSnoc(Start(POWER_ON), SetupStart(), w);

      // Do the initial red cycle
      DoRedCycle(stale);
      AppendAssoc(SetupStart(), [w], RedCycleTrace(stale));
    }

    /** One call of `loop()`: poll until a touch, hold green 5 s, yellow 2 s,
        then a red cycle. `polls` are the successive results of `touched()`;
        when none of them is a touch the call returns still polling. */
    method Loop(polls: seq<bv8>, stale: bv8) returns (advanced: bool)
      requires Valid() && !halted
      modifies this
      ensures Valid() && !halted
      ensures advanced <==> exists j :: 0 <= j < |polls| && polls[j] != 0
      ensures trace == old(trace) + RoundTrace(polls, stale)
      ensures advanced ==> Outputs() == GREEN_PANEL
      ensures !advanced ==> Outputs() == old(Outputs())
    {
      ghost var before := trace;
      var k := 0;
      var touched := false;
      while !touched && k < |polls|
        invariant 0 <= k <= |polls|
        invariant !halted && Outputs() == old(Outputs())
        invariant !touched ==> k <= FirstTouch(polls) && trace == before + Waiting(k)
        invariant touched ==> FirstTouch(polls) < |polls| && trace == before + PollTrace(polls)
        decreases |polls| - k, !touched
      {
        var raw := polls[k];
        Record(ReadTouched(raw));
        if raw == 0 {
          Delay(POLL_MS);
          k := k + 1;
        } else {
          touched := true;
          assert k == FirstTouch(polls);
        }
      }
      advanced := touched;
      ghost var v0 := Perform(Start(POWER_ON), before);
      if !advanced {
        assert FirstTouch(polls) == |polls|;
        assert RoundTrace(polls, stale) == Waiting(|polls|);
        PerformAppend(Start(POWER_ON), before, RoundTrace(polls, stale));
        RoundKeepsWaiting(v0, polls, stale);
        return;
      }

      // Wait 5 seconds, then switch to yellow for 2 seconds
      Delay(BANK_MS);
      DigitalWrite(GreenLed, false);
      DigitalWrite(YellowLed, true);
      Delay(YELLOW_MS);
      assert trace == before + PollTrace(polls) + YellowHalf();
      ghost var mid := trace;
      assert Valid() by {
        PerformAppend(Start(POWER_ON), before, PollTrace(polls));
        PollShows(v0, polls);
        PerformAppend(Start(POWER_ON), before + PollTrace(polls), YellowHalf());
        YellowHalfShows(Perform(v0, PollTrace(polls)));
      }

      DoRedCycle(stale);
      assert trace == before + RoundTrace(polls, stale) by {
        assert RoundTrace(polls, stale) == PollTrace(polls) + (YellowHalf() + RedCycleTrace(stale));
        AppendAssoc(PollTrace(polls), YellowHalf(), RedCycleTrace(stale));
        AppendAssoc(before, PollTrace(polls) + YellowHalf(), RedCycleTrace(stale));
        AppendAssoc(before, PollTrace(polls), YellowHalf());
        AppendAssoc(before, PollTrace(polls), YellowHalf() + RedCycleTrace(stale));
      }
    }
  }
}
