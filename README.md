# Pedestrian-crossing controller

A model of the firmware of a pedestrian-crossing traffic light. The
firmware drives three lamps (green, yellow, red) through a fixed cycle. A
CAP1188 capacitive sensor lets a pedestrian request a crossing. A buzzer
chirps slowly while the light is green and fast otherwise.

The project has four modules:

- `Cap1188` (cap1188.dfy) models the two sensor helpers.
  - `setCapSensitivity` is a validating encoder. It returns its single
    register write as a value.
  - `getNumTouched` is a counting loop over the byte that `touched()`
    returned.
- `Buzzer` (buzzer.dfy) models the alarm routine `onBuzzerTimer`.
  - `Fire` is a pure state transition over `isBuzzerOn` and the timer's
    alarm register.
  - `BuzzerTimer` is the class whose fields that routine rewrites. Its
    ghost logs hold the tone calls and the alarm deadlines.
- `Trace` (trace.dfy) gives the meaning of the main thread's outward
  actions.
  - The actions are lamp writes, flag writes, sensor calls and delays.
  - Each is an `Event` in a log. `Perform` folds the log into a `View`: the
    final lamp `Panel`, the pattern and flag held during each delay, and the
    masks read from the sensor.
- `Crossing` (crossing.dfy) models `setup`, `doRedCycle` and `loop`.
  - They are methods of the class `Controller`. Its fields are the three
    lamp outputs, the flag `isLightGreen` and the buzzer.
  - Each method appends to the ghost log. Its contract equates the new log
    with a log function (`SetupTrace`, `RedCycleTrace`, `RoundTrace`).
  - Lemmas about those functions state the lamp patterns, flag values,
    durations and phase order.

The flag `isLightGreen` is cleared only in `doRedCycle`
(src/main.cpp:97). It therefore stays true during the 2 s yellow phase of
`loop` (src/main.cpp:125-129): the flag does not change at the
green-to-yellow lamp writes, and the buzzer keeps its green cadence until
red. The invariant proved from boot (`PhaseOrderFromBoot`, `Timed`,
`CadenceFromBoot`) is that the flag is true exactly in the green and yellow
patterns.

## Model

| member | source | states |
|---|---|---|
| Cap1188.SetCapSensitivity | src/cap1188.cpp:3-20 | Fails exactly when the sensitivity is outside 0..7. On failure there are no register writes. On success there is exactly one write: to register 0x1F, with bits 7 and 3..0 clear, and bits 6..4 holding the sensitivity. |
| Cap1188.EncodeSensitivity | src/cap1188.cpp:10-13 | `sensitivity << 4` has bits 7 and 3..0 clear and is at most 0x70. Its field decodes back to the sensitivity. |
| Cap1188.EncodeSensitivityField | src/cap1188.cpp:10-13 | Every register value with nothing outside bits 6..4 is the encoding of the sensitivity it holds. Encoding is onto those eight values. |
| Cap1188.EncodeSensitivityInjective | src/cap1188.cpp:10-13 | Distinct accepted sensitivities are written as distinct register values. |
| Cap1188.GetNumTouched | src/cap1188.cpp:22-31 | The loop returns the number of set bits of the 8-bit mask, which lies in 0..8. Loop invariant: after i steps the count equals the set bits among the low i bits, and is at most i. |
| Cap1188.PopCountIsTouchedPads | src/cap1188.cpp:25-29 | The count equals the size of the set of pads whose bit is set. |
| Cap1188.PopCountZero | src/cap1188.cpp:25-29 | The count is 0 exactly when the mask is 0x00. |
| Cap1188.PopCountFull | src/cap1188.cpp:25-29 | The count is 8 exactly when the mask is 0xFF. |
| Cap1188.PopCountOne | src/cap1188.cpp:25-29 | The count of mask 0x01 is 1. |
| Buzzer.NextDelay | src/main.cpp:37-42 | While green: 500000 µs exactly when the buzzer is now on, 1500000 µs exactly when it is now off. Otherwise always 250000 µs. |
| Buzzer.Fire | src/main.cpp:31-47 | One firing inverts `isBuzzerOn`. It starts the 500 Hz tone exactly when the buzzer was off, and stops it otherwise. The new deadline is the old one plus the chosen delay, so it is strictly later. |
| Buzzer.RunToggles | src/main.cpp:33-34 | After n firings the buzzer state is the initial one flipped n times. |
| Buzzer.ScheduleIncreasing | src/main.cpp:45-46 | The deadlines of a run are rearmed from the previous deadline. Each interval is at least 250000 µs. The deadlines lie after the start and strictly increase. The last one is the final alarm. |
| Buzzer.GreenCadence | src/main.cpp:38-39 | While green, the intervals alternate strictly between 500000 µs (after switching on) and 1500000 µs (after switching off). |
| Buzzer.RedCadence | src/main.cpp:40-41 | While not green, the k-th deadline is the start plus k intervals of 250000 µs, whatever the buzzer's state. |
| Buzzer.TwoGreenFirings | src/main.cpp:38-46 | Two firings while green advance the alarm by exactly 2000000 µs and restore the buzzer state. |
| Buzzer.TwoRedFirings | src/main.cpp:38-46 | Two firings while not green advance the alarm by exactly 500000 µs and restore the buzzer state. |
| Buzzer.BuzzerTimer.constructor | src/main.cpp:23-25 | At boot the buzzer is off and the alarm register is zero. |
| Buzzer.BuzzerTimer.OnBuzzerTimer | src/main.cpp:31-47 | The new state is `Fire` of the old state and the flag. One tone call and one deadline are logged. The invariant holds: tone calls alternate starting with `tone`, the buzzer is on after an odd number of firings, and deadlines strictly increase. |
| Crossing.FirstTouch | src/main.cpp:117 | The index at which polling stops. Every earlier result is zero, and the result there is non-zero unless all results were read. |
| Crossing.WaitingShows | src/main.cpp:117 | k polls that see no touch leave the panel as it was. They hold it 50 ms each and read k zero masks. |
| Crossing.PollShows | src/main.cpp:117 | The polling loop reads the results up to and including the first touch, or all of them if there is none. It leaves the panel as it was and holds it 50 ms per empty poll. |
| Crossing.RedHalfShows | src/main.cpp:95-104 | From any panel: the red lamp on and yellow off, with the green lamp as before and the flag false, held 10 s; then yellow on as well, held 2 s. Yellow and red are left on and the flag false. |
| Crossing.GreenHalfShows | src/main.cpp:107-113 | From any panel the lamps end green alone with the flag true, before the one drain read. No delay is held. |
| Crossing.RedCycleEndsGreen | src/main.cpp:93-114 | Whatever the lamps showed before, `doRedCycle` holds red on and yellow off, then red and yellow on, each with the green lamp as before and the flag false. It ends green alone with the flag true. Its one `touched()` read is the last action and comes after that transition. |
| Crossing.RedCyclePhases | src/main.cpp:95-104 | Entered with green off, a red cycle shows exactly Red 10 s, then RedYellow 2 s, with the flag false in both. |
| Crossing.YellowHalfShows | src/main.cpp:122-129 | After a touch the current pattern is held 5 s. Then green off and yellow on, with the red lamp as before and the flag unchanged, is held 2 s. |
| Crossing.RoundShows | src/main.cpp:116-134 | From any panel, a `loop` call that sees a touch ends green with the flag true. It reads the polls up to the touch plus one drained mask. It holds the current pattern for each empty poll and the 5 s bank, then yellow on with the red lamp as before, then red and red-yellow with green off. |
| Crossing.RoundPhases | src/main.cpp:116-134 | Entered in green, a `loop` call that sees a touch shows green for each empty poll, green 5 s, yellow 2 s with the flag true, red 10 s and red-yellow 2 s, then returns to green. |
| Crossing.RoundKeepsWaiting | src/main.cpp:117 | When no result is a touch, `loop` is still polling: the panel is unchanged and every result was read. |
| Crossing.RoundHoldsCyclic | src/main.cpp:116-131 | One touched round follows the cycle. Each pattern has its flag and duration. |
| Crossing.SetupStartShows | src/main.cpp:62-78 | Before the sensitivity step, `setup` turns all three lamps LOW. It holds and reads nothing. |
| Crossing.SetupRegisterWrites | src/main.cpp:77-87 | `setup` writes exactly one register when `cap.begin` succeeds and the sensitivity is in range: the sensitivity control register, with the encoded value. Otherwise it writes none. |
| Crossing.SetupShows | src/main.cpp:54-91 | A failed `setup` halts before any delay, with every lamp LOW and the flag false. A successful one shows Red 10 s and RedYellow 2 s, and ends green after one drain read. |
| Crossing.CompiledSensitivityAccepted | src/main.cpp:84 | The compiled-in sensitivity 5 is accepted and written as 0x50 to register 0x1F. |
| Crossing.SessionCycles | src/main.cpp:116-134 | Successive touched `loop` calls from green show the cycle with no pattern skipped and only green repeated. Each pattern has its flag and duration. They start in green and end in red-yellow before returning to green. |
| Crossing.PhaseOrderFromBoot | src/main.cpp:54-134 | From boot, a successful `setup` and touched `loop` calls show Red, RedYellow, Green, Yellow, Red, … in that cyclic order. Each pattern lasts its fixed time. The flag is true exactly in Green and Yellow. |
| Crossing.CadenceFromBoot | src/main.cpp:38-42 | A buzzer firing during any hold since boot uses the green intervals (500000 µs after switching on, 1500000 µs after switching off) exactly in green and yellow, and 250000 µs exactly in red and red-yellow. |
| Crossing.Controller.constructor | src/main.cpp:22-28 | At boot every lamp is LOW, the flag is false, the buzzer is off and the log is empty. |
| Crossing.Controller.BuzzerAlarm | src/main.cpp:65 | A firing of `onBuzzerTimer` reads the flag as it is at that moment. |
| Crossing.Controller.DoRedCycle | src/main.cpp:93-114 | Appends exactly the red-cycle log. It leaves green alone lit with the flag true, and keeps the outputs equal to what the log shows. |
| Crossing.Controller.Setup | src/main.cpp:54-91 | Logs exactly `SetupTrace`. It halts exactly when `cap.begin` fails or the sensitivity is out of range, and then every lamp is LOW. Otherwise it ends green. The seeding firing leaves the buzzer on with a 250000 µs delay. |
| Crossing.Controller.Loop | src/main.cpp:116-134 | Advances past the poll exactly when some result is non-zero. Logs exactly `RoundTrace`. It ends green when it advances and leaves the outputs unchanged otherwise. |

## Left out

- Serial logging (`Serial.begin`, every `Serial.println`, including the one inside the alarm routine) is output only and is not modelled.
- `pinMode`, `timerBegin`'s clock divider `APB_CLK_FREQ / 1000000`, `timerAttachInterrupt` and `timerAlarmEnable` are hardware configuration. Arming the timer is the single event `StartBuzzerTimer`.
- `tone`/`noTone`, `digitalWrite`, `cap.begin`, `cap.touched` and `writeRegister` belong to the Arduino and Adafruit libraries, which are not part of this model. They are logged actions. Their results (`cap.begin`'s success, every `touched()` mask, including the drain read) are parameters.
- Real time is not modelled. A `delay(ms)` is a logged `Sleep(ms)` whose duration is attached to the held lamp pattern. The sensor-side effect of the drain read (clearing a latched touch) is a property of the device, which is not part of this model.
- Preemption of the main thread by the alarm interrupt and `volatile` visibility are not modelled. A firing is one atomic step, `BuzzerAlarm`, that reads the flag. No interleaving of firings with `doRedCycle`/`loop` is modelled apart from the seeding call in `setup`.
- Buzzer.Fire: the alarm register is an unbounded `nat`, so `uint64_t` wrap-around of the deadline is not modelled. It would take far longer than the device can run.
- Crossing.Controller.constructor: the three lamp outputs are taken to be LOW at boot. The code only writes them LOW in `setup`, before anything is held, so no hold depends on this.
- Buzzer.BuzzerTimer.constructor: the alarm register's value at boot is taken to be zero. The hardware's initial value is not visible in the code.
- Crossing.Controller.Setup: the infinite halt loops `while (1);` are the terminal state `halted`, not non-termination. The sensitivity is a parameter, so the branch that rejects it is reachable; the program passes the constant 5, which is always accepted (`CompiledSensitivityAccepted`).
- Crossing.Controller.Loop: the polling loop may never end. The model reads a finite sequence of `touched()` results. When none is non-zero it returns `advanced == false` while still polling.
- Cap1188.GetNumTouched: the byte read by `touched()` is its parameter rather than a device call.
