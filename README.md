# Sensor-polling loop of the Arduino demo, modelled in Dafny

`system.py` drives an Arduino board through a polling loop. Every 0.1 s it
reads a potentiometer and an ultrasonic distance sensor. It keeps every
distance reading in a list that is never cleared. From the third tick on it
checks the two newest distances for speeding. Every 25th tick it logs the potentiometer
reading as an engine-speed record. Every 100th tick it logs the newest 100
distances. A button callback toggles an "ignition" flag after a
hold-to-confirm check. The distance log is thinned by a one-dimensional
Ramer–Douglas–Peucker recursion (`curve_logging_helper`) before the points are
reported as odometer records.

The project models that decision logic:

| file | module | models |
|---|---|---|
| `telemetry.dfy` | `Telemetry` | configuration constants, record codes, readings and records, Python's truncating `int()` |
| `simplifier.dfy` | `Simplifier` | `curve_logging_helper`, as recursion over index ranges `[lo, hi]` of fixed columns with exact (`real`) arithmetic |
| `distance_handler.dfy` | `DistanceHandler` | the filter, the 3-reading minimum, simplification, the appended last reading and the `int(d*10)` odometer scaling of `distance_log_handler` |
| `controls.dfy` | `Controls` | the `state` dictionary and the three output pins (class `Board`), `speeding_check`, `button_press_coroutine`, and the invariant both keep |
| `scheduler.dfy` | `Scheduler` | the tick loop of `main`: which handler fires on which tick, which readings it receives, and when the speeding check runs; the potentiometer scaling |

Main results:
- **The point budget cuts the pre-order.** `SimplifyIsBudgetedSplitOrder`
  shows that the simplifier's output is the unbounded pre-order of split
  points, cut to the remaining budget of `4 - |acc|` points. The pre-order
  is: the split point, then the left range's points, then the right range's.
  So the output is in pre-order, not in time order. On the window
  10, 12, 14, 50, 16, 18, 20 at times 0–6, the simplifier returns
  (50,3), (14,2), (16,4).
- **The controls keep one invariant.** Over any number of calls,
  `speeding_check` and the button handler keep `Controls.Consistent`:
  - after every call the pins are binary, and the two speeding pins are not
    both high (inside one check both are briefly high, as the source writes
    them one at a time);
  - the LED shows the ignition state;
  - speeding reports are more than 2 s apart;
  - ignition reports are more than 1 s apart and alternate on and off;
  - the ignition is on exactly when an odd number of ignition reports has
    been made.
- **The schedule has closed forms.** The potentiometer is logged on ticks 25,
  50, …. The j-th distance window is readings 100j+1 to 100j+100, so the
  windows tile the reading list and the reading of tick 0 is never logged.

Imperative parts (`Board.SpeedingCheck`, `Board.ButtonPress`, `PollHold`,
`Run`) are methods with loops and field updates. Each one is proved to end in
the state that a pure step function gives (`SpeedingStep`, `IgnitionStep`,
`HeldThroughout`, `PotentiometerLog`/`DistanceLog`/`StateAfter`). The
properties are proved about those functions.

Telemetry is modelled as the sequence of records the program hands to its
sink, `(code, value, time)`. In the source, sending is switched off
(`SEND_DIG = False`). The records are what it would send.

### Behaviour worth knowing
- **Output order.** The simplifier appends the split point before recursing
  into the left and then the right range. So its points come out in
  pre-order, not in time order: `OutlierExample` exhibits (50,3), (14,2),
  (16,4).
- **What the filter drops.** The handler discards readings whose *timestamp*
  is 0, and readings whose distance is 200 or more. On the example window the
  reading at time 0 is dropped, and `ExampleHandled` shows the handler
  logging (50,3), (16,4), (20,6) with odometer values 500, 160, 200.
- **Zero time span.** When the first and last timestamps of a range
  coincide, the slope divides by zero and every deviation becomes NaN.
  `NaN > 20` is false, so no point is chosen and the accumulator comes back
  unchanged. The model states this as an explicit "no split" case in
  `Split`.
- **Window lifetime.** The reading list is never cleared; each window is
  its last 100 entries. Because the period equals the slice length,
  consecutive windows do not overlap (`DistanceSchedule`).

## Model

| member | source | states |
|---|---|---|
| Telemetry.Trunc | system.py:145 | Python `int()` on a float: truncation toward zero, within one unit of the argument and never further from 0 |
| Telemetry.Level | system.py:79 | the level written for a boolean state is 0 or 1, and is 1 exactly when the state is on |
| Simplifier.ArgMax | system.py:164 | `np.argmax`: an index of a largest element, and every earlier element is strictly smaller (first maximum on ties) |
| Simplifier.EndpointsOnChord | system.py:160-163 | the chord passes through both ends of the range, so the endpoints deviate by 0 |
| Simplifier.Split | system.py:160-165 | a chosen split index lies strictly inside the range, so both recursive ranges are strictly shorter (termination) |
| Simplifier.SplitIsFirstMaximum | system.py:158-165 | a split happens iff the range has more than one point, a nonzero time span, and some deviation above 20; the chosen index has the largest deviation, and it is the lowest such index on a tie |
| Simplifier.Simplify | system.py:154-169 | the result extends the accumulator; points already chosen are never rewritten |
| Simplifier.SplitOrder | system.py:164-168 | every index of the unbounded pre-order lies strictly inside the range |
| Simplifier.BudgetIsFour | system.py:158 | `POLL_COUNT_DISTANCE * CYCLE_TIME / 2.5` equals 4 |
| Simplifier.SimplifyIsBudgetedSplitOrder | system.py:158-168 | the result is the accumulator followed by the first `4 - \|acc\|` points of the pre-order (split point, left range, right range) |
| Simplifier.SimplifyRespectsBudget | system.py:158-159 | with one point or a full accumulator the call returns the accumulator unchanged; from at most 4 points the result never exceeds 4 |
| Simplifier.SimplifiedPointsAreInteriorInputs | system.py:165-166 | every added point is an input pair `(values[j], timestamps[j])` with `j` strictly inside the range, taken in split order |
| Simplifier.SimplifyStartsWithSplitPoint | system.py:164-166 | when a call splits and the budget has room, it adds at least one point, and the first is its own split point (the left-before-right order of what follows is stated by `SimplifyIsBudgetedSplitOrder`) |
| Simplifier.SplitOrderDistinct | system.py:164-168 | no index is chosen twice: the split index separates the left range's indices from the right range's |
| Simplifier.LineHasNoDeviation | system.py:160-163 | points on one straight line deviate from every chord of that line by 0 |
| Simplifier.LinearSeriesSelectsNothing | system.py:158-165 | a perfectly linear series selects no point, and the accumulator comes back unchanged |
| Simplifier.ExampleSplitOrder | system.py:160-168 | on 10, 12, 14, 50, 16, 18, 20 at times 0–6 the split order is indices 3, 2, 4 |
| Simplifier.OutlierExample | system.py:154-169 | on that series the output is (50,3), (14,2), (16,4), which is not time-sorted |
| DistanceHandler.KeepUsable | system.py:122 | every kept reading has a nonzero timestamp and a distance below 200, and comes from the window; the kept readings stay in window order (`KeepUsableConcat`) |
| DistanceHandler.KeepUsableConcat | system.py:122 | the filter keeps the window's order: filtering two pieces and joining the results is filtering the joined window |
| DistanceHandler.KeepUsableLast | system.py:122 | the last kept reading is the window's last usable reading, the one after which no reading is usable |
| DistanceHandler.KeepUsableExactly | system.py:122 | the filter keeps exactly the usable readings, each as often as the window holds it |
| DistanceHandler.AllUsableKept | system.py:122 | a window of usable readings passes the filter whole |
| DistanceHandler.OdometerRecord | system.py:145 | code 5, the point's time, and the distance times ten truncated |
| DistanceHandler.OdometerRecords | system.py:135-146 | one odometer record per logged point, in order |
| DistanceHandler.HandleWindow | system.py:118-146 | fewer than 3 usable readings give `False`; otherwise the points are the simplifier's output on the cleaned columns followed by the last kept reading, which is the window's last usable reading (`LastLoggedIsLastUsable`), at most 5 points in all, each reported as an odometer record |
| DistanceHandler.SimplifiedAreInteriorReadings | system.py:125-133 | the simplified points are readings from strictly inside the cleaned window |
| DistanceHandler.CleanedPointsAreUsable | system.py:122-134 | points taken from the cleaned window are usable readings of the raw window |
| DistanceHandler.LoggedPointsAreUsableReadings | system.py:122-134 | every logged point is a usable reading of the window; all but the last come from strictly inside the cleaned window |
| DistanceHandler.LastLoggedIsLastUsable | system.py:122-134 | the appended last point is the window's last usable reading: the one at position j when reading j is usable and none after it is |
| DistanceHandler.ExampleKept | system.py:122 | the example window loses its reading at time 0 |
| DistanceHandler.ExampleKeptSimplified | system.py:133 | the cleaned example's columns (distances 12 to 20 at times 1 to 6) simplify to (50,3), (16,4) |
| DistanceHandler.ExampleLoggedPoints | system.py:122-134 | on the example window the handler logs (50,3), (16,4) and then the last reading (20,6) |
| DistanceHandler.ExampleHandled | system.py:118-146 | on the example window the handler's whole outcome is those three points with odometer records 500, 160 and 200 |
| Controls.Initial | system.py:265-270 | start-up state: ignition off, both debounce clocks and `distance` at 0, every pin low, nothing reported |
| Controls.SpeedingStep | system.py:172-211 | the check changes only the speeding pins, the last speeding time and the reports; the clock only moves forward by more than 2 s; at most one record is appended |
| Controls.SpeedingBands | system.py:182-211 | for an in-range pair, the final pins are (0,1) iff speed > 20, (1,0) iff 10 < speed ≤ 20, and (0,0) iff speed ≤ 10 |
| Controls.SpeedingIgnoresFaultyPair | system.py:179-180 | a distance above 200 in either reading leaves pins and state unchanged |
| Controls.SpeedingDebounced | system.py:184-197 | a record (band code, value 1, time t1) is reported, and the clock set to t1, exactly when the pair is in range, speed > 10 and t1 − last > 2; otherwise neither changes |
| Controls.SpeedingIgnoresOlderTime | system.py:176-177 | the older reading's timestamp `t0` has no effect |
| Controls.SpeedingExamples | system.py:172-211 | 100→115 gives over-limit, 100→125 gives above-max, and a second event within 2 s sets the pins but reports nothing |
| Controls.IgnitionStep | system.py:60-79 | the button changes only the ignition, its clock, the LED and the reports; at most one record is appended |
| Controls.IgnitionToggles | system.py:60-79 | the ignition flips iff value 1, every hold sample non-zero, follow-up read 1 and time − last > 1; a flip stamps the time, drives the LED to the new state and reports it; otherwise nothing changes |
| Controls.IgnitionExamples | system.py:60-79 | a press released during the hold never flips; a held press flips once, and handling it again does not flip back |
| Controls.InitialConsistent | system.py:265-270 | the start-up state satisfies the invariant |
| Controls.SpeedingKeepsConsistent | system.py:184-211 | the speeding check preserves the invariant |
| Controls.IgnitionKeepsConsistent | system.py:69-79 | the button handler preserves the invariant |
| Controls.PollHold | system.py:61-67 | the poll loop, which stops at the first 0, reports the hold confirmed iff no sample is 0 |
| Controls.Board.constructor | system.py:265-270 | the board starts in the start-up state |
| Controls.Board.SpeedingCheck | system.py:172-211 | writing the pins in the source's order ends in `SpeedingStep` of the old state; reports rejection iff a distance is above 200 |
| Controls.Board.ButtonPress | system.py:51-79 | polling then re-reading ends in `IgnitionStep` of the old state |
| Scheduler.EngineSpeedRecord | system.py:101 | engine-speed record of a potentiometer reading: the value times 4000/800/0.25 = 20, truncated; for a non-negative reading it is within one unit below 20·value |
| Scheduler.Window | system.py:243 | `distance_readings[-100:]`: the newest 100 readings, or all when fewer |
| Scheduler.PotentiometerLog | system.py:238-239 | the potentiometer readings handed on in the first n ticks, at most one per tick |
| Scheduler.DistanceLog | system.py:241-243 | the windows handed on in the first n ticks, at most one per tick |
| Scheduler.StateAfter | system.py:229-236 | the speeding checks of the first n ticks never touch the ignition, its clock or the LED |
| Scheduler.PotentiometerSchedule | system.py:224-239 | after n ticks exactly (n−1)/25 readings are logged, the j-th being the reading of tick 25(j+1) |
| Scheduler.DistanceSchedule | system.py:224-243 | after n ticks exactly (n−1)/100 windows are logged, the j-th holding readings 100j+1 to 100j+100 |
| Scheduler.RunKeepsConsistent | system.py:226-236 | any number of ticks preserves the controls' invariant |
| Scheduler.FirstReadingNeverChecked | system.py:229-236 | the reading of tick 0 never influences the speeding check, because the check needs more than two readings |
| Scheduler.Run | system.py:224-245 | running one tick per reading appends every reading, and hands over exactly `PotentiometerLog` and `DistanceLog`; the board ends in `StateAfter` |

## Left out
- Board I/O (`board.*` pin modes, reads and writes) is not modelled as calls. Readings, polled samples and the follow-up read are inputs. Pin levels are fields of `Board`.
- The LCD (`lcd.*`) and its display string are left out. libs/LiquidCrystal.py is not part of this model.
- Plotting and output are left out: matplotlib, `np.diff` velocities (used only for plotting), `savefig`, `print` and `datetime` formatting.
- Telemetry sending is left out: dig_calls.py, authentication at module load and HTTP failures are not part of this model. Records are the values that would be sent; `SEND_DIG` is `False` in the source.
- Concurrency is left out. asyncio task creation is modelled as handing a reading or a window to a log, and the tasks are not run. The model does not cover:
  - logging tasks overlapping later ticks;
  - button callbacks interleaving with ticks;
  - the `await` inside the hold poll.
- The hold poll runs against a wall-clock deadline. Its number of samples is an input (`samples`), not derived from time.
- The loop `while True` is not modelled. `Run` executes one tick per supplied reading.
- Floating point is not modelled. Distances and times are exact reals. IEEE rounding, NaN and infinity are not modelled, except the zero time span case described above.
- Controls.Initial: the three output pins are assumed low at start-up. The source only sets their modes and never writes them before the first speeding check or button press. The LED part of `InitialConsistent` depends on this assumption.
- The `distance` entry of `state` is kept in `State`, but no code reads or writes it after start-up.
- Controls.Board.SpeedingCheck: returns `true` for the source's `False` early return and `false` otherwise (the source returns `None`); the caller never uses the value.
- Simplifier.Simplify: the source appends to one shared list in place and passes it on. The model threads the list as a value, so aliasing of `max_diffs` is not represented. Every append goes to that one list, so the resulting order is the same.
