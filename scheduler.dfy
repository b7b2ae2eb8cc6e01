/** The polling loop `main`: once per cycle it reads the potentiometer and
    the sonar, appends the sonar reading to a list that is never cleared,
    runs the speeding check on the two newest readings, and every 25th and
    every 100th tick hands a reading or a window to a logging task. */
module Scheduler {
  import opened Telemetry
  import opened Controls

  /** A handler fires on every `period`-th tick, but never on tick 0. */
  predicate Fires(tick: nat, period: nat) {
    tick != 0 && period != 0 && tick % period == 0
  }

  /** The record `potentiometer_log_handler` makes of a potentiometer
      reading: the value scaled by 4000 / 800 / 0.25, which is 20, and
      truncated toward zero. */
  function EngineSpeedRecord(p: Reading): (r: Record)
    ensures r.code == EngineSpeedCode && r.time == p.time
    ensures r.value == Trunc(20.0 * p.value)
    ensures 0.0 <= p.value ==> 0 <= r.value && 20.0 * p.value - 1.0 < r.value as real <= 20.0 * p.value
  {
    Record(EngineSpeedCode, Trunc(p.value * 4000.0 / 800.0 / 0.25), p.time)
  }

  /** `distance_readings[-POLL_COUNT_DISTANCE:]`: the newest 100 readings,
      or all of them when there are fewer. */
  function Window(history: seq<Reading>): (w: seq<Reading>)
    ensures |w| == if |history| < PollCountDistance then |history| else PollCountDistance
    ensures w == history[|history| - |w|..]
  {
    if |history| <= PollCountDistance then history else history[|history| - PollCountDistance..]
  }

  /** The potentiometer readings handed to the logging task during the
      first `n` ticks, in order. */
  function PotentiometerLog(pots: seq<Reading>, n: nat): (log: seq<Reading>)
    requires n <= |pots|
    ensures |log| <= n
  {
    if n == 0 then []
    else PotentiometerLog(pots, n - 1) + (if Fires(n - 1, PollCountPotentiometer) then [pots[n - 1]] else [])
  }

  /** The windows handed to the distance handler during the first `n`
      ticks, in order; on tick `k` the list holds the readings of ticks
      0 to `k`. */
  function DistanceLog(dists: seq<Reading>, n: nat): (log: seq<seq<Reading>>)
    requires n <= |dists|
    ensures |log| <= n
  {
    if n == 0 then []
    else DistanceLog(dists, n - 1) + (if Fires(n - 1, PollCountDistance) then [Window(dists[..n])] else [])
  }

  /** The controls' state after the first `n` ticks: tick `k` checks the
      pair (reading `k`, reading `k - 1`) once the list holds more than two
      readings, that is from tick 2 on. */
  function StateAfter(s: State, dists: seq<Reading>, n: nat): (t: State)
    requires n <= |dists|
    ensures t.ignition == s.ignition && t.lastIgnition == s.lastIgnition && t.ignitionLed == s.ignitionLed
  {
    if n == 0 then s
    else
      var before := StateAfter(s, dists, n - 1);
      if n > 2 then SpeedingStep(before, dists[n - 1], dists[n - 2]) else before
  }

  /** The potentiometer is logged on ticks 25, 50, 75, ...: after `n` ticks
      the log holds the readings of exactly those ticks below `n`. */
  lemma {:induction false} PotentiometerSchedule(pots: seq<Reading>, n: nat)
    requires n <= |pots|
    ensures |PotentiometerLog(pots, n)| == if n == 0 then 0 else (n - 1) / PollCountPotentiometer
    ensures forall j :: 0 <= j < |PotentiometerLog(pots, n)| ==>
      PotentiometerLog(pots, n)[j] == pots[PollCountPotentiometer * (j + 1)]
  {
    if n > 0 {
      PotentiometerSchedule(pots, n - 1);
    }
  }

  /** The distance handler runs on ticks 100, 200, ...; the `j`-th window
      holds readings 100 j + 1 to 100 j + 100, so the windows are disjoint,
      follow one another without a gap, and the reading of tick 0 is never
      in any of them. */
  lemma {:induction false} DistanceSchedule(dists: seq<Reading>, n: nat)
    requires n <= |dists|
    ensures |DistanceLog(dists, n)| == if n == 0 then 0 else (n - 1) / PollCountDistance
    ensures forall j :: 0 <= j < |DistanceLog(dists, n)| ==>
      DistanceLog(dists, n)[j] == dists[PollCountDistance * j + 1..PollCountDistance * (j + 1) + 1]
  {
    if n > 0 {
      DistanceSchedule(dists, n - 1);
      if Fires(n - 1, PollCountDistance) {
        var j := (n - 1) / PollCountDistance - 1;
        assert n == PollCountDistance * (j + 1) + 1;
        assert Window(dists[..n]) == dists[PollCountDistance * j + 1..n];
      }
    }
  }

  /** The speeding check keeps the controls' invariant over any number of
      ticks. */
  lemma {:induction false} RunKeepsConsistent(s: State, dists: seq<Reading>, n: nat)
    requires n <= |dists| && Consistent(s)
    ensures Consistent(StateAfter(s, dists, n))
  {
    if n > 0 {
      RunKeepsConsistent(s, dists, n - 1);
      if n > 2 {
        SpeedingKeepsConsistent(StateAfter(s, dists, n - 1), dists[n - 1], dists[n - 2]);
      }
    }
  }

  /** The first sonar reading never reaches the speeding check: the pair it
      would form with the second is skipped because the list then holds
      only two readings. */
  lemma {:induction false} FirstReadingNeverChecked(s: State, dists: seq<Reading>, r: Reading, n: nat)
    requires 1 <= |dists| && n <= |dists|
    ensures StateAfter(s, dists, n) == StateAfter(s, dists[0 := r], n)
  {
    if n > 0 {
      FirstReadingNeverChecked(s, dists, r, n - 1);
      if n > 2 {
        assert dists[0 := r][n - 1] == dists[n - 1] && dists[0 := r][n - 2] == dists[n - 2];
      }
    }
  }

  /** Runs the loop for one tick per sonar reading, with `pots[k]` and
      `dists[k]` the readings of tick `k`; returns the reading list and the
      readings and windows handed to the two logging tasks. */
  method Run(board: Board, pots: seq<Reading>, dists: seq<Reading>)
    returns (readings: seq<Reading>, potLog: seq<Reading>, windows: seq<seq<Reading>>)
    requires |pots| == |dists|
    modifies board
    ensures readings == dists
    ensures potLog == PotentiometerLog(pots, |dists|)
    ensures windows == DistanceLog(dists, |dists|)
    ensures board.Snapshot() == StateAfter(old(board.Snapshot()), dists, |dists|)
  {
    var ticks := 0;
    readings, potLog, windows := [], [], [];
    while ticks < |dists|
      invariant ticks <= |dists|
      invariant readings == dists[..ticks]
      invariant potLog == PotentiometerLog(pots, ticks)
      invariant windows == DistanceLog(dists, ticks)
      invariant board.Snapshot() == StateAfter(old(board.Snapshot()), dists, ticks)
    {
      var potentiometerReading := pots[ticks];
      readings := readings + [dists[ticks]];
      if |readings| > 2 {
        var _ := board.SpeedingCheck(readings[|readings| - 1], readings[|readings| - 2]);
      }
      if ticks % PollCountPotentiometer == 0 && ticks != 0 {
        potLog := potLog + [potentiometerReading];
      }
      if ticks % PollCountDistance == 0 && ticks != 0 {
        windows := windows + [Window(readings)];
      }
      ticks := ticks + 1;
    }
    assert readings == dists[..|dists|];
  }
}
