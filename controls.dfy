/** The two board controls that write the shared `state` dictionary and the
    output pins: the speeding detector `speeding_check` and the ignition
    button handler `button_press_coroutine`. The pure step functions give the
    state after one call; class `Board` performs the same calls one write at a
    time and is proved to end in that state. */
module Controls {
  import opened Telemetry

  /** Speed thresholds (units of distance per cycle) of the speeding detector. */
  const SpeedLimit: real := 10.0
  const SpeedMax: real := 20.0
  /** Seconds that must pass between two reported speeding events. */
  const SpeedingDebounce: real := 2.0
  /** Seconds that must pass between two accepted ignition toggles. */
  const IgnitionDebounce: real := 1.0

  /** The `state` dictionary together with the three output pins and the
      records the controls hand to the telemetry sink, in order. */
  datatype State = State(
    ignition: bool,
    lastIgnition: real,
    distance: real,
    lastSpeeding: real,
    ignitionLed: int,
    speedingPin: int,
    aboveMaxPin: int,
    reports: seq<Record>)

  /** The state at start-up: ignition off, both debounce clocks at 0, every
      output pin low, nothing reported. */
  function Initial(): (s: State)
    ensures !s.ignition && s.lastIgnition == 0.0 && s.distance == 0.0 && s.lastSpeeding == 0.0
    ensures s.ignitionLed == 0 && s.speedingPin == 0 && s.aboveMaxPin == 0 && s.reports == []
  {
    State(false, 0.0, 0.0, 0.0, 0, 0, 0, [])
  }

  // ---------------------------------------------------------------------
  // Speeding detector

  /** The speeding check on the two most recent sonar readings `x1` (newer)
      and `x0` (older): a pair with a distance over the sanity bound changes
      nothing; otherwise the first difference of the distances sets both pins,
      and an over-limit or above-max event is reported (and its time kept)
      only when more than two seconds have passed since the last one. */
  function SpeedingStep(s: State, x1: Reading, x0: Reading): (t: State)
    ensures t.ignition == s.ignition && t.lastIgnition == s.lastIgnition && t.distance == s.distance
    ensures t.ignitionLed == s.ignitionLed
    ensures t.lastSpeeding == s.lastSpeeding || t.lastSpeeding > s.lastSpeeding + SpeedingDebounce
    ensures |s.reports| <= |t.reports| <= |s.reports| + 1 && t.reports[..|s.reports|] == s.reports
  {
    if x1.value > SanityBound || x0.value > SanityBound then s
    else
      var speed := Abs(x1.value - x0.value);
      if speed > SpeedLimit then
        var code := if speed > SpeedMax then SpeedingAboveMaxCode else SpeedingCode;
        var pinned := s.(speedingPin := Level(speed <= SpeedMax), aboveMaxPin := Level(speed > SpeedMax));
        if x1.time - s.lastSpeeding > SpeedingDebounce then
          pinned.(lastSpeeding := x1.time, reports := s.reports + [Record(code, 1, x1.time)])
        else pinned
      else s.(speedingPin := 0, aboveMaxPin := 0)
  }

  /** The pin levels after a speeding check on an in-range pair depend on the
      speed band alone: above 20 only the above-max pin is high, above 10 up
      to 20 only the speeding pin, and otherwise neither. */
  lemma SpeedingBands(s: State, x1: Reading, x0: Reading)
    requires x1.value <= SanityBound && x0.value <= SanityBound
    ensures var t := SpeedingStep(s, x1, x0); var speed := Abs(x1.value - x0.value);
      (t.speedingPin == 0 && t.aboveMaxPin == 1 <==> speed > SpeedMax) &&
      (t.speedingPin == 1 && t.aboveMaxPin == 0 <==> SpeedLimit < speed <= SpeedMax) &&
      (t.speedingPin == 0 && t.aboveMaxPin == 0 <==> speed <= SpeedLimit)
  {
  }

  /** A pair with a distance above the sanity bound is discarded: no pin and
      no part of the state changes. */
  lemma SpeedingIgnoresFaultyPair(s: State, x1: Reading, x0: Reading)
    requires x1.value > SanityBound || x0.value > SanityBound
    ensures SpeedingStep(s, x1, x0) == s
  {
  }

  /** The debounce: a record is reported, and the last speeding time moves to
      the newer reading's time, exactly when the pair is in range, the speed
      exceeds 10 and more than two seconds have passed; the record carries
      the band's code and the value 1. */
  lemma SpeedingDebounced(s: State, x1: Reading, x0: Reading)
    ensures var t := SpeedingStep(s, x1, x0);
      var reported := x1.value <= SanityBound && x0.value <= SanityBound &&
        Abs(x1.value - x0.value) > SpeedLimit && x1.time - s.lastSpeeding > SpeedingDebounce;
      (reported ==>
        t.lastSpeeding == x1.time && t.reports == s.reports +
        [Record(if Abs(x1.value - x0.value) > SpeedMax then SpeedingAboveMaxCode else SpeedingCode, 1, x1.time)]) &&
      (!reported ==> t.lastSpeeding == s.lastSpeeding && t.reports == s.reports)
  {
  }

  /** The older reading's timestamp plays no part in the check. */
  lemma SpeedingIgnoresOlderTime(s: State, x1: Reading, x0: Reading, t0: real)
    ensures SpeedingStep(s, x1, x0) == SpeedingStep(s, x1, Reading(x0.value, t0))
  {
  }

  /** Distances 100 then 115 give an over-limit event, 100 then 125 an
      above-max event, and a second event less than two seconds after a
      reported one sets the pins but reports nothing. */
  lemma SpeedingExamples()
    ensures var t := SpeedingStep(Initial(), Reading(115.0, 5.0), Reading(100.0, 4.9));
      t.speedingPin == 1 && t.aboveMaxPin == 0 && t.reports == [Record(SpeedingCode, 1, 5.0)]
    ensures var t := SpeedingStep(Initial(), Reading(125.0, 5.0), Reading(100.0, 4.9));
      t.speedingPin == 0 && t.aboveMaxPin == 1 && t.reports == [Record(SpeedingAboveMaxCode, 1, 5.0)]
    ensures var t := SpeedingStep(Initial(), Reading(115.0, 5.0), Reading(100.0, 4.9));
      var u := SpeedingStep(t, Reading(140.0, 6.0), Reading(115.0, 5.9));
      u.speedingPin == 0 && u.aboveMaxPin == 1 && u.reports == [Record(SpeedingCode, 1, 5.0)]
  {
  }

  // ---------------------------------------------------------------------
  // Ignition toggle

  /** The hold is confirmed when none of the pin samples polled during the
      one-second window reads 0. */
  predicate HeldThroughout(samples: seq<int>) {
    forall j :: 0 <= j < |samples| ==> samples[j] != 0
  }

  /** The button callback with pin value `value` at callback time `time`,
      given the samples polled during the hold window and the level read
      once the window has passed: only a press (value 1) that is held
      throughout, still reads 1 afterwards and comes more than one second
      after the last accepted toggle flips the ignition, stamps its time,
      drives the LED to match and reports the new state. */
  function IgnitionStep(s: State, value: int, time: real, samples: seq<int>, followUp: int): (t: State)
    ensures t.distance == s.distance && t.lastSpeeding == s.lastSpeeding
    ensures t.speedingPin == s.speedingPin && t.aboveMaxPin == s.aboveMaxPin
    ensures |s.reports| <= |t.reports| <= |s.reports| + 1 && t.reports[..|s.reports|] == s.reports
  {
    if value == 1 && HeldThroughout(samples) && followUp == 1 && time - s.lastIgnition > IgnitionDebounce then
      var on := !s.ignition;
      s.(ignition := on, lastIgnition := time, ignitionLed := Level(on),
         reports := s.reports + [Record(IgnitionCode, Level(on), time)])
    else s
  }

  /** The ignition flips exactly when the press is a value-1 edge held
      throughout, confirmed by the follow-up read and outside the debounce
      interval; a flip stamps the callback time, mirrors the new state on
      the LED and reports it, and anything else leaves the state as it was. */
  lemma IgnitionToggles(s: State, value: int, time: real, samples: seq<int>, followUp: int)
    ensures var t := IgnitionStep(s, value, time, samples, followUp);
      var accepted := value == 1 && HeldThroughout(samples) && followUp == 1 && time - s.lastIgnition > IgnitionDebounce;
      (t.ignition != s.ignition <==> accepted) &&
      (accepted ==>
        t.lastIgnition == time && t.ignitionLed == Level(t.ignition) &&
        t.reports == s.reports + [Record(IgnitionCode, Level(t.ignition), time)]) &&
      (!accepted ==> t == s)
  {
  }

  /** A press released during the hold window never flips the ignition; a
      press held through the window flips it once, and handling that same
      press again does not flip it back. */
  lemma IgnitionExamples(s: State, time: real)
    requires time - s.lastIgnition > IgnitionDebounce
    ensures IgnitionStep(s, 1, time, [1, 1, 1, 1, 1, 0], 0) == s
    ensures var t := IgnitionStep(s, 1, time, [1, 1, 1, 1, 1, 1, 1, 1, 1, 1, 1, 1], 1);
      t.ignition == !s.ignition && IgnitionStep(t, 1, time, [1, 1, 1], 1) == t
  {
    assert !HeldThroughout([1, 1, 1, 1, 1, 0]) by {
      assert [1, 1, 1, 1, 1, 0][5] == 0;
    }
  }

  // ---------------------------------------------------------------------
  // The invariant both controls keep

  const SpeedingCodes: set<int> := {SpeedingCode, SpeedingAboveMaxCode}
  const IgnitionCodes: set<int> := {IgnitionCode}

  /** The reported records whose code is in `codes`, in order. */
  function Only(rs: seq<Record>, codes: set<int>): (out: seq<Record>)
    ensures |out| <= |rs|
    ensures forall k :: 0 <= k < |out| ==> out[k].code in codes && out[k] in rs
    decreases |rs|
  {
    if rs == [] then []
    else
      var init := Only(rs[..|rs| - 1], codes);
      if rs[|rs| - 1].code in codes then init + [rs[|rs| - 1]] else init
  }

  lemma OnlyAppend(rs: seq<Record>, r: Record, codes: set<int>)
    ensures Only(rs + [r], codes) == if r.code in codes then Only(rs, codes) + [r] else Only(rs, codes)
  {
    assert (rs + [r])[..|rs|] == rs;
  }

  /** Consecutive records are more than `gap` seconds apart. */
  predicate Spaced(rs: seq<Record>, gap: real) {
    forall k :: 0 < k < |rs| ==> rs[k].time > rs[k - 1].time + gap
  }

  /** The speeding records: more than two seconds apart, each reporting 1,
      the last stamped with the last speeding time. */
  predicate SpeedingLog(sp: seq<Record>, lastSpeeding: real) {
    Spaced(sp, SpeedingDebounce) && (forall k :: 0 <= k < |sp| ==> sp[k].value == 1) &&
    (|sp| > 0 ==> sp[|sp| - 1].time == lastSpeeding)
  }

  /** The ignition records: more than one second apart, reporting on, off,
      on, ... so that their count is odd exactly while the ignition is on,
      the last stamped with the last ignition time. */
  predicate IgnitionLog(ig: seq<Record>, on: bool, lastIgnition: real) {
    Spaced(ig, IgnitionDebounce) && (forall k :: 0 <= k < |ig| ==> ig[k].value == Level(k % 2 == 0)) &&
    (on <==> |ig| % 2 == 1) && (|ig| > 0 ==> ig[|ig| - 1].time == lastIgnition)
  }

  /** What holds of the controls' state at every point: the speeding pins
      are binary and never both high, the LED shows the ignition state, and
      the speeding and ignition records each form a log as above. */
  predicate Consistent(s: State) {
    (s.speedingPin == 0 || s.speedingPin == 1) && (s.aboveMaxPin == 0 || s.aboveMaxPin == 1) &&
    !(s.speedingPin == 1 && s.aboveMaxPin == 1) &&
    s.ignitionLed == Level(s.ignition) &&
    SpeedingLog(Only(s.reports, SpeedingCodes), s.lastSpeeding) &&
    IgnitionLog(Only(s.reports, IgnitionCodes), s.ignition, s.lastIgnition)
  }

  lemma InitialConsistent()
    ensures Consistent(Initial())
  {
  }

  lemma SpeedingLogAppend(sp: seq<Record>, lastSpeeding: real, r: Record)
    requires SpeedingLog(sp, lastSpeeding) && r.value == 1 && r.time > lastSpeeding + SpeedingDebounce
    ensures SpeedingLog(sp + [r], r.time)
  {
  }

  lemma IgnitionLogAppend(ig: seq<Record>, on: bool, lastIgnition: real, r: Record)
    requires IgnitionLog(ig, on, lastIgnition)
    requires r.value == Level(!on) && r.time > lastIgnition + IgnitionDebounce
    ensures IgnitionLog(ig + [r], !on, r.time)
  {
    var n := |ig|;
    assert (n + 1) % 2 == 1 <==> n % 2 == 0;
    assert (ig + [r])[n] == r;
  }

  /** The speeding check keeps the invariant. */
  lemma SpeedingKeepsConsistent(s: State, x1: Reading, x0: Reading)
    requires Consistent(s)
    ensures Consistent(SpeedingStep(s, x1, x0))
  {
    var t := SpeedingStep(s, x1, x0);
    SpeedingDebounced(s, x1, x0);
    if t.reports != s.reports {
      var r := t.reports[|s.reports|];
      assert t.reports == s.reports + [r];
      assert r.code in SpeedingCodes && r.value == 1 && r.time == t.lastSpeeding;
      OnlyAppend(s.reports, r, SpeedingCodes);
      OnlyAppend(s.reports, r, IgnitionCodes);
      SpeedingLogAppend(Only(s.reports, SpeedingCodes), s.lastSpeeding, r);
    }
  }

  /** The ignition step keeps the invariant. */
  lemma IgnitionKeepsConsistent(s: State, value: int, time: real, samples: seq<int>, followUp: int)
    requires Consistent(s)
    ensures Consistent(IgnitionStep(s, value, time, samples, followUp))
  {
    var t := IgnitionStep(s, value, time, samples, followUp);
    IgnitionToggles(s, value, time, samples, followUp);
    if t != s {
      var r := Record(IgnitionCode, Level(t.ignition), time);
      OnlyAppend(s.reports, r, SpeedingCodes);
      OnlyAppend(s.reports, r, IgnitionCodes);
      IgnitionLogAppend(Only(s.reports, IgnitionCodes), s.ignition, s.lastIgnition, r);
    }
  }

  // ---------------------------------------------------------------------
  // The board

  /** The hold-confirmation poll: it reads the samples in order and stops
      at the first 0. */
  method PollHold(samples: seq<int>) returns (held: bool)
    ensures held <==> HeldThroughout(samples)
  {
    held := true;
    var i := 0;
    while i < |samples|
      invariant 0 <= i <= |samples|
      invariant forall j :: 0 <= j < i ==> samples[j] != 0
    {
      if samples[i] == 0 {
        held := false;
        break;
      }
      i := i + 1;
    }
  }

  /** The shared `state` dictionary and the three output pins, updated in
      place by the two controls. */
  class Board {
    var ignition: bool
    var lastIgnition: real
    var distance: real
    var lastSpeeding: real
    var ignitionLed: int
    var speedingPin: int
    var aboveMaxPin: int
    var reports: seq<Record>

    /** The board's state as a value. */
    function Snapshot(): (s: State)
      reads this
      ensures s.ignition == ignition && s.lastSpeeding == lastSpeeding && s.reports == reports
    {
      State(ignition, lastIgnition, distance, lastSpeeding, ignitionLed, speedingPin, aboveMaxPin, reports)
    }

    constructor ()
      ensures Snapshot() == Initial()
    {
      ignition, lastIgnition, distance, lastSpeeding := false, 0.0, 0.0, 0.0;
      ignitionLed, speedingPin, aboveMaxPin := 0, 0, 0;
      reports := [];
    }

    /** `speeding_check(x1, x0)`: the pins are written in the order the
        source writes them; `rejected` is the early return on a faulty pair. */
    method SpeedingCheck(x1: Reading, x0: Reading) returns (rejected: bool)
      modifies this
      ensures rejected <==> x1.value > SanityBound || x0.value > SanityBound
      ensures Snapshot() == SpeedingStep(old(Snapshot()), x1, x0)
    {
      if x1.value > SanityBound || x0.value > SanityBound {
        return true;
      }
      rejected := false;
      var speed := Abs(x1.value - x0.value);
      if speed > SpeedLimit {
        speedingPin := 1;
        var code;
        if speed > SpeedMax {
          aboveMaxPin := 1;
          speedingPin := 0;
          code := SpeedingAboveMaxCode;
        } else {
          code := SpeedingCode;
          aboveMaxPin := 0;
        }
        if x1.time - lastSpeeding > SpeedingDebounce {
          lastSpeeding := x1.time;
          reports := reports + [Record(code, 1, x1.time)];
        }
      } else {
        speedingPin := 0;
        aboveMaxPin := 0;
      }
    }

    /** `button_press_coroutine`: a value-1 edge polls the hold window, then
        re-reads the pin and checks the debounce before toggling. */
    method ButtonPress(value: int, time: real, samples: seq<int>, followUp: int)
      modifies this
      ensures Snapshot() == IgnitionStep(old(Snapshot()), value, time, samples, followUp)
    {
      if value == 1 {
        var held := PollHold(samples);
        if held && followUp == 1 && time - lastIgnition > IgnitionDebounce {
          ignition := !ignition;
          lastIgnition := time;
          ignitionLed := Level(ignition);
          reports := reports + [Record(IgnitionCode, Level(ignition), time)];
        }
      }
    }
  }
}
