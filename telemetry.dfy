/** Values shared by every part of the sensor-polling loop: the timestamped
    readings the board produces, the records handed to the telemetry sink,
    the configuration constants and Python's truncating `int(x)`. */
module Telemetry {

  /** Cycle length of the polling loop, in seconds (CYCLE_TIME). */
  const CycleTime: real := 0.1
  /** Every this many ticks the distance window is logged (POLL_COUNT_DISTANCE). */
  const PollCountDistance: nat := 100
  /** Every this many ticks the potentiometer reading is logged (POLL_COUNT_POTENTIOMETER). */
  const PollCountPotentiometer: nat := 25

  /** Sanity bound on a sonar distance. */
  const SanityBound: real := 200.0

  /** Record codes of the telemetry sink. */
  const IgnitionCode: int := 10000
  const EngineSpeedCode: int := 107
  const OdometerCode: int := 5
  const SpeedingCode: int := 35307
  const SpeedingAboveMaxCode: int := 35308

  /** A sensor reading `[value, timestamp]`: for the sonar a distance, for the
      potentiometer the analog value. */
  datatype Reading = Reading(value: real, time: real)

  /** One record `(code, value, timestamp)` handed to the telemetry sink. */
  datatype Record = Record(code: int, value: int, time: real)

  function Abs(x: real): (r: real)
    ensures r >= 0.0 && (r == x || r == -x)
  {
    if x < 0.0 then -x else x
  }

  /** Python's `int(x)` on a float: truncation toward zero. */
  function Trunc(x: real): (n: int)
    ensures x >= 0.0 ==> n >= 0 && n as real <= x < n as real + 1.0
    ensures x < 0.0 ==> n <= 0 && n as real - 1.0 < x <= n as real
  {
    if x >= 0.0 then x.Floor else -((-x).Floor)
  }

  /** The level written to a digital output pin for a boolean state. */
  function Level(on: bool): (b: int)
    ensures b == 0 || b == 1
    ensures (b == 1) == on
  {
    if on then 1 else 0
  }
}
