/**
 * Velocity units. The user and the telemetry speak RPM; the motor controller
 * takes and reports rotations per second. The factor is exactly 60.
 */
module Units {

  const SecondsPerMinute: real := 60.0

  /** Commanded RPM to the controller's rotations per second. */
  function RpmToRps(rpm: real): (rps: real)
    ensures rps * SecondsPerMinute == rpm
    ensures rpm >= 0.0 <==> rps >= 0.0
  {
    rpm / SecondsPerMinute
  }

  /** Measured rotations per second back to RPM. */
  function RpsToRpm(rps: real): (rpm: real)
    ensures rpm / SecondsPerMinute == rps
    ensures rps >= 0.0 <==> rpm >= 0.0
  {
    rps * SecondsPerMinute
  }

  /** The two conversions are inverse to each other, in both orders. */
  lemma RoundTrip(x: real)
    ensures RpsToRpm(RpmToRps(x)) == x
    ensures RpmToRps(RpsToRpm(x)) == x
  {
  }
}
