# Velocity-ramp controller of a single-motor test robot

This project models, in Dafny, the control core of a small robot program
(`main.cpp`) that spins one motor up to a velocity typed in by the user,
limits how fast the commanded velocity may change, and records the measured
velocity over time in a CSV file.

The `Robot` keeps a target velocity `input_rpm` and a ramped, commanded
velocity `current_rpm`, both in RPM, and a ramp rate `ramp_rate` (50 by
default). The model covers three host callbacks:

- **EnabledInit**: the robot prompts for the target and re-prompts until a
  numeric value is read. The ramp state is not reset.
- **EnabledPeriodic**: the robot moves `current_rpm` toward the target, by
  `ramp_rate * 0.2` per tick going up and by `ramp_rate * 0.02` going down,
  and caps it at the target. It then requests `current_rpm / 60` rotations
  per second from the motor controller, converts the measured velocity back
  to RPM (x 60) and appends one `seconds,rpm` record to the log.
- **DisabledPeriodic**: the robot only sends the neutral request.

Files (one module each):

- `ramp.dfy` (`Ramp`): the ramp step `Advance` and `n` ticks of it
  (`Iterate`). Lemmas prove no overshoot, idempotence at the target,
  non-increasing distance, and convergence in exactly
  `ceil(distance / step)` ticks. The default-rate scenarios are proved too.
- `units.dfy` (`Units`): RPM and rotations-per-second conversion.
- `telemetry.dfy` (`Telemetry`): log records and the time-order property.
- `target_input.dfy` (`TargetInput`): the first read attempt that yields a
  number.
- `robot.dfy` (`RobotModel`): the robot's state as a value, the transition
  `Step` for each callback, and `Run` over a sequence of callbacks. Lemmas
  cover whole sessions. The class `Robot` updates its fields in place, and
  each of its methods is proved to perform exactly `Step`.
- `wrappers.dfy` (`Wrappers`): `Option`.

The environment supplies these values: the measured rotations per second
and the steady-clock time are parameters of each enabled tick, and each
console read attempt is an `Option<real>` (`None` when extraction fails).
The request sent to the motor is recorded as the `command` field. Values
are Dafny `real`.

`Advance` takes the up-step and the down-step as two separate arguments.
`Robot` derives both from its single `ramp_rate` with the factors 0.2 and
0.02 (main.cpp:112, 117). The code catches no actuator or telemetry errors:
there is no try/catch, and the status returned by `SetControl` is ignored.

## Model

| member | source | states |
|---|---|---|
| `Ramp.UpStep` | main.cpp:112-112 | The per-tick increment `ramp_rate * 0.2`. It has no contract of its own; `Ramp.DefaultRateStep` and `Ramp.RampUpFromRest` state its value 10 at the default rate. |
| `Ramp.DownStep` | main.cpp:117-117 | The per-tick decrement `ramp_rate * 0.02`. It has no contract of its own; `Ramp.DefaultRateStep` and `Ramp.RampDownToRest` state its value 1 at the default rate, a tenth of the up-step. |
| `Ramp.Advance` | main.cpp:110-121 | Below the target the result is min(current + up-step, target); above it, max(current - down-step, target); at it, unchanged. The result never passes the target. With positive steps every tick off the target makes progress. With non-negative steps the distance to the target never grows. |
| `Ramp.Iterate` | main.cpp:110-121 | After any number of ticks the velocity is still on the side of the target where it started, and its distance to the target is no larger than at the start. |
| `Ramp.StaysAtTarget` | main.cpp:111-121 | Once the ramp has reached the target, every later tick leaves it there. |
| `Ramp.RisesLinearly` | main.cpp:111-115 | While the target is at least k up-steps away, k ticks add exactly k up-steps. |
| `Ramp.FallsLinearly` | main.cpp:116-120 | While the target is at least k down-steps away, k ticks remove exactly k down-steps. |
| `Ramp.RisesInSteps` | main.cpp:111-115 | When N up-steps fall short of the target and the last of them covers it, the ramp is on target after n ticks exactly when n >= N. It lands exactly on the target and never passes it. |
| `Ramp.FallsInSteps` | main.cpp:116-120 | The same for the downward ramp with the down-step. |
| `Ramp.Converges` | main.cpp:110-121 | With positive steps, the ramp is on target after n ticks if and only if n >= ceil(distance / up-step) going up, or n >= ceil(distance / down-step) going down (0 when already there). |
| `Ramp.DefaultRateStep` | main.cpp:47-47 | At the default rate of 50, one tick raises the velocity by exactly 10 RPM or lowers it by exactly 1 RPM, capped at the target. |
| `Ramp.RampUpFromRest` | main.cpp:110-115 | From 0 toward 3000 RPM at the default rate, the velocity after n ticks is min(10n, 3000). It is 10 RPM after one tick and reaches 3000 after exactly 300 ticks. |
| `Ramp.RampDownToRest` | main.cpp:116-120 | From 3000 toward 0 RPM at the default rate, the velocity after n ticks is max(3000 - n, 0). It is 2999 RPM after one tick and reaches 0 after exactly 3000 ticks, ten times as many ticks as the climb. |
| `Units.RpmToRps` | main.cpp:124-124 | The requested rotations per second, multiplied by 60, give back the commanded RPM. The sign is preserved. |
| `Units.RpsToRpm` | main.cpp:130-130 | The logged RPM, divided by 60, gives back the measured rotations per second. The sign is preserved. |
| `Units.RoundTrip` | main.cpp:124-130 | RPM to RPS to RPM, and RPS to RPM to RPS, are both the identity. |
| `Telemetry.ConcatKeepsOrder` | main.cpp:131-134 | Appending time-ordered records that start no earlier than the log ends keeps the log's time column non-decreasing. |
| `TargetInput.FirstNumeric` | main.cpp:94-98 | Finds the first read attempt that produced a number, with every earlier attempt rejected. It reports none exactly when no attempt produced a number. |
| `RobotModel.Record` | main.cpp:130-134 | The record an enabled tick appends: the supplied seconds and the measured rotations per second times 60. It has no contract of its own; `RobotModel.RunAppendsRecords` and `RobotModel.Robot.EnabledPeriodic` state where it lands in the log. |
| `RobotModel.Step` | main.cpp:91-151 | The transition for each host callback. It has no contract of its own; `RobotModel.RunAppendsRecords`, `RobotModel.EnabledSessionRamps`, `RobotModel.DisabledTicksHold` and `RobotModel.EnableTransition` characterise it, and each `RobotModel.Robot` method is proved to perform it. |
| `RobotModel.TickRecordsCount` | main.cpp:134-134 | A sequence of callbacks contributes exactly one log record per enabled tick. |
| `RobotModel.RunAppendsRecords` | main.cpp:134-134 | The log is append-only. After any sequence of callbacks, the earlier records are unchanged, followed by the enabled ticks' records in order. |
| `RobotModel.RunKeepsTimeOrder` | main.cpp:131-134 | If the clock readings supplied to the ticks never go backward, the log's time column stays non-decreasing. |
| `RobotModel.RunKeepsSettings` | main.cpp:45-47 | No callback changes the ramp rate. Without an enable transition, the target is not changed either. |
| `RobotModel.DisabledTicksHold` | main.cpp:149-151 | Disabled ticks change neither the ramp state, the target nor the log. They only make the motor request neutral. |
| `RobotModel.EnabledSessionRamps` | main.cpp:104-121 | An enabled session of n ticks moves the commanded velocity by n ramp steps toward the target entered at enable time. The target does not change. |
| `RobotModel.EnabledSessionConverges` | main.cpp:104-121 | With a positive ramp rate, an enabled session is on target exactly when it has run at least the number of ticks that `Ramp.Converges` requires. |
| `RobotModel.EnableTransition` | main.cpp:91-99 | The enable transition sets the target to the first number entered and keeps the previous target while nothing numeric has been entered. It leaves the ramp state (so it carries over between sessions), the ramp rate, the log and the motor request untouched. |
| `RobotModel.Robot.constructor` | main.cpp:45-47 | A new robot has target 0, commanded velocity 0, ramp rate 50, an empty log and no motor request yet. |
| `RobotModel.Robot.EnabledInit` | main.cpp:91-99 | Reads attempts in order and stores as the target the value of the first one that yields a number. It reports how many attempts it consumed. Rejected attempts assign nothing. Only the target field may change, so the ramp state is kept. |
| `RobotModel.Robot.EnabledPeriodic` | main.cpp:104-134 | The in-place ramp (add the step, then cap) gives `Ramp.Advance` of the old velocity. The request is the new velocity / 60 on slot 0. Exactly one record (seconds, measured RPS x 60) is appended and earlier records are unchanged. The time order is kept when the clock did not go backward. The target and ramp rate are untouched. |
| `RobotModel.Robot.DisabledPeriodic` | main.cpp:149-151 | Only the neutral request is sent. The ramp state, the target and the log do not change. |

## Left out

- The TalonFX controller, the CAN bus, the control-request objects and the
  slot-0 gain configuration in `RobotInit` (main.cpp:1-3, 33-42, 65-73).
  These are calls into a vendor library. The motor is reduced to a measured
  rotations-per-second input and a recorded request.
- The host lifecycle: `RobotBase`, `main`, the `IsEnabled` override that always
  returns true, and the empty `RobotPeriodic` and `DisabledInit`
  (main.cpp:78-86, 144, 154-159). The host's choice of callback is the
  sequence of `Event`s given to `RobotModel.Run`.
- The interrupt handler, installed on every enabled tick: it runs
  `python3 graph.py` and exits with the signal number (main.cpp:15-21, 105).
  It reacts to asynchronous OS signals and shells out to an external program.
- `build/graph.py`, which only reads the CSV file and plots it with
  matplotlib.
- Console output: the prompts and the clear-screen status line
  (main.cpp:93, 97, 136).
- Textual formatting of the records. The log is kept as a sequence of
  (seconds, RPM) pairs rather than the characters written to
  `rpm_data.csv`. The stream writes both values with its default precision
  of 6 significant digits (main.cpp:134), so the file holds rounded values
  (1234.5678 s is written as 1234.57) where the model keeps exact reals.
  That rounding is monotone, so the time order that
  `RobotModel.RunKeepsTimeOrder` proves for the records also holds for the
  written text; this last step is not itself proved. Write failures of the
  file stream are not modelled.
- `std::chrono::steady_clock` (main.cpp:13, 131-132). The elapsed seconds
  are a parameter of each tick.
- IEEE-754 `double` rounding. Values are exact reals, so for example
  3000 / 10 ticks is exactly 300.
- The unused conversion of the target to rotations per second at
  main.cpp:107. It is overwritten at main.cpp:124 before it is read.
- RobotModel.Robot.EnabledInit: the source re-prompts forever until a number
  is read. The model reads a finite sequence of attempts. When none yields a
  number, it returns `accepted == false` and leaves the target unchanged,
  where the program would still be waiting for input.
- RobotModel.Robot.EnabledInit: the stream's extraction rules are not
  modelled. This covers what counts as a number, partial reads such as
  `12abc`, and out-of-range values. Under C++11 rules a failed extraction
  also stores 0 in `input_rpm` before the re-prompt. The accepted value
  overwrites that 0 before the callback returns, so the model assigns only
  the accepted value.
