/**
 * The Robot of main.cpp: the enable transition that reads the target, the
 * enabled tick that ramps, commands the motor and logs, and the disabled
 * tick that only sends a neutral command.
 *
 * The behaviour is given twice: as a pure transition function over
 * RobotState (Step, and Run over a sequence of host callbacks), about which
 * the session-level lemmas are proved; and as the class Robot, whose methods
 * update their fields in place and are proved to perform exactly Step.
 */
module RobotModel {
  import opened Wrappers
  import opened Ramp
  import opened Units
  import opened Telemetry
  import opened TargetInput

  /** The control slot the velocity request selects. */
  const VelocitySlot: nat := 0

  /** The last request sent to the motor controller. */
  datatype Command =
    | NoCommand                           // nothing sent yet
    | Velocity(rps: real, slot: nat)      // closed-loop velocity request
    | NeutralOut                          // fail-safe neutral output

  /** The robot's observable state. */
  datatype RobotState = RobotState(
    inputRpm: real,      // target entered by the user
    currentRpm: real,    // ramped, commanded velocity
    rampRate: real,      // RPM per second
    log: seq<Sample>,    // the telemetry file, record by record
    command: Command)    // last request sent to the motor

  /** One callback from the host, with what the environment supplies to it. */
  datatype Event =
    | Enable(attempts: seq<Option<real>>)          // EnabledInit with its read attempts
    | EnabledTick(measuredRps: real, seconds: real) // EnabledPeriodic with the motor reading and the clock
    | DisabledTick                                  // DisabledPeriodic

  /** The state of a freshly constructed robot. */
  const Initial := RobotState(0.0, 0.0, DefaultRampRate, [], NoCommand)

  /** The record an enabled tick appends. */
  function Record(measuredRps: real, seconds: real): Sample
  {
    Sample(seconds, RpsToRpm(measuredRps))
  }

  function Step(s: RobotState, e: Event): RobotState
  {
    match e
    case Enable(attempts) =>
      (match FirstNumeric(attempts)
       case Some(k) => s.(inputRpm := attempts[k].value)
       case None => s)
    case EnabledTick(measuredRps, seconds) =>
      var next := Advance(s.currentRpm, s.inputRpm, UpStep(s.rampRate), DownStep(s.rampRate));
      s.(currentRpm := next,
         command := Velocity(RpmToRps(next), VelocitySlot),
         log := s.log + [Record(measuredRps, seconds)])
    case DisabledTick =>
      s.(command := NeutralOut)
  }

  /**
   * The state after the host delivers `events` in order. The sequences range
   * over more traces than the program can produce: an `Enable` whose
   * attempts hold no number leaves the old target in place and later ticks
   * ramp toward it, whereas Robot::EnabledInit never returns without a
   * number. The session lemmas below hold for those traces too.
   */
  function Run(s: RobotState, events: seq<Event>): RobotState
    decreases |events|
  {
    if events == [] then s else Run(Step(s, events[0]), events[1..])
  }

  /** The records the enabled ticks among `events` contribute, in order. */
  function TickRecords(events: seq<Event>): seq<Sample>
  {
    if events == [] then []
    else
      (match events[0]
       case EnabledTick(measuredRps, seconds) => [Record(measuredRps, seconds)]
       case _ => [])
      + TickRecords(events[1..])
  }

  /** The number of enabled ticks among `events`. */
  function EnabledTicks(events: seq<Event>): nat
  {
    if events == [] then 0
    else (if events[0].EnabledTick? then 1 else 0) + EnabledTicks(events[1..])
  }

  predicate NoEnable(events: seq<Event>)
  {
    forall i :: 0 <= i < |events| ==> !events[i].Enable?
  }

  predicate OnlyEnabledTicks(events: seq<Event>)
  {
    forall i :: 0 <= i < |events| ==> events[i].EnabledTick?
  }

  predicate OnlyDisabledTicks(events: seq<Event>)
  {
    forall i :: 0 <= i < |events| ==> events[i] == DisabledTick
  }

  /** Each enabled tick contributes exactly one record, and nothing else does. */
  lemma {:induction false} TickRecordsCount(events: seq<Event>)
    ensures |TickRecords(events)| == EnabledTicks(events)
  {
    if events != [] {
      TickRecordsCount(events[1..]);
    }
  }

  /**
   * The log is append-only: the records present before are kept unchanged,
   * and the enabled ticks append their records in order.
   */
  lemma {:induction false} RunAppendsRecords(s: RobotState, events: seq<Event>)
    ensures Run(s, events).log == s.log + TickRecords(events)
    decreases |events|
  {
    if events != [] {
      RunAppendsRecords(Step(s, events[0]), events[1..]);
    }
  }

  /** If the clock readings supplied to the ticks never go backward, neither does the log's time column. */
  lemma RunKeepsTimeOrder(s: RobotState, events: seq<Event>)
    requires TimesNonDecreasing(s.log)
    requires TimesNonDecreasing(TickRecords(events))
    requires NotBefore(s.log, TickRecords(events))
    ensures TimesNonDecreasing(Run(s, events).log)
  {
    RunAppendsRecords(s, events);
    ConcatKeepsOrder(s.log, TickRecords(events));
  }

  /** The ramp rate is never changed; without an enable transition, neither is the target. */
  lemma {:induction false} RunKeepsSettings(s: RobotState, events: seq<Event>)
    ensures Run(s, events).rampRate == s.rampRate
    ensures NoEnable(events) ==> Run(s, events).inputRpm == s.inputRpm
    decreases |events|
  {
    if events != [] {
      RunKeepsSettings(Step(s, events[0]), events[1..]);
    }
  }

  /** Disabled ticks change nothing but the motor request, which becomes neutral. */
  lemma {:induction false} DisabledTicksHold(s: RobotState, events: seq<Event>)
    requires OnlyDisabledTicks(events) && events != []
    ensures Run(s, events) == s.(command := NeutralOut)
    decreases |events|
  {
    if |events| > 1 {
      DisabledTicksHold(Step(s, events[0]), events[1..]);
    }
  }

  /** An enabled session of `n` ticks follows the ramp for `n` steps toward the entered target. */
  lemma {:induction false} EnabledSessionRamps(s: RobotState, events: seq<Event>)
    requires OnlyEnabledTicks(events)
    ensures Run(s, events).currentRpm
         == Iterate(s.currentRpm, s.inputRpm, UpStep(s.rampRate), DownStep(s.rampRate), |events|)
    ensures Run(s, events).inputRpm == s.inputRpm
    decreases |events|
  {
    if events != [] {
      var up, down := UpStep(s.rampRate), DownStep(s.rampRate);
      EnabledSessionRamps(Step(s, events[0]), events[1..]);
      IterateFirst(s.currentRpm, s.inputRpm, up, down, |events| - 1);
    }
  }

  /**
   * With a positive ramp rate an enabled session is on target exactly when it
   * has lasted at least TicksToReach ticks.
   */
  lemma EnabledSessionConverges(s: RobotState, events: seq<Event>)
    requires OnlyEnabledTicks(events) && s.rampRate > 0.0
    ensures Run(s, events).currentRpm == s.inputRpm
        <==> |events| >= TicksToReach(s.currentRpm, s.inputRpm, UpStep(s.rampRate), DownStep(s.rampRate))
  {
    EnabledSessionRamps(s, events);
    Converges(s.currentRpm, s.inputRpm, UpStep(s.rampRate), DownStep(s.rampRate), |events|);
  }

  /**
   * An enable transition sets the target to the first number entered, keeps
   * the previous target while nothing numeric has been entered, and leaves
   * the ramp state, the log and the motor request as they were.
   */
  lemma EnableTransition(s: RobotState, attempts: seq<Option<real>>)
    ensures var t := Step(s, Enable(attempts));
      && t.currentRpm == s.currentRpm && t.log == s.log && t.command == s.command
      && t.rampRate == s.rampRate
      && (forall k :: (0 <= k < |attempts| && attempts[k].Some? && forall j :: 0 <= j < k ==> attempts[j].None?)
            ==> t.inputRpm == attempts[k].value)
      && ((forall j :: 0 <= j < |attempts| ==> attempts[j].None?) ==> t.inputRpm == s.inputRpm)
  {
  }

  /**
   * The robot itself. Its methods are the host callbacks; each is proved to
   * perform exactly the transition Step describes.
   */
  class Robot {
    var inputRpm: real
    var currentRpm: real
    var rampRate: real
    var log: seq<Sample>
    var command: Command

    function State(): RobotState
      reads this
    {
      RobotState(inputRpm, currentRpm, rampRate, log, command)
    }

    /** Target and ramp state start at zero, the ramp rate at its default. */
    constructor ()
      ensures State() == Initial
    {
      inputRpm := 0.0;
      currentRpm := 0.0;
      rampRate := DefaultRampRate;
      log := [];
      command := NoCommand;
    }

    /**
     * Read attempts in order until one yields a number, and store it as the
     * target. `accepted` is false when `attempts` runs out first (the
     * console would block for more input); then the target is unchanged.
     */
    method EnabledInit(attempts: seq<Option<real>>) returns (accepted: bool, consumed: nat)
      modifies this`inputRpm
      ensures State() == Step(old(State()), Enable(attempts))
      ensures accepted <==> FirstNumeric(attempts).Some?
      ensures accepted ==> (consumed == FirstNumeric(attempts).value + 1
                            && inputRpm == attempts[consumed - 1].value)
      ensures !accepted ==> consumed == |attempts| && inputRpm == old(inputRpm)
    {
      accepted, consumed := false, 0;
      while !accepted && consumed < |attempts|
        invariant consumed <= |attempts|
        invariant forall j :: 0 <= j < consumed - (if accepted then 1 else 0) ==> attempts[j].None?
        invariant accepted ==> 0 < consumed && attempts[consumed - 1] == Some(inputRpm)
        invariant !accepted ==> inputRpm == old(inputRpm)
        decreases |attempts| - consumed
      {
        var attempt := attempts[consumed];
        consumed := consumed + 1;
        if attempt.Some? {
          inputRpm := attempt.value;
          accepted := true;
        }
      }
    }

    /**
     * One enabled tick: ramp toward the target, request the ramped velocity
     * in rotations per second, and log the measured velocity in RPM.
     * `measuredRps` is the controller's velocity reading and `seconds` the
     * steady-clock time since start, both supplied by the environment.
     */
    method EnabledPeriodic(measuredRps: real, seconds: real)
      modifies this`currentRpm, this`command, this`log
      ensures State() == Step(old(State()), EnabledTick(measuredRps, seconds))
      ensures currentRpm == Advance(old(currentRpm), inputRpm, UpStep(rampRate), DownStep(rampRate))
      ensures command == Velocity(RpmToRps(currentRpm), VelocitySlot)
      ensures log == old(log) + [Sample(seconds, RpsToRpm(measuredRps))]
      ensures TimesNonDecreasing(old(log)) && (old(log) == [] || old(log)[|old(log)| - 1].seconds <= seconds)
              ==> TimesNonDecreasing(log)
    {
      var targetRpm := inputRpm;
      if currentRpm < targetRpm {
        currentRpm := currentRpm + UpStep(rampRate);
        if currentRpm > targetRpm {
          currentRpm := targetRpm;
        }
      } else if currentRpm > targetRpm {
        currentRpm := currentRpm - DownStep(rampRate);
        if currentRpm < targetRpm {
          currentRpm := targetRpm;
        }
      }
      var rps := RpmToRps(currentRpm);
      command := Velocity(rps, VelocitySlot);
      var motorRpm := RpsToRpm(measuredRps);
      ghost var before := log;
      log := log + [Sample(seconds, motorRpm)];
      if TimesNonDecreasing(before) && (before == [] || before[|before| - 1].seconds <= seconds) {
        ConcatKeepsOrder(before, [Sample(seconds, motorRpm)]);
      }
    }

    /** One disabled tick: only the neutral request is sent. */
    method DisabledPeriodic()
      modifies this`command
      ensures State() == Step(old(State()), DisabledTick)
      ensures command == NeutralOut
    {
      command := NeutralOut;
    }
  }
}
