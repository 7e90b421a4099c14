/** The on-robot control blocks of working_spike.py: actuation scaling,
    sensor fallbacks, line follow, gyro turn, gyro follow and wait_until.
    Every sensor is a sequence of readings, one per loop pass, and every
    actuator call is a Command appended to the returned log. */
module SpikeControl {
  import opened Values
  import opened Helpers

  datatype Port = A | B | C | D | E | F

  const LEFT: Port := A
  const RIGHT: Port := B
  const DEFAULT_SPEED_PCT: int := 50
  const MAX_DPS: int := 1000
  const TURN_TOLERANCE: real := 2.0

  /** One call into a sensor driver: a number, None, or an exception. */
  datatype Reading = Value(r: real) | NoValue | Failed

  /** One call of a caller-supplied predicate: its truthiness, or an exception. */
  datatype CallOutcome = Returned(truthy: bool) | Raised

  /** The actuator calls the blocks issue. */
  datatype Command =
    | MotorRun(port: Port, dps: int)          // motor.run(port, velocity)
    | PairMove(steering: int, velocity: int)  // motor_pair.move(pair, steering, velocity=...)
    | PairStop                                // motor_pair.stop(pair)
    | DutyCycle(port: Port, pct: int)         // motor.set_duty_cycle(port, power)
    | PairStart(steering: int)                // motor_pair.start(steering=...)
    | SetDefaultSpeed(speed: int)             // motor_pair.set_default_speed(speed)

  // ---------------- actuation ----------------

  /** `pct_to_dps` on a number: the percentage clamped to [-100, 100], scaled
      to +-MAX_DPS and truncated toward zero. */
  function DpsOf(pct: real): (dps: int)
    ensures -MAX_DPS <= dps <= MAX_DPS
    ensures -100.0 <= pct <= 100.0 ==> dps == Trunc(pct * 10.0)
    ensures pct >= 100.0 ==> dps == MAX_DPS
    ensures pct <= -100.0 ==> dps == -MAX_DPS
  {
    Trunc(Clamp(pct, -100.0, 100.0) * MAX_DPS as real / 100.0)
  }

  /** `pct_to_dps(pct)` on any value: None or an unparsable value is 0 %. */
  function PctToDps(pct: Option<Value>): (dps: int)
    ensures -MAX_DPS <= dps <= MAX_DPS
    ensures pct.None? ==> dps == 0
    ensures pct.Some? && FloatOf(pct.value).None? ==> dps == 0
    ensures pct.Some? && FloatOf(pct.value).Some? ==> dps == DpsOf(FloatOf(pct.value).value)
  {
    DpsOf(ToFloat(pct))
  }

  /** Reversing the percentage reverses the wheel speed exactly. */
  lemma DpsOdd(pct: real)
    ensures DpsOf(-pct) == -DpsOf(pct)
  {
    ClampOdd(pct, 100.0);
    TruncOdd(Clamp(pct, -100.0, 100.0) * MAX_DPS as real / 100.0);
  }

  /** `pair_move_steering(steering, speed_pct)`: steering truncated into
      [-100, 100], speed mapped to degrees per second. */
  function PairMoveSteering(steering: real, speedPct: real): (c: Command)
    ensures c.PairMove?
    ensures -100 <= c.steering <= 100 && -MAX_DPS <= c.velocity <= MAX_DPS
    ensures c.velocity == DpsOf(speedPct)
    ensures -100.0 <= steering <= 100.0 ==> c.steering == Trunc(steering)
    ensures steering >= 100.0 ==> c.steering == 100
    ensures steering <= -100.0 ==> c.steering == -100
  {
    PairMove(Trunc(Clamp(steering, -100.0, 100.0)), DpsOf(speedPct))
  }

  // ---------------- sensors ----------------

  /** `yaw_deg()`: the tilt sensor reports decidegrees with the opposite sign;
      a failed read is heading 0. */
  function YawDeg(rd: Reading): (y: real)
    ensures -180.0 < y <= 180.0
    ensures rd.Value? ==> Congruent360(y, rd.r * -0.1)
    ensures !rd.Value? ==> y == 0.0
  {
    match rd
    case Value(dd) => Normalize(dd * -0.1)
    case _ => 0.0  // float(None) raises too; both are caught
  }

  /** `get_reflected_light(p, default=50)`. */
  function ReflectedLight(rd: Reading): (v: real)
    ensures rd.Value? ==> v == rd.r
    ensures !rd.Value? ==> v == 50.0
  {
    if rd.Value? then rd.r else 50.0
  }

  /** `degrees_counted_safe(p)`: None and failures count as 0 degrees. */
  function DegreesCounted(rd: Reading): (v: real)
    ensures rd.Value? ==> v == rd.r
    ensures !rd.Value? ==> v == 0.0
  {
    if rd.Value? then rd.r else 0.0
  }

  // ---------------- line follow ----------------

  datatype LineSettings = LineSettings(speed: real, gain: real, target: real, lineside: int)

  /** The argument defaults of the line-follow block: speed 50, gain 1,
      target 50 and line side 1 for arguments that are None or "". */
  function LineSettingsOf(speed: Option<Value>, gain: Option<Value>, target: Option<Value>,
                          lineside: Option<Value>): (s: LineSettings)
    ensures s.speed == (if Blank(speed) then 50.0 else ToFloat(speed))
    ensures s.gain == (if Blank(gain) then 1.0 else ToFloat(gain))
    ensures s.target == (if Blank(target) then 50.0 else ToFloat(target))
    ensures s.lineside == (if Blank(lineside) then 1 else Trunc(ToFloat(lineside)))
  {
    LineSettings(
      if Blank(speed) then 50.0 else ToFloat(speed),
      if Blank(gain) then 1.0 else ToFloat(gain),
      if Blank(target) then 50.0 else ToFloat(target),
      if Blank(lineside) then 1 else Trunc(ToFloat(lineside)))
  }

  /** The steering error: positive when the light is on the followed side. */
  function LineError(s: LineSettings, reflect: real): (err: real)
    ensures s.lineside == 1 ==> err == (s.target - reflect) * s.gain
    ensures s.lineside != 1 ==> err == (reflect - s.target) * s.gain
  {
    if s.lineside == 1 then (s.target - reflect) * s.gain else (reflect - s.target) * s.gain
  }

  /** Flipping the line side flips the sign of the error. */
  lemma LineErrorSides(s: LineSettings, reflect: real)
    ensures LineError(s.(lineside := 1), reflect) == -LineError(s.(lineside := 0), reflect)
  {
  }

  /** One wheel power: `int(clamp(p, -100, 100))`. */
  function Power(p: real): (w: int)
    ensures -100 <= w <= 100
    ensures -100.0 <= p <= 100.0 ==> w == Trunc(p)
    ensures p >= 100.0 ==> w == 100
    ensures p <= -100.0 ==> w == -100
  {
    Trunc(Clamp(p, -100.0, 100.0))
  }

  /** The wheel powers left = -(speed + err) and right = speed - err; the left
      motor is mounted mirrored, hence its sign. */
  function WheelPowers(speed: real, err: real): (w: (int, int))
    ensures -100 <= w.0 <= 100 && -100 <= w.1 <= 100
    ensures w.0 == Power(-(speed + err)) && w.1 == Power(speed - err)
  {
    (Power(-(speed + err)), Power(speed - err))
  }

  /** On the line edge (no error) both wheels turn at the same speed in the
      same direction of travel, i.e. with opposite motor signs. */
  lemma WheelPowersOnLine(speed: real)
    ensures WheelPowers(speed, 0.0).0 == -WheelPowers(speed, 0.0).1
  {
    ClampOdd(speed, 100.0);
    TruncOdd(Clamp(speed, -100.0, 100.0));
  }

  lemma TruncMonotone(a: real, b: real)
    requires a <= b
    ensures Trunc(a) <= Trunc(b)
  {
  }

  /** A larger error slows the right wheel and speeds the mirrored left one:
      both motor powers decrease as the error grows. */
  lemma WheelPowersMonotone(speed: real, e1: real, e2: real)
    requires e1 <= e2
    ensures WheelPowers(speed, e2).0 <= WheelPowers(speed, e1).0
    ensures WheelPowers(speed, e2).1 <= WheelPowers(speed, e1).1
  {
    ClampMonotone(-(speed + e2), -(speed + e1), -100.0, 100.0);
    TruncMonotone(Clamp(-(speed + e2), -100.0, 100.0), Clamp(-(speed + e1), -100.0, 100.0));
    ClampMonotone(speed - e2, speed - e1, -100.0, 100.0);
    TruncMonotone(Clamp(speed - e2, -100.0, 100.0), Clamp(speed - e1, -100.0, 100.0));
  }

  /** `line_follow_speed_gain_target_lineside_port`: one control step, two
      motor.run commands with the wheel powers mapped to degrees per second. */
  function LineFollow(speed: Option<Value>, gain: Option<Value>, target: Option<Value>,
                      lineside: Option<Value>, reflect: Reading): (cmds: seq<Command>)
    ensures |cmds| == 2 && cmds[0].MotorRun? && cmds[1].MotorRun?
    ensures cmds[0].port == LEFT && cmds[1].port == RIGHT
    ensures var s := LineSettingsOf(speed, gain, target, lineside);
            var w := WheelPowers(s.speed, LineError(s, ReflectedLight(reflect)));
            cmds[0].dps == DpsOf(w.0 as real) && cmds[1].dps == DpsOf(w.1 as real)
    ensures -MAX_DPS <= cmds[0].dps <= MAX_DPS && -MAX_DPS <= cmds[1].dps <= MAX_DPS
  {
    var s := LineSettingsOf(speed, gain, target, lineside);
    var err := LineError(s, ReflectedLight(reflect));
    var w := WheelPowers(s.speed, err);
    [MotorRun(LEFT, DpsOf(w.0 as real)), MotorRun(RIGHT, DpsOf(w.1 as real))]
  }

  /** With the reflectance on target the two motors get opposite velocities. */
  lemma LineFollowOnTarget(speed: Option<Value>, gain: Option<Value>, target: Option<Value>,
                           lineside: Option<Value>, reflect: Reading)
    requires ReflectedLight(reflect) == LineSettingsOf(speed, gain, target, lineside).target
    ensures var cmds := LineFollow(speed, gain, target, lineside, reflect);
            cmds[0].dps == -cmds[1].dps
  {
    var s := LineSettingsOf(speed, gain, target, lineside);
    assert LineError(s, ReflectedLight(reflect)) == 0.0;
    WheelPowersOnLine(s.speed);
    DpsOdd(WheelPowers(s.speed, 0.0).1 as real);
  }

  // ---------------- wait_until ----------------

  /** One pass of a polling loop: the predicate's outcome and the time elapsed
      since the loop started. */
  datatype Poll = Poll(pred: CallOutcome, elapsedMs: int)

  datatype WaitResult = Satisfied(at: nat) | TimedOut(at: nat) | StillWaiting

  predicate PredHolds(p: Poll)
  {
    p.pred == Returned(true)
  }

  predicate Expired(p: Poll, timeout: Option<real>)
  {
    timeout.Some? && p.elapsedMs >= Trunc(timeout.value * 1000.0)
  }

  predicate PollEnds(p: Poll, timeout: Option<real>)
  {
    PredHolds(p) || Expired(p, timeout)
  }

  /** `wait_until(pred, timeout)`: True at the first pass whose predicate
      holds, False at the first pass past the timeout; an exception from the
      predicate is "not yet". StillWaiting: the loop is still polling when the
      given passes run out. */
  method WaitUntil(polls: seq<Poll>, timeout: Option<real>) returns (r: WaitResult)
    ensures r.Satisfied? ==> r.at < |polls| && PredHolds(polls[r.at])
    ensures r.TimedOut? ==> r.at < |polls| && !PredHolds(polls[r.at]) && Expired(polls[r.at], timeout)
    ensures r.TimedOut? ==> timeout.Some?
    ensures r.Satisfied? || r.TimedOut? ==> forall j :: 0 <= j < r.at ==> !PollEnds(polls[j], timeout)
    ensures r.StillWaiting? ==> forall j :: 0 <= j < |polls| ==> !PollEnds(polls[j], timeout)
  {
    var i := 0;
    while i < |polls|
      invariant 0 <= i <= |polls|
      invariant forall j :: 0 <= j < i ==> !PollEnds(polls[j], timeout)
    {
      match polls[i].pred {
        case Returned(t) =>
          if t {
            return Satisfied(i);
          }
        case Raised =>
      }
      if timeout.Some? {
        if polls[i].elapsedMs >= Trunc(timeout.value * 1000.0) {
          return TimedOut(i);
        }
      }
      i := i + 1;
    }
    r := StillWaiting;
  }

  // ---------------- gyro turn ----------------

  datatype TurnSettings = TurnSettings(steering: int, target: real, speed: int)

  /** Argument defaults of the gyro-turn block: steering 0, heading 0, speed 50;
      the target heading is normalized. */
  function TurnSettingsOf(steering: Option<Value>, heading: Option<Value>, speed: Option<Value>): (s: TurnSettings)
    ensures -180.0 < s.target <= 180.0
    ensures s.steering == (if Blank(steering) then 0 else Trunc(ToFloat(steering)))
    ensures s.target == Normalize(if Blank(heading) then 0.0 else ToFloat(heading))
    ensures s.speed == (if Blank(speed) then DEFAULT_SPEED_PCT else Trunc(ToFloat(speed)))
  {
    TurnSettings(
      if Blank(steering) then 0 else Trunc(ToFloat(steering)),
      Normalize(if Blank(heading) then 0.0 else ToFloat(heading)),
      if Blank(speed) then DEFAULT_SPEED_PCT else Trunc(ToFloat(speed)))
  }

  /** The stop predicate of the gyro turn: within 2 degrees of the target. */
  predicate TurnReached(target: real, rd: Reading): (b: bool)
    // a rotation of at most 2 degrees takes the yaw onto the target
    ensures b ==> exists d :: -TURN_TOLERANCE <= d <= TURN_TOLERANCE && RotatesOnto(YawDeg(rd), d, target)
  {
    assert RotatesOnto(YawDeg(rd), ShortestError(target, YawDeg(rd)), target);
    Abs(ShortestError(target, YawDeg(rd))) <= TURN_TOLERANCE
  }

  /** The stop predicate measures distance on the circle: any yaw from which
      a rotation of at most 2 degrees reaches the target satisfies it. */
  lemma TurnReachedOnCircle(target: real, rd: Reading, d: real)
    requires -TURN_TOLERANCE <= d <= TURN_TOLERANCE
    requires Congruent360(YawDeg(rd) + d, target)
    ensures TurnReached(target, rd)
  {
    ShortestErrorIsShortest(target, YawDeg(rd), d);
  }

  /** `gyro_turn_steering_heading_speed`: start moving with the given steering,
      wait until the yaw is within tolerance of the target, then stop. */
  method GyroTurn(steering: Option<Value>, heading: Option<Value>, speed: Option<Value>, yaws: seq<Reading>)
    returns (cmds: seq<Command>, stoppedAt: Option<nat>)
    ensures var s := TurnSettingsOf(steering, heading, speed);
            |cmds| >= 1 && cmds[0] == PairMoveSteering(s.steering as real, s.speed as real)
    ensures stoppedAt.Some? ==>
              stoppedAt.value < |yaws| && cmds == cmds[..1] + [PairStop] &&
              TurnReached(TurnSettingsOf(steering, heading, speed).target, yaws[stoppedAt.value]) &&
              forall j :: 0 <= j < stoppedAt.value ==>
                !TurnReached(TurnSettingsOf(steering, heading, speed).target, yaws[j])
    ensures stoppedAt.None? ==>
              |cmds| == 1 &&
              forall j :: 0 <= j < |yaws| ==> !TurnReached(TurnSettingsOf(steering, heading, speed).target, yaws[j])
  {
    var s := TurnSettingsOf(steering, heading, speed);
    cmds := [PairMoveSteering(s.steering as real, s.speed as real)];
    var polls := seq(|yaws|, i requires 0 <= i < |yaws| => Poll(Returned(TurnReached(s.target, yaws[i])), 0));
    var w := WaitUntil(polls, None);
    if w.Satisfied? {
      forall j | 0 <= j < w.at ensures !TurnReached(s.target, yaws[j]) {
        assert !PollEnds(polls[j], None);
      }
      cmds := cmds + [PairStop];
      stoppedAt := Some(w.at);
    } else {
      stoppedAt := None;
      forall j | 0 <= j < |yaws| ensures !TurnReached(s.target, yaws[j]) {
        assert !PollEnds(polls[j], None);
      }
    }
  }

  // ---------------- gyro follow ----------------

  datatype FollowSettings = FollowSettings(target: real, kP: real, speed: int, distance: Option<real>)

  /** Argument defaults of the gyro-follow block: heading 0, gain 1, speed 50,
      and no distance limit when the distance is None or "". */
  function FollowSettingsOf(heading: Option<Value>, gain: Option<Value>, speed: Option<Value>,
                            distance: Option<Value>): (s: FollowSettings)
    ensures -180.0 < s.target <= 180.0
    ensures s.target == Normalize(if Blank(heading) then 0.0 else ToFloat(heading))
    ensures s.kP == (if Blank(gain) then 1.0 else ToFloat(gain))
    ensures s.speed == (if Blank(speed) then DEFAULT_SPEED_PCT else Trunc(ToFloat(speed)))
    ensures s.distance == (if Blank(distance) then None else Some(ToFloat(distance)))
  {
    FollowSettings(
      Normalize(if Blank(heading) then 0.0 else ToFloat(heading)),
      if Blank(gain) then 1.0 else ToFloat(gain),
      if Blank(speed) then DEFAULT_SPEED_PCT else Trunc(ToFloat(speed)),
      if Blank(distance) then None else Some(ToFloat(distance)))
  }

  /** The proportional steering of one follow pass: `int(clamp(err * kP))`. */
  function FollowSteering(target: real, kP: real, yaw: real): (st: int)
    ensures -100 <= st <= 100
    ensures var u := ShortestError(target, yaw) * kP;
            (-100.0 <= u <= 100.0 ==> st == Trunc(u)) &&
            (u >= 100.0 ==> st == 100) && (u <= -100.0 ==> st == -100)
    ensures st > 0 ==> ShortestError(target, yaw) * kP >= 1.0
    ensures st < 0 ==> ShortestError(target, yaw) * kP <= -1.0
  {
    Power(ShortestError(target, yaw) * kP)
  }

  /** One pass's reading of the sensors and of the condition. */
  datatype Sample = Sample(yaw: Reading, encoder: Reading, condition: CallOutcome)

  /** The exit test: distance reached on the right encoder OR the condition
      returned something true. A raising or non-callable condition is false. */
  predicate FollowDone(s: FollowSettings, callable: bool, smp: Sample): (b: bool)
    ensures callable && smp.condition == Returned(true) ==> b
    // a condition that is not callable, raises or returns something false leaves only the distance exit
    ensures !callable || smp.condition != Returned(true) ==>
              (b <==> s.distance.Some? && Abs(DegreesCounted(smp.encoder)) >= s.distance.value)
    // an encoder that gives no reading counts 0 degrees and never reaches a positive distance
    ensures !smp.encoder.Value? && s.distance.Some? && s.distance.value > 0.0 && b ==>
              callable && smp.condition == Returned(true)
  {
    (s.distance.Some? && Abs(DegreesCounted(smp.encoder)) >= s.distance.value)
    || (callable && smp.condition == Returned(true))
  }

  /** Without a distance and without a callable condition nothing ends the loop. */
  lemma FollowNeverStops(s: FollowSettings, smp: Sample)
    requires s.distance.None?
    ensures !FollowDone(s, false, smp)
  {
  }

  /** The command of one follow pass. */
  function FollowCommand(s: FollowSettings, yaw: Reading): (c: Command)
    ensures c.PairMove? && c.velocity == DpsOf(s.speed as real)
    // on heading the robot drives straight; otherwise it steers towards the target
    ensures ShortestError(s.target, YawDeg(yaw)) == 0.0 ==> c.steering == 0
    ensures c.steering > 0 ==> ShortestError(s.target, YawDeg(yaw)) * s.kP >= 1.0
    ensures c.steering < 0 ==> ShortestError(s.target, YawDeg(yaw)) * s.kP <= -1.0
  {
    TruncOfInt(FollowSteering(s.target, s.kP, YawDeg(yaw)));
    PairMoveSteering(FollowSteering(s.target, s.kP, YawDeg(yaw)) as real, s.speed as real)
  }

  /** The steering of a follow pass reaches the motor pair unchanged. */
  lemma FollowCommandIsMove(s: FollowSettings, yaw: Reading)
    ensures FollowCommand(s, yaw) == PairMove(FollowSteering(s.target, s.kP, YawDeg(yaw)), DpsOf(s.speed as real))
  {
    TruncOfInt(FollowSteering(s.target, s.kP, YawDeg(yaw)));
  }

  /** `gyro_follow_heading_gain_speed_distance_condition`: every pass issues
      the proportional steering command and then tests the exits; the loop
      stops at the first pass where an exit holds, and then stops the motors. */
  method GyroFollow(heading: Option<Value>, gain: Option<Value>, speed: Option<Value>,
                    distance: Option<Value>, conditionCallable: bool, samples: seq<Sample>)
    returns (cmds: seq<Command>, stoppedAt: Option<nat>)
    ensures stoppedAt.Some? ==> stoppedAt.value < |samples|
    ensures |cmds| == (if stoppedAt.Some? then stoppedAt.value + 2 else |samples|)
    ensures forall i :: 0 <= i < |cmds| && (stoppedAt.None? || i <= stoppedAt.value) ==>
              cmds[i] == FollowCommand(FollowSettingsOf(heading, gain, speed, distance), samples[i].yaw)
    ensures stoppedAt.Some? ==>
              cmds[stoppedAt.value + 1] == PairStop &&
              FollowDone(FollowSettingsOf(heading, gain, speed, distance), conditionCallable, samples[stoppedAt.value])
    ensures forall j :: 0 <= j < |samples| && (stoppedAt.None? || j < stoppedAt.value) ==>
              !FollowDone(FollowSettingsOf(heading, gain, speed, distance), conditionCallable, samples[j])
  {
    var s := FollowSettingsOf(heading, gain, speed, distance);
    cmds := [];
    stoppedAt := None;
    var i := 0;
    while i < |samples|
      invariant 0 <= i <= |samples| && |cmds| == i
      invariant forall k :: 0 <= k < i ==> cmds[k] == FollowCommand(s, samples[k].yaw)
      invariant forall j :: 0 <= j < i ==> !FollowDone(s, conditionCallable, samples[j])
    {
      var current := YawDeg(samples[i].yaw);
      // int(clamp(shortest_error(target, current) * kP, -100, 100))
      var steeringCmd := FollowSteering(s.target, s.kP, current);
      cmds := cmds + [PairMoveSteering(steeringCmd as real, s.speed as real)];
      var done := false;
      if s.distance.Some? {
        if Abs(DegreesCounted(samples[i].encoder)) >= s.distance.value {
          done := true;
        }
      }
      if conditionCallable {
        match samples[i].condition {
          case Returned(t) =>
            if t {
              done := true;
            }
          case Raised =>
        }
      }
      assert done == FollowDone(s, conditionCallable, samples[i]);
      if done {
        cmds := cmds + [PairStop];
        stoppedAt := Some(i);
        return;
      }
      i := i + 1;
    }
  }
}
