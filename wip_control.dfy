/** The control blocks of WIP_Spike.py where they differ from working_spike.py:
    the yaw reading and its fallback, line follow driving the motors by duty
    cycle, the gyro-turn tolerance test, and gyro follow through
    motor_pair.start with a default speed. Helpers, argument defaults and the
    steering law are the same code in both files and are shared. */
module WipControl {
  import opened Values
  import opened Helpers
  import opened SpikeControl

  /** `yaw()`: the hub's yaw face reading normalized; None or an exception
      gives heading 0. */
  function WipYaw(rd: Reading): (y: real)
    ensures -180.0 < y <= 180.0
    ensures rd.Value? ==> Congruent360(y, rd.r)
    ensures rd.Value? && -180.0 < rd.r <= 180.0 ==> y == rd.r
    ensures !rd.Value? ==> y == 0.0
  {
    match rd
    case Value(v) =>
      if -180.0 < v <= 180.0 then NormalizeFixesCanonical(v); Normalize(v) else Normalize(v)
    case _ => 0.0
  }

  /** `line_follow_speed_gain_target_lineside_port`: the reflectance is coerced
      with _to_float, so a sensor returning None reads as 0 (not 50), and the
      powers go to the motors as duty cycles, without conversion. */
  function WipLineFollow(speed: Option<Value>, gain: Option<Value>, target: Option<Value>,
                         lineside: Option<Value>, reflect: Option<Value>): (cmds: seq<Command>)
    ensures |cmds| == 2 && cmds[0].DutyCycle? && cmds[1].DutyCycle?
    ensures cmds[0].port == A && cmds[1].port == B
    ensures -100 <= cmds[0].pct <= 100 && -100 <= cmds[1].pct <= 100
    ensures var s := LineSettingsOf(speed, gain, target, lineside);
            (cmds[0].pct, cmds[1].pct) == WheelPowers(s.speed, LineError(s, ToFloat(reflect)))
    ensures reflect.None? ==>
              var s := LineSettingsOf(speed, gain, target, lineside);
              (cmds[0].pct, cmds[1].pct) == WheelPowers(s.speed, LineError(s, 0.0))
  {
    var s := LineSettingsOf(speed, gain, target, lineside);
    var reflectV := ToFloat(reflect);
    var w := WheelPowers(s.speed, LineError(s, reflectV));
    [DutyCycle(A, w.0), DutyCycle(B, w.1)]
  }

  /** With the reflectance on target the duty cycles are opposite. */
  lemma WipLineFollowOnTarget(speed: Option<Value>, gain: Option<Value>, target: Option<Value>,
                              lineside: Option<Value>, reflect: Option<Value>)
    requires ToFloat(reflect) == LineSettingsOf(speed, gain, target, lineside).target
    ensures var cmds := WipLineFollow(speed, gain, target, lineside, reflect);
            cmds[0].pct == -cmds[1].pct
  {
    var s := LineSettingsOf(speed, gain, target, lineside);
    assert LineError(s, ToFloat(reflect)) == 0.0;
    WheelPowersOnLine(s.speed);
  }

  /** The tolerance test of the WIP gyro turn, on the WIP yaw reading. */
  predicate WipTurnReached(target: real, rd: Reading): (b: bool)
    // a rotation of at most 2 degrees takes the WIP yaw onto the target
    ensures b ==> exists d :: -TURN_TOLERANCE <= d <= TURN_TOLERANCE && RotatesOnto(WipYaw(rd), d, target)
  {
    assert RotatesOnto(WipYaw(rd), ShortestError(target, WipYaw(rd)), target);
    Abs(ShortestError(target, WipYaw(rd))) <= TURN_TOLERANCE
  }

  /** The test is wrap-aware: a yaw within 2 degrees of the target on the
      circle passes it, even across the +-180 seam. */
  lemma WipTurnReachedOnCircle(target: real, rd: Reading, d: real)
    requires -TURN_TOLERANCE <= d <= TURN_TOLERANCE
    requires Congruent360(WipYaw(rd) + d, target)
    ensures WipTurnReached(target, rd)
  {
    ShortestErrorIsShortest(target, WipYaw(rd), d);
  }

  /** One pass's readings: yaw, the raw right-encoder position (read without a
      fallback), and the condition's outcome. */
  datatype WipSample = WipSample(yaw: Reading, encoder: real, condition: CallOutcome)

  predicate WipFollowDone(s: FollowSettings, callable: bool, smp: WipSample): (b: bool)
    ensures callable && smp.condition == Returned(true) ==> b
    // a condition that is not callable, raises or returns something false leaves only the distance exit
    ensures !callable || smp.condition != Returned(true) ==>
              (b <==> s.distance.Some? && Abs(smp.encoder) >= s.distance.value)
  {
    (s.distance.Some? && Abs(smp.encoder) >= s.distance.value)
    || (callable && smp.condition == Returned(true))
  }

  /** `gyro_follow_heading_gain_speed_distance_condition`: the default speed is
      set once, every pass restarts the pair with the proportional steering,
      and the loop stops at the first pass where distance OR condition holds;
      a raising condition is ignored. */
  method WipGyroFollow(heading: Option<Value>, gain: Option<Value>, speed: Option<Value>,
                       distance: Option<Value>, conditionCallable: bool, samples: seq<WipSample>)
    returns (cmds: seq<Command>, stoppedAt: Option<nat>)
    ensures stoppedAt.Some? ==> stoppedAt.value < |samples|
    ensures |cmds| == 1 + (if stoppedAt.Some? then stoppedAt.value + 2 else |samples|)
    ensures cmds[0] == SetDefaultSpeed(FollowSettingsOf(heading, gain, speed, distance).speed)
    ensures forall i :: 0 <= i < |samples| && (stoppedAt.None? || i <= stoppedAt.value) ==>
              var s := FollowSettingsOf(heading, gain, speed, distance);
              cmds[i + 1] == PairStart(FollowSteering(s.target, s.kP, WipYaw(samples[i].yaw)))
    ensures stoppedAt.Some? ==>
              cmds[stoppedAt.value + 2] == PairStop &&
              WipFollowDone(FollowSettingsOf(heading, gain, speed, distance), conditionCallable, samples[stoppedAt.value])
    ensures forall j :: 0 <= j < |samples| && (stoppedAt.None? || j < stoppedAt.value) ==>
              !WipFollowDone(FollowSettingsOf(heading, gain, speed, distance), conditionCallable, samples[j])
  {
    var s := FollowSettingsOf(heading, gain, speed, distance);
    cmds := [SetDefaultSpeed(s.speed)];
    stoppedAt := None;
    var i := 0;
    while i < |samples|
      invariant 0 <= i <= |samples| && |cmds| == i + 1
      invariant cmds[0] == SetDefaultSpeed(s.speed)
      invariant forall k :: 0 <= k < i ==> cmds[k + 1] == PairStart(FollowSteering(s.target, s.kP, WipYaw(samples[k].yaw)))
      invariant forall j :: 0 <= j < i ==> !WipFollowDone(s, conditionCallable, samples[j])
    {
      var current := WipYaw(samples[i].yaw);
      // int(clamp(shortest_error(target, current) * kP, -100, 100))
      var steeringCmd := FollowSteering(s.target, s.kP, current);
      cmds := cmds + [PairStart(steeringCmd)];
      var done := false;
      if s.distance.Some? {
        if Abs(samples[i].encoder) >= s.distance.value {
          done := true;
        }
      }
      if conditionCallable {
        match samples[i].condition {
          case Returned(t) =>
            if t {
              done := true;
            }
          case Raised =>
        }
      }
      assert done == WipFollowDone(s, conditionCallable, samples[i]);
      if done {
        cmds := cmds + [PairStop];
        stoppedAt := Some(i);
        return;
      }
      i := i + 1;
    }
  }
}
