/** The simulator of spike_to_pygame.py as it runs: one object holding the
    robot dict (x, y, heading, status) and the stop flag, updated in place by
    the replay loops of `run_instructions` and by the manual-control frame.
    Every method is proved to leave the object in the state the functions of
    module Replay compute, and to keep a robot that starts on the board on
    the board (`Valid`). */
module Simulation {
  import opened Values
  import opened Helpers
  import opened Extraction
  import opened Replay

  class Simulator {
    const cfg: Config
    var x: real
    var y: real
    var heading: real
    var status: Status
    var stopFlag: bool

    function State(): Pose
      reads this
    {
      Pose(x, y, heading, status, stopFlag)
    }

    /** The config is usable and the robot is on the board. */
    predicate Valid()
      reads this
    {
      cfg.Valid() && InBounds(cfg, State())
    }

    /** The robot dict as created, then clamped onto the virtual board. */
    constructor (c: Config, robotX: real, robotY: real)
      ensures cfg == c
      ensures State() == InitialPose(c, robotX, robotY)
      ensures c.Valid() ==> Valid()
    {
      cfg := c;
      x := robotX;
      y := robotY;
      heading := 0.0;
      status := Idle;
      stopFlag := false;
      new;
      x := c.board.ClampX(x);
      y := c.board.ClampY(y);
    }

    /** The animation loop of a gyro_turn: each frame reads the wrapped error,
        snaps onto the target once it is within 1 degree, and otherwise turns
        by one bounded step, keeping the heading mod 360.  The frames shown
        are returned. */
    method AnimateTurn(target: real, rot: real) returns (frames: seq<real>)
      requires rot > 0.0
      modifies this
      ensures frames == TurnTrace(target, old(heading), rot)
      ensures heading == target
      ensures x == old(x) && y == old(y) && status == old(status) && stopFlag == old(stopFlag)
    {
      frames := [];
      while true
        invariant TurnTrace(target, old(heading), rot) == frames + TurnTrace(target, heading, rot)
        invariant x == old(x) && y == old(y) && status == old(status) && stopFlag == old(stopFlag)
        decreases TurnMeasure(TurnError(target, heading), rot)
      {
        var err := Mod360(target - heading + 180.0) - 180.0;
        assert err == TurnError(target, heading);
        if Abs(err) <= 1.0 {
          heading := target;
          return;
        }
        var step := CopySign(if Abs(err) <= rot / 30.0 then Abs(err) else rot / 30.0, err);
        TurnStepError(target, heading, rot);
        heading := Mod360(heading + step);
        frames := frames + [heading];
      }
    }

    /** A gyro_turn record: skipped without a heading; the speed (90 when
        absent or falsy) and the heading go through `float()`; a rotation
        speed of 0 leaves a turn that never ends. */
    method ReplayTurn(target: Option<Value>, speed: Option<Value>) returns (outcome: Outcome, frames: seq<real>)
      requires cfg.Valid()
      modifies this
      ensures After(State(), outcome) == TurnRun(cfg, old(State()), target, speed)
      ensures outcome == Completed && target.Some? && FloatOf(OrElse(speed, Num(90.0))).Some? &&
              TurnRate(cfg, FloatOf(OrElse(speed, Num(90.0))).value) > 0.0 ==>
                frames == TurnTrace(FloatOf(target.value).value, old(heading),
                                    TurnRate(cfg, FloatOf(OrElse(speed, Num(90.0))).value))
      ensures old(Valid()) ==> Valid()
    {
      frames := [];
      if target.None? {
        return Completed, frames;
      }
      var speedDegS := OrElse(speed, Num(90.0));
      var sp := FloatOf(speedDegS);
      if sp.None? {
        return Crashed, frames;
      }
      // abs(float(speed_deg_s)) * speed_scale * run_speed_mult
      var rotSpeed := TurnRate(cfg, sp.value);
      var t := FloatOf(target.value);
      if t.None? {
        return Crashed, frames;
      }
      var err := Mod360(t.value - heading + 180.0) - 180.0;
      assert err == TurnError(t.value, heading);
      if Abs(err) <= 1.0 {
        heading := t.value;
        return Completed, frames;
      }
      if rotSpeed <= 0.0 {
        // copysign(min(|err|, 0), err) is 0: the heading is reduced mod 360
        // and the loop spins on the same error from then on
        heading := Mod360(heading);
        return Hangs, frames;
      }
      frames := AnimateTurn(t.value, rotSpeed);
      return Completed, frames;
    }

    /** The frame loop of a translation: `steps` frames of `dist / steps` mm
        along the heading; leaving the board clamps the robot back, sets
        "Out of bounds", raises the stop flag and ends the move. */
    method Move(dist: real, v: real)
      modifies this
      ensures State() == Translate(cfg, old(State()), dist, v)
      ensures old(Valid()) ==> Valid()
    {
      if Valid() {
        TranslateEnds(cfg, State(), dist, v);
      }
      var steps := StepCount(dist, v);
      var dxMm := dist / steps as real;
      ghost var ddx := SliceDelta(dist, steps, cfg.pixelScale, cfg.cosDeg(heading));
      ghost var ddy := SliceDelta(dist, steps, cfg.pixelScale, cfg.sinDeg(heading));
      var i := 0;
      while i < steps
        invariant 0 <= i <= steps
        invariant heading == old(heading) && status == old(status) && stopFlag == old(stopFlag)
        invariant Slide(cfg.board, old(x), old(y), ddx, ddy, steps) == Slide(cfg.board, x, y, ddx, ddy, steps - i)
      {
        x := x + Shift(dxMm, cfg.pixelScale, cfg.cosDeg(heading));
        y := y + Shift(dxMm, cfg.pixelScale, cfg.sinDeg(heading));
        if x < cfg.board.left || x > cfg.board.right || y < cfg.board.top || y > cfg.board.bottom {
          x := cfg.board.ClampX(x);
          y := cfg.board.ClampY(y);
          status := OutOfBounds;
          stopFlag := true;
          return;
        }
        i := i + 1;
      }
    }

    /** One record of the list, dispatched on its type. */
    method ApplyInstruction(ins: Instruction) returns (outcome: Outcome)
      requires cfg.Valid()
      modifies this
      ensures After(State(), outcome) == Apply(cfg, old(State()), ins)
      ensures old(Valid()) ==> Valid()
    {
      if Valid() {
        ApplyStaysOnBoard(cfg, State(), ins);
      }
      match ins
      case GyroTurn(_, target, speed) =>
        var frames;
        outcome, frames := ReplayTurn(target, speed);
      case GyroFollow(_, _, speed, _, distanceMm, _, _) =>
        var distMm := MmOrZero(distanceMm);
        if distMm == 0.0 {
          return Completed;
        }
        var v := FollowSpeed(cfg, speed);
        if v.None? {
          return Crashed;
        }
        Move(distMm, v.value);
        return Completed;
      case MotorRunForDegrees(_, _, mm, _) =>
        Move(MmOrZero(mm), FallbackSpeed(cfg));
        return Completed;
      case MotorPairMoveForDegrees(_, _, mm) =>
        Move(MmOrZero(mm), FallbackSpeed(cfg));
        return Completed;
      case MotorRunToRel(_, _, _) =>
        return Completed;
      case RawCall(_, _) =>
        return Completed;
    }

    /** `run_instructions`: clear the stop flag, then replay the records in
        order, checking the flag before each; an exception or an endless turn
        ends the replay. */
    method RunInstructions(es: seq<Entry>) returns (outcome: Outcome)
      requires cfg.Valid()
      modifies this
      ensures After(State(), outcome) == RunInstructionsFrom(cfg, old(State()), es)
      ensures old(Valid()) ==> Valid()
    {
      if Valid() {
        RunListStaysOnBoard(cfg, State().(stop := false), es);
      }
      stopFlag := false;
      outcome := Completed;
      var i := 0;
      while i < |es|
        invariant 0 <= i <= |es|
        invariant RunInstructionsFrom(cfg, old(State()), es) == RunList(cfg, State(), es[i..])
      {
        if stopFlag {
          break;
        }
        assert es[i..][0] == es[i] && es[i..][1..] == es[i + 1..];
        var r := ApplyInstruction(es[i].instr);
        if r != Completed {
          return r;
        }
        i := i + 1;
      }
    }

    /** One frame of manual control with the held keys and the frame clock. */
    method ManualStep(c: Controls, clockMs: real)
      modifies this
      ensures State() == ManualFrame(cfg, old(State()), c, clockMs)
      ensures old(Valid()) ==> Valid()
    {
      if Valid() {
        ManualFrameKeepsBoard(cfg, State(), c, clockMs);
      }
      var dt := FrameTime(clockMs);
      if c.forward || c.back || c.left || c.right {
        stopFlag := true;
        if c.left {
          heading := Mod360(heading - ManualRotation(cfg, dt));
        }
        if c.right {
          heading := Mod360(heading + ManualRotation(cfg, dt));
        }
        if c.forward || c.back {
          var distMm := ManualTravel(cfg, dt, c.forward);
          x := x + Shift(distMm, cfg.pixelScale, cfg.cosDeg(heading));
          y := y + Shift(distMm, cfg.pixelScale, cfg.sinDeg(heading));
          x := cfg.board.ClampX(x);
          y := cfg.board.ClampY(y);
        }
      }
    }
  }
}
