/** The pose arithmetic of the simulator in spike_to_pygame.py, as functions
    of the pose: the board clamp, the animated gyro turn, translations sliced
    into frames, the instruction list with its stop flag, and the manual
    control frame.  The class in module Simulation runs the same steps in
    place and is proved to agree with these functions. */
module Replay {
  import opened Values
  import opened Helpers
  import opened Extraction

  /** The status line shown beside the board.  Only Idle and OutOfBounds are
      set by the modelled code; the others belong to the event loop. */
  datatype Status = Idle | Running(name: string) | Manual | Stopped | OutOfBounds

  /** The virtual board rectangle, in pixels. */
  datatype Board = Board(left: real, top: real, right: real, bottom: real)
  {
    predicate Valid()
    {
      left <= right && top <= bottom
    }

    predicate Contains(x: real, y: real)
    {
      left <= x <= right && top <= y <= bottom
    }

    /** On the board and on one of its four edges. */
    predicate OnEdge(x: real, y: real)
    {
      Contains(x, y) && (x == left || x == right || y == top || y == bottom)
    }

    /** `max(left, min(x, right))`. */
    function ClampX(x: real): (r: real)
      ensures Valid() ==> left <= r <= right
      ensures Valid() ==> (x < left ==> r == left) && (right < x ==> r == right) && (left <= x <= right ==> r == x)
    {
      var m := if x <= right then x else right;
      if left >= m then left else m
    }

    /** `max(top, min(y, bottom))`. */
    function ClampY(y: real): (r: real)
      ensures Valid() ==> top <= r <= bottom
      ensures Valid() ==> (y < top ==> r == top) && (bottom < y ==> r == bottom) && (top <= y <= bottom ==> r == y)
    {
      var m := if y <= bottom then y else bottom;
      if top >= m then top else m
    }
  }

  /** The command-line settings the simulator reads, with `cos(radians(h))`
      and `sin(radians(h))` taken as given functions of a heading in degrees. */
  datatype Config = Config(board: Board, speedScale: real, runSpeedMult: real, pixelScale: real,
                           wheelRadius: real, cosDeg: real -> real, sinDeg: real -> real)
  {
    predicate Valid()
    {
      board.Valid() && speedScale > 0.0 && runSpeedMult > 0.0
    }
  }

  /** The shared robot dict together with the stop flag. */
  datatype Pose = Pose(x: real, y: real, heading: real, status: Status, stop: bool)

  predicate InBounds(cfg: Config, p: Pose)
  {
    cfg.board.Contains(p.x, p.y)
  }

  /** The robot as created: at the requested start clamped onto the board,
      heading 0, status Idle. */
  function InitialPose(cfg: Config, robotX: real, robotY: real): (p: Pose)
    ensures cfg.board.Valid() ==> InBounds(cfg, p)
    ensures cfg.board.Contains(robotX, robotY) ==> p.x == robotX && p.y == robotY
    ensures p.heading == 0.0 && p.status == Idle && !p.stop
  {
    Pose(cfg.board.ClampX(robotX), cfg.board.ClampY(robotY), 0.0, Idle, false)
  }

  // ---------------- gyro turn animation ----------------

  /** `(target - cur + 180) % 360 - 180`: the signed error, wrapped into [-180, 180). */
  function TurnError(target: real, heading: real): (e: real)
    ensures -180.0 <= e < 180.0
    ensures Congruent360(e, target - heading)
  {
    var m := Mod360(target - heading + 180.0);
    CongruentShift(m, target - heading + 180.0, -180.0);
    m - 180.0
  }

  /** `math.copysign(m, s)`: the magnitude of m with the sign of s. */
  function CopySign(m: real, s: real): (r: real)
    ensures Abs(r) == Abs(m)
    ensures s < 0.0 ==> r <= 0.0
    ensures s >= 0.0 ==> r >= 0.0
  {
    if s < 0.0 then -Abs(m) else Abs(m)
  }

  /** `copysign(min(abs(err), rot / 30), err)`: at most one frame's worth of
      rotation, never more than the error, towards the target. */
  function TurnStep(err: real, rot: real): (step: real)
    ensures rot >= 0.0 ==> Abs(step) <= Abs(err) && Abs(step) <= rot / 30.0
    ensures rot >= 0.0 ==> Abs(step) == Abs(err) || Abs(step) == rot / 30.0
    ensures (err < 0.0 ==> step <= 0.0) && (err >= 0.0 ==> step >= 0.0)
  {
    CopySign(if Abs(err) <= rot / 30.0 then Abs(err) else rot / 30.0, err)
  }

  /** An upper bound on the frames left before the turn snaps to its target. */
  function TurnMeasure(err: real, rot: real): nat
    requires rot > 0.0
  {
    if Abs(err) <= 1.0 then 0
    else
      var q := Abs(err) / (rot / 30.0);
      assert q >= 0.0;
      q.Floor + 1
  }

  /** One animated frame moves the heading by exactly the step: the wrapped
      error shrinks by the step without overshooting the target, and the
      measure of the remaining turn drops. */
  lemma TurnStepError(target: real, cur: real, rot: real)
    requires rot > 0.0
    requires Abs(TurnError(target, cur)) > 1.0
    ensures var err := TurnError(target, cur);
            var next := Mod360(cur + TurnStep(err, rot));
            TurnError(target, next) == err - TurnStep(err, rot) &&
            (err > 0.0 ==> 0.0 <= TurnError(target, next) < err) &&
            (err < 0.0 ==> err < TurnError(target, next) <= 0.0) &&
            TurnMeasure(TurnError(target, next), rot) < TurnMeasure(err, rot)
  {
    var err := TurnError(target, cur);
    var step := TurnStep(err, rot);
    var next := Mod360(cur + step);
    var e2 := TurnError(target, next);
    CongruentReflect(next, cur + step, target);
    CongruentShift(err, target - cur, -step);
    CongruentTransitive(e2, target - next, target - (cur + step));
    CongruentSymmetric(err - step, target - cur - step);
    CongruentTransitive(e2, target - cur - step, err - step);
    CongruentClose(e2, err - step);
    StepShrinks(err, rot);
  }

  /** Taking one step off an error beyond the snap tolerance moves it towards
      0 without crossing it, and the measure drops. */
  lemma StepShrinks(err: real, rot: real)
    requires rot > 0.0
    requires Abs(err) > 1.0
    ensures var e2 := err - TurnStep(err, rot);
            (err > 0.0 ==> 0.0 <= e2 < err) &&
            (err < 0.0 ==> err < e2 <= 0.0) &&
            TurnMeasure(e2, rot) < TurnMeasure(err, rot)
  {
    var step := TurnStep(err, rot);
    var e2 := err - step;
    var d := rot / 30.0;
    if Abs(err) <= d {
      assert step == err;
      assert TurnMeasure(e2, rot) == 0;
    } else if Abs(e2) > 1.0 {
      assert Abs(step) == d;
      assert Abs(e2) == Abs(err) - d;
      FloorDrop(Abs(err), d);
      assert TurnMeasure(err, rot) == (Abs(err) / d).Floor + 1;
      assert TurnMeasure(e2, rot) == (Abs(e2) / d).Floor + 1;
    }
  }

  lemma FloorDrop(a: real, d: real)
    requires d > 0.0
    ensures ((a - d) / d).Floor == (a / d).Floor - 1
  {
    DivLessOne(a, d);
  }

  lemma DivLessOne(a: real, d: real)
    requires d > 0.0
    ensures (a - d) / d == a / d - 1.0
  {
    var q := a / d;
    var r := (a - d) / d;
    assert q * d == a;
    assert r * d == a - d;
    assert (q - 1.0) * d == a - d;
    MulCancel(r, q - 1.0, d);
  }

  lemma MulCancel(x: real, y: real, d: real)
    requires d > 0.0 && x * d == y * d
    ensures x == y
  {
  }

  /** The headings the turn animation shows, frame by frame, before it snaps
      onto the target. */
  function TurnTrace(target: real, cur: real, rot: real): (tr: seq<real>)
    requires rot > 0.0
    ensures tr == [] <==> Abs(TurnError(target, cur)) <= 1.0
    decreases TurnMeasure(TurnError(target, cur), rot)
  {
    var err := TurnError(target, cur);
    if Abs(err) <= 1.0 then []
    else
      TurnStepError(target, cur, rot);
      var next := Mod360(cur + TurnStep(err, rot));
      [next] + TurnTrace(target, next, rot)
  }

  /** b is the frame after a: its error is a's minus one bounded step. */
  predicate StepsToward(target: real, a: real, b: real, rot: real)
  {
    var e := TurnError(target, a);
    TurnError(target, b) == e - TurnStep(e, rot)
  }

  /** Every animated frame lies in [0, 360), moves one bounded step closer to
      the target than the frame before, and the last frame is within the 1
      degree snap tolerance; the animation is no longer than the measure. */
  lemma {:induction false} TurnTraceFrames(target: real, cur: real, rot: real)
    requires rot > 0.0
    ensures var tr := TurnTrace(target, cur, rot);
            |tr| <= TurnMeasure(TurnError(target, cur), rot) &&
            (forall i :: 0 <= i < |tr| ==> 0.0 <= tr[i] < 360.0) &&
            (forall i :: 0 <= i < |tr| ==> Abs(TurnError(target, tr[i])) < Abs(TurnError(target, cur))) &&
            (tr != [] ==> StepsToward(target, cur, tr[0], rot)) &&
            (forall i :: 0 < i < |tr| ==> StepsToward(target, tr[i - 1], tr[i], rot)) &&
            (tr != [] ==> Abs(TurnError(target, tr[|tr| - 1])) <= 1.0)
    decreases TurnMeasure(TurnError(target, cur), rot)
  {
    var err := TurnError(target, cur);
    if Abs(err) > 1.0 {
      TurnStepError(target, cur, rot);
      var next := Mod360(cur + TurnStep(err, rot));
      TurnTraceFrames(target, next, rot);
      var rest := TurnTrace(target, next, rot);
      var tr := TurnTrace(target, cur, rot);
      assert tr == [next] + rest;
      forall i | 0 < i < |tr| ensures StepsToward(target, tr[i - 1], tr[i], rot) {
        if i > 1 {
          assert tr[i - 1] == rest[i - 2] && tr[i] == rest[i - 1];
        }
      }
      if rest == [] {
        assert Abs(TurnError(target, next)) <= 1.0;
      } else {
        assert tr[|tr| - 1] == rest[|rest| - 1];
      }
    }
  }

  // ---------------- translations ----------------

  /** `50 * speed_scale * run_speed_mult`, the speed used when none is given. */
  function FallbackSpeed(cfg: Config): (v: real)
    ensures cfg.Valid() ==> v > 0.0
  {
    var k := cfg.speedScale * cfg.runSpeedMult;
    assert cfg.Valid() ==> k > 0.0;
    50.0 * k
  }

  /** The gyro-follow replay speed in mm/s: the wheel speed converted to mm
      and scaled, falling back when absent, falsy or not positive; None when
      `float()` raises on the speed. */
  function FollowSpeed(cfg: Config, speed: Option<Value>): (v: Option<real>)
    ensures cfg.Valid() && v.Some? ==> v.value > 0.0
    ensures (speed.None? || !Truthy(speed.value)) ==> v == Some(FallbackSpeed(cfg))
    ensures speed.Some? && Truthy(speed.value) ==> (v.None? <==> FloatOf(speed.value).None?)
    ensures speed.Some? && Truthy(speed.value) && FloatOf(speed.value).Some? ==>
              v == Some(ConvertedSpeed(cfg, FloatOf(speed.value).value))
  {
    if speed.Some? && Truthy(speed.value) then
      match FloatOf(speed.value)
      case None => None
      case Some(f) => Some(ConvertedSpeed(cfg, f))
    else Some(FallbackSpeed(cfg))
  }

  /** A wheel speed in deg/s as mm/s, scaled; the fallback when that is not
      positive. */
  function ConvertedSpeed(cfg: Config, degPerSec: real): (v: real)
    ensures cfg.Valid() ==> v > 0.0
    ensures cfg.Valid() && cfg.wheelRadius > 0.0 && degPerSec > 0.0 ==>
              v == DegToMm(degPerSec, cfg.wheelRadius) * (cfg.speedScale * cfg.runSpeedMult)
    ensures degPerSec <= 0.0 && cfg.wheelRadius >= 0.0 && cfg.Valid() ==> v == FallbackSpeed(cfg)
  {
    var conv := DegToMm(degPerSec, cfg.wheelRadius) * (cfg.speedScale * cfg.runSpeedMult);
    ScaledSpeedSign(cfg, degPerSec);
    if conv <= 0.0 then FallbackSpeed(cfg) else conv
  }

  /** With positive scales the converted speed has the sign of the wheel speed. */
  lemma ScaledSpeedSign(cfg: Config, degPerSec: real)
    ensures cfg.Valid() && cfg.wheelRadius >= 0.0 ==>
            var conv := DegToMm(degPerSec, cfg.wheelRadius) * (cfg.speedScale * cfg.runSpeedMult);
            (cfg.wheelRadius > 0.0 && degPerSec > 0.0 ==> conv > 0.0) && (degPerSec <= 0.0 ==> conv <= 0.0)
  {
    if !(cfg.Valid() && cfg.wheelRadius >= 0.0) {
      return;
    }
    var k := cfg.speedScale * cfg.runSpeedMult;
    assert k > 0.0;
    var mm := DegToMm(degPerSec, cfg.wheelRadius);
    if degPerSec <= 0.0 {
      assert mm <= 0.0 by {
        if cfg.wheelRadius > 0.0 {
        }
      }
    }
  }

  /** `max(1, int(duration * 60))`: the number of 60 Hz frames of the move,
      at least one. */
  function StepCount(dist: real, v: real): (n: int)
    ensures n >= 1
    ensures v > 0.0 && n > 1 ==> n as real <= Abs(dist) / v * 60.0 < n as real + 1.0
    ensures v > 0.0 && Abs(dist) / v * 60.0 < 2.0 ==> n == 1
  {
    var duration := if v > 0.0 then Abs(dist) / v else 0.0;
    var t := Trunc(duration * 60.0);
    if 1 >= t then 1 else t
  }

  /** Where a translation of n equal frames ends, and whether it left the
      board (and was clamped back onto its edge). */
  datatype SlideEnd = SlideEnd(x: real, y: real, exited: bool)

  function Slide(b: Board, x: real, y: real, ddx: real, ddy: real, n: nat): (s: SlideEnd)
    ensures s.exited ==> n > 0
    // leaving the board clamps the robot onto its edge
    ensures b.Valid() && s.exited ==> b.OnEdge(s.x, s.y)
    decreases n
  {
    if n == 0 then SlideEnd(x, y, false)
    else
      var nx := x + ddx;
      var ny := y + ddy;
      if !b.Contains(nx, ny) then SlideEnd(b.ClampX(nx), b.ClampY(ny), true)
      else Slide(b, nx, ny, ddx, ddy, n - 1)
  }

  /** A slide starting on the board ends on it; one that never left it has
      moved by the n frames exactly. */
  lemma {:induction false} SlideEnds(b: Board, x: real, y: real, ddx: real, ddy: real, n: nat)
    requires b.Valid() && b.Contains(x, y)
    ensures var s := Slide(b, x, y, ddx, ddy, n);
            b.Contains(s.x, s.y) &&
            (!s.exited ==> s.x == x + n as real * ddx && s.y == y + n as real * ddy)
    decreases n
  {
    if n > 0 && b.Contains(x + ddx, y + ddy) {
      SlideEnds(b, x + ddx, y + ddy, ddx, ddy, n - 1);
      var s := Slide(b, x + ddx, y + ddy, ddx, ddy, n - 1);
      if !s.exited {
        assert x + ddx + (n - 1) as real * ddx == x + n as real * ddx;
        assert y + ddy + (n - 1) as real * ddy == y + n as real * ddy;
      }
    }
  }

  /** The position after frame k (counting from 0) of a slide from x by d per frame. */
  function FrameAt(x: real, d: real, k: nat): real
  {
    x + (k + 1) as real * d
  }

  lemma FrameAtShift(x: real, d: real, k: nat)
    ensures FrameAt(x + d, d, k) == FrameAt(x, d, k + 1)
  {
    assert (k + 2) as real * d == (k + 1) as real * d + d;
  }

  /** A slide that left the board did so at some frame k: every frame before
      k was on the board, frame k was off it, and the slide ended on frame
      k's position clamped onto the board. */
  lemma {:induction false} SlideExitFrame(b: Board, x: real, y: real, ddx: real, ddy: real, n: nat)
    requires Slide(b, x, y, ddx, ddy, n).exited
    ensures exists k: nat :: k < n &&
              (forall j: nat :: j < k ==> b.Contains(FrameAt(x, ddx, j), FrameAt(y, ddy, j))) &&
              !b.Contains(FrameAt(x, ddx, k), FrameAt(y, ddy, k)) &&
              Slide(b, x, y, ddx, ddy, n) ==
                SlideEnd(b.ClampX(FrameAt(x, ddx, k)), b.ClampY(FrameAt(y, ddy, k)), true)
    decreases n
  {
    var nx := x + ddx;
    var ny := y + ddy;
    assert FrameAt(x, ddx, 0) == nx && FrameAt(y, ddy, 0) == ny;
    if b.Contains(nx, ny) {
      SlideExitFrame(b, nx, ny, ddx, ddy, n - 1);
      var k: nat :| k < n - 1 &&
              (forall j: nat :: j < k ==> b.Contains(FrameAt(nx, ddx, j), FrameAt(ny, ddy, j))) &&
              !b.Contains(FrameAt(nx, ddx, k), FrameAt(ny, ddy, k)) &&
              Slide(b, nx, ny, ddx, ddy, n - 1) ==
                SlideEnd(b.ClampX(FrameAt(nx, ddx, k)), b.ClampY(FrameAt(ny, ddy, k)), true);
      FrameAtShift(x, ddx, k);
      FrameAtShift(y, ddy, k);
      forall j: nat | j < k + 1 ensures b.Contains(FrameAt(x, ddx, j), FrameAt(y, ddy, j)) {
        if j > 0 {
          FrameAtShift(x, ddx, j - 1);
          FrameAtShift(y, ddy, j - 1);
        }
      }
    }
  }

  /** A move of `dist` mm at v mm/s along the current heading: `steps` frames
      of `dist / steps` each; leaving the board clamps the pose, reports
      "Out of bounds" and sets the stop flag. */
  function Translate(cfg: Config, p: Pose, dist: real, v: real): (q: Pose)
    ensures q.heading == p.heading
    ensures p.stop ==> q.stop
    ensures q.status != p.status ==> q.status == OutOfBounds && q.stop
  {
    Landed(p, TranslateSlide(cfg, p, dist, v))
  }

  /** The frames of a translation: `dx = dist / steps` mm per frame along the
      heading, in pixels. */
  function TranslateSlide(cfg: Config, p: Pose, dist: real, v: real): (s: SlideEnd)
    ensures cfg.board.Valid() && InBounds(cfg, p) ==> cfg.board.Contains(s.x, s.y)
    ensures cfg.board.Valid() && s.exited ==> cfg.board.OnEdge(s.x, s.y)
  {
    var n := StepCount(dist, v);
    var ddx := SliceDelta(dist, n, cfg.pixelScale, cfg.cosDeg(p.heading));
    var ddy := SliceDelta(dist, n, cfg.pixelScale, cfg.sinDeg(p.heading));
    var slide := Slide(cfg.board, p.x, p.y, ddx, ddy, n);
    assert cfg.board.Valid() && InBounds(cfg, p) ==> cfg.board.Contains(slide.x, slide.y) by {
      if cfg.board.Valid() && InBounds(cfg, p) {
        SlideEnds(cfg.board, p.x, p.y, ddx, ddy, n);
      }
    }
    slide
  }

  /** `mm * pixel_scale * cos(rad)` (or sin): a move of `mm` millimetres along
      a direction, in pixels. */
  function Shift(mm: real, ps: real, dir: real): real
  {
    mm * ps * dir
  }

  /** `dx_mm * pixel_scale * cos(rad)` (or sin): one frame's move in pixels. */
  function SliceDelta(dist: real, n: int, ps: real, dir: real): real
    requires n >= 1
  {
    Shift(dist / n as real, ps, dir)
  }

  /** n slices add up to the whole distance. */
  lemma SliceProduct(n: int, dist: real, ps: real, dir: real)
    requires n >= 1
    ensures n as real * SliceDelta(dist, n, ps, dir) == dist * ps * dir
  {
    var dx := dist / n as real;
    assert n as real * dx == dist;
    assert n as real * (dx * ps * dir) == (n as real * dx) * ps * dir;
  }

  /** The pose where a slide ends; leaving the board sets the status and the flag. */
  function Landed(p: Pose, s: SlideEnd): Pose
  {
    Pose(s.x, s.y, p.heading, if s.exited then OutOfBounds else p.status, p.stop || s.exited)
  }

  /** A translation keeps the robot on the board and its heading; leaving the
      board reports "Out of bounds" and raises the stop flag, and staying on
      it changes neither. */
  lemma TranslateEnds(cfg: Config, p: Pose, dist: real, v: real)
    requires cfg.board.Valid() && InBounds(cfg, p)
    ensures var q := Translate(cfg, p, dist, v);
            InBounds(cfg, q) && q.heading == p.heading &&
            (TranslateSlide(cfg, p, dist, v).exited ==> q.status == OutOfBounds && q.stop && cfg.board.OnEdge(q.x, q.y)) &&
            (!TranslateSlide(cfg, p, dist, v).exited ==> q.status == p.status && q.stop == p.stop)
  {
    var n := StepCount(dist, v);
    SlideEnds(cfg.board, p.x, p.y, SliceDelta(dist, n, cfg.pixelScale, cfg.cosDeg(p.heading)),
              SliceDelta(dist, n, cfg.pixelScale, cfg.sinDeg(p.heading)), n);
  }

  /** The slices add up: a translation that stays on the board moves the
      robot by the whole distance along its heading. */
  lemma TranslateDisplacement(cfg: Config, p: Pose, dist: real, v: real)
    requires cfg.board.Valid() && InBounds(cfg, p)
    requires !TranslateSlide(cfg, p, dist, v).exited
    ensures Translate(cfg, p, dist, v).x == p.x + dist * cfg.pixelScale * cfg.cosDeg(p.heading)
    ensures Translate(cfg, p, dist, v).y == p.y + dist * cfg.pixelScale * cfg.sinDeg(p.heading)
  {
    var n := StepCount(dist, v);
    SlideEnds(cfg.board, p.x, p.y, SliceDelta(dist, n, cfg.pixelScale, cfg.cosDeg(p.heading)),
              SliceDelta(dist, n, cfg.pixelScale, cfg.sinDeg(p.heading)), n);
    SliceProduct(n, dist, cfg.pixelScale, cfg.cosDeg(p.heading));
    SliceProduct(n, dist, cfg.pixelScale, cfg.sinDeg(p.heading));
  }

  // ---------------- instructions ----------------

  /** How an instruction ended: normally; by an exception from `float()`,
      which ends the replay thread; or in a turn that can make no progress
      because its rotation speed is 0, which never ends. */
  datatype Outcome = Completed | Crashed | Hangs

  datatype After = After(pose: Pose, outcome: Outcome)

  /** One gyro_turn record: skipped without a heading; otherwise the speed
      (0 or absent meaning 90) sets the rotation per frame and the heading
      ends exactly on the target. */
  function TurnRun(cfg: Config, p: Pose, heading: Option<Value>, speed: Option<Value>): (r: After)
    ensures r.pose.x == p.x && r.pose.y == p.y && r.pose.status == p.status && r.pose.stop == p.stop
    ensures heading.None? ==> r == After(p, Completed)
    ensures r.outcome == Completed && heading.Some? ==>
              FloatOf(heading.value).Some? && r.pose.heading == FloatOf(heading.value).value
    ensures r.outcome == Crashed <==>
              heading.Some? && (FloatOf(OrElse(speed, Num(90.0))).None? || FloatOf(heading.value).None?)
    ensures r.outcome == Crashed ==> r.pose == p
  {
    if heading.None? then After(p, Completed)
    else
      match FloatOf(OrElse(speed, Num(90.0)))
      case None => After(p, Crashed)
      case Some(sp) =>
        match FloatOf(heading.value)
        case None => After(p, Crashed)
        case Some(target) =>
          var rot := TurnRate(cfg, sp);
          if rot <= 0.0 && Abs(TurnError(target, p.heading)) > 1.0 then
            // the step is 0: the heading is reduced mod 360 and stays there
            After(p.(heading := Mod360(p.heading)), Hangs)
          else After(p.(heading := target), Completed)
  }

  /** `abs(float(speed_deg_s)) * speed_scale * run_speed_mult`: the rotation
      per second of a turn record. */
  function TurnRate(cfg: Config, sp: real): (rot: real)
    // with positive scales the rate is the speed's magnitude scaled: never
    // negative, and 0 only for a speed of 0
    ensures cfg.Valid() ==> rot >= 0.0 && (rot == 0.0 <==> sp == 0.0)
  {
    var k := cfg.speedScale * cfg.runSpeedMult;
    assert Abs(sp) * cfg.speedScale * cfg.runSpeedMult == Abs(sp) * k;
    assert cfg.Valid() ==> k > 0.0;

    Abs(sp) * cfg.speedScale * cfg.runSpeedMult
  }

  /** A turn with a speed of 0 (a truthy value such as "0" that converts to
      0) spins forever once the error exceeds the snap tolerance; with a
      valid config every other speed ends on the target. */
  lemma TurnRunHangsOnlyAtZero(cfg: Config, p: Pose, heading: Option<Value>, speed: Option<Value>)
    requires cfg.Valid()
    ensures TurnRun(cfg, p, heading, speed).outcome == Hangs <==>
              heading.Some? && FloatOf(OrElse(speed, Num(90.0))).Some? && FloatOf(heading.value).Some? &&
              FloatOf(OrElse(speed, Num(90.0))).value == 0.0 &&
              Abs(TurnError(FloatOf(heading.value).value, p.heading)) > 1.0
  {
    if heading.Some? && FloatOf(OrElse(speed, Num(90.0))).Some? {
      var sp := FloatOf(OrElse(speed, Num(90.0))).value;
      var k := cfg.speedScale * cfg.runSpeedMult;
      assert k > 0.0;
      assert Abs(sp) * cfg.speedScale * cfg.runSpeedMult == Abs(sp) * k;
      if sp != 0.0 {
        assert Abs(sp) * k > 0.0;
      }
    }
  }

  /** The distance of a translation record: `mm or 0.0`. */
  function MmOrZero(mm: Option<real>): (d: real)
    ensures mm.None? ==> d == 0.0
    ensures d != 0.0 ==> mm == Some(d)
  {
    if mm.Some? then mm.value else 0.0
  }

  /** One record of the instruction list, started with the stop flag clear. */
  function Apply(cfg: Config, p: Pose, ins: Instruction): (r: After)
    ensures !ins.GyroTurn? ==> r.pose.heading == p.heading
    ensures r.outcome == Hangs ==> ins.GyroTurn?
    ensures r.outcome == Crashed ==> r.pose == p && (ins.GyroTurn? || ins.GyroFollow?)
    ensures r.outcome != Completed ==> r.pose.stop == p.stop && r.pose.status == p.status
    ensures ins.MotorRunToRel? || ins.RawCall? ==> r == After(p, Completed)
  {
    match ins
    case GyroTurn(_, heading, speed) => TurnRun(cfg, p, heading, speed)
    case GyroFollow(_, _, speed, _, distanceMm, _, _) =>
      var dist := MmOrZero(distanceMm);
      if dist == 0.0 then After(p, Completed)
      else
        (match FollowSpeed(cfg, speed)
         case None => After(p, Crashed)
         case Some(v) => After(Translate(cfg, p, dist, v), Completed))
    case MotorRunForDegrees(_, _, mm, _) => After(Translate(cfg, p, MmOrZero(mm), FallbackSpeed(cfg)), Completed)
    case MotorPairMoveForDegrees(_, _, mm) => After(Translate(cfg, p, MmOrZero(mm), FallbackSpeed(cfg)), Completed)
    case MotorRunToRel(_, _, _) => After(p, Completed)
    case RawCall(_, _) => After(p, Completed)
  }

  /** Each record keeps the pose on the board; the status changes, and the
      stop flag goes up, only when a translation leaves the board; turns do
      not move the robot, and other records change nothing. */
  lemma ApplyKeepsBoard(cfg: Config, p: Pose, ins: Instruction)
    requires cfg.Valid() && InBounds(cfg, p) && !p.stop && p.status != OutOfBounds
    ensures var r := Apply(cfg, p, ins);
            InBounds(cfg, r.pose) &&
            (r.pose.stop <==> r.pose.status == OutOfBounds) &&
            (r.pose.status != p.status ==> r.pose.status == OutOfBounds && r.outcome == Completed) &&
            (r.outcome != Completed ==> ins.GyroTurn? || ins.GyroFollow?) &&
            (ins.GyroTurn? ==> r.pose.x == p.x && r.pose.y == p.y) &&
            (ins.MotorRunToRel? || ins.RawCall? ==> r == After(p, Completed))
  {
    match ins
    case GyroTurn(_, _, _) =>
    case GyroFollow(_, _, speed, _, distanceMm, _, _) =>
      if MmOrZero(distanceMm) != 0.0 && FollowSpeed(cfg, speed).Some? {
        TranslateEnds(cfg, p, MmOrZero(distanceMm), FollowSpeed(cfg, speed).value);
      }
    case MotorRunForDegrees(_, _, mm, _) => TranslateEnds(cfg, p, MmOrZero(mm), FallbackSpeed(cfg));
    case MotorPairMoveForDegrees(_, _, mm) => TranslateEnds(cfg, p, MmOrZero(mm), FallbackSpeed(cfg));
    case MotorRunToRel(_, _, _) =>
    case RawCall(_, _) =>
  }

  /** From any pose on the board, whatever its status and stop flag, a record
      leaves the robot on the board. */
  lemma ApplyStaysOnBoard(cfg: Config, p: Pose, ins: Instruction)
    requires cfg.Valid() && InBounds(cfg, p)
    ensures InBounds(cfg, Apply(cfg, p, ins).pose)
  {
    match ins
    case GyroTurn(_, _, _) =>
    case GyroFollow(_, _, speed, _, distanceMm, _, _) =>
      if MmOrZero(distanceMm) != 0.0 && FollowSpeed(cfg, speed).Some? {
        TranslateEnds(cfg, p, MmOrZero(distanceMm), FollowSpeed(cfg, speed).value);
      }
    case MotorRunForDegrees(_, _, mm, _) => TranslateEnds(cfg, p, MmOrZero(mm), FallbackSpeed(cfg));
    case MotorPairMoveForDegrees(_, _, mm) => TranslateEnds(cfg, p, MmOrZero(mm), FallbackSpeed(cfg));
    case MotorRunToRel(_, _, _) =>
    case RawCall(_, _) =>
  }

  /** A gyro_turn record runs the turn: a completed turn with a heading ends on
      float(heading) where the robot stood. */
  lemma ApplyTurn(cfg: Config, p: Pose, ins: Instruction)
    requires ins.GyroTurn?
    ensures Apply(cfg, p, ins) == TurnRun(cfg, p, ins.heading, ins.speed)
    ensures var r := Apply(cfg, p, ins);
            r.outcome == Completed && ins.heading.Some? ==>
              r.pose == p.(heading := FloatOf(ins.heading.value).value)
  {
  }

  /** A gyro_follow record with a distance crashes exactly when its speed
      cannot be converted, and otherwise drives that distance at the follow
      speed. */
  lemma ApplyFollow(cfg: Config, p: Pose, ins: Instruction)
    requires ins.GyroFollow? && MmOrZero(ins.distanceMm) != 0.0
    ensures Apply(cfg, p, ins).outcome == Crashed <==> FollowSpeed(cfg, ins.speed).None?
    ensures FollowSpeed(cfg, ins.speed).None? ==> Apply(cfg, p, ins) == After(p, Crashed)
    ensures FollowSpeed(cfg, ins.speed).Some? ==>
              Apply(cfg, p, ins) ==
                After(Translate(cfg, p, MmOrZero(ins.distanceMm), FollowSpeed(cfg, ins.speed).value), Completed)
  {
  }

  /** The two motor records drive their distance (0 when absent) at the
      fallback speed and always complete. */
  lemma ApplyMotor(cfg: Config, p: Pose, ins: Instruction)
    requires ins.MotorRunForDegrees? || ins.MotorPairMoveForDegrees?
    ensures Apply(cfg, p, ins) == After(Translate(cfg, p, MmOrZero(ins.mm), FallbackSpeed(cfg)), Completed)
  {
  }

  /** A gyro_follow record with no distance, or a distance of 0, is skipped. */
  lemma ApplySkipsZeroFollow(cfg: Config, p: Pose, ins: Instruction)
    requires ins.GyroFollow? && (ins.distanceMm.None? || ins.distanceMm.value == 0.0)
    ensures Apply(cfg, p, ins) == After(p, Completed)
  {
  }

  /** The records of a list in order, each checked against the stop flag
      first; an exception or an endless turn ends the replay there. */
  function RunList(cfg: Config, p: Pose, es: seq<Entry>): (r: After)
    ensures es == [] || p.stop ==> r == After(p, Completed)
    ensures r.outcome != Completed ==> !r.pose.stop
    decreases |es|
  {
    if es == [] || p.stop then After(p, Completed)
    else
      var r := Apply(cfg, p, es[0].instr);
      if r.outcome != Completed then r else RunList(cfg, r.pose, es[1..])
  }

  /** `run_instructions`: the stop flag is cleared, then the list is replayed. */
  function RunInstructionsFrom(cfg: Config, p: Pose, es: seq<Entry>): (r: After)
    // an empty list only clears the flag
    ensures es == [] ==> r == After(p.(stop := false), Completed)
    // a flag left up by an earlier run does not skip the first record
    ensures es != [] && Apply(cfg, p.(stop := false), es[0].instr).outcome != Completed ==>
              r == Apply(cfg, p.(stop := false), es[0].instr)
    ensures r.outcome != Completed ==> !r.pose.stop
  {
    RunList(cfg, p.(stop := false), es)
  }

  /** A list of one record with the flag down replays that record. */
  lemma RunListSingle(cfg: Config, p: Pose, e: Entry)
    requires !p.stop
    ensures RunList(cfg, p, [e]) == Apply(cfg, p, e.instr)
  {
    assert [e][0] == e && [e][1..] == [];
  }

  /** Replaying a concatenation is replaying the first part and, only if it
      completed without raising the stop flag, the second part from there.
      So once a record leaves the board no later record runs. */
  lemma {:induction false} RunListAppend(cfg: Config, p: Pose, a: seq<Entry>, b: seq<Entry>)
    ensures var r := RunList(cfg, p, a);
            RunList(cfg, p, a + b) == if r.outcome == Completed && !r.pose.stop then RunList(cfg, r.pose, b) else r
    decreases |a|
  {
    if a == [] {
      assert a + b == b;
      if p.stop && b != [] {
        assert RunList(cfg, p, b) == After(p, Completed);
      }
    } else if !p.stop {
      assert (a + b)[0] == a[0] && (a + b)[1..] == a[1..] + b;
      var r := Apply(cfg, p, a[0].instr);
      if r.outcome == Completed {
        RunListAppend(cfg, r.pose, a[1..], b);
      }
    }
  }

  /** A whole replay from a pose on the board stays on the board, and it
      ends with the stop flag up exactly when some record left the board. */
  lemma {:induction false} RunListKeepsBoard(cfg: Config, p: Pose, es: seq<Entry>)
    requires cfg.Valid() && InBounds(cfg, p) && !p.stop && p.status != OutOfBounds
    ensures var r := RunList(cfg, p, es);
            InBounds(cfg, r.pose) &&
            (r.pose.stop <==> r.pose.status == OutOfBounds) &&
            (r.pose.status != p.status ==> r.pose.status == OutOfBounds)
    decreases |es|
  {
    if es != [] {
      ApplyKeepsBoard(cfg, p, es[0].instr);
      var r := Apply(cfg, p, es[0].instr);
      if r.outcome == Completed && !r.pose.stop {
        RunListKeepsBoard(cfg, r.pose, es[1..]);
      }
    }
  }

  /** A replay started anywhere on the board ends on the board, also when an
      earlier replay left the status at "Out of bounds". */
  lemma {:induction false} RunListStaysOnBoard(cfg: Config, p: Pose, es: seq<Entry>)
    requires cfg.Valid() && InBounds(cfg, p)
    ensures InBounds(cfg, RunList(cfg, p, es).pose)
    decreases |es|
  {
    if es != [] && !p.stop {
      ApplyStaysOnBoard(cfg, p, es[0].instr);
      var r := Apply(cfg, p, es[0].instr);
      if r.outcome == Completed {
        RunListStaysOnBoard(cfg, r.pose, es[1..]);
      }
    }
  }

  // ---------------- manual control ----------------

  /** The held keys: forward, back, rotate left, rotate right. */
  datatype Controls = Controls(forward: bool, back: bool, left: bool, right: bool)

  predicate AnyHeld(c: Controls)
  {
    c.forward || c.back || c.left || c.right
  }

  /** `max(1/60, clock_ms / 1000)`: the frame time in seconds. */
  function FrameTime(clockMs: real): (dt: real)
    ensures dt >= 1.0 / 60.0
    ensures dt == 1.0 / 60.0 || dt == clockMs / 1000.0
  {
    if 1.0 / 60.0 >= clockMs / 1000.0 then 1.0 / 60.0 else clockMs / 1000.0
  }

  /** `rot_speed_deg_s * dt`: the degrees turned in one frame, at 120 deg/s. */
  function ManualRotation(cfg: Config, dt: real): real
  {
    120.0 * cfg.speedScale * dt
  }

  /** `move_speed_mm_s * dt * dir_mult`: the millimetres driven in one frame,
      at 200 mm/s, forward or backward. */
  function ManualTravel(cfg: Config, dt: real, forward: bool): real
  {
    200.0 * cfg.speedScale * dt * (if forward then 1.0 else -1.0)
  }

  /** One frame of manual control: with any key held the stop flag goes up,
      left and right rotate at 120 deg/s (heading kept mod 360), forward wins
      over back at 200 mm/s, and the moved position is clamped to the board. */
  function ManualFrame(cfg: Config, p: Pose, c: Controls, clockMs: real): (q: Pose)
    ensures !AnyHeld(c) ==> q == p
    ensures AnyHeld(c) ==> q.stop
    ensures q.status == p.status
    // right turns by +d, left by -d, with d = 120 * speed_scale * dt, up to whole turns
    ensures Congruent360(q.heading, p.heading + (if c.right then ManualRotation(cfg, FrameTime(clockMs)) else 0.0)
                                               - (if c.left then ManualRotation(cfg, FrameTime(clockMs)) else 0.0))
  {
    ManualTurnCongruent(p.heading, ManualRotation(cfg, FrameTime(clockMs)), c.left, c.right);
    if !AnyHeld(c) then p
    else
      var dt := FrameTime(clockMs);
      var h1 := if c.left then Mod360(p.heading - ManualRotation(cfg, dt)) else p.heading;
      var h2 := if c.right then Mod360(h1 + ManualRotation(cfg, dt)) else h1;
      if c.forward || c.back then
        var dist := ManualTravel(cfg, dt, c.forward);
        var x := p.x + Shift(dist, cfg.pixelScale, cfg.cosDeg(h2));
        var y := p.y + Shift(dist, cfg.pixelScale, cfg.sinDeg(h2));
        Pose(cfg.board.ClampX(x), cfg.board.ClampY(y), h2, p.status, true)
      else
        Pose(p.x, p.y, h2, p.status, true)
  }

  /** Rotating left by d and then right by d, each reduced mod 360, turns the
      heading by the difference of the two, up to whole turns. */
  lemma ManualTurnCongruent(h: real, d: real, left: bool, right: bool)
    ensures var h1 := if left then Mod360(h - d) else h;
            var h2 := if right then Mod360(h1 + d) else h1;
            Congruent360(h2, h + (if right then d else 0.0) - (if left then d else 0.0))
  {
    var h1 := if left then Mod360(h - d) else h;
    assert Congruent360(h1, h - (if left then d else 0.0));
    if right {
      CongruentShift(h1, h - (if left then d else 0.0), d);
      CongruentTransitive(Mod360(h1 + d), h1 + d, h - (if left then d else 0.0) + d);
    }
  }

  /** A manual frame keeps the robot on the board and its status; it raises
      the stop flag exactly when a key is held; a rotation leaves the heading
      in [0, 360), a frame without one keeps the heading, and a frame without
      forward or back keeps the position. */
  lemma ManualFrameKeepsBoard(cfg: Config, p: Pose, c: Controls, clockMs: real)
    requires cfg.board.Valid()
    ensures var q := ManualFrame(cfg, p, c, clockMs);
            (InBounds(cfg, p) || c.forward || c.back ==> InBounds(cfg, q)) &&
            q.status == p.status &&
            (q.stop <==> AnyHeld(c) || p.stop) &&
            (c.left || c.right ==> 0.0 <= q.heading < 360.0) &&
            (!c.left && !c.right ==> q.heading == p.heading) &&
            (!c.forward && !c.back ==> q.x == p.x && q.y == p.y)
    // forward or back drives 200 * speed_scale * dt mm along the new heading, clamped onto the board
    ensures var q := ManualFrame(cfg, p, c, clockMs);
            var dist := ManualTravel(cfg, FrameTime(clockMs), c.forward);
            c.forward || c.back ==>
              q.x == cfg.board.ClampX(p.x + Shift(dist, cfg.pixelScale, cfg.cosDeg(q.heading))) &&
              q.y == cfg.board.ClampY(p.y + Shift(dist, cfg.pixelScale, cfg.sinDeg(q.heading)))
    ensures !AnyHeld(c) ==> ManualFrame(cfg, p, c, clockMs) == p
  {
  }

  /** Holding left and right together cancels the rotation: the heading
      comes back to its own value reduced mod 360. */
  lemma ManualRotationCancels(cfg: Config, p: Pose, c: Controls, clockMs: real)
    requires c.left && c.right
    ensures ManualFrame(cfg, p, c, clockMs).heading == Mod360(p.heading)
  {
    var d := ManualRotation(cfg, FrameTime(clockMs));
    var h1 := Mod360(p.heading - d);
    CongruentShift(h1, p.heading - d, d);
    CongruentSymmetric(Mod360(p.heading), p.heading);
    CongruentTransitive(h1 + d, p.heading, Mod360(p.heading));
    Mod360Canonical(h1 + d, Mod360(p.heading));
  }
}
