/** The numeric helpers of the robot program: clamping, coercion to float,
    Python's `int()` and `%` on floats, and angle normalization. */
module Helpers {
  import opened Values

  // ---------------- clamp and coercion ----------------

  /** Python's `abs` on a float. */
  function Abs(r: real): real
  {
    if r < 0.0 then -r else r
  }

  /** `clamp(v, lo, hi)`: lo below the range, hi above it, v otherwise. */
  function Clamp(v: real, lo: real, hi: real): (r: real)
    ensures v < lo ==> r == lo
    ensures lo <= v && hi < v ==> r == hi
    ensures lo <= hi ==> lo <= r <= hi
    ensures lo <= hi ==> (r == v <==> lo <= v <= hi)
  {
    if v < lo then lo else if v > hi then hi else v
  }

  /** Clamping to a symmetric range commutes with negation. */
  lemma ClampOdd(v: real, b: real)
    requires 0.0 <= b
    ensures Clamp(-v, -b, b) == -Clamp(v, -b, b)
  {
  }

  /** Clamping is monotone in the clamped value. */
  lemma ClampMonotone(v: real, w: real, lo: real, hi: real)
    requires lo <= hi && v <= w
    ensures Clamp(v, lo, hi) <= Clamp(w, lo, hi)
  {
  }

  /** `_to_float(x)`: None and values `float()` rejects become 0.0. */
  function ToFloat(x: Option<Value>): (r: real)
    ensures x.None? ==> r == 0.0
    ensures x.Some? && FloatOf(x.value).Some? ==> r == FloatOf(x.value).value
    ensures x.Some? && FloatOf(x.value).None? ==> r == 0.0
  {
    match x
    case None => 0.0
    case Some(v) => match FloatOf(v) case Some(f) => f case None => 0.0
  }

  /** Python's `int()` on a float: truncation toward zero. */
  function Trunc(r: real): (i: int)
    ensures r >= 0.0 ==> 0 <= i && i as real <= r < i as real + 1.0
    ensures r <= 0.0 ==> i <= 0 && i as real - 1.0 < r <= i as real
  {
    if r >= 0.0 then r.Floor else -((-r).Floor)
  }

  /** Truncation toward zero commutes with negation (floor does not). */
  lemma TruncOdd(r: real)
    ensures Trunc(-r) == -Trunc(r)
  {
  }

  /** An integer-valued real keeps its value under truncation. */
  lemma TruncOfInt(i: int)
    ensures Trunc(i as real) == i
  {
  }

  // ---------------- congruence modulo 360 ----------------

  predicate IsWhole(q: real)
  {
    q.Floor as real == q
  }

  /** a and b differ by a whole number of turns. */
  predicate Congruent360(a: real, b: real)
  {
    IsWhole((a - b) / 360.0)
  }

  /** Turning from `current` by d degrees lands on `target`, up to whole turns. */
  predicate RotatesOnto(current: real, d: real, target: real)
  {
    Congruent360(current + d, target)
  }

  lemma CongruentByTurns(a: real, b: real, k: int)
    requires a == b + 360.0 * k as real
    ensures Congruent360(a, b)
  {
    assert (a - b) / 360.0 == k as real;
  }

  /** The whole number of turns between two congruent angles. */
  lemma TurnsOf(a: real, b: real) returns (k: int)
    requires Congruent360(a, b)
    ensures a == b + 360.0 * k as real
  {
    k := ((a - b) / 360.0).Floor;
  }

  lemma CongruentSymmetric(a: real, b: real)
    requires Congruent360(a, b)
    ensures Congruent360(b, a)
  {
    var k := TurnsOf(a, b);
    CongruentByTurns(b, a, -k);
  }

  lemma CongruentTransitive(a: real, b: real, c: real)
    requires Congruent360(a, b) && Congruent360(b, c)
    ensures Congruent360(a, c)
  {
    var k := TurnsOf(a, b);
    var j := TurnsOf(b, c);
    CongruentByTurns(a, c, k + j);
  }

  /** Adding the same amount to two congruent angles keeps them congruent. */
  lemma CongruentShift(a: real, b: real, d: real)
    requires Congruent360(a, b)
    ensures Congruent360(a + d, b + d)
  {
    var k := TurnsOf(a, b);
    CongruentByTurns(a + d, b + d, k);
  }

  /** Reflecting two congruent angles about the same point keeps them congruent. */
  lemma CongruentReflect(a: real, b: real, c: real)
    requires Congruent360(a, b)
    ensures Congruent360(c - a, c - b)
  {
    var k := TurnsOf(a, b);
    CongruentByTurns(c - a, c - b, -k);
  }

  /** Two congruent angles less than a full turn apart are equal. */
  lemma CongruentClose(a: real, b: real)
    requires Congruent360(a, b)
    requires -360.0 < a - b < 360.0
    ensures a == b
  {
    var k := TurnsOf(a, b);
  }

  // ---------------- Python float modulo ----------------

  /** Python's `a % 360` on floats: the remainder takes the divisor's sign. */
  function Mod360(a: real): (r: real)
    ensures 0.0 <= r < 360.0
    ensures Congruent360(r, a)
  {
    var k := (a / 360.0).Floor;
    CongruentByTurns(a - 360.0 * k as real, a, -k);
    a - 360.0 * k as real
  }

  /** Mod360 depends only on the congruence class, and fixes [0, 360). */
  lemma Mod360Canonical(a: real, b: real)
    requires Congruent360(a, b) && 0.0 <= b < 360.0
    ensures Mod360(a) == b
  {
    CongruentSymmetric(Mod360(a), a);
    CongruentTransitive(Mod360(a), a, b);
    CongruentClose(Mod360(a), b);
  }

  // ---------------- angles ----------------

  /** `normalize_angle(a)` as a value: the representative of a in (-180, 180]. */
  function Normalize(a: real): (r: real)
    ensures -180.0 < r <= 180.0
    ensures Congruent360(r, a)
  {
    var m := Mod360(180.0 - a);
    CongruentReflect(m, 180.0 - a, 180.0);
    180.0 - m
  }

  /** `normalize_angle(a)` as the source computes it: add or subtract whole
      turns until the angle lies in (-180, 180]. */
  method NormalizeAngle(a0: real) returns (a: real)
    ensures a == Normalize(a0)
  {
    a := a0;
    ghost var k: int := 0;
    while a <= -180.0
      invariant a == a0 + 360.0 * k as real
      invariant a0 > -180.0 ==> a == a0
      decreases (-a).Floor
    {
      a := a + 360.0;
      k := k + 1;
    }
    while a > 180.0
      invariant a == a0 + 360.0 * k as real
      invariant a > -180.0
      decreases a.Floor
    {
      a := a - 360.0;
      k := k - 1;
    }
    CongruentByTurns(a, a0, k);
    NormalizeIsUnique(a0, a);
  }

  /** Every angle in (-180, 180] congruent to a is Normalize(a). */
  lemma NormalizeIsUnique(a: real, r: real)
    requires -180.0 < r <= 180.0 && Congruent360(r, a)
    ensures Normalize(a) == r
  {
    CongruentSymmetric(r, a);
    CongruentTransitive(Normalize(a), a, r);
    CongruentClose(Normalize(a), r);
  }

  /** Normalization fixes the canonical range; in particular it is idempotent. */
  lemma NormalizeFixesCanonical(a: real)
    requires -180.0 < a <= 180.0
    ensures Normalize(a) == a
  {
    CongruentByTurns(a, a, 0);
    NormalizeIsUnique(a, a);
  }

  lemma NormalizeIdempotent(a: real)
    ensures Normalize(Normalize(a)) == Normalize(a)
  {
    NormalizeFixesCanonical(Normalize(a));
  }

  /** Both ends of the half-turn map to +180. */
  lemma NormalizeHalfTurn()
    ensures Normalize(180.0) == 180.0
    ensures Normalize(-180.0) == 180.0
  {
    NormalizeFixesCanonical(180.0);
    CongruentByTurns(180.0, -180.0, 1);
    NormalizeIsUnique(-180.0, 180.0);
  }

  /** Congruent angles normalize to the same value. */
  lemma NormalizeCongruent(a: real, b: real)
    requires Congruent360(a, b)
    ensures Normalize(a) == Normalize(b)
  {
    CongruentTransitive(Normalize(a), a, b);
    NormalizeIsUnique(b, Normalize(a));
  }

  /** `shortest_error(target, current)`: the signed rotation, at most a half
      turn, that takes current onto target. */
  function ShortestError(target: real, current: real): (e: real)
    ensures -180.0 < e <= 180.0
    ensures Congruent360(current + e, target)
  {
    var e := Normalize(target - current);
    CongruentShift(e, target - current, current);
    e
  }

  /** No rotation that takes current onto target is smaller. */
  lemma ShortestErrorIsShortest(target: real, current: real, d: real)
    requires Congruent360(current + d, target)
    ensures -180.0 < ShortestError(target, current) <= 180.0
    ensures (if ShortestError(target, current) < 0.0 then -ShortestError(target, current) else ShortestError(target, current))
         <= (if d < 0.0 then -d else d)
  {
    var e := ShortestError(target, current);
    CongruentSymmetric(current + d, target);
    CongruentTransitive(current + e, target, current + d);
    var k := TurnsOf(current + e, current + d);
  }

  /** Swapping target and current negates the error, except at the half turn,
      which is reported as +180 both ways. */
  lemma ShortestErrorSwap(target: real, current: real)
    ensures ShortestError(target, current) != 180.0 ==>
              ShortestError(current, target) == -ShortestError(target, current)
    ensures ShortestError(target, current) == 180.0 ==> ShortestError(current, target) == 180.0
  {
    var e := ShortestError(target, current);
    var k := TurnsOf(current + e, target);
    if e != 180.0 {
      CongruentByTurns(-e, current - target, -k);
      NormalizeIsUnique(current - target, -e);
    } else {
      CongruentByTurns(180.0, current - target, 1 - k);
      NormalizeIsUnique(current - target, 180.0);
    }
  }

  /** The error vanishes exactly when the two headings coincide modulo 360. */
  lemma ShortestErrorZero(target: real, current: real)
    ensures ShortestError(target, current) == 0.0 <==> Congruent360(target, current)
  {
    if Congruent360(target, current) {
      var k := TurnsOf(target, current);
      CongruentByTurns(0.0, target - current, -k);
      NormalizeIsUnique(target - current, 0.0);
    } else {
      if ShortestError(target, current) == 0.0 {
        CongruentSymmetric(current, target);
      }
    }
  }
}
