/** The invariant of a two-asset stable swap pool, by Newton's method on a cubic with two
    floored divisions in every step. */
module CurveInvariant {
  import opened Arithmetic
  import opened CurveMaths

  // ---------- the invariant D of a pool with balances x and y ----------

  /** Four times the product of the balances. */
  function PoolProduct(x: nat, y: nat): nat {
    2 * x * (2 * y)
  }

  lemma PoolProductPositive(x: nat, y: nat)
    requires x >= 1 && y >= 1
    ensures PoolProduct(x, y) >= 1
  {
    MulLe(1, 2 * x, 2 * y);
  }

  /** The StableSwap equation for D, cleared of denominators: with the product
      `p = 4 x y`, the invariant is the root of m^3 + (ann - 1) p m = ann (x + y) p. */
  function CubicSide(ann: nat, p: nat, m: nat): int {
    m * m * m + (ann - 1) * p * m
  }

  function Target(ann: nat, sum: nat, p: nat): int {
    ann * sum * p
  }

  /** `d^3 / (4 x y)` in two floored divisions. */
  function DP(x: nat, y: nat, d: nat): nat
    requires x >= 1 && y >= 1
  {
    FloorDiv(FloorDiv(d * d, 2 * x) * d, 2 * y)
  }

  function StepD(ann: nat, sum: nat, dp: nat, d: nat): nat
    requires ann >= 1 && (ann - 1) * d + 3 * dp >= 1
  {
    FloorDiv((ann * sum + 2 * dp) * d, (ann - 1) * d + 3 * dp)
  }

  lemma DPBounds(x: nat, y: nat, d: nat)
    requires x >= 1 && y >= 1
    ensures
      var p := PoolProduct(x, y);
      DP(x, y, d) * p <= d * d * d <= DP(x, y, d) * p + p + 2 * x * d
  {
    var q := FloorDiv(d * d, 2 * x);
    DivBounds(d * d, 2 * x);
    DivBounds(q * d, 2 * y);
    TwoDivisions(2 * x, 2 * y, d, q, DP(x, y, d));
  }

  lemma TwoDivisions(w: nat, v: nat, d: nat, q: nat, dp: nat)
    requires q * w <= d * d <= q * w + w
    requires dp * v <= q * d <= dp * v + v
    ensures dp * (w * v) <= d * d * d <= dp * (w * v) + w * v + w * d
  {
    MulLe(dp * v, q * d, w);
    MulLe(q * d, dp * v + v, w);
    MulLe(q * w, d * d, d);
    MulLe(d * d, q * w + w, d);
    Regroup(w, v, d, q, dp);
  }

  lemma Regroup(w: nat, v: nat, d: nat, q: nat, dp: nat)
    ensures dp * v * w == dp * (w * v)
    ensures (dp * v + v) * w == dp * (w * v) + w * v
    ensures q * d * w == q * w * d
    ensures (q * w + w) * d == q * w * d + w * d
  {
  }

  /** The identity behind Newton on the cubic: m^3 - 3 m d^2 + 2 d^3 is a square times a
      sum, and so never negative. */
  lemma CubicIdentity(m: nat, d: nat)
    ensures m * m * m - 3 * (m * d * d) + 2 * (d * d * d) == (m - d) * (m - d) * (m + 2 * d)
    ensures 3 * (m * d * d) - 2 * (d * d * d) <= m * m * m
  {
    SquareOfDifference(m, d);
    var sq := (m - d) * (m - d);
    assert sq == m * m - 2 * (m * d) + d * d;
    assert sq * m == m * m * m - 2 * (m * d * m) + d * d * m;
    assert sq * d == m * m * d - 2 * (m * d * d) + d * d * d;
    assert sq * (m + 2 * d) == sq * m + 2 * (sq * d);
    assert m * d * m == m * m * d && d * d * m == m * d * d;
    MulLe(0, sq, m + 2 * d);
  }

  /** The tangent bound with the floored term in place of the exact one. */
  lemma TangentBound(m: nat, d: nat, q: nat)
    requires q <= d * d * d
    ensures 3 * m * q - 2 * d * q <= m * m * m * d
  {
    CubicIdentity(m, d);
    TangentSlope(m, d, q);
    TangentTimes(3 * m - 2 * d, q, d * d, m * m * m, d);
  }

  lemma TangentSlope(m: nat, d: nat, q: nat)
    ensures 3 * m * q - 2 * d * q == (3 * m - 2 * d) * q
    ensures 3 * (m * d * d) - 2 * (d * d * d) == (3 * m - 2 * d) * (d * d)
  {
    assert (3 * m - 2 * d) * q == 3 * m * q - 2 * d * q;
    assert (3 * m - 2 * d) * (d * d) == 3 * m * (d * d) - 2 * d * (d * d);
  }

  lemma TangentTimes(slope: int, q: nat, square: nat, cube: nat, d: nat)
    requires q <= square * d && slope * square <= cube
    ensures slope * q <= cube * d
  {
    if slope <= 0 {
      MulLe(slope, 0, q);
      MulLe(0, cube, d);
    } else {
      MulLe(q, square * d, slope);
      MulLe(slope * square, cube, d);
      assert square * d * slope == slope * square * d;
    }
  }

  /** No step goes below a number at which the equation is not yet reached. */
  lemma StepDStaysAbove(ann: nat, sum: nat, p: nat, dp: nat, d: nat, m: nat)
    requires ann >= 1 && p >= 1 && (ann - 1) * d + 3 * dp >= 1
    requires dp * p <= d * d * d
    requires CubicSide(ann, p, m) <= Target(ann, sum, p)
    ensures m <= StepD(ann, sum, dp, d)
  {
    var a, q := ann - 1, dp * p;
    var low, high := m * (a * d + 3 * dp), (ann * sum + 2 * dp) * d;
    TangentBound(m, d, q);
    MulLe(CubicSide(ann, p, m), Target(ann, sum, p), d);
    ClearDenominator(a, ann * sum, p, dp, d, m);
    MulOrder(low, high, p);
    DivIsMax(high, a * d + 3 * dp, m);
  }

  lemma ClearDenominator(a: int, t: int, p: int, dp: int, d: int, m: int)
    ensures m * (a * d + 3 * dp) * p == a * p * m * d + 3 * m * (dp * p)
    ensures (t + 2 * dp) * d * p == t * p * d + 2 * d * (dp * p)
    ensures (m * m * m + a * p * m) * d == m * m * m * d + a * p * m * d
  {
    ClearDivisor(a, p, dp, d, m);
    ClearDividend(t, p, dp, d);
    ClearCubic(m * m * m, a * p * m, d);
  }

  lemma ClearDivisor(a: int, p: int, dp: int, d: int, m: int)
    ensures m * (a * d + 3 * dp) * p == a * p * m * d + 3 * m * (dp * p)
  {
    assert m * (a * d + 3 * dp) == m * (a * d) + m * (3 * dp);
    assert m * (a * d) * p == a * p * m * d;
    assert m * (3 * dp) * p == 3 * m * (dp * p);
  }

  lemma ClearDividend(t: int, p: int, dp: int, d: int)
    ensures (t + 2 * dp) * d * p == t * p * d + 2 * d * (dp * p)
  {
    assert t * d * p == t * p * d;
    assert 2 * dp * d * p == 2 * d * (dp * p);
  }

  lemma ClearCubic(cube: int, linear: int, d: int)
    ensures (cube + linear) * d == cube * d + linear * d
  {
  }

  /** Every pool with both balances reaches the equation only above one. */
  lemma OneIsBelow(ann: nat, sum: nat, p: nat)
    requires ann >= 1 && sum >= 2 && p >= 1
    ensures CubicSide(ann, p, 1) <= Target(ann, sum, p)
  {
    MulLe(2, sum, ann);
    assert ann * sum == sum * ann;
    MulLe(2 * ann, ann * sum, p);
    assert 2 * ann * p == ann * p + ann * p;
    assert (ann - 1) * p * 1 == ann * p - p;
    MulLe(1, ann, p);
  }

  /** How far a result can be above the equation: the two roundings and the stopping
      distance of one, in the units of the cubic. */
  function Slack(x: nat, p: nat, r: nat): nat {
    2 * x * (r + 4) + 4 * p + 3 * (r + 1) + 1
  }

  /** The cube of a number one away, by the binomial formula. */
  lemma NeighbourCube(d: int, r: int)
    requires -1 <= r - d <= 1
    ensures r * r * r <= d * d * (3 * r - 2 * d) + 3 * d + 1 || d < 0
  {
    if r == d {
      assert d * d * (3 * r - 2 * d) == d * d * d;
    } else if r == d + 1 {
      assert 3 * r - 2 * d == d + 3;
      assert (d + 1) * (d + 1) == d * d + 2 * d + 1;
      assert (d * d + 2 * d + 1) * (d + 1) == d * d * d + 3 * (d * d) + 3 * d + 1;
      assert d * d * (d + 3) == d * d * d + 3 * (d * d);
    } else {
      assert 3 * r - 2 * d == d - 3;
      assert (d - 1) * (d - 1) == d * d - 2 * d + 1;
      assert (d * d - 2 * d + 1) * (d - 1) == d * d * d - 3 * (d * d) + 3 * d - 1;
      assert d * d * (d - 3) == d * d * d - 3 * (d * d);
    }
  }

  /** The rounding error of the cubic term, weighted by the tangent. */
  lemma RoundingBound(x: nat, p: nat, d: nat, r: nat, q: nat)
    requires d >= 1 && -1 <= r - d <= 1 && 3 * r >= 2 * d
    requires d * d * d <= q + p + 2 * x * d
    ensures r * r * r * d <= (3 * r - 2 * d) * q + Slack(x, p, r) * d
  {
    var slope, loss, cube := 3 * r - 2 * d, p + 2 * x * d, d * d * d;
    MulLe(cube, q + loss, slope);
    NeighbourCube(d, r);
    MulLe(r * r * r, d * d * slope + (3 * d + 1), d);
    RoundingIdentities(q, loss, slope, d);
    LossBound(2 * x, p, d, r, slope);
  }

  lemma RoundingIdentities(q: int, loss: int, slope: int, d: int)
    ensures (q + loss) * slope == slope * q + loss * slope
    ensures (d * d * slope + (3 * d + 1)) * d == d * d * d * slope + (3 * d + 1) * d
  {
    assert d * d * slope * d == d * d * d * slope;
  }

  lemma LossBound(w: nat, p: nat, d: nat, r: nat, slope: nat)
    requires d >= 1 && d <= r + 1 && slope <= d + 3
    ensures (p + w * d) * slope + (3 * d + 1) * d <= (w * (r + 4) + 4 * p + 3 * (r + 1) + 1) * d
  {
    MulLe(slope, 4 * d, p);
    MulLe(slope, r + 4, w * d);
    MulLe(3 * d + 1, 3 * (r + 1) + 1, d);
    LossIdentities(w, p, d, r, slope);
  }

  lemma LossIdentities(w: nat, p: nat, d: nat, r: nat, slope: nat)
    ensures (p + w * d) * slope == slope * p + slope * (w * d)
    ensures (w * (r + 4) + 4 * p + 3 * (r + 1) + 1) * d == (r + 4) * (w * d) + 4 * d * p + (3 * (r + 1) + 1) * d
  {
    assert w * (r + 4) * d == (r + 4) * (w * d);
    assert 4 * p * d == 4 * d * p;
  }

  /** From the step, times the divisor, to the equation. */
  lemma AccurateArithmetic(a: int, t: int, p: nat, dp: int, d: nat, r: int, slack: int)
    requires d >= 1 && r * (a * d + 3 * dp) <= (t + 2 * dp) * d
    requires r * r * r * d <= (3 * r - 2 * d) * (dp * p) + slack * d
    ensures r * r * r + a * p * r <= t * p + slack
  {
    var q := dp * p;
    MulLe(r * (a * d + 3 * dp), (t + 2 * dp) * d, p);
    ClearDenominator(a, t, p, dp, d, r);
    assert (3 * r - 2 * d) * q == 3 * r * q - 2 * d * q;
    assert (t * p + slack) * d == t * p * d + slack * d;
    MulOrder(r * r * r + a * p * r, t * p + slack, d);
  }

  /** The same for a result not far below the iterate, whatever pool the numbers come from. */
  lemma NearStepAccurate(ann: nat, sum: nat, x: nat, p: nat, dp: nat, d: nat, r: nat)
    requires ann >= 1 && d >= 1 && -1 <= r - d <= 1 && 3 * r >= 2 * d
    requires d * d * d <= dp * p + p + 2 * x * d
    requires r * ((ann - 1) * d + 3 * dp) <= (ann * sum + 2 * dp) * d
    ensures CubicSide(ann, p, r) <= Target(ann, sum, p) + Slack(x, p, r)
  {
    RoundingBound(x, p, d, r, dp * p);
    AccurateArithmetic(ann - 1, ann * sum, p, dp, d, r, Slack(x, p, r));
  }

  lemma StepDTimesDivisor(ann: nat, sum: nat, dp: nat, d: nat)
    requires ann >= 1 && (ann - 1) * d + 3 * dp >= 1
    ensures StepD(ann, sum, dp, d) * ((ann - 1) * d + 3 * dp) <= (ann * sum + 2 * dp) * d
  {
    DivBounds((ann * sum + 2 * dp) * d, (ann - 1) * d + 3 * dp);
  }

  lemma LowStepAccurate(ann: nat, x: nat, y: nat)
    requires ann >= 1 && x >= 1 && y >= 1
    ensures
      var p := PoolProduct(x, y);
      CubicSide(ann, p, 1) <= Target(ann, x + y, p) + Slack(x, p, 1)
  {
    PoolProductPositive(x, y);
    OneIsBelow(ann, x + y, PoolProduct(x, y));
  }

  /** A step that moves by at most one satisfies the equation up to the slack. */
  lemma StepDAccurate(ann: nat, x: nat, y: nat, d: nat)
    requires ann >= 1 && x >= 1 && y >= 1 && d >= 1
    requires (ann - 1) * d + 3 * DP(x, y, d) >= 1
    requires
      var r := StepD(ann, x + y, DP(x, y, d), d);
      r >= 1 && -1 <= r - d <= 1
    ensures
      var r, p := StepD(ann, x + y, DP(x, y, d), d), PoolProduct(x, y);
      CubicSide(ann, p, r) <= Target(ann, x + y, p) + Slack(x, p, r)
  {
    var dp, p, sum := DP(x, y, d), PoolProduct(x, y), x + y;
    var r := StepD(ann, sum, dp, d);
    if 3 * r < 2 * d {
      LowStepAccurate(ann, x, y);
    } else {
      DPBounds(x, y, d);
      StepDTimesDivisor(ann, sum, dp, d);
      NearStepAccurate(ann, sum, x, p, dp, d, r);
    }
  }

  /** In a balanced pool the first step stays where it is. */
  lemma BalancedStep(ann: nat, x: nat)
    requires ann >= 1 && x >= 1
    ensures DP(x, x, 2 * x) == 2 * x
    ensures (ann - 1) * (2 * x) + 3 * (2 * x) >= 1
    ensures StepD(ann, 2 * x, 2 * x, 2 * x) == 2 * x
  {
    var d := 2 * x;
    DivUnique(d * d, d, d);
    MulLe(0, ann - 1, d);
    var den := (ann - 1) * d + 3 * d;
    assert den == (ann + 2) * d;
    assert (ann * d + 2 * d) * d == d * den;
    DivUnique((ann * d + 2 * d) * d, den, d);
  }

  lemma DivisorDPositive(ann: nat, dp: nat, d: nat)
    requires ann >= 4 && d >= 1
    ensures (ann - 1) * d + 3 * dp >= 1
  {
    MulLe(1, ann - 1, d);
  }

  /** At least every number at which the equation is not yet reached, that is, at least
      the invariant rounded down. */
  ghost predicate AllBelow(ann: nat, x: nat, y: nat, d: nat) {
    var p := PoolProduct(x, y);
    forall m: nat :: CubicSide(ann, p, m) <= Target(ann, x + y, p) ==> m <= d
  }

  /** What a result of `compute_d` means: never below the invariant rounded down, and
      above it by no more than the slack. */
  ghost predicate Brackets(ann: nat, x: nat, y: nat, d: nat) {
    var p := PoolProduct(x, y);
    AllBelow(ann, x, y, d) && CubicSide(ann, p, d) <= Target(ann, x + y, p) + Slack(x, p, d)
  }

  lemma StepDKeepsAbove(ann: nat, x: nat, y: nat, d: nat)
    requires ann >= 1 && x >= 1 && y >= 1
    requires (ann - 1) * d + 3 * DP(x, y, d) >= 1
    ensures AllBelow(ann, x, y, StepD(ann, x + y, DP(x, y, d), d))
    ensures StepD(ann, x + y, DP(x, y, d), d) >= 1
  {
    var p := PoolProduct(x, y);
    PoolProductPositive(x, y);
    DPBounds(x, y, d);
    forall m: nat | CubicSide(ann, p, m) <= Target(ann, x + y, p)
      ensures m <= StepD(ann, x + y, DP(x, y, d), d)
    {
      StepDStaysAbove(ann, x + y, p, DP(x, y, d), d, m);
    }
    OneIsBelow(ann, x + y, p);
  }

  // ---------- one equation for both ----------

  /** The equation for a new balance is that for the invariant, solved for the other unknown. */
  lemma SameCurve(ann: nat, q: nat, d: nat, y: nat)
    ensures
      var p := PoolProduct(y, q);
      PoolSide(ann, q, d, y) - d * d * d == Target(ann, y + q, p) - CubicSide(ann, p, d)
  {
    var p := PoolProduct(y, q);
    assert p == 4 * q * y;
    SameProduct(ann, q, d, y, 4 * q * y);
  }

  lemma SameProduct(ann: nat, q: nat, d: nat, y: nat, p: nat)
    requires p == 4 * q * y
    ensures PoolSide(ann, q, d, y) == ann * (y + q) * p - (ann - 1) * p * d
  {
    var k: int, sum: nat, less: int := ann * q + d - ann * d, y + q, ann - 1;
    LinearTimes(q, k, y, p);
    LinearSide(ann, q, d, p, k, less);
    SquareSide(ann, q, y, p);
    TargetSide(ann, q, y, p, sum);
  }

  lemma LinearTimes(q: nat, k: int, y: nat, p: nat)
    requires p == 4 * q * y
    ensures 4 * q * k * y == p * k
  {
  }

  lemma SquareSide(ann: nat, q: nat, y: nat, p: nat)
    requires p == 4 * q * y
    ensures 4 * ann * q * (y * y) == ann * y * p
  {
    assert 4 * ann * q * (y * y) == ann * y * (4 * q * y);
  }

  lemma TargetSide(ann: nat, q: nat, y: nat, p: nat, sum: nat)
    requires sum == y + q
    ensures ann * sum * p == ann * y * p + ann * q * p
  {
    assert ann * sum == ann * y + ann * q;
    assert (ann * y + ann * q) * p == ann * y * p + ann * q * p;
  }

  lemma LinearSide(ann: nat, q: nat, d: nat, p: nat, k: int, less: int)
    requires k == ann * q + d - ann * d && less == ann - 1
    ensures p * k == ann * q * p - less * p * d
  {
    assert p * (ann * q + d - ann * d) == ann * q * p + p * d - ann * p * d;
    assert (ann - 1) * p * d == ann * p * d - p * d;
  }
}
