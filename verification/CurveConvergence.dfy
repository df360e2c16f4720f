/** Whether `compute_d` answers. The first floored division of a step loses up to the
    iterate over twice the second balance. While that loss is small against the
    amplification the distance to the invariant shrinks by a third in every step, and the
    iteration stops well within its 255 steps; when it is large the iterates can go round in
    a circle. */
module CurveConvergence {
  import opened Amounts
  import opened Arithmetic
  import opened CurveMaths
  import opened CurveInvariant

  // ---------- one step, in the numbers of the equation ----------

  /** The numbers of one step: the equation is `m^3 + a p m = t p`, the step goes from `d`
      to `n` with the floored cubic term `dp`, which loses at most `loss` of `d^3`, and `g`
      is the first number beyond the root. */
  ghost predicate IsStep(a: nat, t: nat, p: nat, dp: nat, d: nat, g: nat, n: nat, loss: nat) {
    && p >= 1 && d >= 1
    && n * (a * d + 3 * dp) <= (t + 2 * dp) * d
    && t * p < g * g * g + a * p * g
    && dp * p <= d * d * d <= dp * p + loss
  }

  /** The step, cleared of its denominators, for the distance to `g`. */
  lemma StepBeyond(a: nat, t: nat, p: nat, dp: nat, d: nat, g: nat, n: nat, loss: nat)
    requires IsStep(a, t, p, dp, d, g, n, loss)
    ensures (n - g) * (a * p * d + 3 * (dp * p)) < g * g * g * d + (dp * p) * (2 * d - 3 * g)
  {
    var q := dp * p;
    MulLe(n * (a * d + 3 * dp), (t + 2 * dp) * d, p);
    ClearDenominator(a, t, p, dp, d, n);
    MulLt(t * p, g * g * g + a * p * g, d);
    ClearCubic(g * g * g, a * p * g, d);
    Distances(a * p, d, q, g, n);
  }

  lemma Distances(ap: int, d: int, q: int, g: int, n: int)
    ensures (n - g) * (ap * d + 3 * q) == (ap * n * d + 3 * n * q) - (ap * g * d + 3 * g * q)
    ensures q * (2 * d - 3 * g) == 2 * d * q - 3 * g * q
  {
    assert n * (ap * d + 3 * q) == ap * n * d + 3 * n * q;
    assert g * (ap * d + 3 * q) == ap * g * d + 3 * g * q;
    assert (n - g) * (ap * d + 3 * q) == n * (ap * d + 3 * q) - g * (ap * d + 3 * q);
  }

  /** What the divisions lose is small against the equation at the iterate. */
  predicate Outweighed(w: int, cube: int, loss: int, d: int) {
    3 * loss <= w && 2 * (loss * (d + 6)) <= 2 * w + 3 * cube
  }

  /** From above, a step that stays above shrinks the distance by a third. */
  lemma StepShrinks(a: nat, t: nat, p: nat, dp: nat, d: nat, g: nat, n: nat, loss: nat)
    requires IsStep(a, t, p, dp, d, g, n, loss) && Outweighed(a * p * d, d * d * d, loss, d)
    requires g <= d && g < n
    ensures 3 * (n - g) < 2 * (d - g)
  {
    StepBeyond(a, t, p, dp, d, g, n, loss);
    ShrinkArithmetic(n - g, a * p * d, dp * p, d * d * d, d, g, loss);
  }

  lemma ShrinkArithmetic(u: int, w: int, q: int, cube: int, d: nat, g: nat, loss: nat)
    requires u >= 1 && d >= 1 && g <= d && cube == d * d * d
    requires q <= cube <= q + loss && Outweighed(w, cube, loss, d)
    requires u * (w + 3 * q) < g * g * g * d + q * (2 * d - 3 * g)
    ensures 3 * u < 2 * (d - g)
  {
    LeftSide(u, w, q, cube, loss);
    RightSide(q, cube, d, g, loss);
    CubePositive(d, cube);
    if 2 * d >= 3 * g {
      CubesOrder(d, g, cube);
      ThirdOff(u, d - g, cube);
    } else {
      NearCubes(d, g, cube);
      assert loss * (d + 6) == loss * d + 6 * loss;
      NearThird(u, d - g, cube);
    }
  }

  lemma NearThird(u: int, e: int, cube: int)
    requires u >= 1 && cube >= 1 && 6 * (u * cube) < 2 * (e * cube) + 3 * cube
    ensures 3 * u < 2 * e
  {
    assert 6 * (u * cube) == 6 * u * cube && 2 * (e * cube) + 3 * cube == (2 * e + 3) * cube;
    MulOrder(6 * u, 2 * e + 3, cube);
  }

  lemma ThirdOff(u: int, e: int, cube: int)
    requires cube >= 1 && 3 * (u * cube) < 2 * (e * cube)
    ensures 3 * u < 2 * e
  {
    MulOrder(3 * u, 2 * e, cube);
    assert 2 * e * cube == 2 * (e * cube) && 3 * u * cube == 3 * (u * cube);
  }

  lemma CubePositive(d: nat, cube: int)
    requires d >= 1 && cube == d * d * d
    ensures cube >= 1
  {
    MulLe(1, d * d, d);
  }

  lemma LeftSide(u: int, w: int, q: int, cube: int, loss: nat)
    requires u >= 1 && cube <= q + loss && 3 * loss <= w
    ensures 3 * (u * cube) + w - 3 * loss <= u * (w + 3 * q)
  {
    var rest := w - 3 * loss;
    MulLe(1, u, rest);
    MulLe(3 * cube + rest, w + 3 * q, u);
    assert (3 * cube + rest) * u == 3 * (u * cube) + u * rest;
    assert (w + 3 * q) * u == u * (w + 3 * q);
  }

  /** The floored term in place of the exact one costs at most the loss, and nothing far from
      the root. */
  lemma RightSide(q: int, cube: int, d: nat, g: nat, loss: nat)
    requires g <= d && q <= cube <= q + loss
    ensures q * (2 * d - 3 * g) <= cube * (2 * d - 3 * g) + if 2 * d >= 3 * g then 0 else loss * d
  {
    if 2 * d >= 3 * g {
      MulLe(q, cube, 2 * d - 3 * g);
    } else {
      var slope := 3 * g - 2 * d;
      MulLe(cube - q, loss, slope);
      MulLe(slope, d, loss);
      assert (cube - q) * slope == cube * slope - q * slope;
      assert loss * slope == slope * loss && loss * d == d * loss;
      assert q * (2 * d - 3 * g) == -(q * slope) && cube * (2 * d - 3 * g) == -(cube * slope);
    }
  }

  lemma CubesOrder(d: nat, g: nat, cube: int)
    requires g <= d && cube == d * d * d
    ensures g * g * g * d + cube * (2 * d - 3 * g) <= 2 * ((d - g) * cube)
  {
    SquareOrder(g, d);
    MulLe(g * g, d * d, g * d);
    Regrouped(d, g, cube);
  }

  lemma Regrouped(d: int, g: int, cube: int)
    requires cube == d * d * d
    ensures g * g * (g * d) == g * g * g * d && d * d * (g * d) == g * cube
    ensures cube * (2 * d - 3 * g) == 2 * (cube * d) - 3 * (g * cube)
    ensures (d - g) * cube == cube * d - g * cube
  {
    assert d * d * (g * d) == g * (d * d * d);
    assert cube * (2 * d - 3 * g) == cube * (2 * d) - cube * (3 * g);
  }

  /** Near the root the cubic part is half of that. */
  lemma NearCubes(d: nat, g: nat, cube: int)
    requires g <= d && 2 * d <= 3 * g && cube == d * d * d
    ensures g * g * g * d + cube * (2 * d - 3 * g) <= (d - g) * cube
  {
    GapPositive(d, g);
    var gap := g * d + g * g - d * d;
    NearProduct(gap, d - g, d);
    Regrouped(d, g, cube);
    NearTerms(d, g, cube, gap);
  }

  lemma NearProduct(gap: int, e: int, d: int)
    requires gap >= 0 && e >= 0 && d >= 0
    ensures gap * (e * d) >= 0
  {
    MulLe(0, e, d);
    MulLe(0, gap, e * d);
  }

  lemma GapPositive(d: nat, g: nat)
    requires g <= d && 2 * d <= 3 * g
    ensures g * d + g * g - d * d >= 0
  {
    MulLe(2 * d, 3 * g, d);
    MulLe(2 * d, 3 * g, g);
    GapTerms(d, g);
  }

  lemma GapTerms(d: int, g: int)
    ensures 2 * d * d == 2 * (d * d) && 3 * g * d == 3 * (g * d)
    ensures 2 * d * g == 2 * (g * d) && 3 * g * g == 3 * (g * g)
  {
  }

  lemma NearTerms(d: int, g: int, cube: int, gap: int)
    requires cube == d * d * d && gap == g * d + g * g - d * d
    ensures gap * ((d - g) * d) == 2 * (g * cube) - g * g * g * d - cube * d
  {
    assert gap * ((d - g) * d) == (g * d + g * g - d * d) * (d * d - g * d);
    assert (g * d) * (d * d) == g * cube && (d * d) * (d * d) == cube * d;
    assert (g * d) * (g * d) == g * g * (d * d) && (g * g) * (g * d) == g * g * g * d;
    assert (d * d) * (g * d) == g * cube;
  }

  /** From the root itself a step goes up by at most one. */
  lemma StepFromBelow(a: nat, t: nat, p: nat, dp: nat, d: nat, n: nat, loss: nat)
    requires IsStep(a, t, p, dp, d, d + 1, n, loss) && Outweighed(a * p * d, d * d * d, loss, d)
    requires d >= 3
    ensures n <= d + 1
  {
    var q, w, cube, g := dp * p, a * p * d, d * d * d, d + 1;
    StepBeyond(a, t, p, dp, d, g, n, loss);
    if n > g {
      BelowArithmetic(n - g, w, q, cube, d, loss);
    }
  }

  lemma BelowArithmetic(u: int, w: int, q: int, cube: int, d: nat, loss: nat)
    requires u >= 1 && d >= 3 && cube == d * d * d
    requires q <= cube <= q + loss && Outweighed(w, cube, loss, d)
    ensures u * (w + 3 * q) >= (d + 1) * (d + 1) * (d + 1) * d + q * (2 * d - 3 * (d + 1))
  {
    MulLe(cube, q + loss, d + 6);
    BelowTerms(q, cube, loss, d);
    NextCube(d, cube);
    CubePositive(d, cube);
    MulLe(1, u, w + 3 * q);
    assert u * (w + 3 * q) == (w + 3 * q) * u;
  }

  lemma BelowTerms(q: int, cube: int, loss: int, d: int)
    ensures (q + loss) * (d + 6) == q * (d + 3) + 3 * q + loss * (d + 6)
    ensures cube * (d + 6) == cube * d + 6 * cube
    ensures q * (2 * d - 3 * (d + 1)) == -(q * (d + 3))
  {
  }

  lemma NextCube(d: nat, cube: int)
    requires d >= 3 && cube == d * d * d
    ensures 2 * ((d + 1) * (d + 1) * (d + 1) * d) <= 2 * (cube * d) + 9 * cube
  {
    var square := d * d;
    assert (d + 1) * (d + 1) == square + 2 * d + 1;
    assert (square + 2 * d + 1) * (d + 1) == cube + 3 * square + 3 * d + 1;
    assert (cube + 3 * square + 3 * d + 1) * d == cube * d + 3 * cube + 3 * square + d;
    MulLe(3, d, square);
    MulLe(3, d, d);
    assert square * d == cube && d * square == cube;
  }

  // ---------- the pools considered ----------

  /** The first balance is not too large for the amplification. Every pool satisfies this
      with its smaller balance first. */
  predicate Tractable(base: nat, quote: nat, amp: nat) {
    base >= 1 && quote >= 1 && amp >= 1 && base <= (8 * amp - 4) * quote
  }

  /** The largest number at which the equation is not yet reached. */
  ghost predicate IsCubicFloor(ann: nat, x: nat, y: nat, m: nat) {
    var p := PoolProduct(x, y);
    CubicSide(ann, p, m) <= Target(ann, x + y, p) < CubicSide(ann, p, m + 1)
  }

  lemma ProductWithinSquare(x: nat, y: nat)
    ensures PoolProduct(x, y) <= (x + y) * (x + y)
  {
    assert (x + y) * (x + y) - 2 * x * (2 * y) == (x - y) * (x - y);
    MulLe(0, if x >= y then x - y else y - x, if x >= y then x - y else y - x);
    assert (x - y) * (x - y) == (y - x) * (y - x);
  }

  lemma CubeAtLeast(p: nat, sum: nat, m: nat)
    requires p <= sum * sum && sum < m
    ensures p * m <= m * m * m
  {
    SquareOrder(sum, m);
    MulLe(p, m * m, m);
  }

  /** The iteration starts above the invariant. */
  lemma SumIsAbove(ann: nat, x: nat, y: nat)
    requires ann >= 1 && x >= 1 && y >= 1
    ensures AllBelow(ann, x, y, x + y)
  {
    var sum, p := x + y, PoolProduct(x, y);
    ProductWithinSquare(x, y);
    PoolProductPositive(x, y);
    forall m: nat | CubicSide(ann, p, m) <= Target(ann, sum, p)
      ensures m <= sum
    {
      if sum < m {
        CubeAtLeast(p, sum, m);
        BeyondTarget(ann, p, sum, m);
      }
    }
  }

  lemma BeyondTarget(ann: nat, p: nat, sum: nat, m: nat)
    requires ann >= 1 && p >= 1 && sum < m && p * m <= m * m * m
    ensures CubicSide(ann, p, m) > Target(ann, sum, p)
  {
    MulLe(1, ann, p);
    MulLt(sum, m, ann * p);
    assert (ann - 1) * p * m == m * (ann * p) - p * m;
    assert sum * (ann * p) == ann * sum * p;
  }

  lemma {:induction false} CubicFloorFrom(ann: nat, x: nat, y: nat, from: nat) returns (m: nat)
    requires ann >= 1 && x >= 1 && y >= 1
    requires CubicSide(ann, PoolProduct(x, y), from) <= Target(ann, x + y, PoolProduct(x, y))
    ensures IsCubicFloor(ann, x, y, m) && from <= m
    decreases x + y - from
  {
    var p := PoolProduct(x, y);
    SumIsAbove(ann, x, y);
    m := from;
    if CubicSide(ann, p, from + 1) <= Target(ann, x + y, p) {
      m := CubicFloorFrom(ann, x, y, from + 1);
    }
  }

  // ---------- large iterates ----------

  /** The product of the balances is large against the square of the first. */
  lemma RatioBound(x: nat, y: nat, amp: nat, a: nat, p: nat)
    requires Tractable(x, y, amp) && a == 4 * amp - 1 && p == PoolProduct(x, y)
    ensures 2 * (x * x) <= (a - 1) * p && 4 * x <= p
  {
    MulLe(x, (8 * amp - 4) * y, 2 * x);
    assert x * (2 * x) == 2 * (x * x);
    assert (8 * amp - 4) * y * (2 * x) == (a - 1) * (2 * x * (2 * y));
    MulLe(1, y, 4 * x);
    assert y * (4 * x) == 2 * x * (2 * y);
  }

  lemma LossTerms(x: nat, d: nat, a: nat, p: nat)
    requires a >= 3 && d >= 16 && 4 * x <= p
    ensures 16 * p <= p * d && 2 * (2 * x * d) <= p * d && 3 * (p * d) <= a * p * d
  {
    MulLe(16, d, p);
    MulLe(4 * x, p, d);
    MulLe(0, p, d);
    MulLe(3, a, p * d);
    TimesTwice(4, x, d);
    TimesTwice(2, x, d);
    TimesTwice(a, p, d);
  }

  /** From sixteen on, what the divisions lose is outweighed. */
  lemma LossOutweighed(x: nat, d: nat, a: nat, p: nat, loss: nat)
    requires a >= 3 && d >= 16 && 2 * (x * x) <= (a - 1) * p && 4 * x <= p && loss == p + 2 * x * d
    ensures Outweighed(a * p * d, d * d * d, loss, d)
  {
    var v := 2 * x * d;
    LossTerms(x, d, a, p);
    OutweighedSum(x, d, a, p, v);
    ThirdOutweighed(a * p * d, p * d, p, v);
    IsOutweighed(a * p * d, d * d * d, p + v, d);
  }

  lemma ThirdOutweighed(w: int, pd: int, p: int, v: int)
    requires p >= 0 && 16 * p <= pd && 2 * v <= pd && 3 * pd <= w
    ensures 3 * (p + v) <= w
  {
  }

  lemma IsOutweighed(w: int, cube: int, loss: int, d: int)
    requires 3 * loss <= w && 2 * (loss * (d + 6)) <= 2 * w + 3 * cube
    ensures Outweighed(w, cube, loss, d)
  {
  }

  lemma OutweighedSum(x: nat, d: nat, a: nat, p: nat, v: nat)
    requires a >= 3 && d >= 16 && 2 * (x * x) <= (a - 1) * p && v == 2 * x * d
    ensures 2 * ((p + v) * (d + 6)) <= 2 * (a * p * d) + 3 * (d * d * d)
  {
    MulLe(16, d, p);
    MulLe(16, d, v);
    RoundingTerms(p, v, d);
    OutweighedMean(x, d, a, p);
    MulLe(22 * (x * d), (8 * a - 11) * p + 12 * (d * d), d);
    OutweighedTerms(x, d, a, p, v);
    OutweighedTotal(a * p * d, p * d, p, v * d, v, d * d * d);
  }

  lemma OutweighedMean(x: nat, d: nat, a: nat, p: nat)
    requires a >= 3 && 2 * (x * x) <= (a - 1) * p
    ensures 22 * (x * d) <= (8 * a - 11) * p + 12 * (d * d)
  {
    Means(x, d);
    MulLe(6 * (a - 1), 8 * a - 11, p);
    TimesTwice(6, a - 1, p);
    MulLe(0, x, d);
  }

  lemma OutweighedTotal(w: int, pd: int, p: int, vd: int, v: int, cube: int)
    requires 16 * p <= pd && 16 * v <= vd && 11 * vd <= 8 * w - 11 * pd + 12 * cube
    ensures 2 * (pd + 6 * p + vd + 6 * v) <= 2 * w + 3 * cube
  {
  }

  lemma Means(x: int, d: int)
    ensures 2 * (x * d) <= x * x + d * d
  {
    ExpandSquare(x, d);
    SquareIsPositive(x - d);
  }

  lemma OutweighedTerms(x: int, d: int, a: int, p: int, v: int)
    requires v == 2 * x * d
    ensures 22 * (x * d) * d == 11 * (v * d)
    ensures ((8 * a - 11) * p + 12 * (d * d)) * d == 8 * (a * p * d) - 11 * (p * d) + 12 * (d * d * d)
    ensures d * p == p * d && d * v == v * d
  {
    assert 22 * (x * d) * d == 11 * (2 * x * d * d);
    assert ((8 * a - 11) * p) * d == 8 * (a * p * d) - 11 * (p * d);
  }

  /** The root, in the numbers of the equation. */
  lemma FloorOfPool(ann: nat, x: nat, y: nat, m: nat, a: nat, t: nat, p: nat)
    requires ann >= 1 && IsCubicFloor(ann, x, y, m)
    requires a == ann - 1 && t == ann * (x + y) && p == PoolProduct(x, y)
    ensures t * p < (m + 1) * (m + 1) * (m + 1) + a * p * (m + 1)
  {
  }

  /** The step, in the numbers of the equation. */
  lemma StepOfPool(ann: nat, x: nat, y: nat, dp: nat, d: nat, n: nat, a: nat, t: nat)
    requires ann >= 1 && (ann - 1) * d + 3 * dp >= 1 && n == StepD(ann, x + y, dp, d)
    requires a == ann - 1 && t == ann * (x + y)
    ensures n * (a * d + 3 * dp) <= (t + 2 * dp) * d
  {
    StepDTimesDivisor(ann, x + y, dp, d);
  }

  /** The rounding, in the numbers of the equation. */
  lemma RoundingOfPool(x: nat, y: nat, d: nat, p: nat, loss: nat)
    requires x >= 1 && y >= 1 && p == PoolProduct(x, y) && loss == p + 2 * x * d
    ensures p >= 1 && DP(x, y, d) * p <= d * d * d <= DP(x, y, d) * p + loss
  {
    PoolProductPositive(x, y);
    DPBounds(x, y, d);
  }

  /** A step from sixteen or more goes up by at most one, and where it stays beyond the root
      it takes a third off the distance. */
  lemma LargeStep(x: nat, y: nat, amp: nat, d: nat, m: nat, n: nat)
    requires Tractable(x, y, amp) && 16 <= d && IsCubicFloor(4 * amp, x, y, m) && m <= d
    requires (4 * amp - 1) * d + 3 * DP(x, y, d) >= 1
    requires n == StepD(4 * amp, x + y, DP(x, y, d), d)
    ensures n <= d + 1
    ensures m + 1 < n && m + 1 <= d ==> 3 * (n - m - 1) < 2 * (d - m - 1)
  {
    var ann: nat, dp: nat, p: nat := 4 * amp, DP(x, y, d), PoolProduct(x, y);
    var a: nat, t, loss := ann - 1, Product(ann, x + y), p + Product(2 * x, d);
    assert t * p < (m + 1) * (m + 1) * (m + 1) + a * p * (m + 1) by {
      FloorOfPool(ann, x, y, m, a, t, p);
    }
    assert n * (a * d + 3 * dp) <= (t + 2 * dp) * d by {
      StepOfPool(ann, x, y, dp, d, n, a, t);
    }
    assert p >= 1 && dp * p <= d * d * d <= dp * p + loss by {
      RoundingOfPool(x, y, d, p, loss);
    }
    assert Outweighed(a * p * d, d * d * d, loss, d) by {
      RatioBound(x, y, amp, a, p);
      LossOutweighed(x, d, a, p, loss);
    }
    OutweighedStep(a, t, p, dp, d, m, n, loss);
  }

  lemma OutweighedStep(a: nat, t: nat, p: nat, dp: nat, d: nat, m: nat, n: nat, loss: nat)
    requires IsStep(a, t, p, dp, d, m + 1, n, loss) && Outweighed(a * p * d, d * d * d, loss, d)
    requires 3 <= d && m <= d
    ensures n <= d + 1
    ensures m + 1 < n && m + 1 <= d ==> 3 * (n - m - 1) < 2 * (d - m - 1)
  {
    if m == d {
      StepFromBelow(a, t, p, dp, d, n, loss);
    } else if m + 1 < n {
      StepShrinks(a, t, p, dp, d, m + 1, n, loss);
    }
  }

  // ---------- small iterates ----------

  lemma NextAtMost(a: nat, t: nat, p: nat, dp: nat, d: nat)
    requires p >= 1 && t * p < (d + 1) * (d + 1) * (d + 1) + a * p * (d + 1)
    requires (d + 1) * (d + 1) * (d + 1) * d - d < a * p * d + dp * p * (d + 6)
    ensures (t + 2 * dp) * d < (d + 2) * (a * d + 3 * dp)
  {
    var cube, q := (d + 1) * (d + 1) * (d + 1), dp * p;
    ClearDividend(t, p, dp, d);
    ClearDivisor(a, p, dp, d, d + 2);
    MulLe(t * p + 1, cube + a * p * (d + 1), d);
    NextTerms(cube, a * p, q, t * p, d);
    MulOrder((t + 2 * dp) * d, (d + 2) * (a * d + 3 * dp), p);
  }

  lemma NextTerms(cube: int, ap: int, q: int, tp: int, d: int)
    ensures (cube + ap * (d + 1)) * d == cube * d + ap * d * d + ap * d
    ensures (tp + 1) * d == tp * d + d
    ensures ap * (d + 2) * d == ap * d * d + 2 * (ap * d)
    ensures 3 * (d + 2) * q == 3 * (d * q) + 6 * q
    ensures q * (d + 6) == d * q + 6 * q && 2 * d * q == 2 * (d * q)
  {
    assert (cube + ap * (d + 1)) * d == cube * d + ap * (d + 1) * d;
    assert ap * (d + 1) * d == ap * d * d + ap * d;
  }

  /** The next step goes up by at most one where the rounding is small against the cube. */
  lemma RoundedEnough(w: int, p: nat, q: int, v: nat, d: nat)
    requires d * d * d <= q + p + v
    requires 3 * (d * d) + (p + v) * (d + 6) < w + 3 * (d * d * d)
    ensures (d + 1) * (d + 1) * (d + 1) * d - d < w + q * (d + 6)
  {
    var square, cube := d * d, d * d * d;
    MulLe(cube, q + p + v, d + 6);
    assert (q + p + v) * (d + 6) == q * (d + 6) + (p + v) * (d + 6);
    assert cube * (d + 6) == cube * d + 6 * cube;
    assert (d + 1) * (d + 1) == square + 2 * d + 1;
    assert (square + 2 * d + 1) * (d + 1) == cube + 3 * square + 3 * d + 1;
    assert (cube + 3 * square + 3 * d + 1) * d == cube * d + 3 * cube + 3 * square + d;
  }

  lemma RoundingTerms(p: int, v: int, d: int)
    ensures (p + v) * (d + 6) == p * d + 6 * p + v * d + 6 * v
  {
  }

  /** With the smaller balance first the rounding is small for any amplification. */
  lemma BalancedRounding(x: nat, y: nat, d: nat, p: nat)
    requires x <= y && 6 <= d <= x + y && 4 * x + d < d * d && p == 2 * x * (2 * y)
    ensures 3 * (d * d) + (p + 2 * x * d) * (d + 6) < 3 * p * d + 3 * (d * d * d)
  {
    var v := 2 * x * d;
    FirstLoss(x, d, 2 * y, p);
    BalancedSum(x, d, p, v);
  }

  /** The loss of the first division for an iterate up to some number. */
  lemma FirstLoss(x: nat, d: nat, most: nat, p: nat)
    requires d <= most && 2 * x * most <= p
    ensures 2 * x * d <= p
  {
    MulLe(d, most, 2 * x);
    assert d * (2 * x) == 2 * x * d && most * (2 * x) == 2 * x * most;
  }

  lemma BalancedSum(x: nat, d: nat, p: nat, v: nat)
    requires d >= 6 && v == 2 * x * d && v <= p && 4 * x + d < d * d
    ensures 3 * (d * d) + (p + v) * (d + 6) < 3 * p * d + 3 * (d * d * d)
  {
    MulLe(v, p, d);
    MulLe(6, d, p);
    MulLt(4 * x + d, d * d, d);
    RoundingTerms(p, v, d);
    FourTimes(x, p, d);
    BalancedTotal(p * d, p, v * d, v, x * d, d * d, d * d * d);
  }

  lemma FourTimes(x: int, p: int, d: int)
    ensures d * p == p * d && 3 * p * d == 3 * (p * d)
    ensures (4 * x + d) * d == 4 * (x * d) + d * d && 2 * x * d == 2 * (x * d)
  {
  }

  lemma BalancedTotal(pd: int, p: int, vd: int, v: int, xd: int, square: int, cube: int)
    requires vd <= pd && 6 * p <= pd && v == 2 * xd && 4 * xd + square < cube
    ensures 3 * square + (pd + 6 * p + vd + 6 * v) < 3 * pd + 3 * cube
  {
  }

  lemma SquareIsPositive(t: int)
    ensures 0 <= t * t
  {
  }

  lemma ExpandSquare(a: int, b: int)
    ensures (a - b) * (a - b) == a * a - 2 * (a * b) + b * b
  {
  }

  /** The mean of two squares, with room for the roundings: twice over. */
  lemma TightMeans(x: int, d: int)
    requires d >= 1
    ensures 24 * (x * d) < 10 * (x * x) + 15 * (d * d)
    ensures 28 * (x * d) < 10 * (x * x) + 21 * (d * d)
  {
    MulLe(1, d, d);
    SquareIsPositive(10 * x - 12 * d);
    SquareIsPositive(10 * x - 14 * d);
    TightSquare(x, d, 12);
    TightSquare(x, d, 14);
  }

  lemma TightSquare(x: int, d: int, k: int)
    ensures (10 * x - k * d) * (10 * x - k * d) == 100 * (x * x) - 20 * k * (x * d) + k * k * (d * d)
  {
    ExpandSquare(10 * x, k * d);
    assert 10 * x * (10 * x) == 100 * (x * x);
    assert 10 * x * (k * d) == 10 * k * (x * d);
    assert k * d * (k * d) == k * k * (d * d);
  }

  /** From an amplification of two the rounding is small from six on. */
  lemma AmplifiedRounding(x: nat, a: nat, d: nat, p: nat)
    requires a >= 7 && d >= 6 && 2 * (x * x) <= (a - 1) * p
    ensures 3 * (d * d) + (p + 2 * x * d) * (d + 6) < a * p * d + 3 * (d * d * d)
  {
    AmplifiedSum(x, a, d, p, Product(2 * x, d));
  }

  lemma AmplifiedSum(x: nat, a: nat, d: nat, p: nat, v: nat)
    requires a >= 7 && d >= 6 && 2 * (x * x) <= (a - 1) * p && v == 2 * x * d
    ensures 3 * (d * d) + (p + v) * (d + 6) < a * p * d + 3 * (d * d * d)
  {
    MulLe(6, d, p);
    MulLe(6, d, v);
    RoundingTerms(p, v, d);
    AmplifiedMean(x, a, d, p);
    MulLt(18 * d + 24 * (x * d), 6 * ((a - 2) * p) + 18 * (d * d), d);
    AmplifiedTerms(x, a, d, p, v);
    AmplifiedTotal(a * p * d, p * d, p, v * d, v, d * d, d * d * d);
  }

  lemma AmplifiedMean(x: nat, a: nat, d: nat, p: nat)
    requires a >= 7 && d >= 6 && 2 * (x * x) <= (a - 1) * p
    ensures 18 * d + 24 * (x * d) < 6 * ((a - 2) * p) + 18 * (d * d)
  {
    MulLe(6, d, d);
    TightMeans(x, d);
    FiveSixths(a, p);
    MeanTotal(x * d, x * x, d * d, d, (a - 1) * p, (a - 2) * p);
  }

  lemma MeanTotal(xd: int, xx: int, square: int, d: int, low: int, high: int)
    requires 6 * d <= square && 24 * xd < 10 * xx + 15 * square && 2 * xx <= low && 5 * low <= 6 * high
    ensures 18 * d + 24 * xd < 6 * high + 18 * square
  {
  }

  lemma FiveSixths(a: int, p: nat)
    requires a >= 7
    ensures 5 * ((a - 1) * p) <= 6 * ((a - 2) * p)
  {
    MulLe(5 * (a - 1), 6 * (a - 2), p);
    TimesTwice(5, a - 1, p);
    TimesTwice(6, a - 2, p);
  }

  lemma TimesTwice(a: int, b: int, c: int)
    ensures a * b * c == a * (b * c)
  {
  }

  lemma AmplifiedTotal(w: int, pd: int, p: int, vd: int, v: int, square: int, cube: int)
    requires 6 * p <= pd && 6 * v <= vd && 18 * square + 12 * vd < 6 * w - 12 * pd + 18 * cube
    ensures 3 * square + (pd + 6 * p + vd + 6 * v) < w + 3 * cube
  {
  }

  lemma AmplifiedTerms(x: int, a: int, d: int, p: int, v: int)
    requires v == 2 * x * d
    ensures (18 * d + 24 * (x * d)) * d == 18 * (d * d) + 12 * (v * d)
    ensures (6 * ((a - 2) * p) + 18 * (d * d)) * d == 6 * (a * p * d) - 12 * (p * d) + 18 * (d * d * d)
    ensures d * p == p * d && d * v == v * d
  {
    assert 24 * (x * d) * d == 12 * (2 * x * d * d);
    assert (a - 2) * p * d == a * p * d - 2 * (p * d);
  }

  /** With an amplification of one it is from eight on. */
  lemma PlainRounding(x: nat, d: nat, p: nat)
    requires d >= 8 && x * x <= p
    ensures 3 * (d * d) + (p + 2 * x * d) * (d + 6) < 3 * p * d + 3 * (d * d * d)
  {
    PlainSum(x, d, p, Product(2 * x, d));
  }

  lemma PlainSum(x: nat, d: nat, p: nat, v: nat)
    requires d >= 8 && x * x <= p && v == 2 * x * d
    ensures 3 * (d * d) + (p + v) * (d + 6) < 3 * p * d + 3 * (d * d * d)
  {
    MulLe(8, d, p);
    MulLe(8, d, v);
    RoundingTerms(p, v, d);
    PlainMean(x, d, p);
    MulLt(12 * d + 14 * (x * d), 5 * p + 12 * (d * d), d);
    PlainTerms(x, d, p, v);
    PlainTotal(p * d, p, v * d, v, d * d, d * d * d);
  }

  lemma PlainMean(x: nat, d: nat, p: nat)
    requires d >= 8 && x * x <= p
    ensures 12 * d + 14 * (x * d) < 5 * p + 12 * (d * d)
  {
    MulLe(8, d, d);
    TightMeans(x, d);
  }

  lemma PlainTotal(pd: int, p: int, vd: int, v: int, square: int, cube: int)
    requires 8 * p <= pd && 8 * v <= vd && 12 * square + 7 * vd < 5 * pd + 12 * cube
    ensures 3 * square + (pd + 6 * p + vd + 6 * v) < 3 * pd + 3 * cube
  {
  }

  lemma PlainTerms(x: int, d: int, p: int, v: int)
    requires v == 2 * x * d
    ensures (12 * d + 14 * (x * d)) * d == 12 * (d * d) + 7 * (v * d)
    ensures (5 * p + 12 * (d * d)) * d == 5 * (p * d) + 12 * (d * d * d)
    ensures d * p == p * d && d * v == v * d && 3 * p * d == 3 * (p * d)
  {
    assert 14 * (x * d) * d == 7 * (2 * x * d * d);
  }

  // ---------- how small an iterate can be ----------

  lemma ProductAtLeast(x: nat, y: nat)
    requires x >= 1 && y >= 1
    ensures PoolProduct(x, y) >= 4 * (x + y - 1)
  {
    MulLe(0, x - 1, y - 1);
    assert (x - 1) * (y - 1) == x * y - x - y + 1;
    assert 2 * x * (2 * y) == 4 * (x * y);
  }

  /** The equation is not reached at numbers that are small against the sum. */
  lemma NotReached(ann: nat, x: nat, y: nat, c: nat)
    requires x >= 1 && y >= 1 && ann >= 4 && c <= x + y
    requires c * c * c <= 4 * (x + y - 1) * (4 * (x + y - c) + c)
    ensures CubicSide(ann, PoolProduct(x, y), c) <= Target(ann, x + y, PoolProduct(x, y))
  {
    ProductAtLeast(x, y);
    BelowTarget(ann, x + y, PoolProduct(x, y), c);
  }

  lemma BelowTarget(ann: nat, sum: nat, p: nat, c: nat)
    requires ann >= 4 && c <= sum && sum >= 1 && p >= 4 * (sum - 1)
    requires c * c * c <= 4 * (sum - 1) * (4 * (sum - c) + c)
    ensures c * c * c + (ann - 1) * p * c <= ann * sum * p
  {
    var low, high := 4 * (sum - c) + c, ann * (sum - c) + c;
    MulLe(4 * (sum - 1), p, low);
    MulLe(4, ann, sum - c);
    MulLe(low, high, p);
    assert low * p == p * low;
    TargetTerms(ann, sum, p, c);
  }

  lemma TargetTerms(ann: int, sum: int, p: int, c: int)
    ensures (ann * (sum - c) + c) * p == ann * sum * p - (ann - 1) * p * c
  {
    assert (ann * (sum - c) + c) * p == (ann * sum - ann * c + c) * p;
  }

  lemma IterateAtLeast(ann: nat, x: nat, y: nat, d: nat)
    requires x >= 1 && y >= 1 && ann >= 4 && AllBelow(ann, x, y, d)
    ensures x + y >= 7 ==> d >= 6
    ensures x + y >= 10 ==> d >= 8
    ensures x + y >= 24 ==> d >= 16
    ensures x + y <= 6 ==> d >= x + y - 1
  {
    if x + y >= 7 {
      AtLeast(ann, x, y, d, 6);
    }
    if x + y >= 10 {
      AtLeast(ann, x, y, d, 8);
    }
    if x + y >= 24 {
      AtLeast(ann, x, y, d, 16);
    }
    if x + y <= 6 {
      AtLeast(ann, x, y, d, x + y - 1);
    }
  }

  predicate IsSmallFor(c: nat, sum: nat) {
    || (c == 6 && sum >= 7) || (c == 8 && sum >= 10) || (c == 16 && sum >= 24)
    || (c == sum - 1 && sum <= 6)
  }

  lemma AtLeast(ann: nat, x: nat, y: nat, d: nat, c: nat)
    requires x >= 1 && y >= 1 && ann >= 4 && AllBelow(ann, x, y, d) && IsSmallFor(c, x + y)
    ensures c <= d
  {
    CubeIsSmall(x + y, c);
    NotReached(ann, x, y, c);
  }

  lemma CubeIsSmall(sum: nat, c: nat)
    requires sum >= 2 && IsSmallFor(c, sum)
    ensures c * c * c <= 4 * (sum - 1) * (4 * (sum - c) + c)
  {
    if c == 6 && sum >= 7 {
      MulLe(6, sum - 1, 4 * sum - 18);
    } else if c == 8 && sum >= 10 {
      MulLe(9, sum - 1, 4 * sum - 24);
    } else if c == 16 && sum >= 24 {
      MulLe(23, sum - 1, 4 * sum - 48);
    } else {
      SmallCubes(c);
    }
  }

  lemma SmallCubes(c: nat)
    requires c <= 5
    ensures c * c * c <= 4 * c * (4 + c)
  {
    MulLe(c, 5, c);
    MulLe(c * c, 5 * c, c);
  }

  lemma StepDAtMostNext(ann: nat, sum: nat, dp: nat, d: nat, a: nat, t: nat)
    requires ann >= 1 && a == ann - 1 && t == ann * sum && (ann - 1) * d + 3 * dp >= 1
    requires (t + 2 * dp) * d < (d + 2) * (a * d + 3 * dp)
    ensures StepD(ann, sum, dp, d) <= d + 1
  {
    DivIsMax((ann * sum + 2 * dp) * d, (ann - 1) * d + 3 * dp, d + 2);
  }

  lemma BeyondRoot(ann: nat, x: nat, y: nat, d: nat, a: nat, t: nat, p: nat)
    requires ann >= 1 && AllBelow(ann, x, y, d)
    requires a == ann - 1 && t == ann * (x + y) && p == PoolProduct(x, y)
    ensures t * p < (d + 1) * (d + 1) * (d + 1) + a * p * (d + 1)
  {
    assert CubicSide(ann, p, d + 1) > Target(ann, x + y, p);
  }

  /** Pools in which the rounding is small against the cube from their smallest iterate on. */
  predicate RoundsWell(x: nat, y: nat, amp: nat, d: nat) {
    || (amp >= 2 && d >= 6)
    || d >= 8
    || (x <= y && x <= 4 && 6 <= d <= x + y)
  }

  lemma SmallRounding(x: nat, y: nat, amp: nat, d: nat, a: nat, p: nat)
    requires Tractable(x, y, amp) && RoundsWell(x, y, amp, d)
    requires a == 4 * amp - 1 && p == PoolProduct(x, y)
    ensures 3 * (d * d) + (p + 2 * x * d) * (d + 6) < a * p * d + 3 * (d * d * d)
  {
    RatioBound(x, y, amp, a, p);
    if amp >= 2 {
      AmplifiedRounding(x, a, d, p);
    } else if d >= 8 {
      PlainRounding(x, d, p);
    } else {
      MulLe(6, d, d);
      BalancedRounding(x, y, d, p);
    }
  }

  /** Pools in which the iterate is the sum or one below it. */
  predicate IsTiny(x: nat, y: nat, amp: nat) {
    x + y <= 6 || (amp == 1 && x > y && x + y <= 9)
  }

  lemma TinyStep(sum: nat, d: nat, a: nat, dp: nat)
    requires 2 <= sum <= 9 && sum - 1 <= d <= sum && d >= 1
    requires (a >= 7 && sum <= 6) || (a == 3 && (sum >= 3 ==> dp >= 1) && (sum >= 6 ==> dp >= 2) && (sum >= 7 ==> dp >= 4))
    ensures ((a + 1) * sum + 2 * dp) * d < (d + 2) * (a * d + 3 * dp)
  {
    if sum == 2 {
      assert d == 1 || d == 2;
    } else if sum == 3 {
      assert d == 2 || d == 3;
    } else if sum == 4 {
      assert d == 3 || d == 4;
    } else if sum == 5 {
      assert d == 4 || d == 5;
    } else if sum == 6 {
      assert d == 5 || d == 6;
    } else if sum == 7 {
      assert d == 6 || d == 7;
    } else if sum == 8 {
      assert d == 7 || d == 8;
    } else if sum == 9 {
      assert d == 8 || d == 9;
    }
  }

  lemma TinyTerm(x: nat, y: nat, d: nat)
    requires x >= 1 && y >= 1 && x <= 4 * y && 3 <= x + y && IsTiny(x, y, 1) && x + y - 1 <= d <= x + y
    ensures DP(x, y, d) >= 1 && (x + y >= 6 ==> DP(x, y, d) >= 2) && (x + y >= 7 ==> DP(x, y, d) >= 4)
  {
    if x + y <= 6 {
      TiniestTerm(x, y, d);
    } else {
      NotSoTinyTerm(x, y, d);
    }
  }

  lemma TiniestTerm(x: nat, y: nat, d: nat)
    requires x >= 1 && y >= 1 && x <= 4 * y && 3 <= x + y <= 6 && x + y - 1 <= d <= x + y
    ensures DP(x, y, d) >= 1 && (x + y == 6 ==> DP(x, y, d) >= 2)
  {
    if y == 1 {
      if x == 2 {
        assert d == 2 || d == 3;
      } else if x == 3 {
        assert d == 3 || d == 4;
      } else if x == 4 {
        assert d == 4 || d == 5;
      }
    } else if y == 2 {
      if x == 1 {
        assert d == 2 || d == 3;
      } else if x == 2 {
        assert d == 3 || d == 4;
      } else if x == 3 {
        assert d == 4 || d == 5;
      } else if x == 4 {
        assert d == 5 || d == 6;
      }
    } else if y == 3 {
      if x == 1 {
        assert d == 3 || d == 4;
      } else if x == 2 {
        assert d == 4 || d == 5;
      } else if x == 3 {
        assert d == 5 || d == 6;
      }
    } else if y == 4 {
      if x == 1 {
        assert d == 4 || d == 5;
      } else if x == 2 {
        assert d == 5 || d == 6;
      }
    } else if y == 5 {
      if x == 1 {
        assert d == 5 || d == 6;
      }
    }
  }

  lemma NotSoTinyTerm(x: nat, y: nat, d: nat)
    requires y < x <= 4 * y && 7 <= x + y <= 9 && x + y - 1 <= d <= x + y
    ensures DP(x, y, d) >= 4
  {
    if y == 2 {
      if x == 5 {
        assert d == 6 || d == 7;
      } else if x == 6 {
        assert d == 7 || d == 8;
      } else if x == 7 {
        assert d == 8 || d == 9;
      }
    } else if y == 3 {
      if x == 4 {
        assert d == 6 || d == 7;
      } else if x == 5 {
        assert d == 7 || d == 8;
      } else if x == 6 {
        assert d == 8 || d == 9;
      }
    } else if y == 4 {
      if x == 5 {
        assert d == 8 || d == 9;
      }
    }
  }

  /** The equation of a tiny pool is not reached below its sum. */
  lemma TinyAtLeast(x: nat, y: nat, amp: nat, d: nat)
    requires Tractable(x, y, amp) && IsTiny(x, y, amp) && AllBelow(4 * amp, x, y, d)
    ensures d >= x + y - 1
  {
    if x + y <= 6 {
      AtLeast(4 * amp, x, y, d, x + y - 1);
    } else {
      PlainRatio(x, y, amp);
      TinyNotReached(x, y);
    }
  }

  lemma TinyNotReached(x: nat, y: nat)
    requires y < x <= 4 * y && 7 <= x + y <= 9
    ensures CubicSide(4, PoolProduct(x, y), x + y - 1) <= Target(4, x + y, PoolProduct(x, y))
  {
    if x + y == 7 {
      assert (x == 4 && y == 3) || (x == 5 && y == 2);
    } else if x + y == 8 {
      assert (x == 5 && y == 3) || (x == 6 && y == 2);
    } else {
      assert (x == 5 && y == 4) || (x == 6 && y == 3) || (x == 7 && y == 2);
    }
  }

  /** A step from less than sixteen goes up by at most one as well. */
  lemma SmallStep(x: nat, y: nat, amp: nat, d: nat, n: nat)
    requires Tractable(x, y, amp) && 1 <= d <= x + y && d < 16 && AllBelow(4 * amp, x, y, d)
    requires (4 * amp - 1) * d + 3 * DP(x, y, d) >= 1
    requires n == StepD(4 * amp, x + y, DP(x, y, d), d)
    ensures n <= d + 1
  {
    var ann: nat, sum: nat, dp: nat := 4 * amp, x + y, DP(x, y, d);
    var a: nat, t := ann - 1, Product(ann, sum);
    assert (t + 2 * dp) * d < (d + 2) * (a * d + 3 * dp) by {
      SmallDividend(x, y, amp, d, a, t, dp);
    }
    StepDAtMostNext(ann, sum, dp, d, a, t);
  }

  lemma SmallDividend(x: nat, y: nat, amp: nat, d: nat, a: nat, t: nat, dp: nat)
    requires Tractable(x, y, amp) && 1 <= d <= x + y && AllBelow(4 * amp, x, y, d)
    requires a == 4 * amp - 1 && t == 4 * amp * (x + y) && dp == DP(x, y, d)
    ensures (t + 2 * dp) * d < (d + 2) * (a * d + 3 * dp)
  {
    if IsTiny(x, y, amp) {
      TinyAtLeast(x, y, amp, d);
      if amp == 1 {
        PlainRatio(x, y, amp);
      }
      TinyDividend(x, y, d, a, dp);
      assert t == (a + 1) * (x + y);
    } else {
      IterateAtLeast(4 * amp, x, y, d);
      RoundedDividend(x, y, amp, d, a, t, PoolProduct(x, y), dp);
    }
  }

  lemma RoundedDividend(x: nat, y: nat, amp: nat, d: nat, a: nat, t: nat, p: nat, dp: nat)
    requires Tractable(x, y, amp) && RoundsWell(x, y, amp, d) && AllBelow(4 * amp, x, y, d)
    requires a == 4 * amp - 1 && t == 4 * amp * (x + y) && p == PoolProduct(x, y) && dp == DP(x, y, d)
    ensures (t + 2 * dp) * d < (d + 2) * (a * d + 3 * dp)
  {
    PoolProductPositive(x, y);
    assert t * p < (d + 1) * (d + 1) * (d + 1) + a * p * (d + 1) by {
      BeyondRoot(4 * amp, x, y, d, a, t, p);
    }
    assert (d + 1) * (d + 1) * (d + 1) * d - d < a * p * d + dp * p * (d + 6) by {
      RoundedTerm(x, y, amp, d, a, p, dp);
    }
    NextAtMost(a, t, p, dp, d);
  }

  lemma RoundedTerm(x: nat, y: nat, amp: nat, d: nat, a: nat, p: nat, dp: nat)
    requires Tractable(x, y, amp) && RoundsWell(x, y, amp, d)
    requires a == 4 * amp - 1 && p == PoolProduct(x, y) && dp == DP(x, y, d)
    ensures (d + 1) * (d + 1) * (d + 1) * d - d < a * p * d + dp * p * (d + 6)
  {
    DPBounds(x, y, d);
    SmallRounding(x, y, amp, d, a, p);
    RoundedEnough(a * p * d, p, dp * p, Product(2 * x, d), d);
  }

  lemma TinyDividend(x: nat, y: nat, d: nat, a: nat, dp: nat)
    requires x >= 1 && y >= 1 && x + y - 1 <= d <= x + y && dp == DP(x, y, d)
    requires (a >= 7 && x + y <= 6) || (a == 3 && x <= 4 * y && IsTiny(x, y, 1))
    ensures ((a + 1) * (x + y) + 2 * dp) * d < (d + 2) * (a * d + 3 * dp)
  {
    if a == 3 && x + y >= 3 {
      TinyTerm(x, y, d);
    }
    TinyStep(x + y, d, a, dp);
  }

  /** With an amplification of one the ratio is four. */
  lemma PlainRatio(x: nat, y: nat, amp: nat)
    requires Tractable(x, y, amp) && amp == 1
    ensures x <= 4 * y
  {
    assert (8 * 1 - 4) * y == 4 * y;
  }

  // ---------- all steps ----------

  predicate Stops(d: nat, next: nat) {
    (next > d && next - d <= 1) || (next <= d && d - next <= 1)
  }

  /** A bound on the distance to the number after the root, from one step to the next: a
      third less, and near the root two less. */
  function Shrunk(distance: int): int {
    if distance > 13 then Max(2 * distance / 3, 11) else distance - 2
  }

  lemma ShrunkMonotone(a: int, b: int)
    requires a <= b
    ensures Shrunk(a) <= Shrunk(b)
  {
  }

  /** A step that does not stop goes down, and closer to the root. */
  lemma StepGoesDown(x: nat, y: nat, amp: nat, d: nat, m: nat, n: nat)
    requires Tractable(x, y, amp) && 1 <= d <= x + y && AllBelow(4 * amp, x, y, d)
    requires IsCubicFloor(4 * amp, x, y, m) && m >= 1
    requires (4 * amp - 1) * d + 3 * DP(x, y, d) >= 1
    requires n == StepD(4 * amp, x + y, DP(x, y, d), d) && !Stops(d, n)
    ensures n < d && n - m - 1 <= Shrunk(d - m - 1)
  {
    assert m <= d;
    if d >= 16 {
      LargeStep(x, y, amp, d, m, n);
    } else {
      SmallStep(x, y, amp, d, n);
    }
  }

  function Limit(i: nat): int {
    if i == 0 then Pow2(129) else Shrunk(Limit(i - 1))
  }

  /** Seven steps take off four binary digits. */
  lemma SevenSteps(i: nat)
    ensures 16 * Limit(i + 7) <= Limit(i) || Limit(i + 7) <= 13
  {
    var l1, l2, l3 := Limit(i + 1), Limit(i + 2), Limit(i + 3);
    var l4, l5, l6 := Limit(i + 4), Limit(i + 5), Limit(i + 6);
    assert l1 == Shrunk(Limit(i)) && l2 == Shrunk(l1) && l3 == Shrunk(l2) && l4 == Shrunk(l3);
    assert l5 == Shrunk(l4) && l6 == Shrunk(l5) && Limit(i + 7) == Shrunk(l6);
  }

  lemma {:induction false} DigitsLeft(k: nat)
    requires k <= 32
    ensures Limit(7 * k) <= Max(Pow2(129 - 4 * k), 13)
  {
    if k > 0 {
      DigitsLeft(k - 1);
      FourDigits(7 * (k - 1), 129 - 4 * k);
    }
  }

  lemma FourDigits(i: nat, bits: nat)
    requires Limit(i) <= Max(Pow2(bits + 4), 13)
    ensures Limit(i + 7) <= Max(Pow2(bits), 13)
  {
    SevenSteps(i);
    NearTheRoot(i, 7);
    Pow2Add(bits, 4);
    SixteenTimes(Pow2(bits));
  }

  lemma SixteenTimes(n: nat)
    ensures n * Pow2(4) == 16 * n
  {
    assert Pow2(4) == 16;
  }

  lemma LimitStep(i: nat)
    ensures Limit(i + 1) == Shrunk(Limit(i))
  {
  }

  lemma {:induction false} NearTheRoot(i: nat, j: nat)
    ensures Limit(i) <= 13 ==> Limit(i + j) <= 13 - 2 * j
  {
    if j > 0 {
      NearTheRoot(i, j - 1);
      LimitStep(i + j - 1);
    }
  }

  /** No distance is left after the last step. */
  lemma NothingLeft()
    ensures Limit(255) < -1
  {
    DigitsLeft(32);
    assert Pow2(1) == 2;
    LastSteps(224, 31);
  }

  lemma LastSteps(i: nat, j: nat)
    requires Limit(i) <= 13
    ensures Limit(i + j) <= 13 - 2 * j
  {
    NearTheRoot(i, j);
  }

  // ---------- the iteration ----------

  /** One step, which never reaches zero. */
  function NextD(ann: nat, x: nat, y: nat, d: nat): (next: nat)
    requires ann >= 4 && x >= 1 && y >= 1 && d >= 1
    ensures next >= 1
  {
    DivisorDPositive(ann, DP(x, y, d), d);
    StepDKeepsAbove(ann, x, y, d);
    StepD(ann, x + y, DP(x, y, d), d)
  }

  lemma NextDStaysAbove(ann: nat, x: nat, y: nat, d: nat)
    requires ann >= 4 && x >= 1 && y >= 1 && d >= 1
    ensures AllBelow(ann, x, y, NextD(ann, x, y, d))
  {
    DivisorDPositive(ann, DP(x, y, d), d);
    StepDKeepsAbove(ann, x, y, d);
  }

  lemma NextDIsAccurate(ann: nat, x: nat, y: nat, d: nat)
    requires ann >= 4 && x >= 1 && y >= 1 && d >= 1 && Stops(d, NextD(ann, x, y, d))
    ensures Brackets(ann, x, y, NextD(ann, x, y, d))
  {
    DivisorDPositive(ann, DP(x, y, d), d);
    NextDStaysAbove(ann, x, y, d);
    StepDAccurate(ann, x, y, d);
  }

  lemma NextDGoesDown(x: nat, y: nat, amp: nat, d: nat, m: nat)
    requires Tractable(x, y, amp) && 1 <= d <= x + y && AllBelow(4 * amp, x, y, d)
    requires IsCubicFloor(4 * amp, x, y, m) && m >= 1
    ensures
      var n := NextD(4 * amp, x, y, d);
      !Stops(d, n) ==> n < d && n - m - 1 <= Shrunk(d - m - 1)
  {
    var n := NextD(4 * amp, x, y, d);
    DivisorDPositive(4 * amp, DP(x, y, d), d);
    if !Stops(d, n) {
      StepGoesDown(x, y, amp, d, m, n);
    }
  }

  /** The iteration from some number on, for so many more steps. */
  function SolveD(ann: nat, x: nat, y: nat, d: nat, steps: nat): MathResult
    requires ann >= 4 && x >= 1 && y >= 1 && d >= 1
    decreases steps
  {
    if steps == 0 then Err(NotConverged)
    else
      var next := NextD(ann, x, y, d);
      if Stops(d, next) then Narrow(next) else SolveD(ann, x, y, next, steps - 1)
  }

  ghost predicate Accurate(ann: nat, x: nat, y: nat, result: MathResult) {
    match result
    case Ok(r) => U128(r) && Brackets(ann, x, y, r)
    case Err(error) => error != Underflow
  }

  /** A result is never below the invariant rounded down, and above it by at most the slack. */
  lemma {:induction false} SolutionsAreAccurate(ann: nat, x: nat, y: nat, d: nat, steps: nat)
    requires ann >= 4 && x >= 1 && y >= 1 && d >= 1
    ensures Accurate(ann, x, y, SolveD(ann, x, y, d, steps))
    decreases steps
  {
    if steps > 0 {
      var next := NextD(ann, x, y, d);
      if Stops(d, next) {
        NextDIsAccurate(ann, x, y, d);
      } else {
        SolutionsAreAccurate(ann, x, y, next, steps - 1);
      }
    }
  }

  /** The number reached, narrowed to the balance type. */
  ghost predicate Answers(result: MathResult, most: nat) {
    exists n: nat :: n <= most && result == Narrow(n)
  }

  /** In a tractable pool the iteration stops in time, at most one above where it started. */
  lemma {:induction false} IterationStops(x: nat, y: nat, amp: nat, d: nat, m: nat, i: nat)
    requires Tractable(x, y, amp) && i <= 255
    requires 1 <= d <= x + y && AllBelow(4 * amp, x, y, d)
    requires IsCubicFloor(4 * amp, x, y, m) && m >= 1 && d - m - 1 <= Limit(i)
    ensures Answers(SolveD(4 * amp, x, y, d, 255 - i), x + y + 1)
    decreases 255 - i
  {
    var ann: nat := 4 * amp;
    assert m <= d;
    NothingLeft();
    if i < 255 {
      var next := NextD(ann, x, y, d);
      NextDStaysAbove(ann, x, y, d);
      NextDGoesDown(x, y, amp, d, m);
      if Stops(d, next) {
        assert SolveD(ann, x, y, d, 255 - i) == Narrow(next);
      } else {
        ShrunkMonotone(d - m - 1, Limit(i));
        IterationStops(x, y, amp, next, m, i + 1);
      }
    }
  }

  lemma SumBelowLimit(x: nat, y: nat)
    requires U128(x) && U128(y)
    ensures x + y <= Limit(0)
  {
    assert Pow2(129) == 2 * Pow2(128);
  }

  /** `compute_d` answers for every tractable pool whose sum is within the balance type. */
  lemma TractablePoolsAreSolved(x: nat, y: nat, amp: nat)
    requires Tractable(x, y, amp) && U128(x) && U128(y)
    ensures
      var r := SolveD(4 * amp, x, y, x + y, 255);
      r.Ok? || (r == Err(Overflow) && !U128(x + y + 1))
  {
    var ann: nat, p := 4 * amp, PoolProduct(x, y);
    PoolProductPositive(x, y);
    OneIsBelow(ann, x + y, p);
    var m := CubicFloorFrom(ann, x, y, 1);
    SumIsAbove(ann, x, y);
    SumBelowLimit(x, y);
    IterationStops(x, y, amp, x + y, m, 0);
    assert Answers(SolveD(ann, x, y, x + y, 255), x + y + 1);
  }

  /** So with its smaller balance first every pool is. */
  lemma SmallerBalanceFirst(x: nat, y: nat, amp: nat)
    requires 1 <= x <= y && amp >= 1
    ensures Tractable(x, y, amp)
  {
    MulLe(1, 8 * amp - 4, y);
  }

  // ---------- a pool that is never solved ----------

  /** A step of the pool of 584 and 1 with the smallest amplification, with its quotients. */
  lemma UnevenStep(d: nat, e: nat, dp: nat, n: nat)
    requires d >= 1 && 1168 * e <= d * d < 1168 * e + 1168 && 2 * dp <= e * d < 2 * dp + 2
    requires n * (3 * d + 3 * dp) <= (2340 + 2 * dp) * d < n * (3 * d + 3 * dp) + (3 * d + 3 * dp)
    ensures NextD(4, 584, 1, d) == n
  {
    DivUnique(d * d, 1168, e);
    DivUnique(e * d, 2, dp);
    DivUnique((2340 + 2 * dp) * d, 3 * d + 3 * dp, n);
  }

  lemma {:induction false} UnevenCircle(steps: nat)
    ensures SolveD(4, 584, 1, 164, steps) == Err(NotConverged)
    ensures SolveD(4, 584, 1, 162, steps) == Err(NotConverged)
  {
    if steps > 0 {
      UnevenStep(164, 23, 1886, 162);
      UnevenStep(162, 22, 1782, 164);
      UnevenCircle(steps - 1);
    }
  }

  /** From the sum of this pool the iterates end up going round between 164 and 162, and no
      number of steps is enough. With the balances exchanged the pool is solved. */
  lemma UnevenPoolIsNotSolved(steps: nat)
    ensures SolveD(4, 584, 1, 585, steps) == Err(NotConverged)
    ensures SolveD(4, 1, 584, 585, 255).Ok?
  {
    UnevenStep(585, 293, 85702, 392);
    UnevenStep(392, 131, 25676, 269);
    UnevenStep(269, 61, 8204, 198);
    UnevenStep(198, 33, 3267, 169);
    UnevenStep(169, 24, 2028, 164);
    UnevenApproach([585, 392, 269, 198, 169, 164], steps);
    SmallerBalanceFirst(1, 584, 1);
    assert U128(586) by {
      assert Pow2(10) == 1024;
      Pow2Order(10, 128);
    }
    TractablePoolsAreSolved(1, 584, 1);
  }

  /** The iterates before the circle. */
  lemma {:induction false} UnevenApproach(iterates: seq<nat>, steps: nat)
    requires iterates != [] && iterates[|iterates| - 1] == 164
    requires forall i :: 0 <= i < |iterates| ==> iterates[i] >= 1
    requires forall i :: 0 <= i < |iterates| - 1 ==>
      NextD(4, 584, 1, iterates[i]) == iterates[i + 1] && !Stops(iterates[i], iterates[i + 1])
    ensures SolveD(4, 584, 1, iterates[0], steps) == Err(NotConverged)
    decreases |iterates|
  {
    if |iterates| == 1 {
      UnevenCircle(steps);
    } else if steps > 0 {
      UnevenApproach(iterates[1..], steps - 1);
    }
  }

  // ---------- the method ----------

  /** What an answer for a pool promises: it brackets the invariant; a balanced pool gives the
      sum; and a tractable one is always answered, unless its sum reaches the end of the
      balance type. */
  ghost predicate IsSolution(x: nat, y: nat, amp: nat, result: MathResult)
    requires x >= 1 && y >= 1 && amp >= 1
  {
    && Accurate(4 * amp, x, y, result)
    && (x == y ==> result == Narrow(2 * x))
    && (Tractable(x, y, amp) && U128(x) && U128(y) ==>
          result.Ok? || (result == Err(Overflow) && !U128(x + y + 1)))
  }

  /** The answer of the iteration from the sum. */
  function Solution(x: nat, y: nat, amp: nat): MathResult
    requires x >= 1 && y >= 1 && amp >= 1
  {
    SolveD(4 * amp, x, y, x + y, 255)
  }

  /** The result of the iteration from the sum, with what that promises. */
  ghost predicate SolvesPool(x: nat, y: nat, amp: nat, result: MathResult)
    requires x >= 1 && y >= 1 && amp >= 1
  {
    result == Solution(x, y, amp) && IsSolution(x, y, amp, result)
  }

  lemma SolutionIsAccurate(x: nat, y: nat, amp: nat)
    requires x >= 1 && y >= 1 && amp >= 1
    ensures Accurate(4 * amp, x, y, Solution(x, y, amp))
  {
    SolutionsAreAccurate(4 * amp, x, y, x + y, 255);
  }

  lemma BalancedSolution(x: nat, amp: nat)
    requires x >= 1 && amp >= 1
    ensures Solution(x, x, amp) == Narrow(2 * x)
  {
    var ann, d := 4 * amp, 2 * x;
    BalancedStep(ann, x);
    assert NextD(ann, x, x, d) == d;
  }

  lemma TractableSolution(x: nat, y: nat, amp: nat)
    requires Tractable(x, y, amp) && U128(x) && U128(y)
    ensures Solution(x, y, amp).Ok? || (Solution(x, y, amp) == Err(Overflow) && !U128(x + y + 1))
  {
    TractablePoolsAreSolved(x, y, amp);
  }

  lemma PoolIsSolved(x: nat, y: nat, amp: nat)
    requires x >= 1 && y >= 1 && amp >= 1
    ensures SolvesPool(x, y, amp, Solution(x, y, amp))
  {
    SolutionIsAccurate(x, y, amp);
    if x == y {
      BalancedSolution(x, amp);
    }
    if Tractable(x, y, amp) && U128(x) && U128(y) {
      TractableSolution(x, y, amp);
    }
  }

  /** One pass of the loop up to its stopping test. */
  method Iterate(ann: nat, base: nat, quote: nat, sum: nat, d: nat) returns (next: nat)
    requires ann >= 4 && base >= 1 && quote >= 1 && sum == base + quote && d >= 1
    ensures next == NextD(ann, base, quote, d)
  {
    var dp := DP(base, quote, d);
    DivisorDPositive(ann, dp, d);
    next := StepD(ann, sum, dp, d);
  }

  /** The invariant of a pool. An empty pool has invariant zero; a pool with exactly one
      empty side is outside the code's domain, because it divides by each balance. */
  method ComputeD(base: nat, quote: nat, amp: nat) returns (result: MathResult)
    requires base == 0 <==> quote == 0
    ensures base == 0 ==> result == Ok(0)
    ensures base > 0 && amp == 0 ==> result == Err(Underflow)
    ensures base > 0 && amp > 0 ==> SolvesPool(base, quote, amp, result)
  {
    var sum := base + quote;
    if sum == 0 {
      return Ok(0);
    }
    var ann := 4 * amp;
    if ann == 0 {
      return Err(Underflow);
    }
    PoolIsSolved(base, quote, amp);
    var d: nat := sum;
    for i := 0 to 255
      invariant d >= 1 && SolveD(ann, base, quote, sum, 255) == SolveD(ann, base, quote, d, 255 - i)
    {
      var next := Iterate(ann, base, quote, sum, d);
      if (next > d && next - d <= 1) || (next <= d && d - next <= 1) {
        return Narrow(next);
      }
      d := next;
    }
    return Err(NotConverged);
  }
}
