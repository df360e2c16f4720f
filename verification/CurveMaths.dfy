/** The integer Newton iterations behind the two-asset StableSwap pool. */
module CurveMaths {
  import opened Arithmetic

  datatype MathError = Underflow | Overflow | NotConverged
  datatype MathResult = Ok(value: nat) | Err(error: MathError)

  // ---------- powers of two ----------

  function Pow2(n: nat): (p: nat)
    ensures p >= 1
  {
    if n == 0 then 1 else 2 * Pow2(n - 1)
  }

  lemma {:induction false} Pow2Add(a: nat, b: nat)
    ensures Pow2(a + b) == Pow2(a) * Pow2(b)
  {
    if b == 0 {
      assert Pow2(b) == 1;
    } else {
      Pow2Add(a, b - 1);
      var p, q := Pow2(a), Pow2(b - 1);
      assert Pow2(a + b) == 2 * (p * q);
      assert 2 * (p * q) == p * (2 * q);
    }
  }

  lemma {:induction false} Pow2Order(a: nat, b: nat)
    requires a <= b
    ensures Pow2(a) <= Pow2(b)
  {
    if a < b {
      Pow2Order(a, b - 1);
    }
  }

  /** Unsigned 128-bit values. */
  predicate U128(n: nat) {
    n < Pow2(128)
  }

  // ---------- the quadratic y^2 + B y = c ----------

  function Quadratic(b: int, y: int): int {
    y * y + b * y
  }

  /** The largest natural number at which the quadratic does not exceed `c`. */
  ghost predicate IsFloorRoot(b: int, c: nat, m: nat) {
    Quadratic(b, m) <= c < Quadratic(b, m + 1)
  }

  lemma QuadraticStep(b: int, y: int)
    ensures Quadratic(b, y + 1) == Quadratic(b, y) + 2 * y + 1 + b
  {
    assert (y + 1) * (y + 1) == y * y + 2 * y + 1;
    assert b * (y + 1) == b * y + b;
  }

  /** Numbers at which the quadratic is small are small. */
  lemma SmallArguments(b: int, c: nat, n: nat)
    ensures Quadratic(b, n) <= c ==> n <= c || n + b <= 0
  {
    assert Quadratic(b, n) == (n + b) * n;
    if n + b >= 1 {
      MulLe(1, n + b, n);
    }
  }

  /** A floor root exists: search upwards from any number at which the quadratic is small. */
  lemma {:induction false} FloorRootFrom(b: int, c: nat, from: nat) returns (m: nat)
    requires Quadratic(b, from) <= c
    ensures IsFloorRoot(b, c, m)
    decreases (if b < 0 then c - b else c) - from
  {
    SmallArguments(b, c, from + 1);
    if c < Quadratic(b, from + 1) {
      m := from;
    } else {
      m := FloorRootFrom(b, c, from + 1);
    }
  }

  /** At the floor root the linear coefficient is bounded below, which is what keeps
      every divisor of the iteration positive. */
  lemma CoefficientBound(b: int, c: nat, m: nat)
    requires IsFloorRoot(b, c, m)
    ensures b + m >= 0
  {
    var n := m + 1;
    assert Quadratic(b, n) == (n + b) * n;
    MulOrder(0, n + b, n);
  }

  /** Above the floor root the quadratic exceeds `c`, and keeps growing. */
  lemma {:induction false} AboveFloorRoot(b: int, c: nat, m: nat, y: nat)
    requires IsFloorRoot(b, c, m) && m < y
    ensures Quadratic(b, m + 1) + (y - m - 1) <= Quadratic(b, y)
    decreases y
  {
    if y > m + 1 {
      AboveFloorRoot(b, c, m, y - 1);
      CoefficientBound(b, c, m);
      QuadraticStep(b, y - 1);
    }
  }

  /** The floor root bounds every number at which the quadratic does not exceed `c`. */
  lemma FloorRootIsMax(b: int, c: nat, m: nat, y: nat)
    requires IsFloorRoot(b, c, m)
    ensures Quadratic(b, y) <= c ==> y <= m
  {
    if m < y {
      AboveFloorRoot(b, c, m, y);
    }
  }

  // ---------- one Newton step on the quadratic ----------

  function NewtonStep(b: int, c: nat, y: nat): nat
    requires 2 * y + b > 0
  {
    DivBounds(y * y + c, 2 * y + b);
    MulLe(0, 0, 2 * y + b);
    DivIsMax(y * y + c, 2 * y + b, 0);
    (y * y + c) / (2 * y + b)
  }

  lemma SquareOfDifference(y: int, m: int)
    ensures (y - m) * (y - m) == y * y - 2 * (y * m) + m * m
    ensures (y - m) * (y - m) >= 0
  {
    calc {
      (y - m) * (y - m);
      y * (y - m) - m * (y - m);
      y * y - y * m - (m * y - m * m);
      y * y - 2 * (y * m) + m * m;
    }
    if y >= m {
      MulLe(0, y - m, y - m);
    } else {
      MulLe(0, m - y, m - y);
      assert (y - m) * (y - m) == (m - y) * (m - y);
    }
  }

  /** Multiplying by the divisor of a step. */
  lemma TimesDivisor(b: int, y: int, m: int)
    ensures m * (2 * y + b) == y * y + Quadratic(b, m) - (y - m) * (y - m)
  {
    SquareOfDifference(y, m);
    assert m * (2 * y + b) == 2 * (y * m) + b * m;
  }

  /** A step never goes below the floor root. */
  lemma StepStaysAbove(b: int, c: nat, y: nat, m: nat)
    requires 2 * y + b > 0 && Quadratic(b, m) <= c
    ensures m <= NewtonStep(b, c, y)
  {
    TimesDivisor(b, y, m);
    SquareOfDifference(y, m);
    DivIsMax(y * y + c, 2 * y + b, m);
  }

  /** A step that moves by at most one lands on the floor root, or one above it. */
  lemma StepIsAccurate(b: int, c: nat, y: nat)
    requires 2 * y + b > 0
    requires -1 <= NewtonStep(b, c, y) - y <= 1
    ensures Quadratic(b, NewtonStep(b, c, y)) <= c + 1
  {
    var n := NewtonStep(b, c, y);
    DivIsMax(y * y + c, 2 * y + b, n);
    TimesDivisor(b, y, n);
    assert (y - n) * (y - n) <= 1;
  }

  /** Distance to the number after the floor root, `e`: a step more than halves it. */
  lemma StepHalves(b: int, c: nat, m: nat, y: nat)
    requires IsFloorRoot(b, c, m) && m < y
    ensures 2 * y + b > 0
    ensures
      var e, e' := y - m - 1, NewtonStep(b, c, y) - m - 1;
      if e == 0 then e' < 0 else 2 * e' < e
  {
    CoefficientBound(b, c, m);
    var r, t := m + 1, 2 * y + b;
    var e := y - r;
    var n := NewtonStep(b, c, y);
    DivIsMax(y * y + c, t, n);
    TimesDivisor(b, y, r);
    assert (n - r) * t == n * t - r * t;
    assert (y - r) * (y - r) == e * e;
    assert (n - r) * t <= e * e - 1;
    HalvingArithmetic(n - r, t, e);
  }

  lemma HalvingArithmetic(e': int, t: int, e: int)
    requires e >= 0 && t >= 2 * e + 1 && e' * t <= e * e - 1
    ensures if e == 0 then e' < 0 else 2 * e' < e
  {
    if e' >= 0 {
      MulLe(2 * e, t, e');
      assert 2 * e * e' == (2 * e') * e && t * e' == e' * t;
      if e > 0 {
        MulOrder(2 * e', e, e);
      }
    }
  }

  /** From the floor root itself a step moves by at most one. */
  lemma StepFromRoot(b: int, c: nat, m: nat)
    requires IsFloorRoot(b, c, m) && 2 * m + b > 0
    ensures m <= NewtonStep(b, c, m) <= m + 1
  {
    StepStaysAbove(b, c, m, m);
    var n := NewtonStep(b, c, m);
    var r, t := m + 1, 2 * m + b;
    DivIsMax(m * m + c, t, n);
    TimesDivisor(b, m, r);
    assert (m - r) * (m - r) == 1;
    assert (n - r) * t == n * t - r * t;
    MulOrder(n - r, 1, t);
  }

  // ---------- compute_base ----------

  /** Linear coefficient and constant of the equation for the base balance. */
  function BaseB(newQuote: nat, amp: nat, d: nat): int
    requires amp >= 1
  {
    newQuote + FloorDiv(d, 4 * amp) - d
  }

  function BaseC(newQuote: nat, amp: nat, d: nat): nat
    requires newQuote >= 1 && amp >= 1
  {
    FloorDiv(Cube(FloorDiv(d, 4 * amp), d / 2), newQuote)
  }

  function Cube(p: nat, q: nat): nat {
    p * q * q
  }

  /** `safe_div`: the quotient rounded down. */
  function FloorDiv(n: nat, d: nat): (q: nat)
    requires d >= 1
    ensures q <= n
  {
    DivIsMax(n, d, 0);
    DivBounds(n, d);
    MulLe(1, d, n / d);
    n / d
  }

  /** Replacing the factors of a product one at a time. */
  lemma ProductBound(x: nat, y: nat, d: nat)
    requires x <= d && y <= d
    ensures x * y * y <= d * d * d
  {
    MulLe(x, d, y);
    MulLe(y, d, d);
    MulLe(x * y, d * d, y);
    MulLe(y, d, d * d);
    assert d * y == y * d && d * d * y == y * (d * d) && d * (d * d) == d * d * d;
  }

  lemma CubeBound(p: nat, q: nat, d: nat)
    requires 4 * p <= d && 2 * q <= d
    ensures 16 * Cube(p, q) <= d * d * d
  {
    ProductBound(4 * p, 2 * q, d);
    calc {
      4 * p * (2 * q) * (2 * q);
      8 * (p * q) * (2 * q);
      16 * (p * q * q);
    }
  }

  lemma QuarterBound(d: nat, amp: nat)
    requires amp >= 1
    ensures 4 * FloorDiv(d, 4 * amp) <= d
  {
    var p := FloorDiv(d, 4 * amp);
    DivBounds(d, 4 * amp);
    MulLe(4, 4 * amp, p);
    assert 4 * amp * p == p * (4 * amp);
  }

  /** The constant is at most a sixteenth of the cube of `d`. */
  lemma BaseCBound(newQuote: nat, amp: nat, d: nat)
    requires newQuote >= 1 && amp >= 1
    ensures 16 * BaseC(newQuote, amp, d) <= d * d * d
  {
    QuarterBound(d, amp);
    CubeBound(FloorDiv(d, 4 * amp), d / 2, d);
  }

  /** The first iterate is far below the cube it comes from. */
  lemma FirstStepBound(newQuote: nat, amp: nat, d: nat)
    requires newQuote >= 1 && amp >= 1 && U128(d)
    ensures 2 * d + BaseB(newQuote, amp, d) > 0
    ensures NewtonStep(BaseB(newQuote, amp, d), BaseC(newQuote, amp, d), d) < Pow2(253)
  {
    var b, c := BaseB(newQuote, amp, d), BaseC(newQuote, amp, d);
    var n := NewtonStep(b, c, d);
    DivIsMax(d * d + c, 2 * d + b, n);
    MulLe(d, 2 * d + b, n);
    BaseCBound(newQuote, amp, d);
    assert n * (2 * d + b) == (2 * d + b) * n;
    assert 16 * (d * n) <= 16 * (d * d) + d * d * d;
    if d == 0 {
      StepOfZero(b, c);
      assert Pow2(253) >= 1;
    } else {
      FirstStepArithmetic(d, n);
    }
  }

  lemma StepOfZero(b: int, c: nat)
    requires b > 0 && 16 * c <= 0
    ensures NewtonStep(b, c, 0) == 0
  {
    DivUnique(0, b, 0);
  }

  lemma FirstStepArithmetic(d: nat, n: nat)
    requires 0 < d < Pow2(128)
    requires 16 * (d * n) <= 16 * (d * d) + d * d * d
    ensures n < Pow2(253)
  {
    WordSizes();
    FirstStepSize(d, n, Pow2(128), Pow2(253));
  }

  lemma FirstStepSize(d: nat, n: nat, word: nat, bound: nat)
    requires 0 < d < word && word * word + 16 * word <= 16 * bound
    requires 16 * (d * n) <= 16 * (d * d) + d * d * d
    ensures n < bound
  {
    FactorOut(d, n);
    MulOrder(16 * n, 16 * d + d * d, d);
    SquareOrder(d, word);
  }

  lemma FactorOut(d: nat, n: nat)
    ensures 16 * (d * n) == (16 * n) * d
    ensures 16 * (d * d) + d * d * d == (16 * d + d * d) * d
  {
  }

  lemma WordSizes()
    ensures Pow2(128) * Pow2(128) + 16 * Pow2(128) <= 16 * Pow2(253)
  {
    Pow2Add(128, 128);
    Pow2Add(128, 4);
    Pow2Order(132, 256);
    Pow2Add(253, 4);
    assert Pow2(4) == 16;
    assert Pow2(257) == 2 * Pow2(256);
  }

  /** Progress of the iteration: after `i` steps the distance to the number after the
      floor root has been halved `i - 1` times. */
  ghost predicate Halved(m: nat, y: nat, i: nat)
    requires i >= 1
  {
    y >= m && (y > m ==> (y - m - 1) * Pow2(i - 1) < Pow2(253))
  }

  /** One more step, from a distance of at least two: it is halved again, and there was
      room for that. */
  lemma HalvedAgain(b: int, c: nat, m: nat, y: nat, i: nat)
    requires i >= 1 && IsFloorRoot(b, c, m) && Halved(m, y, i) && y > m + 1
    ensures 2 * y + b > 0
    ensures Halved(m, NewtonStep(b, c, y), i + 1) && i <= 253
  {
    StepHalves(b, c, m, y);
    StepStaysAbove(b, c, y, m);
    HalvingRoom(y - m - 1, NewtonStep(b, c, y) - m - 1, Pow2(i - 1), Pow2(253));
    Pow2Reflects(i - 1, 253);
  }

  lemma HalvingRoom(e: int, e': int, p: nat, bound: nat)
    requires e >= 1 && e * p < bound && 2 * e' < e
    ensures p < bound
    ensures e' >= 0 ==> e' * (2 * p) < bound
  {
    MulLe(1, e, p);
    MulLe(2 * e', e, p);
    assert e' * (2 * p) == 2 * e' * p;
  }

  lemma Pow2Reflects(a: nat, b: nat)
    ensures Pow2(a) < Pow2(b) ==> a < b
  {
    if b <= a {
      Pow2Order(b, a);
    }
  }

  /** Near the floor root the stopping test is met at once. */
  lemma NearRootStops(b: int, c: nat, m: nat, y: nat)
    requires IsFloorRoot(b, c, m) && m <= y <= m + 1 && 2 * y + b > 0
    ensures -1 <= NewtonStep(b, c, y) - y <= 1
  {
    if y == m {
      StepFromRoot(b, c, m);
    } else {
      StepHalves(b, c, m, y);
      StepStaysAbove(b, c, y, m);
    }
  }

  /** A step down to zero from two or more leaves a positive divisor. */
  lemma ZeroHasDivisor(b: int, c: nat, y: nat)
    requires y >= 2 && 2 * y + b > 0 && NewtonStep(b, c, y) == 0
    ensures b > 0
  {
    DivIsMax(y * y + c, 2 * y + b, 1);
    MulLe(2, y, y);
  }

  lemma DivisorPositive(b: int, c: nat, m: nat, y: nat)
    requires IsFloorRoot(b, c, m) && m <= y && (y == 0 ==> b > 0)
    ensures 2 * y + b > 0
  {
    CoefficientBound(b, c, m);
  }

  lemma FloorRootUnique(b: int, c: nat, m: nat, n: nat)
    requires IsFloorRoot(b, c, m) && IsFloorRoot(b, c, n)
    ensures m == n
  {
    FloorRootIsMax(b, c, m, n);
    FloorRootIsMax(b, c, n, m);
  }

  /** What a caller gets for the equation with floor root `m`: the floor root itself, or
      the next number if that solves the equation with `c + 1`; and an overflow only if
      that does not fit the balance type. */
  ghost predicate Solves(b: int, c: nat, m: nat, result: MathResult) {
    match result
    case Ok(y) => U128(y) && (y == m || (y == m + 1 && Quadratic(b, y) == c + 1))
    case Err(error) => error == Overflow && !U128(m + 1)
  }

  /** There is one floor root to solve for. */
  lemma SolvesOnly(b: int, c: nat, m: nat, result: MathResult)
    requires IsFloorRoot(b, c, m) && Solves(b, c, m, result)
    ensures forall n: nat :: IsFloorRoot(b, c, n) ==> Solves(b, c, n, result)
  {
    forall n: nat | IsFloorRoot(b, c, n)
      ensures n == m
    {
      FloorRootUnique(b, c, m, n);
    }
  }

  function Narrow(y: nat): MathResult {
    if U128(y) then Ok(y) else Err(Overflow)
  }

  lemma AccurateResult(b: int, c: nat, m: nat, y: nat)
    requires IsFloorRoot(b, c, m) && 2 * y + b > 0
    requires -1 <= NewtonStep(b, c, y) - y <= 1
    ensures Solves(b, c, m, Narrow(NewtonStep(b, c, y)))
  {
    var n := NewtonStep(b, c, y);
    StepIsAccurate(b, c, y);
    StepStaysAbove(b, c, y, m);
    if n > m {
      AboveFloorRoot(b, c, m, n);
    }
  }

  /** Everything the loop needs after a step that did not stop. */
  lemma StepGoesOn(b: int, c: nat, m: nat, y: nat, i: nat)
    requires IsFloorRoot(b, c, m) && 2 * y + b > 0
    requires !(-1 <= NewtonStep(b, c, y) - y <= 1)
    requires if i == 0 then NewtonStep(b, c, y) < Pow2(253) else Halved(m, y, i)
    ensures Halved(m, NewtonStep(b, c, y), i + 1) && i <= 253
    ensures 2 * NewtonStep(b, c, y) + b > 0
  {
    StepStaysAbove(b, c, y, m);
    StepStaysPositive(b, c, m, y);
    if i == 0 {
      assert Pow2(0) == 1;
    } else {
      if y <= m + 1 {
        NearRootStops(b, c, m, y);
      }
      HalvedAgain(b, c, m, y, i);
    }
  }

  lemma StepStaysPositive(b: int, c: nat, m: nat, y: nat)
    requires IsFloorRoot(b, c, m) && 2 * y + b > 0 && m <= NewtonStep(b, c, y)
    requires NewtonStep(b, c, y) == 0 ==> y >= 2
    ensures 2 * NewtonStep(b, c, y) + b > 0
  {
    var n := NewtonStep(b, c, y);
    if n == 0 {
      ZeroHasDivisor(b, c, y);
    }
    DivisorPositive(b, c, m, n);
  }

  // ---------- the pool behind the quadratic ----------

  /** The StableSwap equation of a pool with invariant `d` and quote balance `q`, cleared of
      denominators: the base balance is the root of
      4 ann q y^2 + 4 q (ann q + d - ann d) y = d^3. */
  function PoolSide(ann: nat, q: nat, d: nat, y: nat): int {
    4 * ann * q * (y * y) + 4 * q * (ann * q + d - ann * d) * y
  }

  /** A balance on the curve, up to what the code's three floored divisions lose: it does not
      exceed the root by more than the first slack, and the next number exceeds it but for the
      second. */
  ghost predicate OnCurve(ann: nat, q: nat, d: nat, y: nat)
    requires ann >= 1
  {
    && PoolSide(ann, q, d, y) <= d * d * d + 4 * ann * q + 4 * q * (d % ann) * y
    && d * d * d < PoolSide(ann, q, d, y + 1) + (d % ann + 2) * (d * d)
  }

  /** The quadratic of the code, scaled, is the equation less the remainder of the first division. */
  lemma ScaledQuadratic(ann: nat, q: nat, d: nat, p: nat, r: nat, y: nat)
    requires d == ann * p + r
    ensures PoolSide(ann, q, d, y) == 4 * ann * q * Quadratic(q + p - d, y) + 4 * q * r * y
  {
    var k := 4 * ann * q;
    Distribute(k, y * y, (q + p - d) * y);
    LinearTerm(ann, q, d, p, r);
    assert k * ((q + p - d) * y) == k * (q + p - d) * y;
    SumTimes(k * (q + p - d), 4 * q * r, y);
  }

  lemma Distribute(k: int, a: int, b: int)
    ensures k * (a + b) == k * a + k * b
  {
  }

  lemma SumTimes(a: int, b: int, y: int)
    ensures (a + b) * y == a * y + b * y
  {
  }

  lemma LinearTerm(ann: nat, q: nat, d: nat, p: nat, r: nat)
    requires d == ann * p + r
    ensures 4 * q * (ann * q + d - ann * d) == 4 * ann * q * (q + p - d) + 4 * q * r
  {
    var k := 4 * q;
    assert ann * q + d - ann * d == ann * (q + p - d) + r;
    Distribute(k, ann * (q + p - d), r);
    assert k * (ann * (q + p - d)) == k * ann * (q + p - d);
    assert k * ann == 4 * ann * q;
  }

  /** The constant of the code, scaled, is the cube of the invariant but for the three divisions. */
  lemma ScaledConstant(ann: nat, q: nat, d: nat, p: nat, r: nat, h: nat, c: nat)
    requires d == ann * p + r && 2 * h <= d <= 2 * h + 1
    requires c * q <= Cube(p, h) < c * q + q
    ensures 4 * ann * q * c <= d * d * d
    ensures ann >= 1 ==> d * d * d < 4 * ann * q * (c + 1) + (r + 2) * (d * d)
  {
    var e := 2 * h;
    var k := 4 * ann;
    MulLe(c * q, Cube(p, h), k);
    ScaledCube(ann, p, h);
    ScaledFloor(ann, q, c);
    CubeBelow(d, r, e);
    if ann >= 1 {
      MulLt(Cube(p, h), c * q + q, k);
    }
  }

  lemma ScaledCube(ann: nat, p: nat, h: nat)
    ensures Cube(p, h) * (4 * ann) == ann * p * (2 * h * (2 * h))
  {
    var x, y := p * h * h, ann * p;
    assert x * (4 * ann) == 4 * (ann * x);
    assert ann * (p * h * h) == y * (h * h) by {
      assert p * h * h == p * (h * h);
    }
    assert 2 * h * (2 * h) == 4 * (h * h);
    assert y * (4 * (h * h)) == 4 * (y * (h * h));
  }

  lemma ScaledFloor(ann: nat, q: nat, c: nat)
    ensures c * q * (4 * ann) == 4 * ann * q * c
    ensures (c * q + q) * (4 * ann) == 4 * ann * q * (c + 1)
  {
    var k := 4 * ann;
    assert c * q * k == k * q * c;
    assert (c * q + q) * k == c * q * k + k * q;
    assert k * q * (c + 1) == k * q * c + k * q;
  }

  /** What a remainder and an odd number lose of a cube. */
  lemma CubeBelow(d: nat, r: nat, e: nat)
    requires r <= d && e <= d <= e + 1
    ensures (d - r) * (e * e) <= d * d * d <= (d - r) * (e * e) + (r + 2) * (d * d)
  {
    var w, minus: int := d * d, -(r as int);
    SquareOrder(e, d);
    MulLe(e * e, w, d - r);
    SumTimes(d, minus, w);
    SumTimes(d, minus, e * e);
    MulLe(0, r, w);
    assert d * d - e * e <= 2 * d by {
      if e < d {
        assert (d - 1) * (d - 1) == d * d - 2 * d + 1;
      }
    }
    MulLe(w - e * e, 2 * d, d - r);
    MulLe(d - r, d, 2 * d);
    LossOfCube(d, r, w, e * e);
  }

  lemma LossOfCube(d: nat, r: nat, w: nat, square: nat)
    requires r <= d && w == d * d
    requires (w - square) * (d - r) <= 2 * d * (d - r)
    requires (d - r) * (2 * d) <= d * (2 * d)
    ensures d * d * d <= (d - r) * square + (r + 2) * w
  {
    assert (w - square) * (d - r) == (d - r) * w - (d - r) * square;
    assert (d - r) * w == d * w - r * w;
    assert (r + 2) * w == r * w + 2 * w;
    assert d * d * d == d * w;
    assert d * (2 * d) == 2 * w;
  }

  /** An answer of the code is on the curve. */
  lemma SolutionIsOnCurve(newQuote: nat, amp: nat, d: nat, m: nat, y: nat)
    requires newQuote >= 1 && amp >= 1
    requires
      var b, c := BaseB(newQuote, amp, d), BaseC(newQuote, amp, d);
      IsFloorRoot(b, c, m) && (y == m || (y == m + 1 && Quadratic(b, y) == c + 1))
    ensures OnCurve(4 * amp, newQuote, d, y)
  {
    var ann: nat, q := 4 * amp, newQuote;
    var b, c := BaseB(q, amp, d), BaseC(q, amp, d);
    var p, r, h := FloorDiv(d, ann), d % ann, d / 2;
    DivBounds(d, ann);
    assert d == ann * p + r by {
      assert p * ann == ann * p;
    }
    DivBounds(Cube(p, h), q);
    AboveFloorRoot(b, c, m, y + 1);
    ScaledConstant(ann, q, d, p, r, h, c);
    BetweenScaled(ann, q, d, p, r, y, c);
  }

  lemma BetweenScaled(ann: nat, q: nat, d: nat, p: nat, r: nat, y: nat, c: nat)
    requires ann >= 1 && d == ann * p + r && r == d % ann
    requires Quadratic(q + p - d, y) <= c + 1 && c + 1 <= Quadratic(q + p - d, y + 1)
    requires 4 * ann * q * c <= d * d * d
    requires d * d * d < 4 * ann * q * (c + 1) + (r + 2) * (d * d)
    ensures OnCurve(ann, q, d, y)
  {
    var k := 4 * ann * q;
    ScaledQuadratic(ann, q, d, p, r, y);
    ScaledQuadratic(ann, q, d, p, r, y + 1);
    MulLe(Quadratic(q + p - d, y), c + 1, k);
    MulLe(c + 1, Quadratic(q + p - d, y + 1), k);
    MulLe(0, 4 * q * r, y + 1);
    Distribute(k, c, 1);
  }

  /** In a balanced pool the other half solves the equation exactly, whatever the first
      division loses. */
  lemma BalancedRoot(x: nat, amp: nat)
    requires x >= 1 && amp >= 1
    ensures
      var b, c := BaseB(x, amp, 2 * x), BaseC(x, amp, 2 * x);
      IsFloorRoot(b, c, x) && Quadratic(b, x + 1) > c + 1
  {
    var p := FloorDiv(2 * x, 4 * amp);
    var b, c := BaseB(x, amp, 2 * x), BaseC(x, amp, 2 * x);
    DivUnique(Cube(p, x), x, p * x);
    assert c == p * x;
    assert (p - x) * x == p * x - x * x;
    QuadraticStep(b, x);
  }

  /** So that is what the code answers. */
  lemma BalancedAnswer(x: nat, amp: nat, d: nat, m: nat, result: MathResult)
    requires x >= 1 && amp >= 1 && d == 2 * x && U128(d)
    requires IsFloorRoot(BaseB(x, amp, d), BaseC(x, amp, d), m) && Solves(BaseB(x, amp, d), BaseC(x, amp, d), m, result)
    ensures result == Ok(x)
  {
    BalancedRoot(x, amp);
    FloorRootUnique(BaseB(x, amp, d), BaseC(x, amp, d), m, x);
  }

  /** The quadratic has a floor root, and this solves it. */
  ghost predicate SolvesQuadratic(b: int, c: nat, result: MathResult) {
    && (exists m: nat :: IsFloorRoot(b, c, m))
    && (forall m: nat :: IsFloorRoot(b, c, m) ==> Solves(b, c, m, result))
  }

  /** A base balance for the pool: on its curve, and the other half of a balanced pool. It is
      the floor root of the quadratic of the code or the next number. */
  ghost predicate IsBase(newQuote: nat, amp: nat, d: nat, result: MathResult)
    requires newQuote >= 1 && amp >= 1
  {
    && SolvesQuadratic(BaseB(newQuote, amp, d), BaseC(newQuote, amp, d), result)
    && (result.Ok? ==> OnCurve(4 * amp, newQuote, d, result.value))
    && (d == 2 * newQuote ==> result == Ok(newQuote))
  }

  lemma AnswerIs(newQuote: nat, amp: nat, d: nat, m: nat, result: MathResult)
    requires newQuote >= 1 && amp >= 1 && U128(d)
    requires IsFloorRoot(BaseB(newQuote, amp, d), BaseC(newQuote, amp, d), m)
    requires Solves(BaseB(newQuote, amp, d), BaseC(newQuote, amp, d), m, result)
    ensures IsBase(newQuote, amp, d, result)
  {
    SolvesOnly(BaseB(newQuote, amp, d), BaseC(newQuote, amp, d), m, result);
    if result.Ok? {
      SolutionIsOnCurve(newQuote, amp, d, m, result.value);
    }
    if d == 2 * newQuote {
      BalancedAnswer(newQuote, amp, d, m, result);
    }
  }

  /** The new base balance. Of the three ways to fail only a result too large for the
      balance type remains: no divisor is ever negative or zero, and the stopping test is
      met within the 255 iterations. */
  method ComputeBase(newQuote: nat, amp: nat, d: nat) returns (result: MathResult)
    requires newQuote >= 1 && amp >= 1 && U128(d)
    ensures IsBase(newQuote, amp, d, result)
  {
    ghost var b := BaseB(newQuote, amp, d);
    var c := BaseC(newQuote, amp, d);
    var linear := newQuote + FloorDiv(d, 4 * amp);
    ghost var m := FloorRootFrom(b, c, 0);
    FirstStepBound(newQuote, amp, d);
    var y: nat := d;
    for i := 0 to 255
      invariant 2 * y + b > 0 && i <= 254
      invariant if i == 0 then NewtonStep(b, c, y) < Pow2(253) else Halved(m, y, i)
    {
      if 2 * y + linear < d {
        return Err(Underflow);
      }
      var next: nat := NewtonStep(linear - d, c, y);
      if next > y {
        if next - y <= 1 {
          AccurateResult(b, c, m, y);
          AnswerIs(newQuote, amp, d, m, Narrow(next));
          return Narrow(next);
        }
      } else if y - next <= 1 {
        AccurateResult(b, c, m, y);
        AnswerIs(newQuote, amp, d, m, Narrow(next));
        return Narrow(next);
      }
      StepGoesOn(b, c, m, y, i);
      y := next;
    }
    return Err(NotConverged);
  }
}
