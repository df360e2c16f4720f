/** Floor-rounded shares taken one after the other out of a shrinking pot: the rewards
    of a bond offer and the liquidity of a pool are both handed out this way. */
module ProRata {
  import opened Arithmetic

  /** An amount shared out over a number of units. */
  datatype Pot = Pot(amount: nat, units: nat)

  /** What `n` units are worth, rounded down. */
  function Share(n: nat, pot: Pot): nat {
    if pot.units == 0 then 0 else n * pot.amount / pot.units
  }

  lemma ShareBounds(n: nat, pot: Pot)
    requires 0 < pot.units
    ensures Share(n, pot) * pot.units <= n * pot.amount < Share(n, pot) * pot.units + pot.units
  {
    DivBounds(n * pot.amount, pot.units);
  }

  lemma ShareWithin(n: nat, pot: Pot)
    requires n <= pot.units
    ensures Share(n, pot) <= pot.amount
    ensures n == pot.units > 0 ==> Share(n, pot) == pot.amount
  {
    if 0 < pot.units {
      MulLe(n, pot.units, pot.amount);
      assert (pot.amount + 1) * pot.units == pot.amount * pot.units + pot.units;
      DivIsMax(n * pot.amount, pot.units, pot.amount + 1);
      if n == pot.units {
        DivUnique(n * pot.amount, pot.units, pot.amount);
      }
    }
  }

  function After(pot: Pot, n: nat): Pot
    requires n <= pot.units
  {
    ShareWithin(n, pot);
    Pot(pot.amount - Share(n, pot), pot.units - n)
  }

  function Total(ns: seq<nat>): nat {
    if ns == [] then 0 else Total(ns[..|ns| - 1]) + ns[|ns| - 1]
  }

  /** The pot after taking out shares in order. */
  function Drain(pot: Pot, ns: seq<nat>): (rest: Pot)
    requires Total(ns) <= pot.units
    ensures rest.units == pot.units - Total(ns)
  {
    if ns == [] then pot else After(Drain(pot, ns[..|ns| - 1]), ns[|ns| - 1])
  }

  /** Everything paid out on the way. */
  function Payout(pot: Pot, ns: seq<nat>): nat
    requires Total(ns) <= pot.units
  {
    if ns == [] then 0
    else Payout(pot, ns[..|ns| - 1]) + Share(ns[|ns| - 1], Drain(pot, ns[..|ns| - 1]))
  }

  lemma DrainOneMore(pot: Pot, ns: seq<nat>, n: nat)
    requires Total(ns) + n <= pot.units
    ensures Total(ns + [n]) == Total(ns) + n
    ensures Drain(pot, ns + [n]) == After(Drain(pot, ns), n)
    ensures Payout(pot, ns + [n]) == Payout(pot, ns) + Share(n, Drain(pot, ns))
  {
    assert (ns + [n])[..|ns + [n]| - 1] == ns;
  }

  /** Nothing is lost between the pot and the payouts. */
  lemma {:induction false} PayoutConserves(pot: Pot, ns: seq<nat>)
    requires Total(ns) <= pot.units
    ensures Payout(pot, ns) + Drain(pot, ns).amount == pot.amount
  {
    if ns != [] {
      PayoutConserves(pot, ns[..|ns| - 1]);
    }
  }

  // ---------- one share ----------

  /** One share leaves the amount per unit where it was or a rounding above it. */
  lemma RateAfter(pot: Pot, n: nat)
    requires n <= pot.units && 0 < pot.units
    ensures After(pot, n).amount * pot.units >= pot.amount * After(pot, n).units
    ensures After(pot, n).amount * pot.units < pot.amount * After(pot, n).units + pot.units
  {
    var share, a, u := Share(n, pot), pot.amount, pot.units;
    ShareBounds(n, pot);
    ShareWithin(n, pot);
    assert (a - share) * u == a * u - share * u;
    assert a * (u - n) == a * u - n * a;
  }

  /** A pot that covers a minimum per unit pays it on every share and still covers it. */
  lemma MinimumShare(pot: Pot, n: nat, min: nat)
    requires n <= pot.units
    requires pot.units * min <= pot.amount
    ensures n * min <= Share(n, pot)
    ensures After(pot, n).units * min <= After(pot, n).amount
  {
    if 0 < pot.units {
      var u, a := pot.units, pot.amount;
      MulLe(u * min, a, n);
      assert (n * min) * u == (u * min) * n;
      assert a * n == n * a;
      DivIsMax(n * a, u, n * min);
      var rest, left := After(pot, n).amount, u - n;
      RateAfter(pot, n);
      MulLe(u * min, a, left);
      assert (left * min) * u == (u * min) * left;
      assert a * left <= rest * u;
      MulOrder(left * min, rest, u);
    }
  }

  // ---------- many shares ----------

  /** One more share keeps the distance to the exact rate below one unit of amount per share. */
  lemma RateStep(a0: nat, u0: nat, a: nat, u: nat, a1: nat, u1: nat, k: nat)
    requires 0 < u && u1 <= u
    requires a0 * u <= a * u0 <= a0 * u + k * u0
    requires a * u1 <= a1 * u < a * u1 + u
    ensures a0 * u1 <= a1 * u0
    ensures 0 < u0 ==> a1 * u0 < a0 * u1 + (k + 1) * u0
  {
    RateStepBelow(a0, u0, a, u, a1, u1);
    if 0 < u0 {
      RateStepAbove(a0, u0, a, u, a1, u1, k);
    }
  }

  lemma RateStepBelow(a0: nat, u0: nat, a: nat, u: nat, a1: nat, u1: nat)
    requires 0 < u
    requires a0 * u <= a * u0
    requires a * u1 <= a1 * u
    ensures a0 * u1 <= a1 * u0
  {
    MulLe(a * u1, a1 * u, u0);
    MulLe(a0 * u, a * u0, u1);
    assert (a1 * u0) * u == (a1 * u) * u0;
    assert (a * u1) * u0 == (a * u0) * u1;
    assert (a0 * u) * u1 == (a0 * u1) * u;
    MulOrder(a0 * u1, a1 * u0, u);
  }

  lemma RateStepAbove(a0: nat, u0: nat, a: nat, u: nat, a1: nat, u1: nat, k: nat)
    requires 0 < u && u1 <= u && 0 < u0
    requires a * u0 <= a0 * u + k * u0
    requires a1 * u < a * u1 + u
    ensures a1 * u0 < a0 * u1 + (k + 1) * u0
  {
    var ku := k * u0;
    var target := a0 * u1 + ku + u0;
    MulLt(a1 * u, a * u1 + u, u0);
    assert (a * u1 + u) * u0 == (a * u1) * u0 + u * u0;
    assert (a1 * u) * u0 == (a1 * u0) * u;
    assert (a * u1) * u0 == (a * u0) * u1;
    MulLe(a * u0, a0 * u + ku, u1);
    assert (a0 * u + ku) * u1 == (a0 * u) * u1 + ku * u1;
    assert (a0 * u) * u1 == (a0 * u1) * u;
    MulLe(u1, u, ku);
    assert ku * u1 == u1 * ku && ku * u == u * ku;
    TargetTimes(a0 * u1, ku, u0, u);
    MulOrder(a1 * u0, target, u);
    assert (k + 1) * u0 == ku + u0;
  }

  lemma TargetTimes(x: nat, y: nat, z: nat, u: nat)
    ensures (x + y + z) * u == x * u + y * u + z * u
  {
  }

  /** The amount per unit of `rest` is that of `pot`, or above it by at most `k` units of
      amount spread over the pot, and by less once anything was taken. */
  ghost predicate RateWithin(pot: Pot, rest: Pot, k: nat) {
    && pot.amount * rest.units <= rest.amount * pot.units
    && rest.amount * pot.units <= pot.amount * rest.units + k * pot.units
    && (0 < k && 0 < pot.units ==> rest.amount * pot.units < pot.amount * rest.units + k * pot.units)
  }

  lemma OneMoreShare(pot: Pot, rest: Pot, k: nat, n: nat)
    requires n <= rest.units && RateWithin(pot, rest, k)
    ensures RateWithin(pot, After(rest, n), k + 1)
  {
    if 0 < rest.units {
      RateAfter(rest, n);
      RateWithinStep(pot, rest, After(rest, n), k);
    } else {
      RateWithinMore(pot, rest, k);
    }
  }

  lemma RateWithinStep(pot: Pot, rest: Pot, next: Pot, k: nat)
    requires 0 < rest.units && next.units <= rest.units && RateWithin(pot, rest, k)
    requires rest.amount * next.units <= next.amount * rest.units < rest.amount * next.units + rest.units
    ensures RateWithin(pot, next, k + 1)
  {
    RateStep(pot.amount, pot.units, rest.amount, rest.units, next.amount, next.units, k);
  }

  lemma RateWithinMore(pot: Pot, rest: Pot, k: nat)
    requires RateWithin(pot, rest, k)
    ensures RateWithin(pot, rest, k + 1)
  {
    assert (k + 1) * pot.units == k * pot.units + pot.units;
  }

  /** However the units are taken, what is left per unit never falls below the first rate,
      and exceeds it by less than one unit of amount per share taken. */
  lemma {:induction false} DrainBounds(pot: Pot, ns: seq<nat>)
    requires Total(ns) <= pot.units
    ensures RateWithin(pot, Drain(pot, ns), |ns|)
  {
    if ns != [] {
      var before := ns[..|ns| - 1];
      DrainBounds(pot, before);
      OneMoreShare(pot, Drain(pot, before), |before|, ns[|ns| - 1]);
    }
  }

  lemma RateOfPayout(pot: Pot, rest: Pot, k: nat, paid: nat, sold: nat)
    requires RateWithin(pot, rest, k)
    requires paid + rest.amount == pot.amount && sold + rest.units == pot.units
    ensures paid * pot.units <= pot.amount * sold
    ensures 0 < k && 0 < pot.units ==> pot.amount * sold < (paid + k) * pot.units
  {
    var a, u, b, v := pot.amount, pot.units, rest.amount, rest.units;
    TimesDifference(a, b, paid, u);
    TimesDifference(u, v, sold, a);
    TimesSum(paid, k, u);
  }

  lemma TimesDifference(a: nat, b: nat, c: nat, u: nat)
    requires c + b == a
    ensures a * u == u * a == b * u + c * u
    ensures u * b == b * u && u * c == c * u
  {
  }

  lemma TimesSum(a: nat, b: nat, u: nat)
    ensures (a + b) * u == a * u + b * u
  {
  }

  /** The payout of any series of shares is the exact proportion, short by less than one
      unit of amount per share. */
  lemma PayoutBounds(pot: Pot, ns: seq<nat>)
    requires Total(ns) <= pot.units && 0 < pot.units
    ensures Payout(pot, ns) * pot.units <= pot.amount * Total(ns)
    ensures ns != [] ==> pot.amount * Total(ns) < (Payout(pot, ns) + |ns|) * pot.units
  {
    DrainBounds(pot, ns);
    PayoutConserves(pot, ns);
    RateOfPayout(pot, Drain(pot, ns), |ns|, Payout(pot, ns), Total(ns));
  }

  /** Splitting a purchase never pays more than one purchase, and loses less than one unit
      of amount per part. */
  lemma SplittingNeverPaysMore(pot: Pot, ns: seq<nat>)
    requires Total(ns) <= pot.units
    ensures Payout(pot, ns) <= Share(Total(ns), pot)
    ensures ns != [] ==> Share(Total(ns), pot) < Payout(pot, ns) + |ns|
  {
    if 0 < pot.units {
      PayoutBounds(pot, ns);
      var sold := Total(ns);
      assert pot.amount * sold == sold * pot.amount;
      DivIsMax(sold * pot.amount, pot.units, Payout(pot, ns));
      DivIsMax(sold * pot.amount, pot.units, Payout(pot, ns) + |ns|);
    } else {
      NothingFromNoUnits(pot, ns);
    }
  }

  lemma {:induction false} NothingFromNoUnits(pot: Pot, ns: seq<nat>)
    requires pot.units == 0 && Total(ns) == 0
    ensures Payout(pot, ns) == 0
  {
    if ns != [] {
      NothingFromNoUnits(pot, ns[..|ns| - 1]);
    }
  }

  /** The last unit takes everything that is left. */
  lemma LastUnitEmptiesPot(pot: Pot, ns: seq<nat>)
    requires Total(ns) == pot.units && 0 < pot.units
    ensures Drain(pot, ns) == Pot(0, 0)
    ensures Payout(pot, ns) == pot.amount
  {
    var rest := Drain(pot, ns);
    LastUnit(pot, ns);
    PayoutConserves(pot, ns);
  }

  lemma {:induction false} LastUnit(pot: Pot, ns: seq<nat>)
    requires Total(ns) == pot.units && 0 < pot.units
    ensures Drain(pot, ns).amount == 0
  {
    var before, n := ns[..|ns| - 1], ns[|ns| - 1];
    if n == 0 {
      LastUnit(pot, before);
    } else {
      ShareWithin(n, Drain(pot, before));
    }
  }

  /** What a pot, what is left of it, the number of shares taken and their sum in units and
      in amount have to do with each other:
      nothing is lost; the amount is the exact proportion, short by less than one per share;
      one share for all the units would not have been less; the amount per unit has not
      fallen; the last unit leaves nothing. */
  ghost predicate Proportional(pot: Pot, rest: Pot, k: nat, sold: nat, paid: nat) {
    && sold + rest.units == pot.units
    && paid + rest.amount == pot.amount
    && paid * pot.units <= pot.amount * sold
    && (k > 0 ==> pot.amount * sold < (paid + k) * pot.units)
    && paid <= Share(sold, pot)
    && pot.amount * rest.units <= rest.amount * pot.units
    && (rest.units == 0 ==> rest.amount == 0)
  }

  lemma DrainIsProportional(pot: Pot, ns: seq<nat>)
    requires Total(ns) <= pot.units && 0 < pot.units
    ensures Proportional(pot, Drain(pot, ns), |ns|, Total(ns), Payout(pot, ns))
  {
    PayoutConserves(pot, ns);
    PayoutBounds(pot, ns);
    SplittingNeverPaysMore(pot, ns);
    DrainBounds(pot, ns);
    if Total(ns) == pot.units {
      LastUnitEmptiesPot(pot, ns);
    }
  }
}
