/** Turnout-biased thresholds and the overflow-free comparison of fractions they use. */
module VoteThresholds {
  import opened Amounts
  import opened Arithmetic
  import opened DemocracyTypes

  /** The integer square root of the balance library: the root rounded down. */
  function ISqrt(n: nat): (r: nat)
    ensures r * r <= n < (r + 1) * (r + 1)
  {
    if n == 0 then 0
    else
      var r := ISqrt(n - 1);
      if (r + 1) * (r + 1) <= n then r + 1 else r
  }

  lemma RootIs(n: nat, r: nat)
    requires r * r <= n < (r + 1) * (r + 1)
    ensures ISqrt(n) == r
  {
    var x := ISqrt(n);
    SquareOrder(x + 1, r);
    SquareOrder(r + 1, x);
  }

  lemma ISqrtMonotone(a: nat, b: nat)
    requires a <= b
    ensures ISqrt(a) <= ISqrt(b)
  {
    SquareOrder(ISqrt(b) + 1, ISqrt(a));
  }

  /** A fraction in terms of its quotient and remainder, over a common denominator. */
  lemma CommonDenominator(n: nat, d: nat, e: nat)
    requires d > 0 && e > 0
    ensures n * e == (n / d) * (d * e) + (n % d) * e
    ensures (n / d) * (d * e) <= n * e < (n / d + 1) * (d * e)
  {
    var q, r := n / d, n % d;
    DivBounds(n, d);
    assert n == q * d + r;
    calc {
      n * e;
      (q * d + r) * e;
      q * d * e + r * e;
      q * (d * e) + r * e;
    }
    MulLe(0, r, e);
    MulLt(r, d, e);
    assert (q + 1) * (d * e) == q * (d * e) + d * e;
  }

  /** The order of two fractions, by cross-multiplication. */
  predicate Less(n1: nat, d1: nat, n2: nat, d2: nat) {
    n1 * d2 < n2 * d1
  }

  /** One turn of the continued-fraction loop: different quotients decide, and
      equal ones leave the comparison to the swapped reciprocals of the remainders. */
  lemma QuotientStep(n1: nat, d1: nat, n2: nat, d2: nat)
    requires d1 > 0 && d2 > 0
    ensures n1 / d1 < n2 / d2 ==> Less(n1, d1, n2, d2)
    ensures n1 / d1 > n2 / d2 ==> !Less(n1, d1, n2, d2)
    ensures n1 / d1 == n2 / d2 ==> Less(n1, d1, n2, d2) == Less(d2, n2 % d2, d1, n1 % d1)
  {
    var q1, q2 := n1 / d1, n2 / d2;
    var common := d1 * d2;
    assert common == d2 * d1;
    CommonDenominator(n1, d1, d2);
    CommonDenominator(n2, d2, d1);
    if q1 < q2 {
      MulLe(q1 + 1, q2, common);
    } else if q2 < q1 {
      MulLe(q2 + 1, q1, common);
    }
  }

  /** A zero remainder on either side ends the loop. */
  lemma ZeroRemainder(n1: nat, n2: nat, r1: nat, r2: nat)
    ensures r2 == 0 ==> !Less(n1, r2, n2, r1)
    ensures n2 > 0 && r1 == 0 && r2 > 0 ==> Less(n1, r2, n2, r1)
  {
    if n2 > 0 && r2 > 0 {
      MulLt(0, r2, n2);
    }
  }

  /** Compares two fractions without ever forming a product: the answer is that of
      cross-multiplication, and no variable of the loop exceeds the largest input. */
  method CompareRationals(n1: nat, d1: nat, n2: nat, d2: nat) returns (less: bool)
    requires d1 > 0 && d2 > 0
    ensures less <==> n1 * d2 < n2 * d1
  {
    var a: nat, b: nat, c: nat, d: nat := n1, d1, n2, d2;
    ghost var bound := Max(Max(n1, d1), Max(n2, d2));
    while true
      invariant 0 < b <= bound && 0 < d <= bound && a <= bound && c <= bound
      invariant Less(a, b, c, d) == Less(n1, d1, n2, d2)
      decreases b + d
    {
      var q1, q2 := a / b, c / d;
      QuotientStep(a, b, c, d);
      if q1 < q2 {
        return true;
      }
      if q2 < q1 {
        return false;
      }
      var r1, r2 := a % b, c % d;
      ZeroRemainder(d, b, r1, r2);
      if r2 == 0 {
        return false;
      }
      if r1 == 0 {
        return true;
      }
      a, c, b, d := d, b, r2, r1;
    }
  }

  /** The threshold rules as inequalities between products. */
  predicate Passes(threshold: VoteThreshold, tally: Tally, electorate: nat)
    requires tally.turnout >= 0
  {
    var voters := ISqrt(tally.turnout);
    var all := ISqrt(electorate);
    && voters > 0
    && match threshold
       case SuperMajorityApprove => tally.nays * all < tally.ayes * voters
       case SuperMajorityAgainst => tally.nays * voters < tally.ayes * all
       case SimpleMajority => tally.nays < tally.ayes
  }

  /** The pallet's decision. A positive electorate is what keeps the comparison
      from dividing by zero once anybody has voted. */
  method Approved(threshold: VoteThreshold, tally: Tally, electorate: nat) returns (approved: bool)
    requires tally.ayes >= 0 && tally.nays >= 0 && tally.turnout >= 0
    requires tally.turnout > 0 ==> electorate > 0
    ensures approved == Passes(threshold, tally, electorate)
  {
    var voters := ISqrt(tally.turnout);
    var all := ISqrt(electorate);
    if voters == 0 {
      return false;
    }
    match threshold
    case SuperMajorityApprove =>
      approved := CompareRationals(tally.nays, voters, tally.ayes, all);
    case SuperMajorityAgainst =>
      approved := CompareRationals(tally.nays, all, tally.ayes, voters);
    case SimpleMajority =>
      approved := tally.ayes > tally.nays;
  }

  /** The decision by any two roots: those of the largest squares within the turnout and the
      electorate. */
  lemma PassesByRoots(threshold: VoteThreshold, tally: Tally, electorate: nat, v: nat, e: nat)
    requires v * v <= tally.turnout < (v + 1) * (v + 1)
    requires e * e <= electorate < (e + 1) * (e + 1)
    ensures Passes(threshold, tally, electorate) <==>
      && v > 0
      && match threshold
         case SuperMajorityApprove => tally.nays * e < tally.ayes * v
         case SuperMajorityAgainst => tally.nays * v < tally.ayes * e
         case SimpleMajority => tally.nays < tally.ayes
  {
    RootIs(tally.turnout, v);
    RootIs(electorate, e);
  }

  lemma SquareOfProduct(n: nat, e: nat)
    ensures n * e * (n * e) == n * n * (e * e)
  {
    calc {
      n * e * (n * e);
      n * (e * (n * e));
      n * (n * e * e);
      n * (n * (e * e));
      n * n * (e * e);
    }
  }

  /** Products are ordered as their squares. */
  lemma ProductSquares(n: nat, e: nat, a: nat, v: nat)
    ensures n * e < a * v <==> n * n * (e * e) < a * a * (v * v)
  {
    SquareOrder(a * v, n * e);
    SquareOfProduct(n, e);
    SquareOfProduct(a, v);
  }

  /** The biased rules without roots, where turnout and electorate are squares: one weighs
      nays by the electorate and ayes by the turnout, the other the other way round. */
  lemma BiasedRulesAtSquares(tally: Tally, electorate: nat, v: nat, e: nat)
    requires tally.ayes >= 0 && tally.nays >= 0
    requires v > 0 && tally.turnout == v * v && electorate == e * e
    ensures Passes(SuperMajorityApprove, tally, electorate) <==>
      tally.nays * tally.nays * electorate < tally.ayes * tally.ayes * tally.turnout
    ensures Passes(SuperMajorityAgainst, tally, electorate) <==>
      tally.nays * tally.nays * tally.turnout < tally.ayes * tally.ayes * electorate
  {
    PassesByRoots(SuperMajorityApprove, tally, electorate, v, e);
    PassesByRoots(SuperMajorityAgainst, tally, electorate, v, e);
    ProductSquares(tally.nays, e, tally.ayes, v);
    ProductSquares(tally.nays, v, tally.ayes, e);
  }

  lemma RootIsMax(n: nat, x: nat)
    requires x * x <= n
    ensures x <= ISqrt(n) && x * x <= ISqrt(n) * ISqrt(n)
  {
    SquareOrder(ISqrt(n) + 1, x);
    SquareOrder(x, ISqrt(n));
  }

  /** Roots that compare do so with a smaller square on the left and the number itself on
      the right. */
  lemma SquareBelow(n: nat, a: nat, small: nat, large: nat, x: nat)
    requires n * ISqrt(small) < a * ISqrt(large) && x * x <= small
    ensures n * n * (x * x) < a * a * large
  {
    var s, l := ISqrt(small), ISqrt(large);
    ProductSquares(n, s, a, l);
    RootIsMax(small, x);
    MulLe(x * x, s * s, n * n);
    MulLe(l * l, large, a * a);
    Swap(x * x, s * s, n * n);
    Swap(l * l, large, a * a);
  }

  /** And the number itself on the left with a smaller square on the right is enough. */
  lemma SquareAbove(n: nat, a: nat, small: nat, large: nat, x: nat)
    requires x * x <= large && n * n * small < a * a * (x * x)
    ensures n * ISqrt(small) < a * ISqrt(large)
  {
    var s, l := ISqrt(small), ISqrt(large);
    ProductSquares(n, s, a, l);
    RootIsMax(large, x);
    MulLe(x * x, l * l, a * a);
    MulLe(s * s, small, n * n);
    Swap(x * x, l * l, a * a);
    Swap(s * s, small, n * n);
  }

  lemma Swap(a: int, b: int, c: int)
    ensures a * c == c * a && b * c == c * b
  {
  }

  /** For any turnout and electorate the biased rules are within one neighbouring square of
      the rules without roots. */
  lemma BiasedRulesBetweenSquares(tally: Tally, electorate: nat, x: nat)
    requires tally.ayes >= 0 && tally.nays >= 0 && tally.turnout > 0
    ensures Passes(SuperMajorityApprove, tally, electorate) && x * x <= electorate ==>
      tally.nays * tally.nays * (x * x) < tally.ayes * tally.ayes * tally.turnout
    ensures x * x <= tally.turnout && tally.nays * tally.nays * electorate < tally.ayes * tally.ayes * (x * x) ==>
      Passes(SuperMajorityApprove, tally, electorate)
    ensures Passes(SuperMajorityAgainst, tally, electorate) && x * x <= tally.turnout ==>
      tally.nays * tally.nays * (x * x) < tally.ayes * tally.ayes * electorate
    ensures x * x <= electorate && tally.nays * tally.nays * tally.turnout < tally.ayes * tally.ayes * (x * x) ==>
      Passes(SuperMajorityAgainst, tally, electorate)
  {
    ApproveBetweenSquares(tally.ayes, tally.nays, tally.turnout, electorate, x);
    ApproveBetweenSquares(tally.ayes, tally.nays, electorate, tally.turnout, x);
    RootIsMax(tally.turnout, 1);
  }

  lemma ApproveBetweenSquares(ayes: nat, nays: nat, large: nat, small: nat, x: nat)
    ensures nays * ISqrt(small) < ayes * ISqrt(large) && x * x <= small ==>
      nays * nays * (x * x) < ayes * ayes * large
    ensures x * x <= large && nays * nays * small < ayes * ayes * (x * x) ==>
      nays * ISqrt(small) < ayes * ISqrt(large)
  {
    if nays * ISqrt(small) < ayes * ISqrt(large) && x * x <= small {
      SquareBelow(nays, ayes, small, large, x);
    }
    if x * x <= large && nays * nays * small < ayes * ayes * (x * x) {
      SquareAbove(nays, ayes, small, large, x);
    }
  }

  /** The three rules are ordered from the strictest to the most lenient. */
  lemma ThresholdsOrdered(tally: Tally, electorate: nat)
    requires tally.ayes >= 0 && tally.nays >= 0
    requires 0 <= tally.turnout <= electorate
    ensures Passes(SuperMajorityApprove, tally, electorate) ==> Passes(SimpleMajority, tally, electorate)
    ensures Passes(SimpleMajority, tally, electorate) ==> Passes(SuperMajorityAgainst, tally, electorate)
  {
    ISqrtMonotone(tally.turnout, electorate);
    var voters, all := ISqrt(tally.turnout), ISqrt(electorate);
    MulLe(voters, all, tally.nays);
    MulLe(voters, all, tally.ayes);
    if voters > 0 {
      MulOrder(tally.nays, tally.ayes, voters);
    }
  }

  /** With the whole electorate voting the three rules agree. */
  lemma FullTurnoutIsSimpleMajority(threshold: VoteThreshold, tally: Tally)
    requires tally.turnout >= 0
    ensures Passes(threshold, tally, tally.turnout) == Passes(SimpleMajority, tally, tally.turnout)
  {
    var voters := ISqrt(tally.turnout);
    if voters > 0 {
      MulOrder(tally.nays, tally.ayes, voters);
    }
  }

  /** An aye vote never turns approval into rejection under the two rules that
      do not reward a low turnout. */
  lemma AyeKeepsApproval(threshold: VoteThreshold, tally: Tally, electorate: nat, conviction: Conviction, amount: nat)
    requires threshold != SuperMajorityAgainst
    requires tally.ayes >= 0 && tally.nays >= 0 && tally.turnout >= 0
    requires Passes(threshold, tally, electorate)
    ensures Passes(threshold, tally.Plus(OwnWeight(Standard(true, conviction, amount))), electorate)
  {
    var w := OwnWeight(Standard(true, conviction, amount));
    ISqrtMonotone(tally.turnout, tally.turnout + w.turnout);
    var before, after := ISqrt(tally.turnout), ISqrt(tally.turnout + w.turnout);
    MulLe(before, after, tally.ayes);
    MulLe(tally.ayes, tally.ayes + w.ayes, after);
  }

  /** The tally of some votes, added in order. */
  function TallyOf(votes: seq<AccountVote>): Option<Tally> {
    if votes == [] then Some(Tally(0, 0, 0))
    else
      match TallyOf(votes[..|votes| - 1])
      case None => None
      case Some(t) => t.Add(votes[|votes| - 1])
  }

  lemma OneMoreVote(votes: seq<AccountVote>, vote: AccountVote, before: Tally, after: Tally)
    requires TallyOf(votes) == Some(before) && before.Add(vote) == Some(after)
    ensures TallyOf(votes + [vote]) == Some(after)
  {
    assert (votes + [vote])[..|votes + [vote]| - 1] == votes;
  }

  lemma ThreeVotes(a: AccountVote, b: AccountVote, c: AccountVote, ta: Tally, tb: Tally, tc: Tally)
      returns (votes: seq<AccountVote>)
    requires Tally(0, 0, 0).Add(a) == Some(ta) && ta.Add(b) == Some(tb) && tb.Add(c) == Some(tc)
    ensures TallyOf(votes) == Some(tc)
  {
    OneMoreVote([], a, Tally(0, 0, 0), ta);
    OneMoreVote([] + [a], b, ta, tb);
    OneMoreVote([] + [a] + [b], c, tb, tc);
    votes := [] + [a] + [b] + [c];
  }

  lemma ApproveByRoots(tally: Tally, electorate: nat, v: nat, e: nat)
    requires v > 0 && v * v <= tally.turnout < (v + 1) * (v + 1) && electorate == e * e
    ensures Passes(SuperMajorityApprove, tally, electorate) <==> tally.nays * e < tally.ayes * v
  {
    PassesByRoots(SuperMajorityApprove, tally, electorate, v, e);
  }

  /** The roots matter: two votes that are approved, although weighing by turnout and
      electorate themselves would reject them. */
  lemma RootsDecide() returns (votes: seq<AccountVote>, tally: Tally, electorate: nat)
    ensures TallyOf(votes) == Some(tally) && InRange(tally) && tally.turnout <= electorate
    ensures Passes(SuperMajorityApprove, tally, electorate)
    ensures tally.nays * electorate >= tally.ayes * tally.turnout
  {
    electorate := 400;
    var a, b := Standard(true, Locked1x, 80), Standard(false, Locked1x, 30);
    tally := Tally(80, 30, 110);
    votes := [] + [a] + [b];
    OneMoreVote([], a, Tally(0, 0, 0), Tally(80, 0, 80));
    OneMoreVote([] + [a], b, Tally(80, 0, 80), tally);
    ApproveByRoots(tally, electorate, 10, 20);
  }

  lemma WitnessVotes() returns (votes: seq<AccountVote>)
    ensures TallyOf(votes) == Some(Tally(10, 28, 49))
  {
    var a, b, c := Standard(false, Locked1x, 28), Standard(true, Locked1x, 9), Standard(true, Unlocked, 12);
    votes := ThreeVotes(a, b, c, Tally(0, 28, 28), Tally(9, 28, 37), Tally(10, 28, 49));
  }

  lemma AgainstByRoots(tally: Tally, electorate: nat, v: nat, e: nat)
    requires v > 0 && tally.turnout == v * v && electorate == e * e
    ensures Passes(SuperMajorityAgainst, tally, electorate) <==> tally.nays * v < tally.ayes * e
  {
    PassesByRoots(SuperMajorityAgainst, tally, electorate, v, e);
  }

  /** The excluded rule really is different: after three votes an aye vote without a lock
      raises the turnout more than it raises the ayes, and defeats what it supports. */
  lemma AyeCanDefeatUnderSuperMajorityAgainst() returns (votes: seq<AccountVote>, tally: Tally)
    ensures TallyOf(votes) == Some(tally) && InRange(tally)
    ensures Passes(SuperMajorityAgainst, tally, 400)
    ensures !Passes(SuperMajorityAgainst, tally.Plus(OwnWeight(Standard(true, Unlocked, 15))), 400)
  {
    votes := WitnessVotes();
    tally := Tally(10, 28, 49);
    assert tally.Plus(OwnWeight(Standard(true, Unlocked, 15))) == Tally(11, 28, 64);
    AgainstByRoots(tally, 400, 7, 20);
    AgainstByRoots(Tally(11, 28, 64), 400, 8, 20);
  }

  /** An aye vote keeps what was approved. */
  predicate KeepsApproval(threshold: VoteThreshold, tally: Tally, electorate: nat, conviction: Conviction, amount: nat) {
    tally.ayes >= 0 && tally.nays >= 0 && tally.turnout >= 0 && Passes(threshold, tally, electorate) ==>
      Passes(threshold, tally.Plus(OwnWeight(Standard(true, conviction, amount))), electorate)
  }

  /** Aye votes always keep approval under exactly the two rules that do not reward a low
      turnout. */
  lemma AyesKeepApprovalIff(threshold: VoteThreshold)
    ensures
      (forall tally, electorate: nat, conviction, amount: nat :: KeepsApproval(threshold, tally, electorate, conviction, amount))
      <==> threshold != SuperMajorityAgainst
  {
    if threshold == SuperMajorityAgainst {
      var votes, tally := AyeCanDefeatUnderSuperMajorityAgainst();
      assert !KeepsApproval(threshold, tally, 400, Unlocked, 15);
    } else {
      forall tally, electorate: nat, conviction, amount: nat
        ensures KeepsApproval(threshold, tally, electorate, conviction, amount)
      {
        if tally.ayes >= 0 && tally.nays >= 0 && tally.turnout >= 0 && Passes(threshold, tally, electorate) {
          AyeKeepsApproval(threshold, tally, electorate, conviction, amount);
        }
      }
    }
  }
}
