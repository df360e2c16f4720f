/** Removing liquidity from a pool: both sides are paid out in proportion to the liquidity
    tokens burnt, rounded down. */
module CurveLiquidity {
  import opened Amounts
  import opened ProRata

  type Holdings = map<Account, nat>

  /** The pool's balances, the liquidity tokens issued, and what accounts hold of the three assets. */
  datatype State = State(base: nat, quote: nat, issued: nat, lpOf: Holdings, baseOf: Holdings, quoteOf: Holdings)

  datatype Error = Overflow | CannotRespectMinimumRequested | Underflow | BalanceLow

  datatype Outcome = Done(state: State) | Failed(error: Error)

  function BasePot(s: State): Pot {
    Pot(s.base, s.issued)
  }

  function QuotePot(s: State): Pot {
    Pot(s.quote, s.issued)
  }

  datatype Removal = Removal(who: Account, lp: nat, minBase: nat, minQuote: nat)

  function Remove(s: State, r: Removal): (o: Outcome)
    ensures o.Done? ==> r.lp <= s.issued && r.lp <= At(s.lpOf, r.who)
    ensures o.Done? ==> BasePot(o.state) == After(BasePot(s), r.lp) && QuotePot(o.state) == After(QuotePot(s), r.lp)
  {
    var base, quote := Share(r.lp, BasePot(s)), Share(r.lp, QuotePot(s));
    if base > MAX_BALANCE || quote > MAX_BALANCE then Failed(Overflow)
    else if base < r.minBase || quote < r.minQuote then Failed(CannotRespectMinimumRequested)
    else if s.issued < r.lp then Failed(Underflow)
    else if At(s.lpOf, r.who) < r.lp then Failed(BalanceLow)
    else
      ShareWithin(r.lp, BasePot(s));
      ShareWithin(r.lp, QuotePot(s));
      Done(State(s.base - base, s.quote - quote, s.issued - r.lp,
                 s.lpOf[r.who := At(s.lpOf, r.who) - r.lp],
                 s.baseOf[r.who := At(s.baseOf, r.who) + base],
                 s.quoteOf[r.who := At(s.quoteOf, r.who) + quote]))
  }

  /** The pool keeps its side of the trade: what it loses, the account gains. */
  lemma RemoveConserves(s: State, r: Removal)
    requires Remove(s, r).Done?
    ensures
      var t := Remove(s, r).state;
      && t.base + At(t.baseOf, r.who) == s.base + At(s.baseOf, r.who)
      && t.quote + At(t.quoteOf, r.who) == s.quote + At(s.quoteOf, r.who)
      && t.issued - At(t.lpOf, r.who) == s.issued - At(s.lpOf, r.who)
  {
  }

  /** A removal is refused exactly when a side falls short of what was asked for, or leaves the
      balance type, or the tokens are not there. */
  lemma RemoveSucceedsIff(s: State, r: Removal)
    requires 0 < s.issued && s.base <= MAX_BALANCE && s.quote <= MAX_BALANCE
    ensures Remove(s, r).Done? <==>
      && r.minBase <= r.lp * s.base / s.issued && r.minQuote <= r.lp * s.quote / s.issued
      && r.lp <= s.issued && r.lp <= At(s.lpOf, r.who)
  {
    if r.lp <= s.issued {
      ShareWithin(r.lp, BasePot(s));
      ShareWithin(r.lp, QuotePot(s));
    }
  }

  /** Some removals in a row, those that fail changing nothing. */
  function Run(s: State, rs: seq<Removal>): State {
    if rs == [] then s
    else
      var t := Run(s, rs[..|rs| - 1]);
      var o := Remove(t, rs[|rs| - 1]);
      if o.Done? then o.state else t
  }

  function Burnt(s: State, rs: seq<Removal>): seq<nat> {
    if rs == [] then []
    else
      Burnt(s, rs[..|rs| - 1])
      + if Remove(Run(s, rs[..|rs| - 1]), rs[|rs| - 1]).Done? then [rs[|rs| - 1].lp] else []
  }

  /** Any accounts' removals drain both sides as shares of the first pool. */
  lemma {:induction false} RemovalsAreDrains(s: State, rs: seq<Removal>)
    ensures
      var ns := Burnt(s, rs);
      && Total(ns) <= s.issued
      && BasePot(Run(s, rs)) == Drain(BasePot(s), ns)
      && QuotePot(Run(s, rs)) == Drain(QuotePot(s), ns)
  {
    if rs != [] {
      var before := rs[..|rs| - 1];
      RemovalsAreDrains(s, before);
      var t, r, ns := Run(s, before), rs[|rs| - 1], Burnt(s, before);
      if Remove(t, r).Done? {
        DrainOneMore(BasePot(s), ns, r.lp);
        DrainOneMore(QuotePot(s), ns, r.lp);
      } else {
        assert ns + [] == ns;
      }
    }
  }

  /** However removals are split, each side pays the exact proportion short by less than one
      per removal, one removal would not pay less, what backs a liquidity token never
      falls, and the last token leaves an empty pool. */
  lemma RemovalsAreProportional(s: State, rs: seq<Removal>)
    requires 0 < s.issued
    ensures SharedOut(BasePot(s), BasePot(Run(s, rs)), Burnt(s, rs))
    ensures SharedOut(QuotePot(s), QuotePot(Run(s, rs)), Burnt(s, rs))
  {
    RemovalsAreDrains(s, rs);
    SideIsProportional(BasePot(s), BasePot(Run(s, rs)), Burnt(s, rs));
    SideIsProportional(QuotePot(s), QuotePot(Run(s, rs)), Burnt(s, rs));
  }

  /** One side of the pool before and after some shares. */
  ghost predicate SharedOut(pot: Pot, rest: Pot, ns: seq<nat>) {
    && rest.amount <= pot.amount
    && Proportional(pot, rest, |ns|, Total(ns), pot.amount - rest.amount)
  }

  lemma SideIsProportional(pot: Pot, rest: Pot, ns: seq<nat>)
    requires Total(ns) <= pot.units && 0 < pot.units && rest == Drain(pot, ns)
    ensures SharedOut(pot, rest, ns)
  {
    PayoutConserves(pot, ns);
    DrainIsProportional(pot, ns);
  }

  lemma {:induction false} OneAccountRuns(s: State, rs: seq<Removal>, who: Account)
    requires forall i :: 0 <= i < |rs| ==> rs[i].who == who
    ensures
      var t := Run(s, rs);
      && At(t.baseOf, who) - At(s.baseOf, who) == s.base - t.base
      && At(t.quoteOf, who) - At(s.quoteOf, who) == s.quote - t.quote
      && Total(Burnt(s, rs)) <= At(s.lpOf, who)
      && At(t.lpOf, who) == At(s.lpOf, who) - Total(Burnt(s, rs))
  {
    if rs != [] {
      var before, r := rs[..|rs| - 1], rs[|rs| - 1];
      OneAccountRuns(s, before, who);
      RemovalsAreDrains(s, before);
      var t := Run(s, before);
      if Remove(t, r).Done? {
        RemoveConserves(t, r);
        RemovalsAreDrains(s, rs);
        DrainOneMore(BasePot(s), Burnt(s, before), r.lp);
      } else {
        assert Burnt(s, before) + [] == Burnt(s, before);
      }
    }
  }

  /** An account that splits a removal never ends up with more of either asset than with one
      removal of the same tokens, and that one removal succeeds whenever the parts did. */
  lemma SplittingNeverWithdrawsMore(s: State, rs: seq<Removal>, who: Account)
    requires forall i :: 0 <= i < |rs| ==> rs[i].who == who
    requires 0 < s.issued && s.base <= MAX_BALANCE && s.quote <= MAX_BALANCE
    ensures
      var whole := Remove(s, Removal(who, Total(Burnt(s, rs)), 0, 0));
      && whole.Done?
      && At(Run(s, rs).baseOf, who) <= At(whole.state.baseOf, who)
      && At(Run(s, rs).quoteOf, who) <= At(whole.state.quoteOf, who)
      && At(Run(s, rs).lpOf, who) == At(whole.state.lpOf, who)
  {
    OneAccountRuns(s, rs, who);
    RemovalsAreDrains(s, rs);
    RemovalsAreProportional(s, rs);
    ShareWithin(Total(Burnt(s, rs)), BasePot(s));
    ShareWithin(Total(Burnt(s, rs)), QuotePot(s));
  }

  class Pool {
    var base: nat
    var quote: nat
    var issued: nat
    var lpOf: Holdings
    var baseOf: Holdings
    var quoteOf: Holdings

    ghost function View(): State
      reads this
    {
      State(base, quote, issued, lpOf, baseOf, quoteOf)
    }

    constructor (s: State)
      ensures View() == s
    {
      base, quote, issued := s.base, s.quote, s.issued;
      lpOf, baseOf, quoteOf := s.lpOf, s.baseOf, s.quoteOf;
    }

    method RemoveLiquidity(who: Account, lp: nat, minBase: nat, minQuote: nat) returns (error: seq<Error>)
      modifies this
      ensures
        match Remove(old(View()), Removal(who, lp, minBase, minQuote))
        case Done(s) => error == [] && View() == s
        case Failed(e) => error == [e] && View() == old(View())
    {
      var baseAmount, quoteAmount := Share(lp, Pot(base, issued)), Share(lp, Pot(quote, issued));
      if baseAmount > MAX_BALANCE || quoteAmount > MAX_BALANCE {
        return [Overflow];
      }
      if !(baseAmount >= minBase && quoteAmount >= minQuote) {
        return [CannotRespectMinimumRequested];
      }
      if issued < lp {
        return [Underflow];
      }
      if At(lpOf, who) < lp {
        return [BalanceLow];
      }
      ShareWithin(lp, Pot(base, issued));
      ShareWithin(lp, Pot(quote, issued));
      base, baseOf := base - baseAmount, baseOf[who := At(baseOf, who) + baseAmount];
      quote, quoteOf := quote - quoteAmount, quoteOf[who := At(quoteOf, who) + quoteAmount];
      issued, lpOf := issued - lp, lpOf[who := At(lpOf, who) - lp];
      return [];
    }
  }
}
