/** The Dutch auction pallet: orders, takes and balances updated in place. */
module DutchAuctionPallet {
  import opened Amounts
  import opened DutchAuction
  import opened DutchAuctionBlock
  import opened DutchAuctionRuns

  datatype CallResult = Ok | Err(error: Error)

  function ResultOf(o: Outcome): CallResult {
    if o.Done? then Ok else Err(o.error)
  }

  /** What is left to sell is what the loop subtracts. */
  lemma LeftAfter(order: Order, takes: seq<Take>, i: nat)
    requires i < |takes|
    ensures Left(order, takes, i + 1) == Left(order, takes, i) - Fill(order, takes, i)
  {
  }

  class Pallet {
    const config: Config
    var sellOrders: map<OrderId, Order>
    var ordersIndex: OrderId
    var takes: map<OrderId, seq<Take>>
    var free: map<Purse, nat>
    var reserved: map<Purse, nat>
    var now: nat

    ghost function Balances(): Ledger
      reads this
    {
      Ledger(free, reserved)
    }

    ghost function View(): State
      reads this
    {
      State(config, sellOrders, ordersIndex, takes, Balances(), now)
    }

    /** Reservations cover all orders and takes, and takes meet the limits of their orders. */
    ghost predicate Valid()
      reads this
    {
      Covered(View()) && WellFormed(View())
    }

    constructor (config: Config, free: map<Purse, nat>, now: nat)
      ensures Valid() && View() == State(config, map[], 0, map[], Ledger(free, map[]), now)
    {
      this.config, this.free, reserved, this.now := config, free, map[], now;
      sellOrders, ordersIndex, takes := map[], 0, map[];
    }

    method ReserveFunds(p: Purse, amount: nat) returns (done: bool)
      modifies this`free, this`reserved
      ensures
        match Reserve(old(Balances()), p, amount)
        case Some(l) => done && Balances() == l
        case None => !done && Balances() == old(Balances())
    {
      if At(free, p) < amount {
        return false;
      }
      free, reserved := free[p := At(free, p) - amount], reserved[p := At(reserved, p) + amount];
      return true;
    }

    method Release(p: Purse, amount: nat)
      modifies this`free, this`reserved
      ensures Balances() == Unreserve(old(Balances()), p, amount)
    {
      if amount == 0 {
        return;
      }
      var actual := Min(amount, At(reserved, p));
      free, reserved := free[p := At(free, p) + actual], reserved[p := At(reserved, p) - actual];
    }

    method Send(asset: Asset, from: Account, to: Account, amount: nat) returns (done: bool)
      modifies this`free
      ensures
        match Transfer(old(Balances()), asset, from, to, amount)
        case Some(l) => done && Balances() == l
        case None => !done && Balances() == old(Balances())
    {
      if amount == 0 || from == to {
        return true;
      }
      if At(free, (from, asset)) < amount {
        return false;
      }
      free := free[(from, asset) := At(free, (from, asset)) - amount];
      free := free[(to, asset) := At(free, (to, asset)) + amount];
      return true;
    }

    method SendNative(from: Account, to: Account, amount: nat) returns (done: bool)
      modifies this`free
      ensures
        match PayNative(old(Balances()), config, from, to, amount)
        case Some(l) => done && Balances() == l
        case None => !done && Balances() == old(Balances())
    {
      var p := (from, config.native);
      if amount != 0 && from != to && At(free, p) + At(reserved, p) < amount + config.existential {
        return false;
      }
      done := Send(config.native, from, to, amount);
    }

    method DoAsk(sell: Sell) returns (result: CallResult)
      modifies this
      ensures
        var outcome := Ask(old(View()), sell);
        View() == Commit(old(View()), outcome) && result == ResultOf(outcome)
      ensures old(Valid()) ==> Valid()
    {
      ghost var s := View();
      if sell.amount == 0 || sell.limit == 0 {
        return Err(OrderParametersIsInvalid);
      }
      ordersIndex := ordersIndex + 1;
      var deposit := config.deposit;
      var paid := SendNative(sell.seller, config.treasury, deposit);
      if paid {
        var terms := Terms(sell.release, now, deposit);
        var done := ReserveFunds((sell.seller, sell.base), sell.amount);
        if done {
          sellOrders := sellOrders[ordersIndex := Order(sell.seller, sell.base, sell.quote, sell.amount, sell.limit, terms)];
          result := Ok;
        } else {
          result := Err(BalanceLow);
        }
      } else {
        result := Err(NotEnoughNative);
      }
      AskKeepsValid(s, sell);
    }

    method DoTake(id: OrderId, take: Take) returns (result: CallResult)
      modifies this
      ensures
        var outcome := TakeOrder(old(View()), id, take);
        View() == Commit(old(View()), outcome) && result == ResultOf(outcome)
      ensures old(Valid()) ==> Valid()
    {
      TakeKeepsValid(View(), id, take);
      if take.amount == 0 || take.limit == 0 {
        return Err(TakeParametersIsInvalid);
      }
      if id !in sellOrders {
        return Err(RequestedOrderDoesNotExists);
      }
      var order := sellOrders[id];
      if take.limit < order.limit {
        return Err(TakeLimitDoesNotSatisfiesOrder);
      }
      var priced := PriceError(order.terms.release, order.limit, SaturatingSub(now, order.terms.addedAt));
      if priced.Some? {
        return Err(priced.value);
      }
      if Reservation(take) > MAX_BALANCE {
        return Err(Overflow);
      }
      var done := ReserveFunds((take.taker, order.quote), Reservation(take));
      if !done {
        return Err(BalanceLow);
      }
      takes := takes[id := (if id in takes then takes[id] else []) + [take]];
      return Ok;
    }

    method DoLiquidate(id: OrderId, caller: Account) returns (result: CallResult)
      modifies this
      ensures
        var outcome := Liquidate(old(View()), id, caller);
        View() == Commit(old(View()), outcome) && result == ResultOf(outcome)
      ensures old(Valid()) ==> WellFormed(View()) && (Valid() <==> CoverSurvives(old(View()), id, caller))
    {
      LiquidateKeepsValidIff(View(), id, caller);
      if id !in sellOrders {
        return Err(OrderNotFound);
      }
      var order := sellOrders[id];
      if order.seller != caller {
        return Err(BadOrigin);
      }
      Release((caller, order.base), order.amount);
      var paid := SendNative(config.treasury, order.seller, order.terms.deposit);
      if !paid {
        return Err(BalanceLow);
      }
      sellOrders := sellOrders - {id};
      return Ok;
    }

    method ExchangeReserved(order: Order, taker: Account, fill: nat, charge: nat) returns (done: bool)
      modifies this`free, this`reserved
      ensures
        match Exchange(old(Balances()), order, taker, fill, charge)
        case Some(l) => done && Balances() == l
        case None => !done
    {
      Release((order.seller, order.base), fill);
      Release((taker, order.quote), charge);
      done := Send(order.base, order.seller, taker, fill);
      if done {
        done := Send(order.quote, taker, order.seller, charge);
      }
    }

    /** The loop over one order's takes. `done` is false where the pallet would panic. */
    method SettleOrder(order: Order, sorted: seq<Take>) returns (left: nat, done: bool)
      modifies this`free, this`reserved
      ensures done <==> SettleTo(old(Balances()), order, sorted, |sorted|).Some?
      ensures done ==> Some(Balances()) == SettleTo(old(Balances()), order, sorted, |sorted|)
      ensures done ==> left == Left(order, sorted, |sorted|)
    {
      ghost var l := Balances();
      left := order.amount;
      for i := 0 to |sorted|
        invariant SettleTo(l, order, sorted, i) == Some(Balances())
        invariant left == Left(order, sorted, i)
      {
        left, done := SettleAt(order, sorted, i, left, l);
        if !done {
          NeverRecovers(l, order, sorted, i + 1);
          return;
        }
      }
      done := true;
    }

    /** One pass of the loop. */
    method SettleAt(order: Order, sorted: seq<Take>, i: nat, left: nat, ghost l: Ledger) returns (rest: nat, done: bool)
      requires i < |sorted| && left == Left(order, sorted, i)
      requires SettleTo(l, order, sorted, i) == Some(Balances())
      modifies this`free, this`reserved
      ensures done <==> SettleTo(l, order, sorted, i + 1).Some?
      ensures done ==> SettleTo(l, order, sorted, i + 1) == Some(Balances())
      ensures rest == Left(order, sorted, i + 1)
    {
      SettleToStep(l, order, sorted, i);
      LeftAfter(order, sorted, i);
      done := SettleTake(order, sorted[i], left);
      rest := left - Min(sorted[i].amount, left);
    }

    method SettleTake(order: Order, take: Take, left: nat) returns (done: bool)
      modifies this`free, this`reserved
      ensures
        var r := TakeSettled(old(Balances()), order, take, left);
        (done <==> r.Some?) && (done ==> Some(Balances()) == r)
    {
      var reservation := Quote(take.amount, take.limit);
      if left == 0 {
        NoExchange(Balances(), order, take.taker, reservation);
        Release((take.taker, order.quote), reservation);
        return true;
      }
      var fill := Min(take.amount, left);
      var charge := Quote(fill, take.limit);
      done := ExchangeReserved(order, take.taker, fill, charge);
      if done && charge < reservation {
        Release((take.taker, order.quote), reservation - charge);
      }
    }

    /** Settle one more of a block's live orders. */
    method SettleNextOrder(id: OrderId, ghost s: State, ghost settled: seq<OrderId>) returns (done: bool)
      requires id in Live(s) && id !in Ids(settled)
      requires takes == s.takes && sellOrders == Kept(s, Ids(settled))
      requires SettleAll(s, settled) == Some(Balances())
      modifies this`free, this`reserved, this`sellOrders
      ensures done <==> SettleAll(s, settled + [id]).Some?
      ensures done ==> SettleAll(s, settled + [id]) == Some(Balances())
      ensures done ==> sellOrders == Kept(s, Ids(settled) + {id})
    {
      var order, sorted := sellOrders[id], ByLimit(takes[id]);
      OneMore(settled, id);
      var left: nat;
      left, done := SettleOrder(order, sorted);
      if done {
        SoldOutIff(s, id);
        if left == 0 {
          sellOrders := sellOrders - {id};
        }
      }
    }

    /** Every order with takes is settled, in whatever order storage yields them. `done` is
        false where the pallet would panic, which it never does on covered reservations. */
    method OnFinalize() returns (done: bool)
      modifies this
      ensures done ==> EndOfBlock(old(View()), View())
      ensures !done ==>
        exists ids :: Distinct(ids) && Ids(ids) <= Live(old(View())) && SettleAll(old(View()), ids).None?
      ensures old(Covered(View())) ==> done && Finalized(old(View()), View())
      ensures old(Valid()) && (forall id :: !PartlySold(old(View()), id)) ==> Valid()
    {
      ghost var s := View();
      EndOfCovered(s);
      NothingSettled(s);
      var rest := set id | id in sellOrders && id in takes;
      ghost var settled: seq<OrderId> := [];
      while rest != {}
        invariant rest <= Live(s) && Distinct(settled) && Ids(settled) == Live(s) - rest
        invariant takes == s.takes && ordersIndex == s.index && now == s.now
        invariant sellOrders == Kept(s, Ids(settled)) && SettleAll(s, settled) == Some(Balances())
        decreases rest
      {
        var id :| id in rest;
        OneMore(settled, id);
        done := SettleNextOrder(id, s, settled);
        if !done {
          FailedOrder(s, settled + [id]);
          return;
        }
        settled, rest := settled + [id], rest - {id};
      }
      assert Ids(settled) == Live(s);
      takes := map[];
      done := true;
    }
  }

  /** What the end of a block means where reservations are covered. */
  lemma EndOfCovered(s: State)
    ensures Covered(s) ==> forall t :: EndOfBlock(s, t) ==> Finalized(s, t)
    ensures Covered(s) && WellFormed(s) && (forall id :: !PartlySold(s, id)) ==>
      forall t :: EndOfBlock(s, t) ==> Covered(t) && WellFormed(t)
  {
    if Covered(s) {
      CoveredBlocksEnd(s);
      forall t | EndOfBlock(s, t) && WellFormed(s) && forall id :: !PartlySold(s, id)
        ensures Covered(t) && WellFormed(t)
      {
        FinalizeKeepsCovered(s, t);
        EndKeepsWellFormed(s, t);
      }
    }
  }

  /** Covered reservations never fail. */
  lemma FailedOrder(s: State, ids: seq<OrderId>)
    requires Distinct(ids) && Ids(ids) <= Live(s) && SettleAll(s, ids).None?
    ensures !Covered(s)
  {
    if Covered(s) {
      SettleAllIsExact(s, ids);
    }
  }

  lemma AskKeepsValid(s: State, sell: Sell)
    ensures Covered(s) && WellFormed(s) ==> Covered(Commit(s, Ask(s, sell))) && WellFormed(Commit(s, Ask(s, sell)))
  {
    if Covered(s) && WellFormed(s) {
      AskKeepsCovered(s, sell);
      AskKeepsWellFormed(s, sell);
    }
  }

  lemma TakeKeepsValid(s: State, id: OrderId, take: Take)
    ensures Covered(s) && WellFormed(s) ==>
      Covered(Commit(s, TakeOrder(s, id, take))) && WellFormed(Commit(s, TakeOrder(s, id, take)))
  {
    if Covered(s) && WellFormed(s) {
      TakeKeepsCovered(s, id, take);
      TakeKeepsWellFormed(s, id, take);
    }
  }

  lemma LiquidateKeepsValidIff(s: State, id: OrderId, caller: Account)
    ensures
      var t := Commit(s, Liquidate(s, id, caller));
      Covered(s) && WellFormed(s) ==> WellFormed(t) && (Covered(t) <==> CoverSurvives(s, id, caller))
  {
    if Covered(s) && WellFormed(s) {
      LiquidateKeepsCoveredIff(s, id, caller);
      LiquidateKeepsWellFormed(s, id, caller);
    }
  }

  /** One pass of the loop with this much left to sell. */
  ghost function TakeSettled(l: Ledger, order: Order, take: Take, left: nat): Option<Ledger> {
    var fill := Min(take.amount, left);
    SettleOne(l, order, take.taker, fill, Quote(fill, take.limit), Reservation(take))
  }

  lemma SettleToStep(l: Ledger, order: Order, takes: seq<Take>, i: nat)
    requires i < |takes| && SettleTo(l, order, takes, i).Some?
    ensures SettleTo(l, order, takes, i + 1) == TakeSettled(SettleTo(l, order, takes, i).value, order, takes[i], Left(order, takes, i))
  {
  }

  lemma FailureStays(l: Ledger, order: Order, takes: seq<Take>, n: nat)
    requires n < |takes| && SettleTo(l, order, takes, n).None?
    ensures SettleTo(l, order, takes, n + 1).None?
  {
  }

  /** A failed settlement stays failed. */
  lemma {:induction false} NeverRecovers(l: Ledger, order: Order, takes: seq<Take>, m: nat)
    requires m <= |takes| && SettleTo(l, order, takes, m).None?
    ensures SettleTo(l, order, takes, |takes|).None?
    decreases |takes| - m
  {
    if m < |takes| {
      FailureStays(l, order, takes, m);
      NeverRecovers(l, order, takes, m + 1);
    }
  }

  /** Freeing a reservation is an exchange of nothing. */
  lemma NoExchange(l: Ledger, order: Order, taker: Account, reservation: nat)
    ensures SettleOne(l, order, taker, 0, 0, reservation) == Some(Unreserve(l, (taker, order.quote), reservation))
  {
  }

  lemma SoldOutIff(s: State, id: OrderId)
    requires id in Live(s)
    ensures
      var sorted := ByLimit(s.takes[id]);
      SoldOut(s, id) <==> Left(s.orders[id], sorted, |sorted|) == 0
  {
    AskedSorted(s.takes[id]);
  }
}
