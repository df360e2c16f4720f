/** Orders and takes over a block: what is reserved for them, and what settling every live
    order leaves. */
module DutchAuctionBlock {
  import opened Amounts
  import opened FiniteSums
  import opened DutchAuction

  /** The native asset, the account that keeps order deposits, the balance below which an
      account is not kept alive, and the deposit for an order. */
  datatype Config = Config(native: Asset, treasury: Account, existential: nat, deposit: nat)

  datatype State = State(
    config: Config,
    orders: map<OrderId, Order>,
    index: OrderId,
    takes: map<OrderId, seq<Take>>,
    ledger: Ledger,
    now: nat)

  datatype Error =
    | OrderParametersIsInvalid | TakeParametersIsInvalid | RequestedOrderDoesNotExists
    | TakeLimitDoesNotSatisfiesOrder | OrderNotFound | NotEnoughNative | BadOrigin
    | Overflow | DivisionByZero | BalanceLow

  /** A call may report an error after it has written to storage. */
  datatype Outcome = Done(state: State) | Failed(error: Error) | LeftBehind(state: State, error: Error)

  function Commit(s: State, o: Outcome): State {
    if o.Failed? then s else o.state
  }

  function TakesOf(s: State, id: OrderId): seq<Take> {
    if id in s.takes then s.takes[id] else []
  }

  // ---------- calls ----------

  /** A native transfer that keeps the payer alive. */
  function PayNative(l: Ledger, config: Config, from: Account, to: Account, amount: nat): Option<Ledger> {
    var p := (from, config.native);
    if amount != 0 && from != to && At(l.free, p) + At(l.reserved, p) < amount + config.existential then None
    else Transfer(l, config.native, from, to, amount)
  }

  /** What a seller asks for; the order adds what the pallet knows. */
  datatype Sell = Sell(seller: Account, base: Asset, quote: Asset, amount: nat, limit: nat, release: Release)

  function OrderOf(s: State, sell: Sell): Order {
    Order(sell.seller, sell.base, sell.quote, sell.amount, sell.limit, Terms(sell.release, s.now, s.config.deposit))
  }

  /** The order is stored last; what came before is not rolled back. */
  function Ask(s: State, sell: Sell): (o: Outcome)
    ensures o.Done? ==>
      o.state == s.(orders := s.orders[s.index + 1 := OrderOf(s, sell)], index := s.index + 1, ledger := o.state.ledger)
    ensures o.LeftBehind? ==> o.state == s.(index := s.index + 1, ledger := o.state.ledger)
  {
    if sell.amount == 0 || sell.limit == 0 then Failed(OrderParametersIsInvalid)
    else
      var counted := s.(index := s.index + 1);
      match PayNative(s.ledger, s.config, sell.seller, s.config.treasury, s.config.deposit)
      case None => LeftBehind(counted, NotEnoughNative)
      case Some(paid) =>
        match Reserve(paid, (sell.seller, sell.base), sell.amount)
        case None => LeftBehind(counted.(ledger := paid), BalanceLow)
        case Some(l) => Done(counted.(orders := s.orders[s.index + 1 := OrderOf(s, sell)], ledger := l))
  }

  /** Whether the asking price can be computed; the price itself is not used. */
  function PriceError(release: Release, limit: nat, passed: nat): Option<Error> {
    match release
    case LinearDecrease(total) =>
      if passed < total && limit * (total - passed) > MAX_BALANCE then Some(Overflow) else None
    case StairstepDecrease(step) => if step == 0 then Some(DivisionByZero) else None
  }

  function TakeOrder(s: State, id: OrderId, take: Take): (o: Outcome)
    ensures !o.LeftBehind?
    ensures o.Done? ==> o.state == s.(takes := s.takes[id := TakesOf(s, id) + [take]], ledger := o.state.ledger)
  {
    if take.amount == 0 || take.limit == 0 then Failed(TakeParametersIsInvalid)
    else if id !in s.orders then Failed(RequestedOrderDoesNotExists)
    else if take.limit < s.orders[id].limit then Failed(TakeLimitDoesNotSatisfiesOrder)
    else
      var order := s.orders[id];
      match PriceError(order.terms.release, order.limit, SaturatingSub(s.now, order.terms.addedAt))
      case Some(error) => Failed(error)
      case None =>
        if Reservation(take) > MAX_BALANCE then Failed(Overflow)
        else
          match Reserve(s.ledger, (take.taker, order.quote), Reservation(take))
          case None => Failed(BalanceLow)
          case Some(l) => Done(s.(takes := s.takes[id := TakesOf(s, id) + [take]], ledger := l))
  }

  /** The reservation is released before the deposit is paid back, and not taken again if
      the treasury cannot pay. */
  function Liquidate(s: State, id: OrderId, caller: Account): (o: Outcome)
    ensures o.Done? ==> o.state == s.(orders := s.orders - {id}, ledger := o.state.ledger)
    ensures o.LeftBehind? ==> o.state == s.(ledger := o.state.ledger)
  {
    if id !in s.orders then Failed(OrderNotFound)
    else if s.orders[id].seller != caller then Failed(BadOrigin)
    else
      var order := s.orders[id];
      var released := Unreserve(s.ledger, (caller, order.base), order.amount);
      match PayNative(released, s.config, s.config.treasury, caller, order.terms.deposit)
      case None => LeftBehind(s.(ledger := released), BalanceLow)
      case Some(l) => Done(s.(orders := s.orders - {id}, ledger := l))
  }

  // ---------- what single calls do, in numbers ----------

  /** An ask is taken exactly when it sells something for something, its seller can pay the
      deposit and stay alive, and has then what it wants to sell. */
  lemma AskSucceedsIff(s: State, sell: Sell)
    ensures
      var native, keeper := (sell.seller, s.config.native), s.config.treasury;
      var paid := if sell.seller == keeper then 0 else s.config.deposit;
      Ask(s, sell).Done? <==>
        && sell.amount > 0 && sell.limit > 0
        && (paid > 0 ==> At(s.ledger.free, native) + At(s.ledger.reserved, native) >= paid + s.config.existential)
        && paid <= At(s.ledger.free, native)
        && sell.amount + (if sell.base == s.config.native then paid else 0) <= At(s.ledger.free, (sell.seller, sell.base))
  {
  }

  /** What is asked for is what is stored and reserved, and the deposit goes to the treasury. */
  lemma AskIsStored(s: State, sell: Sell)
    requires Ask(s, sell).Done?
    ensures
      var t, id := Ask(s, sell).state, s.index + 1;
      && id in t.orders && t.index == id && t.takes == s.takes
      && t.orders[id].seller == sell.seller && t.orders[id].amount == sell.amount && t.orders[id].limit == sell.limit
      && t.orders[id].base == sell.base && t.orders[id].quote == sell.quote
      && t.orders[id].terms == Terms(sell.release, s.now, s.config.deposit)
      && (forall p: Purse ::
           && At(t.ledger.reserved, p) == At(s.ledger.reserved, p) + (if p == (sell.seller, sell.base) then sell.amount else 0)
           && At(t.ledger.free, p) == At(s.ledger.free, p)
                - (if p == (sell.seller, sell.base) then sell.amount else 0)
                - (if p == (sell.seller, s.config.native) then s.config.deposit else 0)
                + (if p == (s.config.treasury, s.config.native) then s.config.deposit else 0))
  {
  }

  /** A take is taken exactly when it asks for something of an order at its limit or above,
      the asking price can be computed, and the taker has what it may have to pay. */
  lemma TakeSucceedsIff(s: State, id: OrderId, take: Take)
    ensures TakeOrder(s, id, take).Done? <==>
      && take.amount > 0 && take.limit > 0
      && id in s.orders
      && s.orders[id].limit <= take.limit
      && (match s.orders[id].terms.release
          case LinearDecrease(total) =>
            s.orders[id].limit * (total - SaturatingSub(s.now, s.orders[id].terms.addedAt)) <= MAX_BALANCE
          case StairstepDecrease(step) => step > 0)
      && Reservation(take) <= MAX_BALANCE
      && Reservation(take) <= At(s.ledger.free, (take.taker, s.orders[id].quote))
  {
  }

  /** And reserves exactly that. */
  lemma TakeReserves(s: State, id: OrderId, take: Take, p: Purse)
    requires TakeOrder(s, id, take).Done?
    ensures
      var t := TakeOrder(s, id, take).state;
      var reserved := if p == (take.taker, s.orders[id].quote) then Reservation(take) else 0;
      && At(t.ledger.reserved, p) == At(s.ledger.reserved, p) + reserved
      && At(t.ledger.free, p) == At(s.ledger.free, p) - reserved
      && Reservation(take) * DIV <= take.amount * take.limit < (Reservation(take) + 1) * DIV
      && TakesOf(t, id) == TakesOf(s, id) + [take]
  {
    QuoteBounds(take.amount, take.limit);
  }

  /** A liquidation gives the seller back what its order has reserved, and its deposit. */
  lemma LiquidationReturns(s: State, id: OrderId, p: Purse)
    requires id in s.orders && Liquidate(s, id, s.orders[id].seller).Done?
    requires s.orders[id].amount <= At(s.ledger.reserved, (s.orders[id].seller, s.orders[id].base))
    ensures
      var order, t := s.orders[id], Liquidate(s, id, s.orders[id].seller).state;
      var released := if p == (order.seller, order.base) then order.amount else 0;
      && id !in t.orders
      && At(t.ledger.reserved, p) == At(s.ledger.reserved, p) - released
      && At(t.ledger.free, p) == At(s.ledger.free, p) + released
           + (if p == (order.seller, s.config.native) then order.terms.deposit else 0)
           - (if p == (s.config.treasury, s.config.native) then order.terms.deposit else 0)
  {
    var order := s.orders[id];
    var released := Unreserve(s.ledger, (order.seller, order.base), order.amount);
    UnreserveIs(s.ledger, (order.seller, order.base), order.amount, p);
  }

  // ---------- what is reserved ----------

  /** What an order and the takes waiting for it have reserved in a purse. */
  function OwedIn(s: State, id: OrderId, p: Purse): nat {
    if id in s.orders then Owed(s.orders[id], TakesOf(s, id), p) else 0
  }

  ghost function OwedAll(s: State, p: Purse): int {
    Sum(s.orders.Keys, (id: OrderId) => OwedIn(s, id, p))
  }

  /** Reserved balances cover all orders and takes. */
  ghost predicate Covered(s: State) {
    forall p: Purse {:trigger At(s.ledger.reserved, p)} :: OwedAll(s, p) <= At(s.ledger.reserved, p)
  }

  ghost predicate Acceptable(order: Order, takes: seq<Take>) {
    forall i :: 0 <= i < |takes| ==> order.limit <= takes[i].limit
  }

  /** Ids come from the counter, and every take meets the limit of its order. */
  ghost predicate WellFormed(s: State) {
    && (forall id :: id in s.orders || id in s.takes ==> id <= s.index)
    && (forall id :: id in s.orders ==> Acceptable(s.orders[id], TakesOf(s, id)))
  }

  lemma {:induction false} ReservationsOfPrefix(order: Order, takes: seq<Take>, take: Take, n: nat, p: Purse)
    requires n <= |takes|
    ensures Reservations(order, takes + [take], n, p) == Reservations(order, takes, n, p)
  {
    if n > 0 {
      ReservationsOfPrefix(order, takes, take, n - 1, p);
    }
  }

  lemma OwedOneMore(order: Order, takes: seq<Take>, take: Take, p: Purse)
    ensures Owed(order, takes + [take], p) == Owed(order, takes, p) + if p == (take.taker, order.quote) then Reservation(take) else 0
  {
    ReservationsOfPrefix(order, takes, take, |takes|, p);
  }

  /** What is reserved in a purse beyond what orders and takes have reserved there. */
  ghost function Surplus(s: State, p: Purse): int {
    At(s.ledger.reserved, p) - OwedAll(s, p)
  }

  lemma CoveredIs(s: State)
    ensures Covered(s) <==> forall p: Purse {:trigger Surplus(s, p)} :: Surplus(s, p) >= 0
  {
    if forall p: Purse {:trigger Surplus(s, p)} :: Surplus(s, p) >= 0 {
      forall p: Purse
        ensures OwedAll(s, p) <= At(s.ledger.reserved, p)
      {
        assert Surplus(s, p) >= 0;
      }
    } else {
      var p: Purse :| Surplus(s, p) < 0;
      assert OwedAll(s, p) > At(s.ledger.reserved, p);
    }
  }

  lemma SameOwed(s: State, t: State, p: Purse)
    requires t.orders == s.orders && t.takes == s.takes
    ensures OwedAll(t, p) == OwedAll(s, p)
  {
    SumEqual(s.orders.Keys, (j: OrderId) => OwedIn(s, j, p), (j: OrderId) => OwedIn(t, j, p));
  }

  lemma AskOwes(s: State, t: State, id: OrderId, order: Order, p: Purse)
    requires id !in s.orders && id !in s.takes
    requires t.orders == s.orders[id := order] && t.takes == s.takes
    ensures OwedAll(t, p) == OwedAll(s, p) + if p == (order.seller, order.base) then order.amount else 0
  {
    assert t.orders.Keys == s.orders.Keys + {id};
    SumChange(s.orders.Keys, (j: OrderId) => OwedIn(s, j, p), (j: OrderId) => OwedIn(t, j, p), id);
  }

  /** An ask reserves exactly what the order owes, or nothing. */
  lemma AskKeepsSurplus(s: State, sell: Sell, p: Purse)
    requires WellFormed(s)
    ensures Surplus(Commit(s, Ask(s, sell)), p) == Surplus(s, p)
  {
    var o := Ask(s, sell);
    if o.LeftBehind? {
      SameOwed(s, o.state, p);
    } else if o.Done? {
      AskOwes(s, o.state, s.index + 1, OrderOf(s, sell), p);
    }
  }

  lemma AskKeepsCovered(s: State, sell: Sell)
    requires Covered(s) && WellFormed(s)
    ensures Covered(Commit(s, Ask(s, sell)))
  {
    var t := Commit(s, Ask(s, sell));
    forall p: Purse
      ensures OwedAll(t, p) <= At(t.ledger.reserved, p)
    {
      AskKeepsSurplus(s, sell, p);
      assert OwedAll(s, p) <= At(s.ledger.reserved, p);
    }
  }

  lemma TakeOwes(s: State, t: State, id: OrderId, take: Take, p: Purse)
    requires id in s.orders && t.orders == s.orders && t.takes == s.takes[id := TakesOf(s, id) + [take]]
    ensures OwedAll(t, p) == OwedAll(s, p) + if p == (take.taker, s.orders[id].quote) then Reservation(take) else 0
  {
    OwedOneMore(s.orders[id], TakesOf(s, id), take, p);
    assert t.orders.Keys == s.orders.Keys + {id};
    SumChange(s.orders.Keys, (j: OrderId) => OwedIn(s, j, p), (j: OrderId) => OwedIn(t, j, p), id);
  }

  /** A take reserves exactly what it may have to pay, or nothing. */
  lemma TakeKeepsSurplus(s: State, id: OrderId, take: Take, p: Purse)
    ensures Surplus(Commit(s, TakeOrder(s, id, take)), p) == Surplus(s, p)
  {
    var o := TakeOrder(s, id, take);
    if o.Done? {
      TakeOwes(s, o.state, id, take, p);
    }
  }

  lemma TakeKeepsCovered(s: State, id: OrderId, take: Take)
    requires Covered(s)
    ensures Covered(Commit(s, TakeOrder(s, id, take)))
  {
    var t := Commit(s, TakeOrder(s, id, take));
    forall p: Purse
      ensures OwedAll(t, p) <= At(t.ledger.reserved, p)
    {
      TakeKeepsSurplus(s, id, take, p);
      assert OwedAll(s, p) <= At(s.ledger.reserved, p);
    }
  }

  lemma LiquidateOwes(s: State, t: State, id: OrderId, p: Purse)
    requires id in s.orders && t.orders == s.orders - {id} && t.takes == s.takes
    ensures OwedAll(t, p) == OwedAll(s, p) - OwedIn(s, id, p)
  {
    SumRemove(s.orders.Keys, (j: OrderId) => OwedIn(s, j, p), id);
    assert t.orders.Keys == s.orders.Keys - {id};
    SumEqual(t.orders.Keys, (j: OrderId) => OwedIn(s, j, p), (j: OrderId) => OwedIn(t, j, p));
  }

  /** What an order's own reservation holds is there to be released. */
  lemma OrderIsReserved(s: State, id: OrderId)
    requires Covered(s) && id in s.orders
    ensures s.orders[id].amount <= At(s.ledger.reserved, (s.orders[id].seller, s.orders[id].base))
  {
    var p := (s.orders[id].seller, s.orders[id].base);
    SumTerm(s.orders.Keys, (j: OrderId) => OwedIn(s, j, p), id);
    assert OwedAll(s, p) <= At(s.ledger.reserved, p);
  }

  /** What the takes of one order have reserved in a purse. */
  function ReservedBy(s: State, id: OrderId, p: Purse): nat
    requires id in s.orders
  {
    Reservations(s.orders[id], TakesOf(s, id), |TakesOf(s, id)|, p)
  }

  /** A liquidation that is done leaves what takers reserved for the order without anything
      owing it; one that is left behind releases the order's reservation and keeps the order. */
  lemma LiquidateSurplus(s: State, id: OrderId, caller: Account, p: Purse)
    requires Covered(s) && id in s.orders
    ensures
      var o, order := Liquidate(s, id, caller), s.orders[id];
      Surplus(Commit(s, o), p) == Surplus(s, p)
        + (if o.Done? then ReservedBy(s, id, p) else 0)
        - if o.LeftBehind? && p == (order.seller, order.base) then order.amount else 0
  {
    var o, order := Liquidate(s, id, caller), s.orders[id];
    OrderIsReserved(s, id);
    UnreserveIs(s.ledger, (order.seller, order.base), order.amount, p);
    if o.Done? {
      LiquidateOwes(s, o.state, id, p);
    } else if o.LeftBehind? {
      SameOwed(s, o.state, p);
    }
  }

  /** The treasury can pay an order's deposit back, once its reservation is released. */
  predicate DepositReturns(s: State, id: OrderId)
    requires id in s.orders
  {
    var order := s.orders[id];
    var released := Unreserve(s.ledger, (order.seller, order.base), order.amount);
    PayNative(released, s.config, s.config.treasury, order.seller, order.terms.deposit).Some?
  }

  /** The liquidation is refused at once, or the treasury can pay the deposit back, or the
      reservation it releases was not needed. */
  ghost predicate CoverSurvives(s: State, id: OrderId, caller: Account) {
    || id !in s.orders
    || s.orders[id].seller != caller
    || DepositReturns(s, id)
    || s.orders[id].amount <= Surplus(s, (s.orders[id].seller, s.orders[id].base))
  }

  /** A liquidation keeps orders and takes covered exactly then. */
  lemma LiquidateKeepsCoveredIff(s: State, id: OrderId, caller: Account)
    requires Covered(s)
    ensures Covered(Commit(s, Liquidate(s, id, caller))) <==> CoverSurvives(s, id, caller)
  {
    var o := Liquidate(s, id, caller);
    var t := Commit(s, o);
    CoveredIs(s);
    CoveredIs(t);
    if id in s.orders && s.orders[id].seller == caller {
      var order := s.orders[id];
      var q := (order.seller, order.base);
      forall p: Purse
        ensures Surplus(t, p) == Surplus(s, p)
          + (if o.Done? then ReservedBy(s, id, p) else 0) - (if o.LeftBehind? && p == q then order.amount else 0)
      {
        LiquidateSurplus(s, id, caller, p);
      }
      assert Surplus(t, q) == Surplus(s, q)
        + (if o.Done? then ReservedBy(s, id, q) else 0) - (if o.LeftBehind? then order.amount else 0);
    }
  }

  lemma AskKeepsWellFormed(s: State, sell: Sell)
    requires WellFormed(s)
    ensures WellFormed(Commit(s, Ask(s, sell)))
  {
    var t := Commit(s, Ask(s, sell));
    forall id | id in t.orders
      ensures Acceptable(t.orders[id], TakesOf(t, id))
    {
      assert id in s.orders ==> Acceptable(s.orders[id], TakesOf(s, id));
    }
  }

  lemma TakeKeepsWellFormed(s: State, id: OrderId, take: Take)
    requires WellFormed(s)
    ensures WellFormed(Commit(s, TakeOrder(s, id, take)))
  {
    var t := Commit(s, TakeOrder(s, id, take));
    forall j | j in t.orders
      ensures Acceptable(t.orders[j], TakesOf(t, j))
    {
      assert Acceptable(s.orders[j], TakesOf(s, j));
    }
  }

  lemma LiquidateKeepsWellFormed(s: State, id: OrderId, caller: Account)
    requires WellFormed(s)
    ensures WellFormed(Commit(s, Liquidate(s, id, caller)))
  {
    var t := Commit(s, Liquidate(s, id, caller));
    forall j | j in t.orders
      ensures Acceptable(t.orders[j], TakesOf(t, j))
    {
      assert Acceptable(s.orders[j], TakesOf(s, j));
    }
  }

  // ---------- the sort does not change what is owed ----------

  function Weigh(takes: seq<Take>, weight: Take -> nat): nat {
    if takes == [] then 0 else weight(takes[0]) + Weigh(takes[1..], weight)
  }

  lemma {:induction false} WeighAppend(takes: seq<Take>, take: Take, weight: Take -> nat)
    ensures Weigh(takes + [take], weight) == Weigh(takes, weight) + weight(take)
  {
    if takes != [] {
      assert (takes + [take])[1..] == takes[1..] + [take];
      WeighAppend(takes[1..], take, weight);
    }
  }

  lemma {:induction false} WeighInsert(take: Take, sorted: seq<Take>, weight: Take -> nat)
    ensures Weigh(Insert(take, sorted), weight) == weight(take) + Weigh(sorted, weight)
  {
    if sorted == [] || take.limit >= sorted[0].limit {
      assert ([take] + sorted)[1..] == sorted;
    } else {
      WeighInsert(take, sorted[1..], weight);
      assert ([sorted[0]] + Insert(take, sorted[1..]))[1..] == Insert(take, sorted[1..]);
    }
  }

  lemma {:induction false} WeighSorted(takes: seq<Take>, weight: Take -> nat)
    ensures Weigh(ByLimit(takes), weight) == Weigh(takes, weight)
  {
    if takes != [] {
      WeighSorted(takes[1..], weight);
      WeighInsert(takes[0], ByLimit(takes[1..]), weight);
    }
  }

  lemma {:induction false} AskedWeighs(takes: seq<Take>, n: nat)
    requires n <= |takes|
    ensures Asked(takes, n) == Weigh(takes[..n], (t: Take) => t.amount)
  {
    if n > 0 {
      AskedWeighs(takes, n - 1);
      WeighAppend(takes[..n - 1], takes[n - 1], (t: Take) => t.amount);
      assert takes[..n] == takes[..n - 1] + [takes[n - 1]];
    }
  }

  lemma {:induction false} ReservationsWeigh(order: Order, takes: seq<Take>, n: nat, p: Purse, weight: Take -> nat)
    requires n <= |takes|
    requires forall t: Take :: weight(t) == if p == (t.taker, order.quote) then Reservation(t) else 0
    ensures Reservations(order, takes, n, p) == Weigh(takes[..n], weight)
  {
    if n > 0 {
      ReservationsWeigh(order, takes, n - 1, p, weight);
      WeighAppend(takes[..n - 1], takes[n - 1], weight);
      assert takes[..n] == takes[..n - 1] + [takes[n - 1]];
    }
  }

  lemma AskedSorted(takes: seq<Take>)
    ensures Asked(ByLimit(takes), |ByLimit(takes)|) == Asked(takes, |takes|)
  {
    var sorted := ByLimit(takes);
    AskedWeighs(takes, |takes|);
    AskedWeighs(sorted, |sorted|);
    WeighSorted(takes, (t: Take) => t.amount);
    assert takes[..|takes|] == takes && sorted[..|sorted|] == sorted;
  }

  lemma ReservationsSorted(order: Order, takes: seq<Take>, p: Purse)
    ensures Reservations(order, ByLimit(takes), |ByLimit(takes)|, p) == Reservations(order, takes, |takes|, p)
  {
    var sorted := ByLimit(takes);
    var weight: Take -> nat := (t: Take) => if p == (t.taker, order.quote) then Reservation(t) else 0;
    ReservationsWeigh(order, takes, |takes|, p, weight);
    ReservationsWeigh(order, sorted, |sorted|, p, weight);
    WeighSorted(takes, weight);
    assert takes[..|takes|] == takes && sorted[..|sorted|] == sorted;
  }

  /** Settling an order frees what its takers reserved, and of the seller's what is sold. */
  lemma LossOfOrder(order: Order, takes: seq<Take>, p: Purse)
    ensures Loss(order, ByLimit(takes), |ByLimit(takes)|, p)
      == Owed(order, takes, p) - if p == (order.seller, order.base) then order.amount - Sold(order, takes) else 0
  {
    LossIs(order, ByLimit(takes), |ByLimit(takes)|, p);
    AskedSorted(takes);
    ReservationsSorted(order, takes, p);
  }

  // ---------- the end of a block ----------

  function Live(s: State): set<OrderId> {
    set id | id in s.orders && id in s.takes
  }

  function SoldIn(s: State, id: OrderId): nat {
    if id in s.orders then Sold(s.orders[id], TakesOf(s, id)) else 0
  }

  ghost predicate SoldOut(s: State, id: OrderId) {
    id in Live(s) && SoldIn(s, id) == s.orders[id].amount
  }

  ghost function GainIn(s: State, id: OrderId, p: Purse): int {
    if id in s.orders then
      var takes := ByLimit(TakesOf(s, id));
      Gain(s.orders[id], takes, |takes|, p)
    else 0
  }

  ghost function LossIn(s: State, id: OrderId, p: Purse): int {
    if id in s.orders then
      var takes := ByLimit(TakesOf(s, id));
      Loss(s.orders[id], takes, |takes|, p)
    else 0
  }

  /** A ledger after settling some orders, balance by balance: the order of settlement does
      not matter. */
  ghost predicate MovedByAll(s: State, l: Ledger, ids: set<OrderId>) {
    && (forall p: Purse {:trigger At(l.free, p)} ::
          At(l.free, p) == At(s.ledger.free, p) + Sum(ids, (id: OrderId) => GainIn(s, id, p)))
    && (forall p: Purse {:trigger At(l.reserved, p)} ::
          At(l.reserved, p) == At(s.ledger.reserved, p) - Sum(ids, (id: OrderId) => LossIn(s, id, p)))
  }

  lemma LossWithinOwed(s: State, id: OrderId, p: Purse)
    ensures 0 <= LossIn(s, id, p) <= OwedIn(s, id, p)
  {
    if id in s.orders {
      LossOfOrder(s.orders[id], TakesOf(s, id), p);
    }
  }

  /** What is still reserved covers the next order to settle. */
  lemma NextIsCovered(s: State, l: Ledger, done: set<OrderId>, id: OrderId)
    requires Covered(s) && MovedByAll(s, l, done) && done <= s.orders.Keys && id in s.orders && id !in done
    ensures Covers(l, s.orders[id], ByLimit(TakesOf(s, id)))
  {
    forall p: Purse {:trigger At(l.reserved, p)}
      ensures LossIn(s, id, p) <= At(l.reserved, p)
    {
      assert OwedAll(s, p) <= At(s.ledger.reserved, p);
      LossesWithin(s, done + {id}, p);
      SumRemove(done + {id}, (j: OrderId) => LossIn(s, j, p), id);
      assert done + {id} - {id} == done;
    }
  }

  lemma LossesWithin(s: State, ids: set<OrderId>, p: Purse)
    requires ids <= s.orders.Keys
    ensures Sum(ids, (j: OrderId) => LossIn(s, j, p)) <= OwedAll(s, p)
  {
    forall j
      ensures 0 <= LossIn(s, j, p) <= OwedIn(s, j, p)
    {
      LossWithinOwed(s, j, p);
    }
    SumAtMost(ids, (j: OrderId) => LossIn(s, j, p), (j: OrderId) => OwedIn(s, j, p));
    SumWithin(ids, s.orders.Keys, (j: OrderId) => OwedIn(s, j, p));
  }

  lemma SettleNext(s: State, l: Ledger, l1: Ledger, done: set<OrderId>, id: OrderId)
    requires MovedByAll(s, l, done) && id in s.orders && id !in done
    requires MovedBy(l, l1, s.orders[id], ByLimit(TakesOf(s, id)), |ByLimit(TakesOf(s, id))|)
    ensures MovedByAll(s, l1, done + {id})
  {
    forall p: Purse
      ensures At(l1.free, p) == At(s.ledger.free, p) + Sum(done + {id}, (j: OrderId) => GainIn(s, j, p))
      ensures At(l1.reserved, p) == At(s.ledger.reserved, p) - Sum(done + {id}, (j: OrderId) => LossIn(s, j, p))
    {
      SumRemove(done + {id}, (j: OrderId) => GainIn(s, j, p), id);
      SumRemove(done + {id}, (j: OrderId) => LossIn(s, j, p), id);
      assert done + {id} - {id} == done;
      assert At(l1.free, p) == At(l.free, p) + GainIn(s, id, p);
      assert At(l1.reserved, p) == At(l.reserved, p) - LossIn(s, id, p);
    }
  }

  /** The state at the end of a block: every live order is settled, sold-out orders and all
      takes are gone, and other orders are as they were. */
  ghost predicate Finalized(s: State, t: State) {
    && MovedByAll(s, t.ledger, Live(s))
    && t.takes == map[] && t.index == s.index && t.config == s.config && t.now == s.now
    && t.orders == (map id | id in s.orders && !SoldOut(s, id) :: s.orders[id])
  }

  lemma SortedIsAcceptable(order: Order, takes: seq<Take>)
    requires Acceptable(order, takes)
    ensures Acceptable(order, ByLimit(takes))
  {
    ByLimitSorts(takes);
    forall i | 0 <= i < |ByLimit(takes)|
      ensures order.limit <= ByLimit(takes)[i].limit
    {
      assert ByLimit(takes)[i] in multiset(takes);
    }
  }

  /** Every order of a block sells the smaller of what it offers and what is asked for, each
      part at the limit of its own taker and so at the order's limit or better, up to one
      unit of quote per take. */
  lemma OrderIsServed(s: State, id: OrderId)
    requires WellFormed(s) && id in s.orders
    ensures
      var order, takes := s.orders[id], ByLimit(TakesOf(s, id));
      && Fills(order, takes, |takes|) == SoldIn(s, id) == Min(order.amount, Asked(TakesOf(s, id), |TakesOf(s, id)|))
      && Revenue(order, takes, |takes|) * DIV <= Worth(order, takes, |takes|) <= (Revenue(order, takes, |takes|) + |takes|) * DIV
      && SoldIn(s, id) * order.limit <= (Revenue(order, takes, |takes|) + |takes|) * DIV
  {
    var order, takes := s.orders[id], ByLimit(TakesOf(s, id));
    SortedIsAcceptable(order, TakesOf(s, id));
    AskedSorted(TakesOf(s, id));
    FillsAddUp(order, takes, |takes|);
    SellerGetsItsPrice(order, takes, |takes|);
    RevenueIsWorth(order, takes, |takes|);
  }

  // ---------- from block to block ----------

  /** Settlement does not write back what is left of an order: what was sold of an order that
      is kept still counts as on offer. */
  ghost predicate PartlySold(s: State, id: OrderId) {
    id in s.orders && 0 < SoldIn(s, id) < s.orders[id].amount
  }

  ghost function OverhangIn(s: State, id: OrderId, p: Purse): nat {
    if PartlySold(s, id) && p == (s.orders[id].seller, s.orders[id].base) then SoldIn(s, id) else 0
  }

  ghost function Overhang(s: State, p: Purse): int {
    Sum(s.orders.Keys, (id: OrderId) => OverhangIn(s, id, p))
  }

  lemma OwedNext(s: State, t: State, id: OrderId, p: Purse)
    requires Finalized(s, t) && id in s.orders
    ensures OwedIn(t, id, p) + LossIn(s, id, p) == OwedIn(s, id, p) + OverhangIn(s, id, p)
  {
    LossOfOrder(s.orders[id], TakesOf(s, id), p);
    assert TakesOf(t, id) == [];
  }

  lemma NoLossWithoutTakes(s: State, id: OrderId, p: Purse)
    requires id !in s.takes
    ensures LossIn(s, id, p) == 0
  {
    assert TakesOf(s, id) == [];
  }

  /** Keys that weigh nothing can be left out of a sum. */
  lemma SumOverMore(keys: set<OrderId>, all: set<OrderId>, f: OrderId -> int)
    requires keys <= all && forall k :: 0 <= f(k)
    requires forall k :: k in all && k !in keys ==> f(k) == 0
    ensures Sum(keys, f) == Sum(all, f)
  {
    SumWithin(keys, all, f);
    SumWithin(all, keys, f);
  }

  lemma LossesOfLive(s: State, p: Purse)
    ensures Sum(Live(s), (id: OrderId) => LossIn(s, id, p)) == Sum(s.orders.Keys, (id: OrderId) => LossIn(s, id, p))
  {
    forall id
      ensures 0 <= LossIn(s, id, p)
      ensures id !in s.takes ==> LossIn(s, id, p) == 0
    {
      LossWithinOwed(s, id, p);
      if id !in s.takes {
        NoLossWithoutTakes(s, id, p);
      }
    }
    SumOverMore(Live(s), s.orders.Keys, (id: OrderId) => LossIn(s, id, p));
  }

  /** The end of a block takes from the surplus of every reservation exactly what was sold of
      the orders that are kept. */
  lemma FinalizeSurplus(s: State, t: State, p: Purse)
    requires Finalized(s, t)
    ensures At(t.ledger.reserved, p) - OwedAll(t, p) == At(s.ledger.reserved, p) - OwedAll(s, p) - Overhang(s, p)
  {
    LossesOfLive(s, p);
    SumOverMore(t.orders.Keys, s.orders.Keys, (id: OrderId) => OwedIn(t, id, p));
    forall id | id in s.orders
      ensures OwedIn(t, id, p) + LossIn(s, id, p) == OwedIn(s, id, p) + OverhangIn(s, id, p)
    {
      OwedNext(s, t, id, p);
    }
    var total := (id: OrderId) => OwedIn(s, id, p) + OverhangIn(s, id, p);
    SumPlus(s.orders.Keys, (id: OrderId) => OwedIn(s, id, p), (id: OrderId) => OverhangIn(s, id, p), total);
    SumPlus(s.orders.Keys, (id: OrderId) => OwedIn(t, id, p), (id: OrderId) => LossIn(s, id, p), total);
  }

  lemma OverhangIff(s: State)
    ensures (forall id :: !PartlySold(s, id)) <==> (forall p :: Overhang(s, p) == 0)
  {
    if id :| PartlySold(s, id) {
      var p := (s.orders[id].seller, s.orders[id].base);
      SumTerm(s.orders.Keys, (j: OrderId) => OverhangIn(s, j, p), id);
      assert Overhang(s, p) > 0;
    } else {
      forall p
        ensures Overhang(s, p) == 0
      {
        SumZero(s.orders.Keys, (j: OrderId) => OverhangIn(s, j, p));
      }
    }
  }

  /** Reservations still cover the orders after the block exactly where the surplus covers
      what was sold of orders that are kept. */
  lemma CoverSurvivesIff(s: State, t: State)
    requires Finalized(s, t)
    ensures Covered(t) <==> forall p: Purse {:trigger Surplus(s, p)} :: Overhang(s, p) <= Surplus(s, p)
  {
    CoveredIs(t);
    forall p: Purse
      ensures Surplus(t, p) == Surplus(s, p) - Overhang(s, p)
    {
      FinalizeSurplus(s, t, p);
    }
    if Covered(t) {
      forall p: Purse
        ensures Overhang(s, p) <= Surplus(s, p)
      {
        assert Surplus(t, p) >= 0;
      }
    }
  }

  /** Where there is no surplus, exactly where no order was sold in part. */
  lemma ExactCoverSurvivesIff(s: State, t: State)
    requires Finalized(s, t) && forall p: Purse {:trigger Surplus(s, p)} :: Surplus(s, p) == 0
    ensures Covered(t) <==> forall id :: !PartlySold(s, id)
  {
    CoverSurvivesIff(s, t);
    OverhangIff(s);
    forall p: Purse
      ensures Overhang(s, p) >= 0
    {
      SumNonNegative(s.orders.Keys, (j: OrderId) => OverhangIn(s, j, p));
    }
    if Covered(t) {
      forall p: Purse
        ensures Overhang(s, p) == 0
      {
        assert Surplus(s, p) == 0;
      }
    }
  }

  /** Blocks that sell no order in part keep every reservation covered. */
  lemma FinalizeKeepsCovered(s: State, t: State)
    requires Finalized(s, t) && Covered(s) && forall id :: !PartlySold(s, id)
    ensures Covered(t)
  {
    OverhangIff(s);
    forall p: Purse
      ensures OwedAll(t, p) <= At(t.ledger.reserved, p)
    {
      FinalizeSurplus(s, t, p);
      assert OwedAll(s, p) <= At(s.ledger.reserved, p);
    }
  }
}
