/** Settling the takes of a block against one sell order: highest limit first, each taker
    at its own limit, on balances reserved beforehand. */
module DutchAuction {
  import opened Amounts
  import opened Arithmetic
  import opened FiniteSums

  /** The unit of limits, which are fixed-point numbers. */
  const DIV: nat := 1_000_000_000_000_000_000

  type OrderId = nat
  type Purse = (Account, Asset)

  /** How the asking price of an order falls with time. */
  datatype Release = LinearDecrease(total: nat) | StairstepDecrease(step: nat)

  /** What an order carries besides the sale itself: its price curve, when it was added and
      the native deposit taken for it. */
  datatype Terms = Terms(release: Release, addedAt: nat, deposit: nat)

  datatype Order = Order(seller: Account, base: Asset, quote: Asset, amount: nat, limit: nat, terms: Terms)
  datatype Take = Take(taker: Account, amount: nat, limit: nat)

  /** What an amount costs at a limit, rounded down. */
  function Quote(amount: nat, limit: nat): nat {
    amount * limit / DIV
  }

  lemma QuoteMonotone(a: nat, b: nat, l: nat, m: nat)
    requires a <= b && l <= m
    ensures Quote(a, l) <= Quote(b, m)
  {
    MulLe(a, b, l);
    MulLe(l, m, b);
    assert l * b == b * l && m * b == b * m;
    DivMonotone(a * l, b * m, DIV);
  }

  /** The exact price less what is rounded away; a limit of one is a price of one. */
  lemma QuoteBounds(amount: nat, limit: nat)
    ensures Quote(amount, limit) * DIV <= amount * limit < (Quote(amount, limit) + 1) * DIV
    ensures limit == 1_000_000_000_000_000_000 ==> Quote(amount, limit) == amount
  {
    DivBounds(amount * limit, DIV);
    if limit == 1_000_000_000_000_000_000 {
      DivUnique(amount * limit, DIV, amount);
    }
  }

  // ---------- balances ----------

  datatype Ledger = Ledger(free: map<Purse, nat>, reserved: map<Purse, nat>)

  function Reserve(l: Ledger, p: Purse, amount: nat): Option<Ledger> {
    if At(l.free, p) < amount then None
    else Some(Ledger(l.free[p := At(l.free, p) - amount], l.reserved[p := At(l.reserved, p) + amount]))
  }

  /** Frees as much of the amount as is reserved. */
  function Unreserve(l: Ledger, p: Purse, amount: nat): Ledger {
    if amount == 0 then l
    else
      var actual := Min(amount, At(l.reserved, p));
      Ledger(l.free[p := At(l.free, p) + actual], l.reserved[p := At(l.reserved, p) - actual])
  }

  function Transfer(l: Ledger, asset: Asset, from: Account, to: Account, amount: nat): Option<Ledger> {
    if amount == 0 || from == to then Some(l)
    else if At(l.free, (from, asset)) < amount then None
    else
      var taken := l.free[(from, asset) := At(l.free, (from, asset)) - amount];
      Some(l.(free := taken[(to, asset) := At(taken, (to, asset)) + amount]))
  }

  // ---------- settling one take ----------

  /** `exchange_reserved`; `None` where a transfer fails. */
  function Exchange(l: Ledger, order: Order, taker: Account, fill: nat, charge: nat): Option<Ledger> {
    var l1 := Unreserve(l, (order.seller, order.base), fill);
    var l2 := Unreserve(l1, (taker, order.quote), charge);
    match Transfer(l2, order.base, order.seller, taker, fill)
    case None => None
    case Some(l3) => Transfer(l3, order.quote, taker, order.seller, charge)
  }

  /** One take: nothing left to sell frees the reservation, otherwise it is filled and charged. */
  function SettleOne(l: Ledger, order: Order, taker: Account, fill: nat, charge: nat, reservation: nat): Option<Ledger> {
    match Exchange(l, order, taker, fill, charge)
    case None => None
    case Some(l1) =>
      Some(if charge < reservation then Unreserve(l1, (taker, order.quote), reservation - charge) else l1)
  }

  /** What a settled take adds to the free balance of a purse. */
  function GainOne(order: Order, taker: Account, fill: nat, charge: nat, reservation: nat, p: Purse): int {
    (if p == (taker, order.quote) then reservation - charge else 0)
    + (if p == (order.seller, order.quote) then charge else 0)
    + (if p == (taker, order.base) then fill else 0)
  }

  /** What a settled take removes from the reserved balance of a purse. */
  function LossOne(order: Order, taker: Account, fill: nat, reservation: nat, p: Purse): nat {
    (if p == (taker, order.quote) then reservation else 0)
    + (if p == (order.seller, order.base) then fill else 0)
  }

  lemma UnreserveIs(l: Ledger, q: Purse, amount: nat, p: Purse)
    ensures
      var l1, actual := Unreserve(l, q, amount), if p == q then Min(amount, At(l.reserved, q)) else 0;
      At(l1.free, p) == At(l.free, p) + actual && At(l1.reserved, p) == At(l.reserved, p) - actual
  {
  }

  lemma TransferIs(l: Ledger, asset: Asset, from: Account, to: Account, amount: nat, p: Purse)
    requires amount <= At(l.free, (from, asset))
    ensures
      var r := Transfer(l, asset, from, to, amount);
      && r.Some? && r.value.reserved == l.reserved
      && At(r.value.free, p) == At(l.free, p)
           - (if p == (from, asset) then amount else 0) + (if p == (to, asset) then amount else 0)
  {
  }

  /** An exchange of reserved funds never fails and moves exactly these amounts. */
  lemma ExchangeIs(l: Ledger, order: Order, taker: Account, fill: nat, charge: nat, p: Purse)
    requires forall q: Purse {:trigger At(l.reserved, q)} :: LossOne(order, taker, fill, charge, q) <= At(l.reserved, q)
    ensures
      var r := Exchange(l, order, taker, fill, charge);
      && r.Some?
      && At(r.value.free, p) == At(l.free, p) + GainOne(order, taker, fill, charge, charge, p)
      && At(r.value.reserved, p) == At(l.reserved, p) - LossOne(order, taker, fill, charge, p)
  {
    var seller, buyer := (order.seller, order.base), (taker, order.quote);
    assert LossOne(order, taker, fill, charge, seller) <= At(l.reserved, seller);
    assert LossOne(order, taker, fill, charge, buyer) <= At(l.reserved, buyer);
    var l1 := Unreserve(l, seller, fill);
    UnreserveIs(l, seller, fill, p);
    UnreserveIs(l, seller, fill, buyer);
    var l2 := Unreserve(l1, buyer, charge);
    UnreserveIs(l1, buyer, charge, p);
    UnreserveIs(l1, buyer, charge, seller);
    UnreserveIs(l1, buyer, charge, buyer);
    TransferIs(l2, order.base, order.seller, taker, fill, p);
    TransferIs(l2, order.base, order.seller, taker, fill, buyer);
    var l3 := Transfer(l2, order.base, order.seller, taker, fill).value;
    TransferIs(l3, order.quote, taker, order.seller, charge, p);
  }

  lemma SettleOneIs(l: Ledger, order: Order, taker: Account, fill: nat, charge: nat, reservation: nat, p: Purse)
    requires charge <= reservation
    requires forall q: Purse {:trigger At(l.reserved, q)} :: LossOne(order, taker, fill, reservation, q) <= At(l.reserved, q)
    ensures
      var r := SettleOne(l, order, taker, fill, charge, reservation);
      && r.Some?
      && At(r.value.free, p) == At(l.free, p) + GainOne(order, taker, fill, charge, reservation, p)
      && At(r.value.reserved, p) == At(l.reserved, p) - LossOne(order, taker, fill, reservation, p)
  {
    var buyer := (taker, order.quote);
    assert LossOne(order, taker, fill, reservation, buyer) <= At(l.reserved, buyer);
    forall q: Purse {:trigger At(l.reserved, q)}
      ensures LossOne(order, taker, fill, charge, q) <= At(l.reserved, q)
    {
      assert LossOne(order, taker, fill, reservation, q) <= At(l.reserved, q);
    }
    ExchangeIs(l, order, taker, fill, charge, p);
    ExchangeIs(l, order, taker, fill, charge, buyer);
    var l1 := Exchange(l, order, taker, fill, charge).value;
    UnreserveIs(l1, buyer, reservation - charge, p);
  }

  // ---------- settling one order ----------

  /** The base asked for by the first `n` takes. */
  function Asked(takes: seq<Take>, n: nat): nat
    requires n <= |takes|
  {
    if n == 0 then 0 else Asked(takes, n - 1) + takes[n - 1].amount
  }

  /** What is left to sell after the first `n` takes. */
  function Left(order: Order, takes: seq<Take>, n: nat): nat
    requires n <= |takes|
  {
    if Asked(takes, n) >= order.amount then 0 else order.amount - Asked(takes, n)
  }

  function Fill(order: Order, takes: seq<Take>, i: nat): nat
    requires i < |takes|
  {
    Min(takes[i].amount, Left(order, takes, i))
  }

  function Charge(order: Order, takes: seq<Take>, i: nat): nat
    requires i < |takes|
  {
    Quote(Fill(order, takes, i), takes[i].limit)
  }

  function Reservation(take: Take): nat {
    Quote(take.amount, take.limit)
  }

  /** The ledger after settling the first `n` takes in order; `None` where a transfer fails. */
  function SettleTo(l: Ledger, order: Order, takes: seq<Take>, n: nat): Option<Ledger>
    requires n <= |takes|
  {
    if n == 0 then Some(l)
    else
      match SettleTo(l, order, takes, n - 1)
      case None => None
      case Some(l1) =>
        SettleOne(l1, order, takes[n - 1].taker, Fill(order, takes, n - 1), Charge(order, takes, n - 1), Reservation(takes[n - 1]))
  }

  /** What the first `n` takes add to the free balance of a purse. */
  function Gain(order: Order, takes: seq<Take>, n: nat, p: Purse): int
    requires n <= |takes|
  {
    if n == 0 then 0
    else
      Gain(order, takes, n - 1, p)
      + GainOne(order, takes[n - 1].taker, Fill(order, takes, n - 1), Charge(order, takes, n - 1), Reservation(takes[n - 1]), p)
  }

  /** What the first `n` takes remove from the reserved balance of a purse. */
  function Loss(order: Order, takes: seq<Take>, n: nat, p: Purse): nat
    requires n <= |takes|
  {
    if n == 0 then 0
    else
      Loss(order, takes, n - 1, p)
      + LossOne(order, takes[n - 1].taker, Fill(order, takes, n - 1), Reservation(takes[n - 1]), p)
  }

  /** What the first `n` takers have reserved in a purse. */
  function Reservations(order: Order, takes: seq<Take>, n: nat, p: Purse): nat
    requires n <= |takes|
  {
    if n == 0 then 0
    else
      Reservations(order, takes, n - 1, p)
      + if p == (takes[n - 1].taker, order.quote) then Reservation(takes[n - 1]) else 0
  }

  function Sold(order: Order, takes: seq<Take>): nat {
    Min(order.amount, Asked(takes, |takes|))
  }

  /** What an order and its takes have reserved in a purse. */
  function Owed(order: Order, takes: seq<Take>, p: Purse): nat {
    Reservations(order, takes, |takes|, p) + if p == (order.seller, order.base) then order.amount else 0
  }

  lemma {:induction false} LossIs(order: Order, takes: seq<Take>, n: nat, p: Purse)
    requires n <= |takes|
    ensures Loss(order, takes, n, p)
      == Reservations(order, takes, n, p)
         + if p == (order.seller, order.base) then Min(order.amount, Asked(takes, n)) else 0
  {
    if n > 0 {
      LossIs(order, takes, n - 1, p);
    }
  }

  lemma {:induction false} LossMonotone(order: Order, takes: seq<Take>, m: nat, n: nat, p: Purse)
    requires m <= n <= |takes|
    ensures Loss(order, takes, m, p) <= Loss(order, takes, n, p)
  {
    if m < n {
      LossMonotone(order, takes, m, n - 1, p);
    }
  }

  lemma {:induction false} AskedMonotone(takes: seq<Take>, m: nat, n: nat)
    requires m <= n <= |takes|
    ensures Asked(takes, m) <= Asked(takes, n)
  {
    if m < n {
      AskedMonotone(takes, m, n - 1);
    }
  }

  /** Reserved balances cover everything an order's takes will remove. */
  ghost predicate Covers(l: Ledger, order: Order, takes: seq<Take>) {
    forall p: Purse {:trigger At(l.reserved, p)} :: Loss(order, takes, |takes|, p) <= At(l.reserved, p)
  }

  /** One ledger is another after `n` settled takes, balance by balance. */
  ghost predicate MovedBy(l: Ledger, l1: Ledger, order: Order, takes: seq<Take>, n: nat)
    requires n <= |takes|
  {
    && (forall p: Purse {:trigger At(l1.free, p)} :: At(l1.free, p) == At(l.free, p) + Gain(order, takes, n, p))
    && (forall p: Purse {:trigger At(l1.reserved, p)} :: At(l1.reserved, p) == At(l.reserved, p) - Loss(order, takes, n, p))
  }

  lemma MoveOneMore(l: Ledger, l1: Ledger, order: Order, takes: seq<Take>, m: nat)
    requires m < |takes| && Covers(l, order, takes) && MovedBy(l, l1, order, takes, m)
    ensures
      var take := takes[m];
      var r := SettleOne(l1, order, take.taker, Fill(order, takes, m), Charge(order, takes, m), Reservation(take));
      r.Some? && MovedBy(l, r.value, order, takes, m + 1)
  {
    var take, fill, charge := takes[m], Fill(order, takes, m), Charge(order, takes, m);
    QuoteMonotone(fill, take.amount, take.limit, take.limit);
    forall p: Purse {:trigger At(l1.reserved, p)}
      ensures LossOne(order, take.taker, fill, Reservation(take), p) <= At(l1.reserved, p)
    {
      LossMonotone(order, takes, m + 1, |takes|, p);
      assert Loss(order, takes, |takes|, p) <= At(l.reserved, p);
    }
    var r := SettleOne(l1, order, take.taker, fill, charge, Reservation(take));
    SettleOneIs(l1, order, take.taker, fill, charge, Reservation(take), (0, 0));
    forall p: Purse
      ensures At(r.value.free, p) == At(l.free, p) + Gain(order, takes, m + 1, p)
      ensures At(r.value.reserved, p) == At(l.reserved, p) - Loss(order, takes, m + 1, p)
    {
      SettleOneIs(l1, order, take.taker, fill, charge, Reservation(take), p);
    }
  }

  /** With reservations in place no transfer fails, and every free and reserved balance
      moves by exactly the gains and losses. */
  lemma {:induction false} SettlementIsExact(l: Ledger, order: Order, takes: seq<Take>, n: nat)
    requires n <= |takes| && Covers(l, order, takes)
    ensures SettleTo(l, order, takes, n).Some?
    ensures MovedBy(l, SettleTo(l, order, takes, n).value, order, takes, n)
  {
    if n == 0 {
      forall p: Purse
        ensures At(l.free, p) == At(l.free, p) + Gain(order, takes, n, p)
        ensures At(l.reserved, p) == At(l.reserved, p) - Loss(order, takes, n, p)
      {
      }
    } else {
      SettlementIsExact(l, order, takes, n - 1);
      MoveOneMore(l, SettleTo(l, order, takes, n - 1).value, order, takes, n - 1);
    }
  }

  // ---------- who gets what ----------

  ghost predicate Descending(takes: seq<Take>) {
    forall i, j :: 0 <= i < j < |takes| ==> takes[i].limit >= takes[j].limit
  }

  /** A take gets anything only after all takes of strictly higher limits are full. */
  lemma HigherLimitsFirst(order: Order, takes: seq<Take>, low: nat, high: nat)
    requires Descending(takes) && low < |takes| && high < |takes|
    requires takes[low].limit < takes[high].limit && Fill(order, takes, low) > 0
    ensures Fill(order, takes, high) == takes[high].amount
  {
    AskedMonotone(takes, high + 1, low);
  }

  ghost function Fills(order: Order, takes: seq<Take>, n: nat): nat
    requires n <= |takes|
  {
    if n == 0 then 0 else Fills(order, takes, n - 1) + Fill(order, takes, n - 1)
  }

  ghost function Revenue(order: Order, takes: seq<Take>, n: nat): nat
    requires n <= |takes|
  {
    if n == 0 then 0 else Revenue(order, takes, n - 1) + Charge(order, takes, n - 1)
  }

  /** Exactly the smaller of what is offered and what is asked for is sold. */
  lemma {:induction false} FillsAddUp(order: Order, takes: seq<Take>, n: nat)
    requires n <= |takes|
    ensures Fills(order, takes, n) == order.amount - Left(order, takes, n) == Min(order.amount, Asked(takes, n))
  {
    if n > 0 {
      FillsAddUp(order, takes, n - 1);
    }
  }

  /** A taker pays its own limit price for what it gets, rounded down; so at most its
      reservation and at least the order's limit price. */
  lemma ChargeBounds(order: Order, takes: seq<Take>, i: nat)
    requires i < |takes| && order.limit <= takes[i].limit
    ensures Charge(order, takes, i) * DIV <= Fill(order, takes, i) * takes[i].limit < (Charge(order, takes, i) + 1) * DIV
    ensures Quote(Fill(order, takes, i), order.limit) <= Charge(order, takes, i) <= Reservation(takes[i])
    ensures Fill(order, takes, i) == takes[i].amount ==> Charge(order, takes, i) == Reservation(takes[i])
    ensures Fill(order, takes, i) == 0 ==> Charge(order, takes, i) == 0
  {
    var fill, take := Fill(order, takes, i), takes[i];
    QuoteBounds(fill, take.limit);
    QuoteMonotone(fill, take.amount, take.limit, take.limit);
    QuoteMonotone(fill, fill, order.limit, take.limit);
  }

  /** What is sold to the first `n` takes is worth at their own limits, before rounding. */
  ghost function Worth(order: Order, takes: seq<Take>, n: nat): nat
    requires n <= |takes|
  {
    if n == 0 then 0 else Worth(order, takes, n - 1) + Fill(order, takes, n - 1) * takes[n - 1].limit
  }

  /** The revenue is that, short by less than one unit of quote per take. */
  lemma {:induction false} RevenueIsWorth(order: Order, takes: seq<Take>, n: nat)
    requires n <= |takes|
    ensures Revenue(order, takes, n) * DIV <= Worth(order, takes, n) <= (Revenue(order, takes, n) + n) * DIV
    ensures n > 0 ==> Worth(order, takes, n) < (Revenue(order, takes, n) + n) * DIV
  {
    if n > 0 {
      RevenueIsWorth(order, takes, n - 1);
      QuoteBounds(Fill(order, takes, n - 1), takes[n - 1].limit);
    }
  }

  lemma RoundedPart(sold: nat, fill: nat, limit: nat, revenue: nat, charge: nat, n: nat)
    requires sold * limit <= (revenue + n) * DIV
    requires fill * limit < (charge + 1) * DIV
    ensures (sold + fill) * limit < (revenue + charge + n + 1) * DIV
  {
    assert (sold + fill) * limit == sold * limit + fill * limit;
  }

  /** The seller gets the order's limit price for everything sold, short by less than one
      unit of quote per take. */
  lemma {:induction false} SellerGetsItsPrice(order: Order, takes: seq<Take>, n: nat)
    requires n <= |takes| && forall i :: 0 <= i < n ==> order.limit <= takes[i].limit
    ensures Fills(order, takes, n) * order.limit <= (Revenue(order, takes, n) + n) * DIV
    ensures n > 0 ==> Fills(order, takes, n) * order.limit < (Revenue(order, takes, n) + n) * DIV
  {
    if n > 0 {
      var m := n - 1;
      SellerGetsItsPrice(order, takes, m);
      ChargeBounds(order, takes, m);
      var fill, charge := Fill(order, takes, m), Charge(order, takes, m);
      var least := Quote(fill, order.limit);
      DivBounds(fill * order.limit, DIV);
      MulLe(least, charge, DIV);
      RoundedPart(Fills(order, takes, m), fill, order.limit, Revenue(order, takes, m), charge, m);
    }
  }

  /** What an account's takes among the first `n` get. */
  ghost function Bought(order: Order, takes: seq<Take>, n: nat, a: Account): nat
    requires n <= |takes|
  {
    if n == 0 then 0
    else Bought(order, takes, n - 1, a) + if takes[n - 1].taker == a then Fill(order, takes, n - 1) else 0
  }

  /** And what they are charged. */
  ghost function Spent(order: Order, takes: seq<Take>, n: nat, a: Account): nat
    requires n <= |takes|
  {
    if n == 0 then 0
    else Spent(order, takes, n - 1, a) + if takes[n - 1].taker == a then Charge(order, takes, n - 1) else 0
  }

  /** Who takes gets what it bought, and back what it reserved and was not charged. */
  lemma {:induction false} TakersAreServed(order: Order, takes: seq<Take>, n: nat, a: Account)
    requires n <= |takes| && a != order.seller && order.base != order.quote
    ensures Gain(order, takes, n, (a, order.base)) == Bought(order, takes, n, a)
    ensures Gain(order, takes, n, (a, order.quote)) == Reservations(order, takes, n, (a, order.quote)) - Spent(order, takes, n, a)
  {
    if n > 0 {
      TakersAreServed(order, takes, n - 1, a);
    }
  }

  /** What a seller gets back of its own takes, in the quote asset. */
  ghost function OwnReturns(order: Order, takes: seq<Take>, n: nat): int
    requires n <= |takes|
  {
    if n == 0 then 0
    else
      OwnReturns(order, takes, n - 1)
      + (if takes[n - 1].taker == order.seller
         then Reservation(takes[n - 1]) - Charge(order, takes, n - 1)
              + (if order.base == order.quote then Fill(order, takes, n - 1) else 0)
         else 0)
  }

  /** Every unit of revenue reaches the seller: its free quote balance grows by the revenue,
      and by what it gets back of takes of its own. */
  lemma {:induction false} RevenueReachesSeller(order: Order, takes: seq<Take>, n: nat)
    requires n <= |takes|
    ensures Gain(order, takes, n, (order.seller, order.quote)) == Revenue(order, takes, n) + OwnReturns(order, takes, n)
  {
    if n > 0 {
      RevenueReachesSeller(order, takes, n - 1);
    }
  }

  // ---------- conservation ----------

  ghost function Held(balances: map<Purse, nat>, asset: Asset): int {
    Sum(balances.Keys, (p: Purse) => if p in balances && p.1 == asset then balances[p] else 0)
  }

  /** Everything anybody holds of an asset, free or reserved. */
  ghost function Supply(l: Ledger, asset: Asset): int {
    Held(l.free, asset) + Held(l.reserved, asset)
  }

  lemma HeldChange(balances: map<Purse, nat>, p: Purse, amount: nat, asset: Asset)
    ensures Held(balances[p := amount], asset)
      == Held(balances, asset) + if p.1 == asset then amount - At(balances, p) else 0
  {
    var after := balances[p := amount];
    assert balances.Keys + {p} == after.Keys;
    SumChange(balances.Keys, (q: Purse) => if q in balances && q.1 == asset then balances[q] else 0,
              (q: Purse) => if q in after && q.1 == asset then after[q] else 0, p);
  }

  lemma UnreserveConserves(l: Ledger, p: Purse, amount: nat, asset: Asset)
    ensures Supply(Unreserve(l, p, amount), asset) == Supply(l, asset)
  {
    var actual := Min(amount, At(l.reserved, p));
    HeldChange(l.free, p, At(l.free, p) + actual, asset);
    HeldChange(l.reserved, p, At(l.reserved, p) - actual, asset);
  }

  lemma TransferConserves(l: Ledger, of: Asset, from: Account, to: Account, amount: nat, asset: Asset)
    ensures
      var r := Transfer(l, of, from, to, amount);
      r.Some? ==> Supply(r.value, asset) == Supply(l, asset)
  {
    if amount != 0 && from != to && At(l.free, (from, of)) >= amount {
      var taken := l.free[(from, of) := At(l.free, (from, of)) - amount];
      HeldChange(l.free, (from, of), At(l.free, (from, of)) - amount, asset);
      HeldChange(taken, (to, of), At(taken, (to, of)) + amount, asset);
    }
  }

  lemma ExchangeConserves(l: Ledger, order: Order, taker: Account, fill: nat, charge: nat, asset: Asset)
    ensures
      var r := Exchange(l, order, taker, fill, charge);
      r.Some? ==> Supply(r.value, asset) == Supply(l, asset)
  {
    var l1 := Unreserve(l, (order.seller, order.base), fill);
    var l2 := Unreserve(l1, (taker, order.quote), charge);
    UnreserveConserves(l, (order.seller, order.base), fill, asset);
    UnreserveConserves(l1, (taker, order.quote), charge, asset);
    TransferConserves(l2, order.base, order.seller, taker, fill, asset);
    var r3 := Transfer(l2, order.base, order.seller, taker, fill);
    if r3.Some? {
      TransferConserves(r3.value, order.quote, taker, order.seller, charge, asset);
    }
  }

  lemma SettleOneConserves(l: Ledger, order: Order, taker: Account, fill: nat, charge: nat, reservation: nat, asset: Asset)
    ensures
      var r := SettleOne(l, order, taker, fill, charge, reservation);
      r.Some? ==> Supply(r.value, asset) == Supply(l, asset)
  {
    ExchangeConserves(l, order, taker, fill, charge, asset);
    var r := Exchange(l, order, taker, fill, charge);
    if r.Some? && charge < reservation {
      UnreserveConserves(r.value, (taker, order.quote), reservation - charge, asset);
    }
  }

  /** Settling an order creates and destroys nothing of any asset. */
  lemma {:induction false} SettlementConserves(l: Ledger, order: Order, takes: seq<Take>, n: nat, asset: Asset)
    requires n <= |takes| && SettleTo(l, order, takes, n).Some?
    ensures Supply(SettleTo(l, order, takes, n).value, asset) == Supply(l, asset)
  {
    if n > 0 {
      SettlementConserves(l, order, takes, n - 1, asset);
      var take, fill, charge := takes[n - 1], Fill(order, takes, n - 1), Charge(order, takes, n - 1);
      SettleOneConserves(SettleTo(l, order, takes, n - 1).value, order, take.taker, fill, charge, Reservation(take), asset);
    }
  }

  // ---------- the order of takes ----------

  function OneWithLimit(take: Take, limit: nat): seq<Take> {
    if take.limit == limit then [take] else []
  }

  /** The takes of one limit, in order. */
  function WithLimit(takes: seq<Take>, limit: nat): seq<Take> {
    if takes == [] then [] else OneWithLimit(takes[0], limit) + WithLimit(takes[1..], limit)
  }

  function Insert(take: Take, sorted: seq<Take>): seq<Take> {
    if sorted == [] || take.limit >= sorted[0].limit then [take] + sorted
    else [sorted[0]] + Insert(take, sorted[1..])
  }

  /** Takes by falling limit, those of one limit in the order they came. */
  function ByLimit(takes: seq<Take>): seq<Take> {
    if takes == [] then [] else Insert(takes[0], ByLimit(takes[1..]))
  }

  lemma {:induction false} InsertIsPermutation(take: Take, sorted: seq<Take>)
    ensures multiset(Insert(take, sorted)) == multiset(sorted) + multiset{take}
  {
    if !(sorted == [] || take.limit >= sorted[0].limit) {
      InsertIsPermutation(take, sorted[1..]);
      assert sorted == [sorted[0]] + sorted[1..];
    }
  }

  ghost predicate AllWithin(takes: seq<Take>, limit: nat) {
    forall i :: 0 <= i < |takes| ==> takes[i].limit <= limit
  }

  lemma {:induction false} InsertWithin(take: Take, sorted: seq<Take>, limit: nat)
    requires take.limit <= limit && AllWithin(sorted, limit)
    ensures AllWithin(Insert(take, sorted), limit)
  {
    if !(sorted == [] || take.limit >= sorted[0].limit) {
      InsertWithin(take, sorted[1..], limit);
    }
  }

  lemma {:induction false} InsertIsSorted(take: Take, sorted: seq<Take>)
    requires Descending(sorted)
    ensures Descending(Insert(take, sorted))
  {
    if !(sorted == [] || take.limit >= sorted[0].limit) {
      InsertIsSorted(take, sorted[1..]);
      InsertWithin(take, sorted[1..], sorted[0].limit);
    }
  }

  lemma {:induction false} InsertIsStable(take: Take, sorted: seq<Take>, limit: nat)
    requires Descending(sorted)
    ensures WithLimit(Insert(take, sorted), limit)
      == OneWithLimit(take, limit) + WithLimit(sorted, limit)
  {
    if sorted == [] || take.limit >= sorted[0].limit {
      WithLimitStep(take, sorted, limit);
    } else {
      InsertIsStable(take, sorted[1..], limit);
      WithLimitStep(sorted[0], Insert(take, sorted[1..]), limit);
      OnesSwap(sorted[0], take, WithLimit(sorted[1..], limit), limit);
    }
  }

  lemma OnesSwap(a: Take, b: Take, rest: seq<Take>, limit: nat)
    requires a.limit != b.limit
    ensures OneWithLimit(a, limit) + (OneWithLimit(b, limit) + rest) == OneWithLimit(b, limit) + (OneWithLimit(a, limit) + rest)
  {
    if a.limit != limit {
      assert OneWithLimit(a, limit) == [];
    } else {
      assert OneWithLimit(b, limit) == [];
    }
  }

  lemma WithLimitStep(take: Take, rest: seq<Take>, limit: nat)
    ensures WithLimit([take] + rest, limit) == OneWithLimit(take, limit) + WithLimit(rest, limit)
  {
    assert ([take] + rest)[1..] == rest;
  }

  /** The sort is a stable one: descending, a permutation, and in order within each limit. */
  lemma {:induction false} ByLimitSorts(takes: seq<Take>)
    ensures Descending(ByLimit(takes)) && multiset(ByLimit(takes)) == multiset(takes)
    ensures forall limit :: WithLimit(ByLimit(takes), limit) == WithLimit(takes, limit)
  {
    if takes != [] {
      var sorted := ByLimit(takes[1..]);
      ByLimitSorts(takes[1..]);
      InsertIsSorted(takes[0], sorted);
      InsertIsPermutation(takes[0], sorted);
      assert takes == [takes[0]] + takes[1..];
      forall limit
        ensures WithLimit(ByLimit(takes), limit) == WithLimit(takes, limit)
      {
        InsertIsStable(takes[0], sorted, limit);
      }
    }
  }

  lemma {:induction false} WithLimitFinds(takes: seq<Take>, limit: nat)
    ensures WithLimit(takes, limit) != [] ==> exists i :: 0 <= i < |takes| && takes[i].limit == limit
  {
    if takes != [] && takes[0].limit != limit {
      WithLimitFinds(takes[1..], limit);
      if WithLimit(takes, limit) != [] {
        var i :| 0 <= i < |takes[1..]| && takes[1..][i].limit == limit;
        assert takes[i + 1].limit == limit;
      }
    }
  }

  lemma FirstHasItsLimit(takes: seq<Take>)
    ensures takes != [] ==> WithLimit(takes, takes[0].limit) != []
  {
  }

  /** Any stable sort gives the same sequence. */
  lemma {:induction false} StableSortIsUnique(a: seq<Take>, b: seq<Take>)
    requires Descending(a) && Descending(b)
    requires forall limit :: WithLimit(a, limit) == WithLimit(b, limit)
    ensures a == b
  {
    FirstHasItsLimit(a);
    FirstHasItsLimit(b);
    if a != [] && b != [] {
      WithLimitFinds(a, b[0].limit);
      WithLimitFinds(b, a[0].limit);
      var limit := a[0].limit;
      assert limit == b[0].limit;
      assert a[0] == WithLimit(a, limit)[0] == WithLimit(b, limit)[0] == b[0];
      forall limit
        ensures WithLimit(a[1..], limit) == WithLimit(b[1..], limit)
      {
        var first := OneWithLimit(a[0], limit);
        assert WithLimit(a, limit) == first + WithLimit(a[1..], limit);
        assert WithLimit(b, limit) == first + WithLimit(b[1..], limit);
        assert WithLimit(a[1..], limit) == WithLimit(a, limit)[|first|..];
        assert WithLimit(b[1..], limit) == WithLimit(b, limit)[|first|..];
      }
      StableSortIsUnique(a[1..], b[1..]);
      assert a == [a[0]] + a[1..] && b == [b[0]] + b[1..];
    }
  }
}
