/** Auctions from block to block: what holds over every run of asks, takes, liquidations and
    ends of blocks, and exactly when it stops holding. */
module DutchAuctionRuns {
  import opened Amounts
  import opened FiniteSums
  import opened DutchAuction
  import opened DutchAuctionBlock

  // ---------- the end of a block, order by order ----------

  function SettleIn(s: State, l: Ledger, id: OrderId): Option<Ledger> {
    if id !in s.orders then Some(l)
    else
      var sorted := ByLimit(TakesOf(s, id));
      SettleTo(l, s.orders[id], sorted, |sorted|)
  }

  /** The ledger after settling some orders one by one; `None` where a transfer fails and
      the pallet panics. */
  function SettleAll(s: State, ids: seq<OrderId>): Option<Ledger> {
    if ids == [] then Some(s.ledger)
    else
      match SettleAll(s, ids[..|ids| - 1])
      case None => None
      case Some(l) => SettleIn(s, l, ids[|ids| - 1])
  }

  function Ids(ids: seq<OrderId>): set<OrderId> {
    set i | 0 <= i < |ids| :: ids[i]
  }

  predicate Distinct(ids: seq<OrderId>) {
    forall i, j :: 0 <= i < j < |ids| ==> ids[i] != ids[j]
  }

  /** Storage yields the orders with takes in some order; sold-out orders and all takes are
      removed, and other orders stay as they were. */
  ghost predicate EndOfBlock(s: State, t: State) {
    && t == s.(orders := Kept(s, Live(s)), takes := map[], ledger := t.ledger)
    && exists ids :: Distinct(ids) && Ids(ids) == Live(s) && SettleAll(s, ids) == Some(t.ledger)
  }

  /** The orders left when some of the live orders are settled. */
  ghost function Kept(s: State, settled: set<OrderId>): map<OrderId, Order> {
    map id | id in s.orders && !(id in settled && SoldOut(s, id)) :: s.orders[id]
  }

  lemma OneMore(ids: seq<OrderId>, id: OrderId)
    ensures (ids + [id])[..|ids + [id]| - 1] == ids
    ensures Ids(ids + [id]) == Ids(ids) + {id}
    ensures Distinct(ids) && id !in Ids(ids) ==> Distinct(ids + [id])
  {
    assert (ids + [id])[..|ids + [id]| - 1] == ids;
    forall j | j in Ids(ids) + {id}
      ensures j in Ids(ids + [id])
    {
      if j == id {
        assert (ids + [id])[|ids|] == id;
      } else {
        var i :| 0 <= i < |ids| && ids[i] == j;
        assert (ids + [id])[i] == j;
      }
    }
  }

  lemma NothingSettled(s: State)
    ensures Kept(s, {}) == s.orders && MovedByAll(s, s.ledger, {})
  {
  }

  /** On covered reservations no settlement fails, and in whatever order storage yields the
      orders every balance moves by the sums of all gains and losses. */
  lemma {:induction false} SettleAllIsExact(s: State, ids: seq<OrderId>)
    requires Covered(s) && Distinct(ids) && Ids(ids) <= Live(s)
    ensures SettleAll(s, ids).Some? && MovedByAll(s, SettleAll(s, ids).value, Ids(ids))
  {
    if ids == [] {
      assert Ids(ids) == {};
      NothingSettled(s);
    } else {
      var before, id := ids[..|ids| - 1], ids[|ids| - 1];
      assert ids == before + [id];
      OneMore(before, id);
      assert id in Ids(ids);
      SettleAllIsExact(s, before);
      var l, sorted := SettleAll(s, before).value, ByLimit(TakesOf(s, id));
      NextIsCovered(s, l, Ids(before), id);
      SettlementIsExact(l, s.orders[id], sorted, |sorted|);
      SettleNext(s, l, SettleTo(l, s.orders[id], sorted, |sorted|).value, Ids(before), id);
    }
  }

  lemma {:induction false} Listing(ids: set<OrderId>) returns (list: seq<OrderId>)
    ensures Distinct(list) && Ids(list) == ids
  {
    list := [];
    if ids != {} {
      var id :| id in ids;
      var rest := Listing(ids - {id});
      OneMore(rest, id);
      list := rest + [id];
    }
  }

  /** A covered block can end, and ends with every live order settled exactly. */
  lemma CoveredBlocksEnd(s: State)
    requires Covered(s)
    ensures exists t :: EndOfBlock(s, t)
    ensures forall t :: EndOfBlock(s, t) ==> Finalized(s, t)
  {
    var ids := Listing(Live(s));
    SettleAllIsExact(s, ids);
    assert EndOfBlock(s, s.(orders := Kept(s, Live(s)), takes := map[], ledger := SettleAll(s, ids).value));
    forall t | EndOfBlock(s, t)
      ensures Finalized(s, t)
    {
      var order :| Distinct(order) && Ids(order) == Live(s) && SettleAll(s, order) == Some(t.ledger);
      SettleAllIsExact(s, order);
    }
  }

  lemma EndKeepsWellFormed(s: State, t: State)
    requires WellFormed(s) && EndOfBlock(s, t)
    ensures WellFormed(t)
  {
  }

  // ---------- runs ----------

  datatype Op =
    | OpAsk(sell: Sell)
    | OpTake(id: OrderId, take: Take)
    | OpLiquidate(id: OrderId, caller: Account)
    | OpEndOfBlock
    | OpTime(passed: nat)
    | OpElsewhere(ledger: Ledger)

  /** Others move free funds, and reserve funds of their own. */
  ghost predicate KeepsReserved(before: Ledger, after: Ledger) {
    forall p: Purse {:trigger At(after.reserved, p)} :: At(before.reserved, p) <= At(after.reserved, p)
  }

  ghost predicate Step(s: State, op: Op, t: State) {
    match op
    case OpAsk(sell) => t == Commit(s, Ask(s, sell))
    case OpTake(id, take) => t == Commit(s, TakeOrder(s, id, take))
    case OpLiquidate(id, caller) => t == Commit(s, Liquidate(s, id, caller))
    case OpEndOfBlock => EndOfBlock(s, t)
    case OpTime(passed) => t == s.(now := s.now + passed)
    case OpElsewhere(ledger) => KeepsReserved(s.ledger, ledger) && t == s.(ledger := ledger)
  }

  /** A run goes through these states, one more than it has operations. */
  ghost predicate IsRun(states: seq<State>, ops: seq<Op>) {
    && |states| == |ops| + 1
    && forall i :: 0 <= i < |ops| ==> Step(states[i], ops[i], states[i + 1])
  }

  ghost predicate Genesis(s: State) {
    s.orders == map[] && s.index == 0 && s.takes == map[]
  }

  lemma GenesisIsCovered(s: State)
    requires Genesis(s)
    ensures Covered(s) && WellFormed(s)
  {
  }

  /** A step that sells no order in part, and after which the treasury has not failed to pay
      a deposit back. */
  ghost predicate Smooth(s: State, op: Op) {
    && (op.OpEndOfBlock? ==> forall id :: !PartlySold(s, id))
    && (op.OpLiquidate? ==> !Liquidate(s, op.id, op.caller).LeftBehind?)
  }

  /** Such a step keeps everything covered and takes nothing off any surplus. */
  lemma SmoothStep(s: State, op: Op, t: State)
    requires Covered(s) && WellFormed(s) && Step(s, op, t) && Smooth(s, op)
    ensures Covered(t) && WellFormed(t)
    ensures forall p: Purse {:trigger Surplus(t, p)} :: Surplus(s, p) <= Surplus(t, p)
  {
    forall p: Purse
      ensures Surplus(s, p) <= Surplus(t, p)
    {
      SmoothSurplus(s, op, t, p);
    }
    CoveredIs(s);
    forall p: Purse
      ensures Surplus(t, p) >= 0
    {
      assert Surplus(s, p) >= 0;
    }
    CoveredIs(t);
    StepKeepsWellFormed(s, op, t);
  }

  lemma SmoothSurplus(s: State, op: Op, t: State, p: Purse)
    requires Covered(s) && WellFormed(s) && Step(s, op, t) && Smooth(s, op)
    ensures Surplus(s, p) <= Surplus(t, p)
  {
    match op
    case OpAsk(sell) => AskKeepsSurplus(s, sell, p);
    case OpTake(id, take) => TakeKeepsSurplus(s, id, take, p);
    case OpLiquidate(id, caller) =>
      if id in s.orders {
        LiquidateSurplus(s, id, caller, p);
      }
    case OpEndOfBlock =>
      CoveredBlocksEnd(s);
      FinalizeSurplus(s, t, p);
      OverhangIff(s);
      assert Overhang(s, p) == 0;
    case OpTime(_) => SameOwed(s, t, p);
    case OpElsewhere(ledger) => SameOwed(s, t, p);
  }

  lemma StepKeepsWellFormed(s: State, op: Op, t: State)
    requires WellFormed(s) && Step(s, op, t)
    ensures WellFormed(t)
  {
    match op
    case OpAsk(sell) => AskKeepsWellFormed(s, sell);
    case OpTake(id, take) => TakeKeepsWellFormed(s, id, take);
    case OpLiquidate(id, caller) => LiquidateKeepsWellFormed(s, id, caller);
    case OpEndOfBlock => EndKeepsWellFormed(s, t);
    case OpTime(_) => SameOrdersWellFormed(s, t);
    case OpElsewhere(_) => SameOrdersWellFormed(s, t);
  }

  lemma SameOrdersWellFormed(s: State, t: State)
    requires WellFormed(s) && t.orders == s.orders && t.takes == s.takes && t.index == s.index
    ensures WellFormed(t)
  {
    forall id | id in t.orders
      ensures Acceptable(t.orders[id], TakesOf(t, id))
    {
      assert Acceptable(s.orders[id], TakesOf(s, id));
    }
  }

  /** Over every run in which no order is sold in part and no liquidation is left behind,
      reservations stay covered, so that every block can end; and no surplus ever falls. */
  lemma {:induction false} SmoothRunsStayCovered(states: seq<State>, ops: seq<Op>)
    requires IsRun(states, ops) && Covered(states[0]) && WellFormed(states[0])
    requires forall i :: 0 <= i < |ops| ==> Smooth(states[i], ops[i])
    ensures
      var t := states[|ops|];
      && Covered(t) && WellFormed(t)
      && (exists u :: EndOfBlock(t, u))
      && forall p: Purse {:trigger Surplus(t, p)} :: Surplus(states[0], p) <= Surplus(t, p)
  {
    var n := |ops|;
    if n > 0 {
      assert IsRun(states[..n], ops[..n - 1]);
      SmoothRunsStayCovered(states[..n], ops[..n - 1]);
      assert states[..n][n - 1] == states[n - 1] && states[..n][0] == states[0];
      SmoothStep(states[n - 1], ops[n - 1], states[n]);
      forall p: Purse
        ensures Surplus(states[0], p) <= Surplus(states[n], p)
      {
        assert Surplus(states[0], p) <= Surplus(states[n - 1], p);
        assert Surplus(states[n - 1], p) <= Surplus(states[n], p);
      }
    }
    CoveredBlocksEnd(states[n]);
  }

  /** From genesis, too: nothing else is assumed of the state an auction starts in. */
  lemma SmoothRunsFromGenesis(states: seq<State>, ops: seq<Op>)
    requires IsRun(states, ops) && Genesis(states[0])
    requires forall i :: 0 <= i < |ops| ==> Smooth(states[i], ops[i])
    ensures Covered(states[|ops|]) && WellFormed(states[|ops|]) && exists u :: EndOfBlock(states[|ops|], u)
  {
    GenesisIsCovered(states[0]);
    SmoothRunsStayCovered(states, ops);
  }

  // ---------- liquidation between takes and the end of a block ----------

  /** After a liquidation the end of the block leaves exactly what the takers of the order
      had reserved beyond what anybody is owed, less what is kept of orders sold in part. */
  lemma LiquidationStrands(s: State, id: OrderId, caller: Account, t: State, p: Purse)
    requires Covered(s) && Liquidate(s, id, caller).Done? && EndOfBlock(Liquidate(s, id, caller).state, t)
    ensures
      var u := Liquidate(s, id, caller).state;
      Surplus(t, p) == Surplus(s, p) + ReservedBy(s, id, p) - Overhang(u, p)
  {
    var u := Liquidate(s, id, caller).state;
    LiquidateKeepsCoveredIff(s, id, caller);
    LiquidateSurplus(s, id, caller, p);
    CoveredBlocksEnd(u);
    FinalizeSurplus(u, t, p);
  }

  lemma {:induction false} ReservationCounts(order: Order, takes: seq<Take>, n: nat, i: nat)
    requires i < n <= |takes|
    ensures Reservation(takes[i]) <= Reservations(order, takes, n, (takes[i].taker, order.quote))
  {
    if i < n - 1 {
      ReservationCounts(order, takes, n - 1, i);
    }
  }

  lemma {:induction false} NothingReserved(order: Order, takes: seq<Take>, n: nat, p: Purse)
    requires n <= |takes| && forall i :: 0 <= i < n ==> Reservation(takes[i]) == 0
    ensures Reservations(order, takes, n, p) == 0
  {
    if n > 0 {
      NothingReserved(order, takes, n - 1, p);
    }
  }

  /** Some take of the order in this block has reserved something, which a seller can look
      up before liquidating. */
  ghost predicate HasReservedTake(s: State, id: OrderId) {
    exists i :: 0 <= i < |TakesOf(s, id)| && Reservation(TakesOf(s, id)[i]) > 0
  }

  /** Liquidating an order leaves funds reserved for nothing if and only if some take of it
      has reserved any. */
  lemma LiquidationStrandsIff(s: State, id: OrderId, caller: Account)
    requires Covered(s) && Liquidate(s, id, caller).Done?
    ensures
      var u := Liquidate(s, id, caller).state;
      (exists p: Purse :: Surplus(u, p) > Surplus(s, p)) <==> HasReservedTake(s, id)
  {
    var u, order, takes := Liquidate(s, id, caller).state, s.orders[id], TakesOf(s, id);
    if HasReservedTake(s, id) {
      var i :| 0 <= i < |takes| && Reservation(takes[i]) > 0;
      var p := (takes[i].taker, order.quote);
      ReservationCounts(order, takes, |takes|, i);
      LiquidateSurplus(s, id, caller, p);
    } else {
      forall p: Purse
        ensures Surplus(u, p) == Surplus(s, p)
      {
        NothingReserved(order, takes, |takes|, p);
        LiquidateSurplus(s, id, caller, p);
      }
    }
  }

  /** Stranded for good: no smooth run after the liquidation releases any of it. */
  lemma StrandedForGood(s: State, id: OrderId, caller: Account, states: seq<State>, ops: seq<Op>, p: Purse)
    requires Covered(s) && WellFormed(s) && Liquidate(s, id, caller).Done?
    requires IsRun(states, ops) && states[0] == Liquidate(s, id, caller).state
    requires forall i :: 0 <= i < |ops| ==> Smooth(states[i], ops[i])
    ensures Surplus(s, p) + ReservedBy(s, id, p) <= Surplus(states[|ops|], p) <= At(states[|ops|].ledger.reserved, p)
  {
    LiquidateKeepsCoveredIff(s, id, caller);
    LiquidateKeepsWellFormed(s, id, caller);
    LiquidateSurplus(s, id, caller, p);
    SmoothRunsStayCovered(states, ops);
    var t := states[|ops|];
    assert Surplus(states[0], p) <= Surplus(t, p);
    SumNonNegative(t.orders.Keys, (j: OrderId) => OwedIn(t, j, p));
  }

  // ---------- a refused ask ----------

  /** A refused ask costs the seller its deposit if and only if its parameters are valid and
      the deposit could be paid, because only then is the reservation what fails. */
  lemma RefusedAskCostsDepositIff(s: State, sell: Sell)
    requires !Ask(s, sell).Done? && s.config.deposit > 0 && sell.seller != s.config.treasury
    ensures
      var p := (sell.seller, s.config.native);
      At(Commit(s, Ask(s, sell)).ledger.free, p) < At(s.ledger.free, p) <==>
        && sell.amount > 0 && sell.limit > 0
        && PayNative(s.ledger, s.config, sell.seller, s.config.treasury, s.config.deposit).Some?
  {
  }

  // ---------- an order sold in part ----------

  lemma IsIn(ids: seq<OrderId>, i: nat)
    ensures i < |ids| ==> ids[i] in Ids(ids)
  {
  }

  lemma OneOrder(ids: seq<OrderId>, id: OrderId)
    requires Distinct(ids) && Ids(ids) == {id}
    ensures ids == [id]
  {
    IsIn(ids, 0);
    IsIn(ids, 1);
    assert id in Ids(ids);
  }

  lemma SettleAllOfOne(s: State, id: OrderId)
    ensures SettleAll(s, [id]) == SettleIn(s, s.ledger, id)
    ensures Distinct([id]) && Ids([id]) == {id}
  {
    assert [id][..0] == [];
    assert Ids([id]) == {[id][0]};
  }

  const SALE: Order := Order(1, 0, 1, 10, DIV, Terms(StairstepDecrease(1), 0, 1))

  /** A state with one take waiting for that one order. */
  ghost predicate OneTake(s: State, take: Take, base: nat, reserved: nat) {
    && s.config == Config(9, 8, 1, 1) && s.index == 1 && s.now == 0
    && s.orders == map[1 := SALE] && s.takes == map[1 := [take]]
    && At(s.ledger.free, (1, 0)) == base && At(s.ledger.reserved, (1, 0)) == reserved
    && At(s.ledger.reserved, (take.taker, 1)) >= take.amount
  }

  lemma SettleOneTake(s: State, take: Take, base: nat, reserved: nat)
    requires OneTake(s, take, base, reserved) && 1 < take.taker && take.limit == DIV && 0 < take.amount <= 10
    ensures Live(s) == {1} && SettleIn(s, s.ledger, 1) == SettleTo(s.ledger, SALE, [take], 1)
    ensures SettleTo(s.ledger, SALE, [take], 1)
      == SettleOne(s.ledger, SALE, take.taker, take.amount, take.amount, take.amount)
  {
    assert ByLimit([take]) == [take];
    assert SettleTo(s.ledger, SALE, [take], 0) == Some(s.ledger);
    assert Fill(SALE, [take], 0) == take.amount;
    assert Quote(take.amount, DIV) == take.amount;
  }

  lemma FirstSettlement(l: Ledger)
    requires At(l.free, (1, 0)) == 0 && At(l.reserved, (1, 0)) == 10 && At(l.reserved, (2, 1)) >= 4
    ensures
      var r := SettleOne(l, SALE, 2, 4, 4, 4);
      && r.Some?
      && At(r.value.free, (1, 0)) == 0 && At(r.value.reserved, (1, 0)) == 6
      && At(r.value.free, (3, 1)) == At(l.free, (3, 1))
  {
  }

  /** The first block sells four of the ten. */
  lemma FirstBlockEnds(s: State, take: Take) returns (t: State)
    requires OneTake(s, take, 0, 10) && take == Take(2, 4, DIV)
    ensures EndOfBlock(s, t) && t.orders == map[1 := SALE] && t.takes == map[] && t.index == 1
    ensures t.config == s.config && t.now == 0
    ensures At(t.ledger.free, (1, 0)) == 0 && At(t.ledger.reserved, (1, 0)) == 6
    ensures At(t.ledger.free, (3, 1)) == At(s.ledger.free, (3, 1))
  {
    SettleOneTake(s, take, 0, 10);
    SettleAllOfOne(s, 1);
    FirstSettlement(s.ledger);
    t := s.(takes := map[], ledger := SettleOne(s.ledger, SALE, 2, 4, 4, 4).value);
    assert SoldIn(s, 1) == 4 by {
      assert Asked([take], 0) == 0;
    }
    assert Kept(s, Live(s)) == s.orders;
  }

  /** The second block cannot end: its take is for all ten, and only six are reserved. */
  lemma SecondBlockFails(s: State, take: Take)
    requires OneTake(s, take, 0, 6) && take == Take(3, 10, DIV)
    ensures forall t :: !EndOfBlock(s, t)
  {
    SettleOneTake(s, take, 0, 6);
    SettleAllOfOne(s, 1);
    assert SettleOne(s.ledger, SALE, 3, 10, 10, 10).None?;
    forall t
      ensures !EndOfBlock(s, t)
    {
      if EndOfBlock(s, t) {
        var ids :| Distinct(ids) && Ids(ids) == Live(s) && SettleAll(s, ids) == Some(t.ledger);
        OneOrder(ids, 1);
      }
    }
  }

  /** A take on that order, in a state without takes. */
  lemma TakeIsStored(s: State, take: Take, base: nat, reserved: nat)
    requires s.config == Config(9, 8, 1, 1) && s.index == 1 && s.now == 0
    requires s.orders == map[1 := SALE] && s.takes == map[]
    requires At(s.ledger.free, (1, 0)) == base && At(s.ledger.reserved, (1, 0)) == reserved
    requires take.limit == DIV && 0 < take.amount <= 10 && take.taker > 1 && At(s.ledger.free, (take.taker, 1)) >= take.amount
    ensures
      var t := Commit(s, TakeOrder(s, 1, take));
      && TakeOrder(s, 1, take).Done?
      && OneTake(t, take, base, reserved)
      && forall p :: p != (take.taker, 1) ==> At(t.ledger.free, p) == At(s.ledger.free, p)
  {
    assert Reservation(take) == take.amount;
    assert TakesOf(s, 1) + [take] == [take];
  }

  const SALE_CALL: Op := OpAsk(Sell(1, 0, 1, 10, DIV, StairstepDecrease(1)))

  lemma SaleIsStored(free: map<Purse, nat>) returns (s: State, t: State)
    requires At(free, (1, 0)) == 10 && At(free, (1, 9)) == 2
    ensures Genesis(s) && Step(s, SALE_CALL, t)
    ensures t.config == Config(9, 8, 1, 1) && t.index == 1 && t.now == 0 && t.orders == map[1 := SALE] && t.takes == map[]
    ensures At(t.ledger.free, (1, 0)) == 0 && At(t.ledger.reserved, (1, 0)) == 10
    ensures At(t.ledger.free, (8, 9)) == At(free, (8, 9)) + 1
    ensures forall p :: p != (1, 0) ==> At(t.ledger.reserved, p) == 0
    ensures forall a :: a > 8 || 1 < a < 8 ==> At(t.ledger.free, (a, 1)) == At(free, (a, 1))
  {
    s := State(Config(9, 8, 1, 1), map[], 0, map[], Ledger(free, map[]), 0);
    var sell := Sell(1, 0, 1, 10, DIV, StairstepDecrease(1));
    assert OrderOf(s, sell) == SALE;
    t := Commit(s, Ask(s, sell));
  }

  /** From genesis: the seller liquidates after a take for four, the treasury pays the deposit
      back, and the four stay reserved with no order and no surplus to account for them. */
  lemma LiquidationStrandsARun() returns (states: seq<State>, ops: seq<Op>)
    ensures IsRun(states, ops) && Genesis(states[0])
    ensures states[|ops|].orders == map[] && At(states[|ops|].ledger.reserved, (2, 1)) == 4
    ensures |ops| > 0 && exists p: Purse :: Surplus(states[|ops|], p) > Surplus(states[|ops| - 1], p)
  {
    var take := Take(2, 4, DIV);
    var s0, s1 := SaleIsStored(map[(1, 0) := 10, (1, 9) := 2, (2, 1) := 4, (8, 9) := 1]);
    TakeIsStored(s1, take, 0, 10);
    var s2 := Commit(s1, TakeOrder(s1, 1, take));
    TakerReserves(s1, take);
    var s3 := Commit(s2, Liquidate(s2, 1, 1));
    GenesisIsCovered(s0);
    AskKeepsCovered(s0, SALE_CALL.sell);
    TakeKeepsCovered(s1, 1, take);
    LiquidationStrandsIff(s2, 1, 1);
    assert Reservation(TakesOf(s2, 1)[0]) == 4;
    states, ops := [s0, s1, s2, s3], [SALE_CALL, OpTake(1, take), OpLiquidate(1, 1)];
  }

  lemma TakerReserves(s: State, take: Take)
    requires take == Take(2, 4, DIV) && TakeOrder(s, 1, take).Done?
    requires s.config == Config(9, 8, 1, 1) && s.orders == map[1 := SALE]
    requires At(s.ledger.free, (8, 9)) == 2 && At(s.ledger.reserved, (8, 9)) == 0
    requires At(s.ledger.reserved, (2, 1)) == 0 && At(s.ledger.reserved, (1, 0)) == 10
    ensures
      var t := TakeOrder(s, 1, take).state;
      && At(t.ledger.reserved, (2, 1)) == 4 && t.orders == map[1 := SALE]
      && Liquidate(t, 1, 1).Done? && At(Liquidate(t, 1, 1).state.ledger.reserved, (2, 1)) == 4
  {
    assert Reservation(take) == 4;
  }

  /** From genesis: a treasury that holds only the deposit cannot pay it back and stay alive;
      the order is kept without its reservation. */
  lemma LiquidationLosesCover() returns (states: seq<State>, ops: seq<Op>)
    ensures IsRun(states, ops) && Genesis(states[0])
    ensures |ops| > 0 && Covered(states[|ops| - 1]) && !Covered(states[|ops|])
  {
    var s0, s1 := SaleIsStored(map[(1, 0) := 10, (1, 9) := 2]);
    GenesisIsCovered(s0);
    AskKeepsCovered(s0, SALE_CALL.sell);
    var released := Unreserve(s1.ledger, (1, 0), 10);
    UnreserveIs(s1.ledger, (1, 0), 10, (8, 9));
    assert PayNative(released, s1.config, 8, 1, 1).None?;
    var o := Liquidate(s1, 1, 1);
    var s2 := Commit(s1, o);
    assert o.LeftBehind?;
    UnreserveIs(s1.ledger, (1, 0), 10, (1, 0));
    assert At(s2.ledger.reserved, (1, 0)) == 0 && s2.orders == map[1 := SALE];
    if Covered(s2) {
      OrderIsReserved(s2, 1);
    }
    states, ops := [s0, s1, s2], [SALE_CALL, OpLiquidate(1, 1)];
  }

  /** From genesis: an ask for ten with five to sell is refused, and the deposit is gone. */
  lemma RefusedAskCostsADeposit() returns (states: seq<State>, ops: seq<Op>)
    ensures IsRun(states, ops) && Genesis(states[0]) && ops == [SALE_CALL]
    ensures states[1].orders == map[] && At(states[1].ledger.free, (1, 9)) < At(states[0].ledger.free, (1, 9))
  {
    var s := State(Config(9, 8, 1, 1), map[], 0, map[], Ledger(map[(1, 0) := 5, (1, 9) := 2], map[]), 0);
    states, ops := [s, Commit(s, Ask(s, SALE_CALL.sell))], [SALE_CALL];
  }

  /** From genesis: an order of ten is sold for four in one block, its stored amount stays
      ten, and after a take for ten the next block cannot end. */
  lemma PartSaleStopsTheChain() returns (states: seq<State>, ops: seq<Op>)
    ensures IsRun(states, ops) && Genesis(states[0])
    ensures forall t :: !EndOfBlock(states[|ops|], t)
  {
    var first, second := Take(2, 4, DIV), Take(3, 10, DIV);
    var s0, s1 := SaleIsStored(map[(1, 0) := 10, (1, 9) := 2, (2, 1) := 4, (3, 1) := 10]);
    TakeIsStored(s1, first, 0, 10);
    var s2 := Commit(s1, TakeOrder(s1, 1, first));
    var s3 := FirstBlockEnds(s2, first);
    TakeIsStored(s3, second, 0, 6);
    var s4 := Commit(s3, TakeOrder(s3, 1, second));
    SecondBlockFails(s4, second);
    states := [s0, s1, s2, s3, s4];
    ops := [SALE_CALL, OpTake(1, first), OpEndOfBlock, OpTake(1, second)];
  }
}
