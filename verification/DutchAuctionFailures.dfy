/** Exactly when the end of a block fails. A settlement releases what it can and then
    transfers, so each of its transfers succeeds exactly when the payer holds enough, free
    and reserved together: a block ends exactly when the plain payments it makes can be
    made in order from what everybody holds. */
module DutchAuctionFailures {
  import opened Amounts
  import opened FiniteSums
  import opened DutchAuction
  import opened DutchAuctionBlock
  import opened DutchAuctionRuns

  /** All that is in a purse, free and reserved. */
  function Holding(l: Ledger, p: Purse): nat {
    At(l.free, p) + At(l.reserved, p)
  }

  /** A plain payment from one account to another in one asset. */
  datatype Move = Move(asset: Asset, from: Account, to: Account, amount: nat)
  {
    function Payer(): Purse {
      (from, asset)
    }

    /** What the payment does to a purse; paying oneself does nothing. */
    function Effect(p: Purse): int {
      (if p == (to, asset) then amount else 0) - (if p == (from, asset) then amount else 0)
    }
  }

  /** What some payments do to a purse together. */
  function Net(moves: seq<Move>, p: Purse): int {
    if moves == [] then 0 else Net(moves[..|moves| - 1], p) + moves[|moves| - 1].Effect(p)
  }

  /** A payment can be made from a purse that held `held` before some others were made. */
  predicate CanPay(held: int, before: seq<Move>, m: Move) {
    m.from == m.to || m.amount <= held + Net(before, m.Payer())
  }

  /** Payments that can be made one after the other from what is held. */
  predicate Payable(l: Ledger, moves: seq<Move>) {
    forall i :: 0 <= i < |moves| ==> CanPay(Holding(l, moves[i].Payer()), moves[..i], moves[i])
  }

  /** One ledger is another after these payments, as far as holdings go. */
  ghost predicate PaidBy(l: Ledger, l1: Ledger, moves: seq<Move>) {
    forall p: Purse {:trigger Holding(l1, p)} :: Holding(l1, p) == Holding(l, p) + Net(moves, p)
  }

  lemma NetOneMore(moves: seq<Move>, m: Move, p: Purse)
    ensures Net(moves + [m], p) == Net(moves, p) + m.Effect(p)
  {
    assert (moves + [m])[..|moves + [m]| - 1] == moves;
  }

  lemma {:induction false} NetConcat(a: seq<Move>, b: seq<Move>, p: Purse)
    ensures Net(a + b, p) == Net(a, p) + Net(b, p)
  {
    if b == [] {
      assert a + b == a;
    } else {
      var before, m := b[..|b| - 1], b[|b| - 1];
      assert a + b == (a + before) + [m];
      NetOneMore(a + before, m, p);
      NetConcat(a, before, p);
    }
  }

  /** Payments go through one after the other exactly when the first part does, and the
      second from what the first leaves. */
  lemma PayableInParts(l: Ledger, l1: Ledger, a: seq<Move>, b: seq<Move>)
    requires PaidBy(l, l1, a)
    ensures Payable(l, a + b) <==> Payable(l, a) && Payable(l1, b)
  {
    forall i | 0 <= i < |a|
      ensures CanPay(Holding(l, (a + b)[i].Payer()), (a + b)[..i], (a + b)[i])
        <==> CanPay(Holding(l, a[i].Payer()), a[..i], a[i])
    {
      assert (a + b)[..i] == a[..i] && (a + b)[i] == a[i];
    }
    forall i | 0 <= i < |b|
      ensures CanPay(Holding(l, (a + b)[|a| + i].Payer()), (a + b)[..|a| + i], (a + b)[|a| + i])
        <==> CanPay(Holding(l1, b[i].Payer()), b[..i], b[i])
    {
      assert (a + b)[..|a| + i] == a + b[..i] && (a + b)[|a| + i] == b[i];
      NetConcat(a, b[..i], b[i].Payer());
      assert Holding(l1, b[i].Payer()) == Holding(l, b[i].Payer()) + Net(a, b[i].Payer());
    }
    PartsCover(l, l1, a, b);
  }

  lemma PartsCover(l: Ledger, l1: Ledger, a: seq<Move>, b: seq<Move>)
    requires forall i :: 0 <= i < |a| ==>
      (CanPay(Holding(l, (a + b)[i].Payer()), (a + b)[..i], (a + b)[i]) <==> CanPay(Holding(l, a[i].Payer()), a[..i], a[i]))
    requires forall i :: 0 <= i < |b| ==>
      (CanPay(Holding(l, (a + b)[|a| + i].Payer()), (a + b)[..|a| + i], (a + b)[|a| + i])
       <==> CanPay(Holding(l1, b[i].Payer()), b[..i], b[i]))
    ensures Payable(l, a + b) <==> Payable(l, a) && Payable(l1, b)
  {
    if Payable(l, a) && Payable(l1, b) {
      forall k | 0 <= k < |a + b|
        ensures CanPay(Holding(l, (a + b)[k].Payer()), (a + b)[..k], (a + b)[k])
      {
        if k >= |a| {
          assert CanPay(Holding(l1, b[k - |a|].Payer()), b[..k - |a|], b[k - |a|]);
        }
      }
    }
    if Payable(l, a + b) {
      forall i | 0 <= i < |a|
        ensures CanPay(Holding(l, a[i].Payer()), a[..i], a[i])
      {
        assert CanPay(Holding(l, (a + b)[i].Payer()), (a + b)[..i], (a + b)[i]);
      }
      forall i | 0 <= i < |b|
        ensures CanPay(Holding(l1, b[i].Payer()), b[..i], b[i])
      {
        assert CanPay(Holding(l, (a + b)[|a| + i].Payer()), (a + b)[..|a| + i], (a + b)[|a| + i]);
      }
    }
  }

  // ---------- one take ----------

  /** What an exchange pays. */
  function ExchangeMoves(order: Order, taker: Account, fill: nat, charge: nat): seq<Move> {
    [Move(order.base, order.seller, taker, fill), Move(order.quote, taker, order.seller, charge)]
  }

  lemma UnreserveKeepsHolding(l: Ledger, q: Purse, amount: nat, p: Purse)
    ensures Holding(Unreserve(l, q, amount), p) == Holding(l, p)
  {
    UnreserveIs(l, q, amount, p);
  }

  /** Either an amount is free or nothing is reserved any more, as after a release. */
  predicate Freed(l: Ledger, p: Purse, amount: nat) {
    At(l.reserved, p) == 0 || At(l.free, p) >= amount
  }

  lemma ReleaseFrees(l: Ledger, p: Purse, amount: nat)
    ensures Freed(Unreserve(l, p, amount), p, amount)
  {
    UnreserveIs(l, p, amount, p);
  }

  lemma StaysFreed(l: Ledger, q: Purse, other: nat, p: Purse, amount: nat)
    requires Freed(l, p, amount)
    ensures Freed(Unreserve(l, q, other), p, amount)
  {
    UnreserveIs(l, q, other, p);
  }

  /** Then a transfer goes through exactly when the payer holds the amount. */
  lemma FreedCanPayIff(l: Ledger, asset: Asset, from: Account, to: Account, amount: nat)
    requires Freed(l, (from, asset), amount)
    ensures Transfer(l, asset, from, to, amount).Some? <==> from == to || amount <= Holding(l, (from, asset))
  {
  }

  lemma TransferMoves(l: Ledger, asset: Asset, from: Account, to: Account, amount: nat, p: Purse)
    requires Transfer(l, asset, from, to, amount).Some?
    ensures
      var l1 := Transfer(l, asset, from, to, amount).value;
      && Holding(l1, p) == Holding(l, p) + Move(asset, from, to, amount).Effect(p)
      && At(l1.reserved, p) == At(l.reserved, p)
      && (p != (from, asset) || from == to ==> At(l.free, p) <= At(l1.free, p))
  {
  }

  lemma PayableTwo(l: Ledger, a: Move, b: Move)
    ensures Payable(l, [a, b]) <==>
      && (a.from == a.to || a.amount <= Holding(l, a.Payer()))
      && (b.from == b.to || b.amount <= Holding(l, b.Payer()) + a.Effect(b.Payer()))
    ensures forall p :: Net([a, b], p) == a.Effect(p) + b.Effect(p)
  {
    var both := [a, b];
    assert both[..0] == [] && both[..1] == [] + [a] && both == [a] + [b] && [a] == [] + [a];
    NetOneMore([], a, b.Payer());
    assert CanPay(Holding(l, both[0].Payer()), both[..0], both[0]) <==> a.from == a.to || a.amount <= Holding(l, a.Payer());
    assert CanPay(Holding(l, both[1].Payer()), both[..1], both[1])
      <==> b.from == b.to || b.amount <= Holding(l, b.Payer()) + a.Effect(b.Payer());
    forall p
      ensures Net(both, p) == a.Effect(p) + b.Effect(p)
    {
      NetOneMore([], a, p);
      NetOneMore([a], b, p);
    }
  }

  /** An exchange goes through exactly when its two payments can be made. */
  lemma ExchangeIff(l: Ledger, order: Order, taker: Account, fill: nat, charge: nat)
    ensures
      var r, moves := Exchange(l, order, taker, fill, charge), ExchangeMoves(order, taker, fill, charge);
      && (r.Some? <==> Payable(l, moves))
      && (r.Some? ==> PaidBy(l, r.value, moves))
  {
    var seller, buyer := (order.seller, order.base), (taker, order.quote);
    var a, b := Move(order.base, order.seller, taker, fill), Move(order.quote, taker, order.seller, charge);
    var l1 := Unreserve(l, seller, fill);
    var l2 := Unreserve(l1, buyer, charge);
    ReleaseFrees(l, seller, fill);
    StaysFreed(l1, buyer, charge, seller, fill);
    ReleaseFrees(l1, buyer, charge);
    forall p: Purse
      ensures Holding(l2, p) == Holding(l, p)
    {
      UnreserveKeepsHolding(l, seller, fill, p);
      UnreserveKeepsHolding(l1, buyer, charge, p);
    }
    PayableTwo(l, a, b);
    FreedCanPayIff(l2, order.base, order.seller, taker, fill);
    var r3 := Transfer(l2, order.base, order.seller, taker, fill);
    if r3.Some? {
      SecondTransfer(l, l2, r3.value, order, taker, fill, charge);
    }
  }

  lemma SecondTransfer(l: Ledger, l2: Ledger, l3: Ledger, order: Order, taker: Account, fill: nat, charge: nat)
    requires forall p: Purse {:trigger Holding(l2, p)} :: Holding(l2, p) == Holding(l, p)
    requires Transfer(l2, order.base, order.seller, taker, fill) == Some(l3)
    requires Freed(l2, (taker, order.quote), charge)
    ensures
      var a, b := Move(order.base, order.seller, taker, fill), Move(order.quote, taker, order.seller, charge);
      var r := Transfer(l3, order.quote, taker, order.seller, charge);
      && (r.Some? <==> b.from == b.to || b.amount <= Holding(l, b.Payer()) + a.Effect(b.Payer()))
      && (r.Some? ==> PaidBy(l, r.value, [a, b]))
  {
    var a, b := Move(order.base, order.seller, taker, fill), Move(order.quote, taker, order.seller, charge);
    TransferMoves(l2, order.base, order.seller, taker, fill, b.Payer());
    FreedCanPayIff(l3, order.quote, taker, order.seller, charge);
    PayableTwo(l, a, b);
    var r := Transfer(l3, order.quote, taker, order.seller, charge);
    if r.Some? {
      forall p: Purse
        ensures Holding(r.value, p) == Holding(l, p) + Net([a, b], p)
      {
        TransferMoves(l2, order.base, order.seller, taker, fill, p);
        TransferMoves(l3, order.quote, taker, order.seller, charge, p);
      }
    }
  }

  lemma SettleOneIff(l: Ledger, order: Order, taker: Account, fill: nat, charge: nat, reservation: nat)
    ensures
      var r, moves := SettleOne(l, order, taker, fill, charge, reservation), ExchangeMoves(order, taker, fill, charge);
      && (r.Some? <==> Payable(l, moves))
      && (r.Some? ==> PaidBy(l, r.value, moves))
  {
    var r, moves := SettleOne(l, order, taker, fill, charge, reservation), ExchangeMoves(order, taker, fill, charge);
    ExchangeIff(l, order, taker, fill, charge);
    if r.Some? {
      var l1 := Exchange(l, order, taker, fill, charge).value;
      forall p: Purse
        ensures Holding(r.value, p) == Holding(l, p) + Net(moves, p)
      {
        assert Holding(l1, p) == Holding(l, p) + Net(moves, p);
        if charge < reservation {
          UnreserveKeepsHolding(l1, (taker, order.quote), reservation - charge, p);
        }
      }
    }
  }

  // ---------- one order ----------

  /** Everything the first `n` takes of an order pay. */
  function OrderMoves(order: Order, takes: seq<Take>, n: nat): seq<Move>
    requires n <= |takes|
  {
    if n == 0 then []
    else
      OrderMoves(order, takes, n - 1)
      + ExchangeMoves(order, takes[n - 1].taker, Fill(order, takes, n - 1), Charge(order, takes, n - 1))
  }

  /** What a settlement or a part of one does, in terms of payments: it goes through exactly
      when they can be made, and then makes them. */
  ghost predicate Makes(l: Ledger, r: Option<Ledger>, moves: seq<Move>) {
    && (r.Some? <==> Payable(l, moves))
    && (r.Some? ==> PaidBy(l, r.value, moves))
  }

  /** Doing one part and then another makes the payments of both. */
  lemma MakesBoth(l: Ledger, r1: Option<Ledger>, r2: Option<Ledger>, a: seq<Move>, b: seq<Move>)
    requires Makes(l, r1, a)
    requires if r1.Some? then Makes(r1.value, r2, b) else r2.None?
    ensures Makes(l, r2, a + b)
  {
    if r1.Some? {
      PayableInParts(l, r1.value, a, b);
      if r2.Some? {
        PaidInParts(l, r1.value, r2.value, a, b);
      }
    } else {
      PartMustPay(l, a, b);
    }
  }

  /** A settlement goes through exactly when its payments can be made in order from what
      everybody holds, and what everybody holds then is the old holdings after them: for any
      ledger, whoever takes, and whatever the assets. */
  lemma {:induction false} SettlementFailsIff(l: Ledger, order: Order, takes: seq<Take>, n: nat)
    requires n <= |takes|
    ensures Makes(l, SettleTo(l, order, takes, n), OrderMoves(order, takes, n))
  {
    if n == 0 {
      NothingPaid(l);
    } else {
      var m := n - 1;
      var take, fill, charge := takes[m], Fill(order, takes, m), Charge(order, takes, m);
      SettlementFailsIff(l, order, takes, m);
      var r1, r2 := SettleTo(l, order, takes, m), SettleTo(l, order, takes, n);
      if r1.Some? {
        SettleOneIff(r1.value, order, take.taker, fill, charge, Reservation(take));
      }
      MakesBoth(l, r1, r2, OrderMoves(order, takes, m), ExchangeMoves(order, take.taker, fill, charge));
    }
  }

  lemma NothingPaid(l: Ledger)
    ensures Payable(l, []) && PaidBy(l, l, [])
  {
    var none: seq<Move> := [];
    forall p: Purse
      ensures Holding(l, p) == Holding(l, p) + Net(none, p)
    {
      assert Net(none, p) == 0;
    }
    assert PaidBy(l, l, none);
  }

  lemma PaidInParts(l: Ledger, l1: Ledger, l2: Ledger, a: seq<Move>, b: seq<Move>)
    requires PaidBy(l, l1, a) && PaidBy(l1, l2, b)
    ensures PaidBy(l, l2, a + b)
  {
    forall p: Purse
      ensures Holding(l2, p) == Holding(l, p) + Net(a + b, p)
    {
      NetConcat(a, b, p);
      assert Holding(l1, p) == Holding(l, p) + Net(a, p);
      assert Holding(l2, p) == Holding(l1, p) + Net(b, p);
    }
  }

  /** If the first part cannot be paid the whole cannot. */
  lemma PartMustPay(l: Ledger, a: seq<Move>, b: seq<Move>)
    requires !Payable(l, a)
    ensures !Payable(l, a + b)
  {
    var i :| 0 <= i < |a| && !CanPay(Holding(l, a[i].Payer()), a[..i], a[i]);
    assert (a + b)[..i] == a[..i] && (a + b)[i] == a[i];
    assert !CanPay(Holding(l, (a + b)[i].Payer()), (a + b)[..i], (a + b)[i]);
  }

  // ---------- one block ----------

  function MovesIn(s: State, id: OrderId): seq<Move> {
    if id !in s.orders then []
    else
      var sorted := ByLimit(TakesOf(s, id));
      OrderMoves(s.orders[id], sorted, |sorted|)
  }

  /** Everything some orders pay, one after the other. */
  function BlockMoves(s: State, ids: seq<OrderId>): seq<Move> {
    if ids == [] then [] else BlockMoves(s, ids[..|ids| - 1]) + MovesIn(s, ids[|ids| - 1])
  }

  lemma SettleInIff(s: State, l: Ledger, id: OrderId)
    ensures Makes(l, SettleIn(s, l, id), MovesIn(s, id))
  {
    if id in s.orders {
      var sorted := ByLimit(TakesOf(s, id));
      SettlementFailsIff(l, s.orders[id], sorted, |sorted|);
    } else {
      NothingPaid(l);
    }
  }

  /** Storage yields the orders in some order; the block goes through exactly when all their
      payments can be made in that order. */
  lemma {:induction false} BlockFailsIff(s: State, ids: seq<OrderId>)
    ensures Makes(s.ledger, SettleAll(s, ids), BlockMoves(s, ids))
  {
    if ids == [] {
      NothingPaid(s.ledger);
    } else {
      var before, id := ids[..|ids| - 1], ids[|ids| - 1];
      BlockFailsIff(s, before);
      var r := SettleAll(s, before);
      if r.Some? {
        SettleInIff(s, r.value, id);
      }
      MakesBoth(s.ledger, r, SettleAll(s, ids), BlockMoves(s, before), MovesIn(s, id));
    }
  }

  /** A block can end exactly when its payments can be made in some order of its orders, and
      must end in a panic exactly when they can be made in none. */
  lemma BlockEndsIff(s: State)
    ensures (exists t :: EndOfBlock(s, t))
      <==> exists ids :: Distinct(ids) && Ids(ids) == Live(s) && Payable(s.ledger, BlockMoves(s, ids))
  {
    if ids :| Distinct(ids) && Ids(ids) == Live(s) && Payable(s.ledger, BlockMoves(s, ids)) {
      BlockFailsIff(s, ids);
      assert EndOfBlock(s, s.(orders := Kept(s, Live(s)), takes := map[], ledger := SettleAll(s, ids).value));
    }
    if t :| EndOfBlock(s, t) {
      var ids :| Distinct(ids) && Ids(ids) == Live(s) && SettleAll(s, ids) == Some(t.ledger);
      BlockFailsIff(s, ids);
    }
  }

  // ---------- blocks in which no purse both pays and is paid ----------

  function PaidOne(m: Move, p: Purse): nat {
    if m.from != m.to && m.Payer() == p then m.amount else 0
  }

  /** What some payments take out of a purse. */
  function PaidOut(moves: seq<Move>, p: Purse): nat {
    if moves == [] then 0 else PaidOut(moves[..|moves| - 1], p) + PaidOne(moves[|moves| - 1], p)
  }

  /** The payee of no payment between two accounts is the payer of one. */
  ghost predicate OneWay(moves: seq<Move>) {
    forall m, n :: m in moves && n in moves && m.from != m.to && n.from != n.to ==> m.Payer() != (n.to, n.asset)
  }

  lemma PaidOutOneMore(moves: seq<Move>, m: Move, p: Purse)
    ensures PaidOut(moves + [m], p) == PaidOut(moves, p) + PaidOne(m, p)
  {
    assert (moves + [m])[..|moves + [m]| - 1] == moves;
  }

  lemma {:induction false} PaidOutConcat(a: seq<Move>, b: seq<Move>, p: Purse)
    ensures PaidOut(a + b, p) == PaidOut(a, p) + PaidOut(b, p)
  {
    if b == [] {
      assert a + b == a;
    } else {
      var before, m := b[..|b| - 1], b[|b| - 1];
      assert a + b == (a + before) + [m];
      PaidOutOneMore(a + before, m, p);
      PaidOutConcat(a, before, p);
    }
  }

  /** A purse that is never paid only loses. */
  lemma {:induction false} PayersOnlyPay(moves: seq<Move>, p: Purse)
    requires forall n :: n in moves && n.from != n.to ==> p != (n.to, n.asset)
    ensures Net(moves, p) + PaidOut(moves, p) == 0
  {
    if moves != [] {
      PayersOnlyPay(moves[..|moves| - 1], p);
      assert moves[|moves| - 1] in moves;
    }
  }

  /** One-way payments can be made exactly when every purse holds all it pays. */
  lemma {:induction false} OneWayPayableIff(l: Ledger, moves: seq<Move>)
    requires OneWay(moves)
    ensures Payable(l, moves) <==> forall p: Purse :: PaidOut(moves, p) <= Holding(l, p)
  {
    if moves == [] {
      NothingPaid(l);
    } else {
      var before, m := moves[..|moves| - 1], moves[|moves| - 1];
      assert moves == before + [m];
      OneWayPayableIff(l, before);
      LastPayment(l, before, m);
      assert m in moves;
      if m.from != m.to {
        PayersOnlyPay(before, m.Payer());
      }
      SumsOneMore(l, before, m);
    }
  }

  lemma LastPayment(l: Ledger, before: seq<Move>, m: Move)
    ensures Payable(l, before + [m]) <==> Payable(l, before) && CanPay(Holding(l, m.Payer()), before, m)
  {
    var all := before + [m];
    assert all[..|before|] == before && all[|before|] == m;
    forall i | 0 <= i < |before|
      ensures all[..i] == before[..i] && all[i] == before[i]
    {
    }
    if Payable(l, all) {
      assert CanPay(Holding(l, all[|before|].Payer()), all[..|before|], all[|before|]);
      forall i | 0 <= i < |before|
        ensures CanPay(Holding(l, before[i].Payer()), before[..i], before[i])
      {
        assert CanPay(Holding(l, all[i].Payer()), all[..i], all[i]);
      }
    }
  }

  lemma SumsOneMore(l: Ledger, before: seq<Move>, m: Move)
    ensures (forall p: Purse :: PaidOut(before + [m], p) <= Holding(l, p)) <==>
      && (forall p: Purse :: PaidOut(before, p) <= Holding(l, p))
      && PaidOut(before, m.Payer()) + PaidOne(m, m.Payer()) <= Holding(l, m.Payer())
  {
    forall p: Purse
      ensures PaidOut(before + [m], p) == PaidOut(before, p) + PaidOne(m, p)
    {
      PaidOutOneMore(before, m, p);
    }
    if forall p: Purse :: PaidOut(before + [m], p) <= Holding(l, p) {
      assert PaidOut(before + [m], m.Payer()) <= Holding(l, m.Payer());
      forall p: Purse
        ensures PaidOut(before, p) <= Holding(l, p)
      {
        assert PaidOut(before + [m], p) <= Holding(l, p);
      }
    }
  }

  // ---------- blocks, in sums ----------

  ghost function PaidIn(s: State, id: OrderId, p: Purse): int {
    PaidOut(MovesIn(s, id), p)
  }

  /** What a block pays out of a purse. */
  ghost function PaidInBlock(s: State, p: Purse): int {
    Sum(Live(s), (id: OrderId) => PaidIn(s, id, p))
  }

  lemma {:induction false} BlockPays(s: State, ids: seq<OrderId>, p: Purse)
    requires Distinct(ids)
    ensures PaidOut(BlockMoves(s, ids), p) == Sum(Ids(ids), (id: OrderId) => PaidIn(s, id, p))
  {
    if ids == [] {
      var none: set<OrderId> := {};
      assert Ids(ids) == none;
      SumZero(Ids(ids), (id: OrderId) => PaidIn(s, id, p));
    } else {
      var before, id := ids[..|ids| - 1], ids[|ids| - 1];
      assert ids == before + [id];
      OneMore(before, id);
      BlockPays(s, before, p);
      PaidOutConcat(BlockMoves(s, before), MovesIn(s, id), p);
      SumRemove(Ids(ids), (j: OrderId) => PaidIn(s, j, p), id);
      assert Ids(ids) - {id} == Ids(before);
    }
  }

  /** No purse both pays and is paid in the block. */
  ghost predicate OneWayBlock(s: State) {
    forall i, j, m, n ::
      (i in Live(s) && j in Live(s) && m in MovesIn(s, i) && n in MovesIn(s, j) && m.from != m.to && n.from != n.to) ==>
      m.Payer() != (n.to, n.asset)
  }

  lemma {:induction false} BlockMoveOf(s: State, ids: seq<OrderId>, m: Move) returns (id: OrderId)
    requires m in BlockMoves(s, ids)
    ensures id in Ids(ids) && m in MovesIn(s, id)
  {
    var before, last := ids[..|ids| - 1], ids[|ids| - 1];
    assert ids == before + [last];
    OneMore(before, last);
    if m in MovesIn(s, last) {
      id := last;
    } else {
      id := BlockMoveOf(s, before, m);
    }
  }

  lemma BlockIsOneWay(s: State, ids: seq<OrderId>)
    requires OneWayBlock(s) && Ids(ids) == Live(s)
    ensures OneWay(BlockMoves(s, ids))
  {
    var moves := BlockMoves(s, ids);
    forall m, n | m in moves && n in moves && m.from != m.to && n.from != n.to
      ensures m.Payer() != (n.to, n.asset)
    {
      var i := BlockMoveOf(s, ids, m);
      var j := BlockMoveOf(s, ids, n);
    }
  }

  /** A block in which no purse both pays and is paid can end, and then in any order, exactly
      when everybody holds, free and reserved, all that the block takes from it. */
  lemma OneWayBlockEndsIff(s: State)
    requires OneWayBlock(s)
    ensures (exists t :: EndOfBlock(s, t)) <==> forall p: Purse :: PaidInBlock(s, p) <= Holding(s.ledger, p)
    ensures forall ids :: Distinct(ids) && Ids(ids) == Live(s) ==>
      (SettleAll(s, ids).Some? <==> forall p: Purse :: PaidInBlock(s, p) <= Holding(s.ledger, p))
  {
    BlockEndsIff(s);
    forall ids | Distinct(ids) && Ids(ids) == Live(s)
      ensures Payable(s.ledger, BlockMoves(s, ids)) <==> forall p: Purse :: PaidInBlock(s, p) <= Holding(s.ledger, p)
      ensures SettleAll(s, ids).Some? <==> Payable(s.ledger, BlockMoves(s, ids))
    {
      BlockFailsIff(s, ids);
      BlockIsOneWay(s, ids);
      OneWayPayableIff(s.ledger, BlockMoves(s, ids));
      forall p: Purse
        ensures PaidOut(BlockMoves(s, ids), p) == PaidInBlock(s, p)
      {
        BlockPays(s, ids, p);
      }
    }
    var listing := Listing(Live(s));
    assert Distinct(listing) && Ids(listing) == Live(s);
  }

  // ---------- blocks in which sellers only sell ----------

  /** An account takes an order in this block. */
  ghost predicate Takes(s: State, id: OrderId, a: Account) {
    exists i :: 0 <= i < |TakesOf(s, id)| && TakesOf(s, id)[i].taker == a
  }

  /** Who sells in this block does not take; nobody sells what it gets for another sale, and
      nobody pays with what it takes: a look at orders and takes before the block ends. */
  ghost predicate SellersOnlySell(s: State) {
    && (forall i, j :: i in Live(s) && j in Live(s) ==> !Takes(s, j, s.orders[i].seller))
    && (forall i, j :: i in Live(s) && j in Live(s) ==>
         (s.orders[i].seller, s.orders[i].base) != (s.orders[j].seller, s.orders[j].quote))
    && (forall i, j, a :: i in Live(s) && j in Live(s) && Takes(s, i, a) && Takes(s, j, a) ==>
         s.orders[i].quote != s.orders[j].base)
  }

  /** What the first `n` takes charge one of the takers. */
  function ChargedTo(order: Order, takes: seq<Take>, n: nat, p: Purse): nat
    requires n <= |takes|
  {
    if n == 0 then 0
    else
      ChargedTo(order, takes, n - 1, p)
      + if p == (takes[n - 1].taker, order.quote) then Charge(order, takes, n - 1) else 0
  }

  lemma {:induction false} ChargedWithinReserved(order: Order, takes: seq<Take>, n: nat, p: Purse)
    requires n <= |takes|
    ensures ChargedTo(order, takes, n, p) <= Reservations(order, takes, n, p)
  {
    if n > 0 {
      ChargedWithinReserved(order, takes, n - 1, p);
      var fill, take := Fill(order, takes, n - 1), takes[n - 1];
      QuoteMonotone(fill, take.amount, take.limit, take.limit);
    }
  }

  /** The first takes are none of an account's. */
  ghost predicate NoneBy(takes: seq<Take>, n: nat, a: Account)
    requires n <= |takes|
  {
    forall i :: 0 <= i < n ==> takes[i].taker != a
  }

  /** An order pays its fills out of the seller's purse and its charges out of the takers'. */
  lemma {:induction false} OrderPays(order: Order, takes: seq<Take>, n: nat, p: Purse)
    requires n <= |takes| && NoneBy(takes, n, order.seller)
    ensures PaidOut(OrderMoves(order, takes, n), p)
      == (if p == (order.seller, order.base) then Fills(order, takes, n) else 0) + ChargedTo(order, takes, n, p)
  {
    if n > 0 {
      OrderPays(order, takes, n - 1, p);
      var a := Move(order.base, order.seller, takes[n - 1].taker, Fill(order, takes, n - 1));
      var b := Move(order.quote, takes[n - 1].taker, order.seller, Charge(order, takes, n - 1));
      assert OrderMoves(order, takes, n) == (OrderMoves(order, takes, n - 1) + [a]) + [b];
      PaidOutOneMore(OrderMoves(order, takes, n - 1), a, p);
      PaidOutOneMore(OrderMoves(order, takes, n - 1) + [a], b, p);
    }
  }

  lemma {:induction false} NotCharged(order: Order, takes: seq<Take>, n: nat, p: Purse)
    requires n <= |takes| && NoneBy(takes, n, p.0)
    ensures ChargedTo(order, takes, n, p) == 0
  {
    if n > 0 {
      NotCharged(order, takes, n - 1, p);
    }
  }

  lemma SortedTakesSame(s: State, id: OrderId, a: Account)
    ensures var sorted := ByLimit(TakesOf(s, id)); Takes(s, id, a) <==> !NoneBy(sorted, |sorted|, a)
  {
    var takes, sorted := TakesOf(s, id), ByLimit(TakesOf(s, id));
    ByLimitSorts(takes);
    if i :| 0 <= i < |takes| && takes[i].taker == a {
      assert takes[i] in multiset(sorted);
      var j :| 0 <= j < |sorted| && sorted[j] == takes[i];
    }
    if i :| 0 <= i < |sorted| && sorted[i].taker == a {
      assert sorted[i] in multiset(takes);
      var j :| 0 <= j < |takes| && takes[j] == sorted[i];
    }
  }

  /** What a live order pays: what it sells, and charges within what its takers reserved. */
  lemma PaidInIs(s: State, id: OrderId, p: Purse)
    requires id in Live(s) && !Takes(s, id, s.orders[id].seller)
    ensures
      var sold := if p == (s.orders[id].seller, s.orders[id].base) then SoldIn(s, id) else 0;
      && sold <= PaidIn(s, id, p) <= sold + ReservedBy(s, id, p)
      && (!Takes(s, id, p.0) ==> PaidIn(s, id, p) == sold)
  {
    var order, sorted := s.orders[id], ByLimit(TakesOf(s, id));
    SortedTakesSame(s, id, order.seller);
    SortedTakesSame(s, id, p.0);
    OrderPays(order, sorted, |sorted|, p);
    FillsAddUp(order, sorted, |sorted|);
    AskedSorted(TakesOf(s, id));
    ChargedWithinReserved(order, sorted, |sorted|, p);
    ReservationsSorted(order, TakesOf(s, id), p);
    if !Takes(s, id, p.0) {
      NotCharged(order, sorted, |sorted|, p);
    }
  }

  /** The two ends of a payment of an order: one is the seller, the other the taker. */
  predicate IsPaymentWith(order: Order, taker: Account, m: Move) {
    || (m.asset == order.base && m.from == order.seller && m.to == taker)
    || (m.asset == order.quote && m.from == taker && m.to == order.seller)
  }

  lemma {:induction false} MoveOfOrder(order: Order, takes: seq<Take>, n: nat, m: Move)
    requires n <= |takes| && m in OrderMoves(order, takes, n)
    ensures exists i :: 0 <= i < n && IsPaymentWith(order, takes[i].taker, m)
  {
    if n > 0 {
      if m in OrderMoves(order, takes, n - 1) {
        MoveOfOrder(order, takes, n - 1, m);
      } else {
        assert IsPaymentWith(order, takes[n - 1].taker, m);
      }
    }
  }

  lemma SortedTaker(s: State, id: OrderId, i: nat)
    requires i < |ByLimit(TakesOf(s, id))|
    ensures Takes(s, id, ByLimit(TakesOf(s, id))[i].taker)
  {
    var takes, sorted := TakesOf(s, id), ByLimit(TakesOf(s, id));
    ByLimitSorts(takes);
    assert sorted[i] in multiset(takes);
    var j :| 0 <= j < |takes| && takes[j] == sorted[i];
  }

  lemma MoveIn(s: State, id: OrderId, m: Move)
    requires id in Live(s) && m in MovesIn(s, id)
    ensures
      var order := s.orders[id];
      || (m.asset == order.base && m.from == order.seller && Takes(s, id, m.to))
      || (m.asset == order.quote && Takes(s, id, m.from) && m.to == order.seller)
  {
    var sorted := ByLimit(TakesOf(s, id));
    MoveOfOrder(s.orders[id], sorted, |sorted|, m);
    var i :| 0 <= i < |sorted| && IsPaymentWith(s.orders[id], sorted[i].taker, m);
    SortedTaker(s, id, i);
  }

  lemma SellersMakeOneWay(s: State)
    requires SellersOnlySell(s)
    ensures OneWayBlock(s)
  {
    forall i, j, m, n |
      i in Live(s) && j in Live(s) && m in MovesIn(s, i) && n in MovesIn(s, j) && m.from != m.to && n.from != n.to
      ensures m.Payer() != (n.to, n.asset)
    {
      MoveIn(s, i, m);
      MoveIn(s, j, n);
    }
  }

  /** What live orders sell out of a purse. */
  ghost function SoldOutOf(s: State, p: Purse): int {
    Sum(Live(s), (id: OrderId) => SoldFrom(s, id, p))
  }

  function SoldFrom(s: State, id: OrderId, p: Purse): nat {
    if id in s.orders && p == (s.orders[id].seller, s.orders[id].base) then SoldIn(s, id) else 0
  }

  /** The takers' reservations are there. */
  ghost predicate TakersCovered(s: State) {
    forall p: Purse {:trigger At(s.ledger.reserved, p)} ::
      Sum(Live(s), (id: OrderId) => if id in s.orders then ReservedBy(s, id, p) else 0) <= At(s.ledger.reserved, p)
  }

  lemma PaidOfPurse(s: State, p: Purse)
    requires SellersOnlySell(s) && TakersCovered(s)
    ensures PaidInBlock(s, p) <= Holding(s.ledger, p) <==> SoldOutOf(s, p) <= Holding(s.ledger, p)
  {
    var paid, sold := (id: OrderId) => PaidIn(s, id, p), (id: OrderId) => SoldFrom(s, id, p);
    forall id | id in Live(s)
      ensures sold(id) <= paid(id) <= sold(id) + ReservedBy(s, id, p)
      ensures !Takes(s, id, p.0) ==> paid(id) == sold(id)
    {
      PaidInIs(s, id, p);
    }
    if id :| id in Live(s) && s.orders[id].seller == p.0 {
      SumEqual(Live(s), paid, sold);
    } else {
      var reserved := (id: OrderId) => if id in s.orders then ReservedBy(s, id, p) else 0;
      SumZero(Live(s), sold);
      SumAtMost(Live(s), paid, reserved);
      assert Sum(Live(s), reserved) <= At(s.ledger.reserved, p);
    }
  }

  /** With takers' reservations in place and sellers that only sell, a block can end exactly
      when every seller holds, free and reserved, what its orders sell. */
  lemma SellersDecideIff(s: State)
    requires SellersOnlySell(s) && TakersCovered(s)
    ensures (exists t :: EndOfBlock(s, t)) <==> forall p: Purse :: SoldOutOf(s, p) <= Holding(s.ledger, p)
  {
    SellersMakeOneWay(s);
    OneWayBlockEndsIff(s);
    forall p: Purse
      ensures PaidInBlock(s, p) <= Holding(s.ledger, p) <==> SoldOutOf(s, p) <= Holding(s.ledger, p)
    {
      PaidOfPurse(s, p);
    }
  }

  /** No two live orders sell out of one purse. */
  ghost predicate OwnPurses(s: State) {
    forall i, j :: i in Live(s) && j in Live(s) && i != j ==>
      (s.orders[i].seller, s.orders[i].base) != (s.orders[j].seller, s.orders[j].base)
  }

  lemma SoldOutOfOne(s: State, id: OrderId)
    requires OwnPurses(s) && id in Live(s)
    ensures SoldOutOf(s, (s.orders[id].seller, s.orders[id].base)) == SoldIn(s, id)
  {
    var p := (s.orders[id].seller, s.orders[id].base);
    SumRemove(Live(s), (j: OrderId) => SoldFrom(s, j, p), id);
    SumZero(Live(s) - {id}, (j: OrderId) => SoldFrom(s, j, p));
  }

  lemma SoldOutOfNone(s: State, p: Purse)
    requires forall id :: id in Live(s) ==> p != (s.orders[id].seller, s.orders[id].base)
    ensures SoldOutOf(s, p) == 0
  {
    SumZero(Live(s), (j: OrderId) => SoldFrom(s, j, p));
  }

  /** And where no two live orders sell out of one purse, order by order. */
  lemma EachSellerDecidesIff(s: State)
    requires SellersOnlySell(s) && TakersCovered(s) && OwnPurses(s)
    ensures (exists t :: EndOfBlock(s, t)) <==>
      forall id :: id in Live(s) ==> SoldIn(s, id) <= Holding(s.ledger, (s.orders[id].seller, s.orders[id].base))
  {
    SellersDecideIff(s);
    forall id | id in Live(s)
      ensures SoldOutOf(s, (s.orders[id].seller, s.orders[id].base)) == SoldIn(s, id)
    {
      SoldOutOfOne(s, id);
    }
    forall p: Purse | forall id :: id in Live(s) ==> p != (s.orders[id].seller, s.orders[id].base)
      ensures SoldOutOf(s, p) == 0
    {
      SoldOutOfNone(s, p);
    }
  }
}
