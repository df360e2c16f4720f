/** What holds of bond offers over every run of offers, purchases, cancellations and
    outside transfers. */
module BondedFinanceTheorems {
  import opened Amounts
  import opened Arithmetic
  import opened ProRata
  import opened BondedFinance

  // ---------- one purchase ----------

  /** A purchase within the offer is worth at least the minimum vested transfer, for the
      price as for the reward, and never overflows. */
  lemma PurchaseFits(offer: Offer, config: Config, n: nat)
    requires Terms(offer, config) && 0 < n <= offer.bonds
    ensures config.minVestedTransfer <= n * offer.bondPrice <= MAX_BALANCE
    ensures config.minVestedTransfer <= n * config.minVestedTransfer <= Share(n, PotOf(offer)) <= offer.reward
  {
    var min := config.minVestedTransfer;
    MinimumShare(PotOf(offer), n, min);
    ShareWithin(n, PotOf(offer));
    MulLe(n, offer.bonds, offer.bondPrice);
    MulLe(1, n, offer.bondPrice);
    MulLe(1, n, min);
  }

  lemma SoldKeepsTerms(entry: Entry, config: Config, n: nat, share: nat)
    requires Terms(entry.offer, config) && 0 < n <= entry.offer.bonds
    requires share == Share(n, PotOf(entry.offer)) <= entry.offer.reward
    ensures Terms(Sold(entry, n, share).offer, config)
  {
    var offer := entry.offer;
    MinimumShare(PotOf(offer), n, config.minVestedTransfer);
    ShareWithin(n, PotOf(offer));
    MulLe(offer.bonds - n, offer.bonds, offer.bondPrice);
  }

  /** The rewards of a purchase, once the buyer's price has reached the beneficiary. */
  lemma RewardsArePaid(l: Ledger, config: Config, id: OfferId, entry: Entry, from: nat, n: nat, value: nat, share: nat)
    requires Terms(entry.offer, config) && 0 < n <= entry.offer.bonds
    requires config.minVestedTransfer <= value
    requires config.minVestedTransfer <= share <= entry.offer.reward
    requires forall asset: Asset {:trigger At(l.free, (OfferAccount(id), asset))} ::
      Reserve(config, entry.offer, asset)
      + (if (OfferAccount(id), asset) == (entry.offer.beneficiary, entry.offer.asset) then value else 0)
      <= At(l.free, (OfferAccount(id), asset))
    requires value <= At(l.free, (entry.offer.beneficiary, entry.offer.asset))
    ensures SettleRewards(l, config, id, entry, from, n, value, share).Moved?
  {
    var offer := entry.offer;
    assert Reserve(config, offer, offer.rewardAsset) <= At(l.free, (OfferAccount(id), offer.rewardAsset));
    assert Reserve(config, offer, config.native) <= At(l.free, (OfferAccount(id), config.native));
  }

  lemma PriceReaches(l: Ledger, offer: Offer, config: Config, id: OfferId, from: nat, value: nat)
    requires Holds(l, config, id, offer)
    requires value <= At(l.free, (User(from), offer.asset))
    ensures
      var paid := Pay(l, (User(from), offer.asset), (offer.beneficiary, offer.asset), value);
      && paid.Moved?
      && value <= At(paid.ledger.free, (offer.beneficiary, offer.asset))
      && forall asset: Asset {:trigger At(paid.ledger.free, (OfferAccount(id), asset))} ::
           Reserve(config, offer, asset)
           + (if (OfferAccount(id), asset) == (offer.beneficiary, offer.asset) then value else 0)
           <= At(paid.ledger.free, (OfferAccount(id), asset))
  {
    forall asset: Asset
      ensures Reserve(config, offer, asset) <= At(l.free, (OfferAccount(id), asset))
    {
    }
  }

  /** A purchase succeeds exactly when the offer is there and not sold out, the number of
      bonds is positive and available, and the buyer can pay the price: the reward, the
      vested return of the price and the stake are always there to be paid. */
  lemma BondSucceedsIff(s: State, id: OfferId, from: nat, n: nat)
    requires Funded(s)
    ensures Bond(s, id, from, n).Done? <==>
      && id in s.offers
      && 0 < n <= s.offers[id].offer.bonds
      && n * s.offers[id].offer.bondPrice <= At(s.ledger.free, (User(from), s.offers[id].offer.asset))
  {
    if id in s.offers && 0 < n <= s.offers[id].offer.bonds {
      var entry := s.offers[id];
      var offer := entry.offer;
      PurchaseFits(offer, s.config, n);
      var value, share := n * offer.bondPrice, Share(n, PotOf(offer));
      SettleIff(s.ledger, s.config, id, entry, from, n, value, share);
    }
  }

  lemma SettleIff(l: Ledger, config: Config, id: OfferId, entry: Entry, from: nat, n: nat, value: nat, share: nat)
    requires Terms(entry.offer, config) && 0 < n <= entry.offer.bonds
    requires config.minVestedTransfer <= value
    requires config.minVestedTransfer <= share <= entry.offer.reward
    requires Holds(l, config, id, entry.offer)
    ensures Settle(l, config, id, entry, from, n, value, share).Moved?
      <==> value <= At(l.free, (User(from), entry.offer.asset))
  {
    if value <= At(l.free, (User(from), entry.offer.asset)) {
      PriceReaches(l, entry.offer, config, id, from, value);
      var l1 := Pay(l, (User(from), entry.offer.asset), (entry.offer.beneficiary, entry.offer.asset), value).ledger;
      RewardsArePaid(l1, config, id, entry, from, n, value, share);
    }
  }

  // ---------- offer accounts stay funded ----------

  /** What one purchase takes out of the offer's account. */
  function Spent(config: Config, offer: Offer, n: nat, share: nat, asset: Asset): nat {
    (if asset == offer.rewardAsset then share else 0)
    + (if asset == config.native && n == offer.bonds then config.stake else 0)
  }

  /** A purchase takes no more than that out of its own offer's account and nothing out of
      any other, even where the beneficiary is itself an offer account. */
  lemma SettleSpends(l: Ledger, config: Config, id: OfferId, entry: Entry, from: nat, n: nat, value: nat, share: nat, j: OfferId, asset: Asset)
    requires Settle(l, config, id, entry, from, n, value, share).Moved?
    ensures
      At(l.free, (OfferAccount(j), asset))
      <= At(Settle(l, config, id, entry, from, n, value, share).ledger.free, (OfferAccount(j), asset))
         + if j == id then Spent(config, entry.offer, n, share, asset) else 0
  {
    var offer := entry.offer;
    var p := (OfferAccount(j), asset);
    var l1 := Pay(l, (User(from), offer.asset), (offer.beneficiary, offer.asset), value).ledger;
    assert At(l1.free, p) == At(l.free, p) + if p == (offer.beneficiary, offer.asset) then value else 0;
    RewardsSpend(l1, config, id, entry, from, n, value, share, j, asset);
  }

  lemma RewardsSpend(l: Ledger, config: Config, id: OfferId, entry: Entry, from: nat, n: nat, value: nat, share: nat, j: OfferId, asset: Asset)
    requires SettleRewards(l, config, id, entry, from, n, value, share).Moved?
    ensures
      At(l.free, (OfferAccount(j), asset))
      <= At(SettleRewards(l, config, id, entry, from, n, value, share).ledger.free, (OfferAccount(j), asset))
         + (if j == id then Spent(config, entry.offer, n, share, asset) else 0)
         + (if (OfferAccount(j), asset) == (entry.offer.beneficiary, entry.offer.asset) then value else 0)
  {
    var offer := entry.offer;
    var p := (OfferAccount(j), asset);
    var l1 := Vest(l, (OfferAccount(id), offer.rewardAsset), (User(from), offer.rewardAsset), share,
                   offer.rewardMaturity, config.minVestedTransfer).ledger;
    assert At(l1.free, p) == At(l.free, p) - if p == (OfferAccount(id), offer.rewardAsset) then share else 0;
    var l2 := GiveBack(l1, config, offer, from, value).ledger;
    assert At(l1.free, p) <= At(l2.free, p) + if p == (offer.beneficiary, offer.asset) then value else 0;
  }

  lemma BondSettles(s: State, id: OfferId, from: nat, n: nat)
    requires Bond(s, id, from, n).Done?
    ensures
      var o, entry := Bond(s, id, from, n), s.offers[id];
      Settle(s.ledger, s.config, id, entry, from, n, n * entry.offer.bondPrice, o.value) == Moved(o.state.ledger)
  {
  }

  lemma BondSpends(s: State, id: OfferId, from: nat, n: nat, j: OfferId, asset: Asset)
    requires Bond(s, id, from, n).Done?
    ensures
      At(s.ledger.free, (OfferAccount(j), asset))
      <= At(Bond(s, id, from, n).state.ledger.free, (OfferAccount(j), asset))
         + if j == id then Spent(s.config, s.offers[id].offer, n, Bond(s, id, from, n).value, asset) else 0
  {
    var o, entry := Bond(s, id, from, n), s.offers[id];
    var value: nat := n * entry.offer.bondPrice;
    BondSettles(s, id, from, n);
    SettledSpends(s.ledger, o.state.ledger, s.config, id, entry, from, n, value, o.value, j, asset);
  }

  lemma SettledSpends(l: Ledger, l1: Ledger, config: Config, id: OfferId, entry: Entry, from: nat, n: nat, value: nat, share: nat, j: OfferId, asset: Asset)
    requires Settle(l, config, id, entry, from, n, value, share) == Moved(l1)
    ensures
      At(l.free, (OfferAccount(j), asset))
      <= At(l1.free, (OfferAccount(j), asset)) + if j == id then Spent(config, entry.offer, n, share, asset) else 0
  {
    SettleSpends(l, config, id, entry, from, n, value, share, j, asset);
  }

  lemma BondHolds(s: State, id: OfferId, from: nat, n: nat, j: OfferId)
    requires Bond(s, id, from, n).Done?
    requires j in s.offers && Holds(s.ledger, s.config, j, s.offers[j].offer)
    ensures Holds(Bond(s, id, from, n).state.ledger, s.config, j, Bond(s, id, from, n).state.offers[j].offer)
  {
    var t := Bond(s, id, from, n).state;
    forall asset: Asset
      ensures Reserve(s.config, t.offers[j].offer, asset) <= At(t.ledger.free, (OfferAccount(j), asset))
    {
      BondSpends(s, id, from, n, j, asset);
    }
  }

  lemma BondKeepsFunded(s: State, id: OfferId, from: nat, n: nat)
    requires Funded(s)
    ensures Funded(Commit(s, Bond(s, id, from, n)))
  {
    var o := Bond(s, id, from, n);
    if o.Done? {
      SoldKeepsTerms(s.offers[id], s.config, n, o.value);
      forall j | j in o.state.offers
        ensures Holds(o.state.ledger, s.config, j, o.state.offers[j].offer)
      {
        BondHolds(s, id, from, n, j);
      }
    }
  }

  /** Creating an offer adds exactly its reserve to its account. */
  lemma FundAdds(l: Ledger, config: Config, id: OfferId, from: nat, offer: Offer, j: OfferId, asset: Asset)
    requires offer.bonds > 0 && Fund(l, config, id, from, offer).Moved?
    ensures At(Fund(l, config, id, from, offer).ledger.free, (OfferAccount(j), asset))
      == At(l.free, (OfferAccount(j), asset)) + if j == id then Reserve(config, offer, asset) else 0
  {
    var l1 := Pay(l, (User(from), config.native), (OfferAccount(id), config.native), config.stake).ledger;
    assert At(l1.free, (OfferAccount(j), asset))
      == At(l.free, (OfferAccount(j), asset)) + if j == id && asset == config.native then config.stake else 0;
  }

  lemma OfferKeepsFunded(s: State, from: nat, offer: Offer)
    requires Funded(s)
    ensures Funded(Commit(s, MakeOffer(s, from, offer)))
  {
    var o := MakeOffer(s, from, offer);
    if o.Done? {
      ValidGivesTerms(offer, s.config);
      forall j | j in o.state.offers
        ensures Holds(o.state.ledger, s.config, j, o.state.offers[j].offer)
      {
        assert j != o.value ==> Holds(s.ledger, s.config, j, s.offers[j].offer);
        forall asset: Asset
          ensures Reserve(s.config, o.state.offers[j].offer, asset) <= At(o.state.ledger.free, (OfferAccount(j), asset))
        {
          FundAdds(s.ledger, s.config, o.value, from, offer, j, asset);
        }
      }
    }
  }

  /** Cancelling takes nothing out of the other offers' accounts. */
  lemma RefundSpares(l: Ledger, config: Config, id: OfferId, entry: Entry, j: OfferId, asset: Asset)
    requires Refund(l, config, id, entry).Moved? && j != id
    ensures At(Refund(l, config, id, entry).ledger.free, (OfferAccount(j), asset)) == At(l.free, (OfferAccount(j), asset))
  {
    var l1 := ReturnStake(l, config, id, entry.issuer).ledger;
    assert At(l1.free, (OfferAccount(j), asset)) == At(l.free, (OfferAccount(j), asset));
  }

  lemma CancelKeepsFunded(s: State, id: OfferId, caller: Caller)
    requires Funded(s)
    ensures Funded(Commit(s, Cancel(s, id, caller)))
  {
    var o := Cancel(s, id, caller);
    if o.Done? {
      forall j | j in o.state.offers
        ensures Holds(o.state.ledger, s.config, j, o.state.offers[j].offer)
      {
        assert Holds(s.ledger, s.config, j, s.offers[j].offer);
        forall asset: Asset
          ensures Reserve(s.config, s.offers[j].offer, asset) <= At(o.state.ledger.free, (OfferAccount(j), asset))
        {
          RefundSpares(s.ledger, s.config, id, s.offers[id], j, asset);
        }
      }
    }
  }

  lemma StepKeepsFunded(s: State, op: Op)
    requires Funded(s)
    ensures Funded(Apply(s, op))
  {
    match op
    case OpOffer(from, offer) => OfferKeepsFunded(s, from, offer);
    case OpBond(id, from, n) => BondKeepsFunded(s, id, from, n);
    case OpCancel(id, caller) => CancelKeepsFunded(s, id, caller);
    case OpMoveFunds(ledger) =>
      forall j | j in s.offers
        ensures LeavesOffers(s.ledger, ledger) ==> Holds(ledger, s.config, j, s.offers[j].offer)
      {
        assert Holds(s.ledger, s.config, j, s.offers[j].offer);
      }
  }

  /** In every reachable state each offer account holds the unsold reward, and the stake
      until the last bond is sold. */
  lemma {:induction false} RunKeepsFunded(s: State, ops: seq<Op>)
    requires Funded(s)
    ensures Funded(Run(s, ops))
  {
    if ops != [] {
      RunKeepsFunded(s, ops[..|ops| - 1]);
      StepKeepsFunded(Run(s, ops[..|ops| - 1]), ops[|ops| - 1]);
    }
  }

  /** An authorised caller can always cancel an offer that still has bonds; a sold-out offer
      only if somebody has sent a new stake to its account. */
  lemma CancelSucceedsIff(s: State, id: OfferId, caller: Caller)
    requires Funded(s)
    ensures Cancel(s, id, caller).Done? <==>
      && id in s.offers
      && (caller.Admin? || caller.account == s.offers[id].issuer)
      && (s.offers[id].offer.bonds > 0
          || s.config.stake <= At(s.ledger.free, (OfferAccount(id), s.config.native)))
  {
    if id in s.offers {
      var entry := s.offers[id];
      assert Reserve(s.config, entry.offer, s.config.native) <= At(s.ledger.free, (OfferAccount(id), s.config.native));
      assert Reserve(s.config, entry.offer, entry.offer.rewardAsset)
          <= At(s.ledger.free, (OfferAccount(id), entry.offer.rewardAsset));
    }
  }

  // ---------- a whole sale ----------

  /** The sizes of the purchases of an offer that succeed in a run, in order. */
  ghost function Purchases(s: State, ops: seq<Op>, id: OfferId): seq<nat> {
    if ops == [] then []
    else
      var before, op := ops[..|ops| - 1], ops[|ops| - 1];
      Purchases(s, before, id)
      + if op.OpBond? && op.id == id && Bond(Run(s, before), op.id, op.buyer, op.n).Done? then [op.n] else []
  }

  /** The rewards these purchases were told they get. */
  ghost function Rewarded(s: State, ops: seq<Op>, id: OfferId): nat {
    if ops == [] then 0
    else
      var before, op := ops[..|ops| - 1], ops[|ops| - 1];
      Rewarded(s, before, id)
      + if op.OpBond? && op.id == id && Bond(Run(s, before), op.id, op.buyer, op.n).Done?
        then Bond(Run(s, before), op.id, op.buyer, op.n).value else 0
  }

  /** An offer that is gone stays gone: ids are never given out twice. */
  lemma GoneStaysGone(s: State, op: Op, id: OfferId)
    requires Funded(s) && id <= s.count && id in Apply(s, op).offers
    ensures id in s.offers && s.count <= Apply(s, op).count
    ensures s.config == Apply(s, op).config
  {
  }

  /** A step either sells some of an offer or leaves it alone. */
  lemma OfferStep(s: State, op: Op, id: OfferId)
    requires Funded(s) && id in s.offers && id in Apply(s, op).offers
    ensures
      if op.OpBond? && op.id == id && Bond(s, op.id, op.buyer, op.n).Done?
      then Apply(s, op).offers[id] == Sold(s.offers[id], op.n, Bond(s, op.id, op.buyer, op.n).value)
      else Apply(s, op).offers[id] == s.offers[id]
  {
  }

  lemma CountGrows(s: State, op: Op)
    ensures s.count <= Apply(s, op).count && s.config == Apply(s, op).config
  {
  }

  lemma {:induction false} RunCountGrows(s: State, ops: seq<Op>)
    ensures s.count <= Run(s, ops).count && s.config == Run(s, ops).config
  {
    if ops != [] {
      RunCountGrows(s, ops[..|ops| - 1]);
      CountGrows(Run(s, ops[..|ops| - 1]), ops[|ops| - 1]);
    }
  }

  /** An offer's terms other than what is left of it. */
  ghost predicate SameTerms(a: Entry, b: Entry) {
    b == a.(offer := a.offer.(bonds := b.offer.bonds, reward := b.offer.reward))
  }

  /** An entry is a first one with some purchases taken out, which were paid this much. */
  ghost predicate SoldOff(first: Entry, now: Entry, ns: seq<nat>, paid: nat) {
    && SameTerms(first, now)
    && Total(ns) <= first.offer.bonds
    && PotOf(now.offer) == Drain(PotOf(first.offer), ns)
    && paid == Payout(PotOf(first.offer), ns)
  }

  lemma SellOffMore(first: Entry, now: Entry, ns: seq<nat>, paid: nat, n: nat, share: nat)
    requires SoldOff(first, now, ns, paid)
    requires n <= now.offer.bonds && share == Share(n, PotOf(now.offer)) <= now.offer.reward
    ensures SoldOff(first, Sold(now, n, share), ns + [n], paid + share)
  {
    DrainOneMore(PotOf(first.offer), ns, n);
  }

  /** Whatever else happens, an offer that is still there is its first self with the
      purchases so far taken out as shares of its pot, and the purchases were paid those. */
  lemma {:induction false} SaleIsDrain(s: State, ops: seq<Op>, id: OfferId)
    requires Funded(s) && id in s.offers && id in Run(s, ops).offers
    ensures SoldOff(s.offers[id], Run(s, ops).offers[id], Purchases(s, ops, id), Rewarded(s, ops, id))
  {
    if ops != [] {
      var before, op := ops[..|ops| - 1], ops[|ops| - 1];
      var t := Run(s, before);
      RunKeepsFunded(s, before);
      RunCountGrows(s, before);
      GoneStaysGone(t, op, id);
      SaleIsDrain(s, before, id);
      SaleStep(s.offers[id], t, op, id, Purchases(s, before, id), Rewarded(s, before, id));
    }
  }

  lemma SaleStep(first: Entry, t: State, op: Op, id: OfferId, ns: seq<nat>, paid: nat)
    requires Funded(t) && id in t.offers && id in Apply(t, op).offers
    requires SoldOff(first, t.offers[id], ns, paid)
    ensures
      if op.OpBond? && op.id == id && Bond(t, op.id, op.buyer, op.n).Done?
      then SoldOff(first, Apply(t, op).offers[id], ns + [op.n], paid + Bond(t, op.id, op.buyer, op.n).value)
      else SoldOff(first, Apply(t, op).offers[id], ns + [], paid)
  {
    OfferStep(t, op, id);
    assert ns + [] == ns;
    if op.OpBond? && op.id == id && Bond(t, op.id, op.buyer, op.n).Done? {
      SellOffMore(first, t.offers[id], ns, paid, op.n, Bond(t, op.id, op.buyer, op.n).value);
    }
  }

  /** Over any run with at least one purchase, the rewards paid are the proportion of the
      reward sold, short by less than one per purchase, and what one purchase of all these
      bonds would have paid is never less; the reward per remaining bond has not fallen. */
  lemma SaleIsProportional(s: State, ops: seq<Op>, id: OfferId)
    requires Funded(s) && id in s.offers && id in Run(s, ops).offers && s.offers[id].offer.bonds > 0
    ensures
      Proportional(PotOf(s.offers[id].offer), PotOf(Run(s, ops).offers[id].offer),
                   |Purchases(s, ops, id)|, Total(Purchases(s, ops, id)), Rewarded(s, ops, id))
  {
    SaleIsDrain(s, ops, id);
    DrainIsProportional(PotOf(s.offers[id].offer), Purchases(s, ops, id));
  }

  /** Every purchase of a reachable state is rewarded with at least the minimum vested
      transfer for each of its bonds. */
  lemma EveryBondEarnsTheMinimum(s: State, ops: seq<Op>, id: OfferId, from: nat, n: nat)
    requires Funded(s) && Bond(Run(s, ops), id, from, n).Done?
    ensures n * s.config.minVestedTransfer <= Bond(Run(s, ops), id, from, n).value
  {
    RunKeepsFunded(s, ops);
    RunCountGrows(s, ops);
    PurchaseFits(Run(s, ops).offers[id].offer, s.config, n);
  }

  // ---------- a sold-out offer ----------

  lemma RunTwo(s: State, first: Op, second: Op)
    ensures Run(s, [first, second]) == Apply(Apply(s, first), second)
  {
    assert [first, second][..1] == [first];
    assert [first][..0] == [];
    assert Run(s, [first]) == Apply(s, first);
  }

  const LAST_BOND: Offer := Offer(User(1), 3, 2, 1, Infinite, 4, 5, 1)

  lemma OneBondIsOffered(s: State)
    requires s == State(Config(1, 1, 7, 9), map[], 0, Ledger(map[(User(1), 9) := 7, (User(1), 4) := 5, (User(2), 3) := 2], map[]))
    ensures
      var o := MakeOffer(s, 1, LAST_BOND);
      && o.Done? && o.state.config == s.config && o.state.offers == map[1 := Entry(1, LAST_BOND)]
      && At(o.state.ledger.free, (OfferAccount(1), 9)) == 7 && At(o.state.ledger.free, (OfferAccount(1), 4)) == 5
      && At(o.state.ledger.free, (User(2), 3)) == 2
  {
    assert ValidOffer(LAST_BOND, s.config);
  }

  lemma OneBondIsSold(s: State)
    requires s.config == Config(1, 1, 7, 9) && s.offers == map[1 := Entry(1, LAST_BOND)]
    requires At(s.ledger.free, (OfferAccount(1), 9)) == 7 && At(s.ledger.free, (OfferAccount(1), 4)) == 5
    requires At(s.ledger.free, (User(2), 3)) == 2
    ensures
      var o := Bond(s, 1, 2, 1);
      && o.Done? && o.state.config == s.config && 1 in o.state.offers
      && o.state.offers[1].issuer == 1 && o.state.offers[1].offer.bonds == 0
      && At(o.state.ledger.free, (OfferAccount(1), 9)) == 0
  {
    assert Share(1, PotOf(LAST_BOND)) == 5;
  }

  /** From genesis: an offer of one bond is sold out, and not even its issuer can cancel it. */
  lemma SoldOutCannotBeCancelled() returns (s: State, ops: seq<Op>)
    ensures Genesis(s) && Cancel(Run(s, ops), 1, Signed(1)) == Failed(BalanceLow)
    ensures 1 in Run(s, ops).offers && Run(s, ops).offers[1].issuer == 1 && Run(s, ops).offers[1].offer.bonds == 0
  {
    s := State(Config(1, 1, 7, 9), map[], 0, Ledger(map[(User(1), 9) := 7, (User(1), 4) := 5, (User(2), 3) := 2], map[]));
    ops := [OpOffer(1, LAST_BOND), OpBond(1, 2, 1)];
    RunTwo(s, OpOffer(1, LAST_BOND), OpBond(1, 2, 1));
    OneBondIsOffered(s);
    OneBondIsSold(MakeOffer(s, 1, LAST_BOND).state);
  }
}
