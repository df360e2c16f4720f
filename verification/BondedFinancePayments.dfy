/** Who pays whom: what offering, buying and cancelling do to every purse, also where the
    assets coincide, and where beneficiary, buyer and issuer are one. */
module BondedFinancePayments {
  import opened Amounts
  import opened Arithmetic
  import opened ProRata
  import opened BondedFinance

  /** An amount, in one purse only. */
  function Only(p: Purse, q: Purse, amount: nat): nat {
    if p == q then amount else 0
  }

  function OnlySchedule(p: Purse, q: Purse, schedule: Schedule): seq<Schedule> {
    if p == q then [schedule] else []
  }

  lemma PayIs(l: Ledger, from: Purse, to: Purse, amount: nat, p: Purse)
    requires Pay(l, from, to, amount).Moved?
    ensures
      var l1 := Pay(l, from, to, amount).ledger;
      && l1.vested == l.vested
      && At(l1.free, p) == At(l.free, p) - Only(p, from, amount) + Only(p, to, amount)
  {
  }

  lemma VestIs(l: Ledger, from: Purse, to: Purse, amount: nat, period: nat, min: nat, p: Purse)
    requires Vest(l, from, to, amount, period, min).Moved?
    ensures
      var l1 := Vest(l, from, to, amount, period, min).ledger;
      && At(l1.free, p) == At(l.free, p) - Only(p, from, amount)
      && SchedulesOf(l1.vested, p) == SchedulesOf(l.vested, p) + OnlySchedule(p, to, Schedule(amount, period))
  {
  }

  /** The issuer's stake and the reward move to the account of the offer. */
  lemma OfferMovesFunds(s: State, from: nat, offer: Offer, p: Purse)
    requires MakeOffer(s, from, offer).Done?
    ensures
      var o := MakeOffer(s, from, offer);
      var stake, reward := s.config.stake, offer.reward;
      && o.value == s.count + 1 && o.value in o.state.offers && o.state.offers[o.value] == Entry(from, offer)
      && o.state.ledger.vested == s.ledger.vested
      && At(o.state.ledger.free, p) == At(s.ledger.free, p)
           - Only(p, (User(from), s.config.native), stake) + Only(p, (OfferAccount(o.value), s.config.native), stake)
           - Only(p, (User(from), offer.rewardAsset), reward) + Only(p, (OfferAccount(o.value), offer.rewardAsset), reward)
  {
    var id := s.count + 1;
    PayIs(s.ledger, (User(from), s.config.native), (OfferAccount(id), s.config.native), s.config.stake, p);
    var l1 := Pay(s.ledger, (User(from), s.config.native), (OfferAccount(id), s.config.native), s.config.stake).ledger;
    PayIs(l1, (User(from), offer.rewardAsset), (OfferAccount(id), offer.rewardAsset), offer.reward, p);
  }

  /** What a purchase does to a purse: the price goes to the beneficiary, and of finite bonds
      on to the buyer, vested; the buyer gets its share of the reward, vested; and the last
      bond returns the stake to the issuer. */
  ghost predicate Purchased(l: Ledger, t: Ledger, config: Config, id: OfferId, entry: Entry,
                            from: nat, n: nat, value: nat, share: nat, p: Purse)
  {
    var offer := entry.offer;
    var buyer, rewarded := (User(from), offer.asset), (User(from), offer.rewardAsset);
    var stake := if n == offer.bonds then config.stake else 0;
    && At(t.free, p) == At(l.free, p)
         - Only(p, buyer, value)
         + Only(p, (offer.beneficiary, offer.asset), if offer.maturity.Finite? then 0 else value)
         - Only(p, (OfferAccount(id), offer.rewardAsset), share)
         - Only(p, (OfferAccount(id), config.native), stake) + Only(p, (User(entry.issuer), config.native), stake)
    && SchedulesOf(t.vested, p) == SchedulesOf(l.vested, p)
         + OnlySchedule(p, rewarded, Schedule(share, offer.rewardMaturity))
         + (if offer.maturity.Finite? then OnlySchedule(p, buyer, Schedule(value, offer.maturity.returnIn)) else [])
  }

  lemma SettleMovesFunds(l: Ledger, config: Config, id: OfferId, entry: Entry, from: nat, n: nat, value: nat, share: nat, p: Purse)
    requires Settle(l, config, id, entry, from, n, value, share).Moved?
    ensures Purchased(l, Settle(l, config, id, entry, from, n, value, share).ledger, config, id, entry, from, n, value, share, p)
  {
    var offer := entry.offer;
    PayIs(l, (User(from), offer.asset), (offer.beneficiary, offer.asset), value, p);
    var l1 := Pay(l, (User(from), offer.asset), (offer.beneficiary, offer.asset), value).ledger;
    VestIs(l1, (OfferAccount(id), offer.rewardAsset), (User(from), offer.rewardAsset), share,
           offer.rewardMaturity, config.minVestedTransfer, p);
    var l2 := Vest(l1, (OfferAccount(id), offer.rewardAsset), (User(from), offer.rewardAsset), share,
                   offer.rewardMaturity, config.minVestedTransfer).ledger;
    var l3 := GiveBack(l2, config, offer, from, value).ledger;
    if offer.maturity.Finite? {
      VestIs(l2, (offer.beneficiary, offer.asset), (User(from), offer.asset), value,
             offer.maturity.returnIn, config.minVestedTransfer, p);
    }
    if n == offer.bonds {
      PayIs(l3, (OfferAccount(id), config.native), (User(entry.issuer), config.native), config.stake, p);
    }
  }

  lemma BondIsSettled(s: State, id: OfferId, from: nat, n: nat)
    requires Bond(s, id, from, n).Done?
    ensures
      var o, entry := Bond(s, id, from, n), s.offers[id];
      && n * entry.offer.bondPrice <= MAX_BALANCE
      && Settle(s.ledger, s.config, id, entry, from, n, n * entry.offer.bondPrice, o.value) == Moved(o.state.ledger)
  {
  }

  /** The payments of `n` bonds of an offer. */
  ghost predicate BondPays(s: State, t: State, id: OfferId, from: nat, n: nat, share: nat, p: Purse) {
    && id in s.offers
    && Purchased(s.ledger, t.ledger, s.config, id, s.offers[id], from, n, n * s.offers[id].offer.bondPrice, share, p)
  }

  /** A purchase is worth the price of its bonds, and moves exactly that and what it is rewarded. */
  lemma BondMovesFunds(s: State, id: OfferId, from: nat, n: nat, p: Purse)
    requires Bond(s, id, from, n).Done?
    ensures BondPays(s, Bond(s, id, from, n).state, id, from, n, Bond(s, id, from, n).value, p)
  {
    var entry := s.offers[id];
    BondIsSettled(s, id, from, n);
    var price: nat := n * entry.offer.bondPrice;
    SettleMovesFunds(s.ledger, s.config, id, entry, from, n, price, Bond(s, id, from, n).value, p);
  }

  /** It is rewarded with its floored share of what is left, and leaves the rest on offer. */
  lemma BondTakesShare(s: State, id: OfferId, from: nat, n: nat)
    requires Bond(s, id, from, n).Done?
    ensures
      var o, offer := Bond(s, id, from, n), s.offers[id].offer;
      && 0 < n <= offer.bonds
      && o.value * offer.bonds <= n * offer.reward < (o.value + 1) * offer.bonds
      && id in o.state.offers && o.state.offers[id].issuer == s.offers[id].issuer
      && o.state.offers[id].offer.bonds == offer.bonds - n
      && o.state.offers[id].offer.reward == offer.reward - o.value
  {
    ShareBounds(n, PotOf(s.offers[id].offer));
  }

  /** A cancellation returns stake and unsold reward to the issuer, whoever calls it. */
  lemma CancelMovesFunds(s: State, id: OfferId, caller: Caller, p: Purse)
    requires Cancel(s, id, caller).Done?
    ensures
      var t, entry := Cancel(s, id, caller).state, s.offers[id];
      var stake, reward, issuer := s.config.stake, entry.offer.reward, User(entry.issuer);
      && id !in t.offers && t.ledger.vested == s.ledger.vested
      && (caller == Admin || caller == Signed(entry.issuer))
      && At(t.ledger.free, p) == At(s.ledger.free, p)
           - Only(p, (OfferAccount(id), s.config.native), stake) + Only(p, (issuer, s.config.native), stake)
           - Only(p, (OfferAccount(id), entry.offer.rewardAsset), reward) + Only(p, (issuer, entry.offer.rewardAsset), reward)
  {
    var entry := s.offers[id];
    PayIs(s.ledger, (OfferAccount(id), s.config.native), (User(entry.issuer), s.config.native), s.config.stake, p);
    var l1 := ReturnStake(s.ledger, s.config, id, entry.issuer).ledger;
    PayIs(l1, (OfferAccount(id), entry.offer.rewardAsset), (User(entry.issuer), entry.offer.rewardAsset), entry.offer.reward, p);
  }

  /** An offer is taken exactly when it sells something, for at least the least vested transfer
      and within the balance type, with as much reward for every bond, enough reward in all and
      times to wait that are not zero; and when its issuer can pay stake and reward. */
  lemma OfferSucceedsIff(s: State, from: nat, offer: Offer)
    ensures MakeOffer(s, from, offer).Done? <==>
      && offer.bonds > 0 && offer.rewardMaturity > 0
      && (offer.maturity.Finite? ==> offer.maturity.returnIn > 0)
      && s.config.minVestedTransfer <= offer.bondPrice
      && offer.bonds * offer.bondPrice <= MAX_BALANCE
      && s.config.minReward <= offer.reward
      && offer.bonds * s.config.minVestedTransfer <= offer.reward
      && s.config.stake <= At(s.ledger.free, (User(from), s.config.native))
      && offer.reward + (if offer.rewardAsset == s.config.native then s.config.stake else 0)
         <= At(s.ledger.free, (User(from), offer.rewardAsset))
  {
    if offer.bonds > 0 {
      DivIsMax(offer.reward, offer.bonds, s.config.minVestedTransfer);
      assert s.config.minVestedTransfer * offer.bonds == offer.bonds * s.config.minVestedTransfer;
    }
  }
}
