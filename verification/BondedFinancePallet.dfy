/** The bonded finance pallet: offers and balances updated in place, each call rolled back
    when one of its payments is refused. */
module BondedFinancePallet {
  import opened Amounts
  import opened ProRata
  import opened BondedFinance
  import opened BondedFinanceTheorems

  datatype CallResult = Ok(value: nat) | Err(error: Error)

  function ResultOf(o: Outcome): CallResult {
    if o.Done? then Ok(o.value) else Err(o.error)
  }

  /** Every call keeps a valid pallet valid. */
  lemma StepStaysValid(s: State, op: Op)
    ensures Funded(s) ==> Funded(Apply(s, op))
  {
    if Funded(s) {
      StepKeepsFunded(s, op);
    }
  }

  class Pallet {
    const config: Config
    var bondOffers: map<OfferId, Entry>
    var bondOfferCount: OfferId
    var free: map<Purse, nat>
    var vested: Schedules

    ghost function View(): State
      reads this
    {
      State(config, bondOffers, bondOfferCount, Ledger(free, vested))
    }

    /** Each offer's account holds what is left of its reward, and the stake while bonds are left. */
    ghost predicate Valid()
      reads this
    {
      Funded(View())
    }

    constructor (config: Config, free: map<Purse, nat>)
      ensures View() == State(config, map[], 0, Ledger(free, map[]))
      ensures Valid()
    {
      this.config, this.free, vested := config, free, map[];
      bondOffers, bondOfferCount := map[], 0;
    }

    method Transfer(from: Purse, to: Purse, amount: nat) returns (paid: bool)
      modifies this`free
      ensures
        match Pay(old(Ledger(free, vested)), from, to, amount)
        case Moved(l) => paid && Ledger(free, vested) == l
        case Refused(error) => !paid && free == old(free) && error == BalanceLow
    {
      if At(free, from) < amount {
        return false;
      }
      free := free[from := At(free, from) - amount];
      free := free[to := At(free, to) + amount];
      return true;
    }

    /** Rewards, the returned price and the returned stake. On an error the caller rolls back. */
    method PayRewards(id: OfferId, entry: Entry, from: nat, n: nat, value: nat, share: nat) returns (error: seq<Error>)
      modifies this`free, this`vested
      ensures
        match SettleRewards(old(Ledger(free, vested)), config, id, entry, from, n, value, share)
        case Moved(l) => error == [] && Ledger(free, vested) == l
        case Refused(e) => error == [e]
    {
      var offer := entry.offer;
      error := VestedTransfer((OfferAccount(id), offer.rewardAsset), (User(from), offer.rewardAsset), share, offer.rewardMaturity);
      if error != [] {
        return;
      }
      match offer.maturity {
        case Infinite =>
        case Finite(returnIn) =>
          error := VestedTransfer((offer.beneficiary, offer.asset), (User(from), offer.asset), value, returnIn);
          if error != [] {
            return;
          }
      }
      if n == offer.bonds {
        var paid := Transfer((OfferAccount(id), config.native), (User(entry.issuer), config.native), config.stake);
        if !paid {
          return [BalanceLow];
        }
      }
    }

    method VestedTransfer(from: Purse, to: Purse, amount: nat, period: nat) returns (error: seq<Error>)
      modifies this`free, this`vested
      ensures
        match Vest(old(Ledger(free, vested)), from, to, amount, period, config.minVestedTransfer)
        case Moved(l) => error == [] && Ledger(free, vested) == l
        case Refused(e) => error == [e]
    {
      if period == 0 {
        return [ZeroVestingPeriod];
      }
      if amount < config.minVestedTransfer {
        return [AmountLow];
      }
      if At(free, from) < amount {
        return [BalanceLow];
      }
      free := free[from := At(free, from) - amount];
      vested := vested[to := SchedulesOf(vested, to) + [Schedule(amount, period)]];
      return [];
    }

    method DoOffer(from: nat, offer: Offer) returns (result: CallResult)
      modifies this
      ensures
        var outcome := MakeOffer(old(View()), from, offer);
        View() == Commit(old(View()), outcome) && result == ResultOf(outcome)
      ensures old(Valid()) ==> Valid()
    {
      StepStaysValid(View(), OpOffer(from, offer));
      if !ValidOffer(offer, config) {
        return Err(InvalidBondOffer);
      }
      var id := bondOfferCount + 1;
      var before := free;
      var paid := Transfer((User(from), config.native), (OfferAccount(id), config.native), config.stake);
      if !paid {
        return Err(BalanceLow);
      }
      paid := Transfer((User(from), offer.rewardAsset), (OfferAccount(id), offer.rewardAsset), offer.reward);
      if !paid {
        free := before;
        return Err(BalanceLow);
      }
      bondOfferCount := id;
      bondOffers := bondOffers[id := Entry(from, offer)];
      return Ok(id);
    }

    method DoBond(id: OfferId, from: nat, n: nat) returns (result: CallResult)
      modifies this
      ensures
        var outcome := Bond(old(View()), id, from, n);
        View() == Commit(old(View()), outcome) && result == ResultOf(outcome)
      ensures old(Valid()) ==> Valid()
    {
      StepStaysValid(View(), OpBond(id, from, n));
      if id !in bondOffers {
        return Err(BondOfferNotFound);
      }
      var entry := bondOffers[id];
      var offer := entry.offer;
      if offer.bonds == 0 {
        return Err(OfferCompleted);
      }
      if !(n > 0 && n <= offer.bonds) {
        return Err(InvalidNumberOfBonds);
      }
      var value, share := n * offer.bondPrice, Share(n, PotOf(offer));
      ShareWithin(n, PotOf(offer));
      if value > MAX_BALANCE || share > MAX_BALANCE {
        return Err(Overflow);
      }
      var error := PayAll(id, entry, from, n, value, share);
      if error != [] {
        return Err(error[0]);
      }
      bondOffers := bondOffers[id := entry.(offer := offer.(bonds := offer.bonds - n, reward := offer.reward - share))];
      return Ok(share);
    }

    method PayAll(id: OfferId, entry: Entry, from: nat, n: nat, value: nat, share: nat) returns (error: seq<Error>)
      modifies this`free, this`vested
      ensures
        match Settle(old(Ledger(free, vested)), config, id, entry, from, n, value, share)
        case Moved(l) => error == [] && Ledger(free, vested) == l
        case Refused(e) => error == [e] && free == old(free) && vested == old(vested)
    {
      var oldFree, oldVested := free, vested;
      var paid := Transfer((User(from), entry.offer.asset), (entry.offer.beneficiary, entry.offer.asset), value);
      if !paid {
        return [BalanceLow];
      }
      error := PayRewards(id, entry, from, n, value, share);
      if error != [] {
        free, vested := oldFree, oldVested;
      }
    }

    method CancelOffer(id: OfferId, caller: Caller) returns (result: CallResult)
      modifies this
      ensures
        var outcome := Cancel(old(View()), id, caller);
        View() == Commit(old(View()), outcome) && result == ResultOf(outcome)
      ensures old(Valid()) ==> Valid()
    {
      StepStaysValid(View(), OpCancel(id, caller));
      if id !in bondOffers {
        return Err(BondOfferNotFound);
      }
      var entry := bondOffers[id];
      if caller.Signed? && caller.account != entry.issuer {
        return Err(BadOrigin);
      }
      var before := free;
      var paid := Transfer((OfferAccount(id), config.native), (User(entry.issuer), config.native), config.stake);
      if !paid {
        return Err(BalanceLow);
      }
      paid := Transfer((OfferAccount(id), entry.offer.rewardAsset), (User(entry.issuer), entry.offer.rewardAsset), entry.offer.reward);
      if !paid {
        free := before;
        return Err(BalanceLow);
      }
      bondOffers := bondOffers - {id};
      return Ok(0);
    }
  }
}
