/** Bond offers: a reward pot sold off bond by bond, with the issuer's stake held until the
    offer is sold out or cancelled. */
module BondedFinance {
  import opened Amounts
  import opened Arithmetic
  import opened ProRata

  type OfferId = nat

  /** Accounts. Offer accounts are derived injectively from the offer id and nobody signs for them. */
  datatype Holder = User(id: nat) | OfferAccount(offer: OfferId)
  type Purse = (Holder, Asset)

  datatype Duration = Finite(returnIn: nat) | Infinite

  datatype Offer = Offer(
    beneficiary: Holder,
    asset: Asset,
    bondPrice: Balance,
    bonds: Balance,
    maturity: Duration,
    rewardAsset: Asset,
    reward: Balance,
    rewardMaturity: nat)

  datatype Entry = Entry(issuer: nat, offer: Offer)
  datatype Config = Config(minVestedTransfer: nat, minReward: nat, stake: nat, native: Asset)

  /** An amount that is released at once when a period is over. */
  datatype Schedule = Schedule(amount: nat, period: nat)

  type Schedules = map<Purse, seq<Schedule>>

  /** Transferable balances, and what the vesting pallet holds back, in the order it came. */
  datatype Ledger = Ledger(free: map<Purse, nat>, vested: Schedules)

  datatype State = State(config: Config, offers: map<OfferId, Entry>, count: OfferId, ledger: Ledger)

  datatype Error =
    | BondOfferNotFound | InvalidBondOffer | OfferCompleted | InvalidNumberOfBonds
    | Overflow | BalanceLow | ZeroVestingPeriod | AmountLow | BadOrigin

  datatype Outcome = Done(state: State, value: nat) | Failed(error: Error)
  datatype Moved = Moved(ledger: Ledger) | Refused(error: Error)

  // ---------- balances ----------

  function SchedulesOf(vested: Schedules, p: Purse): seq<Schedule> {
    if p in vested then vested[p] else []
  }

  function Pay(l: Ledger, from: Purse, to: Purse, amount: nat): Moved {
    if At(l.free, from) < amount then Refused(BalanceLow)
    else
      var taken := l.free[from := At(l.free, from) - amount];
      Moved(l.(free := taken[to := At(taken, to) + amount]))
  }

  /** A transfer that the receiver can use only after the period. */
  function Vest(l: Ledger, from: Purse, to: Purse, amount: nat, period: nat, min: nat): Moved {
    if period == 0 then Refused(ZeroVestingPeriod)
    else if amount < min then Refused(AmountLow)
    else if At(l.free, from) < amount then Refused(BalanceLow)
    else Moved(Ledger(l.free[from := At(l.free, from) - amount], l.vested[to := SchedulesOf(l.vested, to) + [Schedule(amount, period)]]))
  }

  // ---------- offers ----------

  function PotOf(offer: Offer): Pot {
    Pot(offer.reward, offer.bonds)
  }

  /** `BondOffer::valid`: an absent quotient counts as zero. */
  predicate ValidOffer(offer: Offer, config: Config) {
    && (offer.maturity.Finite? ==> offer.maturity.returnIn != 0)
    && offer.bonds != 0
    && offer.bondPrice >= config.minVestedTransfer
    && offer.rewardMaturity != 0
    && offer.reward >= config.minReward
    && (if offer.bonds == 0 then 0 else offer.reward / offer.bonds) >= config.minVestedTransfer
    && offer.bonds * offer.bondPrice <= MAX_BALANCE
  }

  function MakeOffer(s: State, from: nat, offer: Offer): (o: Outcome)
    ensures o.Done? ==> o.value == s.count + 1
    ensures o.Done? ==>
      o.state == s.(offers := s.offers[o.value := Entry(from, offer)], count := o.value, ledger := o.state.ledger)
  {
    if !ValidOffer(offer, s.config) then Failed(InvalidBondOffer)
    else
      var id := s.count + 1;
      match Fund(s.ledger, s.config, id, from, offer)
      case Refused(error) => Failed(error)
      case Moved(ledger) =>
        Done(s.(offers := s.offers[id := Entry(from, offer)], count := id, ledger := ledger), id)
  }

  /** Stake and reward move to the offer's account. */
  function Fund(l: Ledger, config: Config, id: OfferId, from: nat, offer: Offer): Moved {
    match Pay(l, (User(from), config.native), (OfferAccount(id), config.native), config.stake)
    case Refused(error) => Refused(error)
    case Moved(l1) => Pay(l1, (User(from), offer.rewardAsset), (OfferAccount(id), offer.rewardAsset), offer.reward)
  }

  function Bond(s: State, id: OfferId, from: nat, n: nat): (o: Outcome)
    ensures o.Done? ==> id in s.offers && n <= s.offers[id].offer.bonds
    ensures o.Done? ==> o.value == Share(n, PotOf(s.offers[id].offer)) <= s.offers[id].offer.reward
    ensures o.Done? ==>
      o.state == s.(offers := s.offers[id := Sold(s.offers[id], n, o.value)], ledger := o.state.ledger)
  {
    if id !in s.offers then Failed(BondOfferNotFound)
    else if s.offers[id].offer.bonds == 0 then Failed(OfferCompleted)
    else if n == 0 || n > s.offers[id].offer.bonds then Failed(InvalidNumberOfBonds)
    else
      var entry := s.offers[id];
      var value, share := n * entry.offer.bondPrice, Share(n, PotOf(entry.offer));
      ShareWithin(n, PotOf(entry.offer));
      if value > MAX_BALANCE || share > MAX_BALANCE then Failed(Overflow)
      else
        match Settle(s.ledger, s.config, id, entry, from, n, value, share)
        case Refused(error) => Failed(error)
        case Moved(ledger) => Done(s.(offers := s.offers[id := Sold(entry, n, share)], ledger := ledger), share)
  }

  function Sold(entry: Entry, n: nat, share: nat): Entry
    requires n <= entry.offer.bonds && share <= entry.offer.reward
  {
    entry.(offer := entry.offer.(bonds := entry.offer.bonds - n, reward := entry.offer.reward - share))
  }

  /** The payments of one purchase, in the order they are made. */
  function Settle(l: Ledger, config: Config, id: OfferId, entry: Entry, from: nat, n: nat, value: nat, share: nat): Moved
  {
    var offer := entry.offer;
    match Pay(l, (User(from), offer.asset), (offer.beneficiary, offer.asset), value)
    case Refused(error) => Refused(error)
    case Moved(l1) => SettleRewards(l1, config, id, entry, from, n, value, share)
  }

  function SettleRewards(l: Ledger, config: Config, id: OfferId, entry: Entry, from: nat, n: nat, value: nat, share: nat): Moved
  {
    var offer := entry.offer;
    match Vest(l, (OfferAccount(id), offer.rewardAsset), (User(from), offer.rewardAsset), share,
               offer.rewardMaturity, config.minVestedTransfer)
    case Refused(error) => Refused(error)
    case Moved(l1) =>
      match GiveBack(l1, config, offer, from, value)
      case Refused(error) => Refused(error)
      case Moved(l2) => if n == offer.bonds then ReturnStake(l2, config, id, entry.issuer) else Moved(l2)
  }

  /** Finite bonds return the price, vested. */
  function GiveBack(l: Ledger, config: Config, offer: Offer, from: nat, value: nat): Moved {
    match offer.maturity
    case Infinite => Moved(l)
    case Finite(returnIn) =>
      Vest(l, (offer.beneficiary, offer.asset), (User(from), offer.asset), value, returnIn, config.minVestedTransfer)
  }

  function ReturnStake(l: Ledger, config: Config, id: OfferId, issuer: nat): Moved {
    Pay(l, (OfferAccount(id), config.native), (User(issuer), config.native), config.stake)
  }

  function Refund(l: Ledger, config: Config, id: OfferId, entry: Entry): Moved {
    match ReturnStake(l, config, id, entry.issuer)
    case Refused(error) => Refused(error)
    case Moved(l1) =>
      Pay(l1, (OfferAccount(id), entry.offer.rewardAsset), (User(entry.issuer), entry.offer.rewardAsset), entry.offer.reward)
  }

  datatype Caller = Admin | Signed(account: nat)

  function Cancel(s: State, id: OfferId, caller: Caller): (o: Outcome)
    ensures o.Done? ==> o.state == s.(offers := s.offers - {id}, ledger := o.state.ledger)
  {
    if id !in s.offers then Failed(BondOfferNotFound)
    else if caller.Signed? && caller.account != s.offers[id].issuer then Failed(BadOrigin)
    else
      match Refund(s.ledger, s.config, id, s.offers[id])
      case Refused(error) => Failed(error)
      case Moved(ledger) => Done(s.(offers := s.offers - {id}, ledger := ledger), 0)
  }

  // ---------- runs ----------

  datatype Op =
    | OpOffer(issuer: nat, offer: Offer)
    | OpBond(id: OfferId, buyer: nat, n: nat)
    | OpCancel(id: OfferId, caller: Caller)
    | OpMoveFunds(ledger: Ledger)

  /** Everybody else may move funds, but not out of an offer's account. */
  ghost predicate LeavesOffers(before: Ledger, after: Ledger) {
    forall id: OfferId, asset: Asset {:trigger At(after.free, (OfferAccount(id), asset))} ::
      At(before.free, (OfferAccount(id), asset)) <= At(after.free, (OfferAccount(id), asset))
  }

  function Commit(s: State, o: Outcome): State {
    if o.Done? then o.state else s
  }

  ghost function Apply(s: State, op: Op): State {
    match op
    case OpOffer(from, offer) => Commit(s, MakeOffer(s, from, offer))
    case OpBond(id, from, n) => Commit(s, Bond(s, id, from, n))
    case OpCancel(id, caller) => Commit(s, Cancel(s, id, caller))
    case OpMoveFunds(ledger) => if LeavesOffers(s.ledger, ledger) then s.(ledger := ledger) else s
  }

  ghost function Run(s: State, ops: seq<Op>): State {
    if ops == [] then s else Apply(Run(s, ops[..|ops| - 1]), ops[|ops| - 1])
  }

  ghost predicate Genesis(s: State) {
    s.offers == map[] && s.count == 0
  }

  // ---------- what every state keeps ----------

  /** What validity leaves true of an offer while it is sold. */
  ghost predicate Terms(offer: Offer, config: Config) {
    && (offer.maturity.Finite? ==> offer.maturity.returnIn != 0)
    && offer.bondPrice >= config.minVestedTransfer
    && offer.rewardMaturity != 0
    && offer.bonds * config.minVestedTransfer <= offer.reward
    && offer.bonds * offer.bondPrice <= MAX_BALANCE
    && (offer.bonds == 0 ==> offer.reward == 0)
  }

  /** What an offer's account has to hold of an asset. */
  function Reserve(config: Config, offer: Offer, asset: Asset): nat {
    (if asset == offer.rewardAsset then offer.reward else 0)
    + (if asset == config.native && offer.bonds > 0 then config.stake else 0)
  }

  ghost predicate Holds(l: Ledger, config: Config, id: OfferId, offer: Offer) {
    forall asset: Asset {:trigger At(l.free, (OfferAccount(id), asset))} ::
      Reserve(config, offer, asset) <= At(l.free, (OfferAccount(id), asset))
  }

  ghost predicate Funded(s: State) {
    forall id :: id in s.offers ==>
      && id <= s.count
      && Terms(s.offers[id].offer, s.config)
      && Holds(s.ledger, s.config, id, s.offers[id].offer)
  }

  lemma ValidGivesTerms(offer: Offer, config: Config)
    requires ValidOffer(offer, config)
    ensures Terms(offer, config)
  {
    DivIsMax(offer.reward, offer.bonds, config.minVestedTransfer);
  }
}
