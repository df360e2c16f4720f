/** The bridge as a state machine: escrow sub-accounts, time locks, a mint budget with a
    decaying penalty, and the two-way index of bridged assets. */
module MosaicSpec {
  import opened Amounts
  import opened FiniteSums

  type Network = nat
  type Remote = nat

  /** Account identifiers. Sub-accounts are derived injectively from their owner, and
      nobody can sign for one. */
  datatype Holder = User(id: nat) | SubAccount(incoming: bool, owner: Holder)

  type Purse = (Holder, Asset)

  datatype AssetInfo = AssetInfo(lastMintBlock: Block, budget: Balance, penalty: Balance, factor: Balance)
  datatype NetworkInfo = NetworkInfo(enabled: bool, maxTransferSize: nat)

  /** A locked amount and the last block at which it is still locked. */
  datatype Locked = Locked(amount: nat, until: Block)
  type Escrow = map<Purse, Locked>

  datatype Error =
    | UnsupportedAsset | AssetNotMapped | UnsupportedNetwork | NetworkDisabled | ExceedsMaxTransferSize
    | BalanceLow | Overflow | NoOutgoingTx | AmountMismatch | TxStillLocked | NoStaleTransactions
    | InsufficientBudget | NoClaimableTx | BadTimelockPeriod

  datatype State = State(
    assets: map<Asset, AssetInfo>,
    networks: map<Network, NetworkInfo>,
    lockPeriod: Block,
    minLockPeriod: Block,
    outgoing: Escrow,
    incoming: Escrow,
    toRemote: map<(Asset, Network), Remote>,
    toLocal: map<(Remote, Network), Asset>,
    balances: map<Purse, nat>,
    now: Block)

  datatype Outcome = Done(state: State) | Failed(error: Error)

  // ---------- balances ----------

  type Balances = map<Purse, nat>

  datatype Moved = Balances(value: Balances) | Refused(error: Error)

  function Deposit(balances: Balances, p: Purse, amount: nat): Moved {
    if At(balances, p) + amount > MAX_BALANCE then Refused(Overflow)
    else Balances(balances[p := At(balances, p) + amount])
  }

  function Burn(balances: Balances, p: Purse, amount: nat): Moved {
    if At(balances, p) < amount then Refused(BalanceLow)
    else Balances(balances[p := At(balances, p) - amount])
  }

  function Transfer(balances: Balances, from: Purse, to: Purse, amount: nat): Moved {
    match Burn(balances, from, amount)
    case Refused(error) => Refused(error)
    case Balances(taken) => Deposit(taken, to, amount)
  }

  function Outgoing(owner: Holder, asset: Asset): Purse {
    (SubAccount(false, owner), asset)
  }

  function Incoming(owner: Holder, asset: Asset): Purse {
    (SubAccount(true, owner), asset)
  }

  // ---------- the mint budget ----------

  /** What a linear decayer takes away in some blocks: the factor once per block. */
  function Reduction(blocks: nat, factor: nat): nat {
    if blocks == 0 then 0 else Reduction(blocks - 1, factor) + factor
  }

  lemma {:induction false} ReductionIsProduct(blocks: nat, factor: nat)
    ensures Reduction(blocks, factor) == blocks * factor
  {
    if blocks > 0 {
      ReductionIsProduct(blocks - 1, factor);
      assert (blocks - 1) * factor + factor == blocks * factor;
    }
  }

  lemma {:induction false} ReductionAdds(a: nat, b: nat, factor: nat)
    ensures Reduction(a + b, factor) == Reduction(a, factor) + Reduction(b, factor)
  {
    if b > 0 {
      ReductionAdds(a, b - 1, factor);
    }
  }

  /** `checked_decay` of the linear decayer: `None` when the reduction overflows. */
  function CheckedDecay(factor: Balance, amount: Balance, current: Block, last: Block): Option<Balance> {
    var diff := if current >= last then current - last else 0;
    var reduction := Reduction(diff, factor);
    if reduction > MAX_BALANCE then None
    else Some(if amount >= reduction then amount - reduction else 0)
  }

  /** The penalty at a block: what has not decayed, or nothing if the decay overflows. */
  function PenaltyAt(info: AssetInfo, now: Block): Balance {
    match CheckedDecay(info.factor, info.penalty, now, info.lastMintBlock)
    case Some(p) => p
    case None => 0
  }

  /** `full_recovery_period`: `None` for a zero factor. The width of block numbers is not modelled. */
  function FullRecoveryPeriod(factor: nat, amount: nat): Option<Block> {
    if factor == 0 then None else Some(amount / factor + 1)
  }

  // ---------- calls ----------

  function SetBudget(s: State, asset: Asset, amount: Balance, factor: Balance): State {
    var info :=
      if asset in s.assets then s.assets[asset].(budget := amount, factor := factor)
      else AssetInfo(s.now, amount, 0, factor);
    s.(assets := s.assets[asset := info])
  }

  function SetLockPeriod(s: State, period: Block): (o: Outcome)
    ensures o.Done? ==> o.state == s.(lockPeriod := o.state.lockPeriod)
  {
    if period <= s.minLockPeriod then Failed(BadTimelockPeriod) else Done(s.(lockPeriod := period))
  }

  function TransferTo(s: State, caller: nat, network: Network, asset: Asset, amount: nat): (o: Outcome)
    ensures o.Done? ==> o.state == s.(balances := o.state.balances, outgoing := o.state.outgoing)
  {
    var k := (User(caller), asset);
    if asset !in s.assets then Failed(UnsupportedAsset)
    else if (asset, network) !in s.toRemote then Failed(AssetNotMapped)
    else if network !in s.networks then Failed(UnsupportedNetwork)
    else if !s.networks[network].enabled then Failed(NetworkDisabled)
    else if s.networks[network].maxTransferSize < amount then Failed(ExceedsMaxTransferSize)
    else
      match Transfer(s.balances, k, Outgoing(User(caller), asset), amount)
      case Refused(error) => Failed(error)
      case Balances(balances) =>
        var already := if k in s.outgoing then s.outgoing[k].amount else 0;
        if amount + already > MAX_BALANCE then Failed(Overflow)
        else Done(s.(balances := balances, outgoing := s.outgoing[k := Locked(amount + already, s.now + s.lockPeriod)]))
  }

  function AcceptTransfer(s: State, from: Holder, network: Network, remote: Remote, amount: nat): (o: Outcome)
    ensures o.Done? ==> o.state == s.(balances := o.state.balances, outgoing := o.state.outgoing)
  {
    if (remote, network) !in s.toLocal then Failed(AssetNotMapped)
    else
      var asset := s.toLocal[(remote, network)];
      var k := (from, asset);
      if k !in s.outgoing then Failed(NoOutgoingTx)
      else if amount > s.outgoing[k].amount then Failed(AmountMismatch)
      else
        match Burn(s.balances, Outgoing(from, asset), amount)
        case Refused(error) => Failed(error)
        case Balances(balances) =>
          var rest := s.outgoing[k].amount - amount;
          Done(s.(balances := balances,
                  outgoing := if rest == 0 then s.outgoing - {k}
                              else s.outgoing[k := Locked(rest, s.outgoing[k].until)]))
  }

  function ClaimStaleTo(s: State, caller: nat, asset: Asset, to: Holder): (o: Outcome)
    ensures o.Done? ==> o.state == s.(balances := o.state.balances, outgoing := o.state.outgoing)
  {
    var k := (User(caller), asset);
    if k !in s.outgoing then Failed(NoStaleTransactions)
    else if s.outgoing[k].until >= s.now then Failed(TxStillLocked)
    else
      match Transfer(s.balances, Outgoing(User(caller), asset), (to, asset), s.outgoing[k].amount)
      case Refused(error) => Failed(error)
      case Balances(balances) => Done(s.(balances := balances, outgoing := s.outgoing - {k}))
  }

  function TimelockedMint(s: State, network: Network, remote: Remote, to: Holder, amount: nat, lockTime: Block): (o: Outcome)
    ensures o.Done? ==> o.state == s.(balances := o.state.balances, incoming := o.state.incoming, assets := o.state.assets)
  {
    if (remote, network) !in s.toLocal then Failed(AssetNotMapped)
    else
      var asset := s.toLocal[(remote, network)];
      var k := (to, asset);
      if asset !in s.assets then Failed(UnsupportedAsset)
      else
        var info := s.assets[asset];
        var penalty := PenaltyAt(info, s.now);
        if amount > (if info.budget >= penalty then info.budget - penalty else 0) then Failed(InsufficientBudget)
        else
          match Deposit(s.balances, Incoming(to, asset), amount)
          case Refused(error) => Failed(error)
          case Balances(balances) =>
            var already := if k in s.incoming then s.incoming[k].amount else 0;
            Done(s.(balances := balances,
                    incoming := s.incoming[k := Locked(SaturatingAdd(already, amount), s.now + lockTime)],
                    assets := s.assets[asset := AssetInfo(s.now, info.budget, SaturatingAdd(penalty, amount), info.factor)]))
  }

  function RescindTimelockedMint(s: State, network: Network, remote: Remote, account: Holder, amount: nat): (o: Outcome)
    ensures o.Done? ==> o.state == s.(balances := o.state.balances, incoming := o.state.incoming)
  {
    if (remote, network) !in s.toLocal then Failed(AssetNotMapped)
    else
      var asset := s.toLocal[(remote, network)];
      var k := (account, asset);
      if k !in s.incoming then Failed(NoClaimableTx)
      else
        match Burn(s.balances, Incoming(account, asset), amount)
        case Refused(error) => Failed(error)
        case Balances(balances) =>
          var locked := s.incoming[k];
          Done(s.(balances := balances,
                  incoming := if locked.amount == amount then s.incoming - {k}
                              else s.incoming[k := Locked(if locked.amount >= amount then locked.amount - amount else 0, locked.until)]))
  }

  function ClaimTo(s: State, caller: nat, asset: Asset, to: Holder): (o: Outcome)
    ensures o.Done? ==> o.state == s.(balances := o.state.balances, incoming := o.state.incoming)
  {
    var k := (User(caller), asset);
    if k !in s.incoming then Failed(NoClaimableTx)
    else if s.incoming[k].until >= s.now then Failed(TxStillLocked)
    else
      match Transfer(s.balances, Incoming(User(caller), asset), (to, asset), s.incoming[k].amount)
      case Refused(error) => Failed(error)
      case Balances(balances) => Done(s.(balances := balances, incoming := s.incoming - {k}))
  }

  function UpdateAssetMapping(s: State, asset: Asset, network: Network, remote: Option<Remote>): (o: Outcome)
    ensures o.Done? ==> o.state == s.(toRemote := o.state.toRemote, toLocal := o.state.toLocal)
  {
    if network !in s.networks then Failed(UnsupportedNetwork)
    else
      var k := (asset, network);
      var forgotten := if k in s.toRemote then {(s.toRemote[k], network)} else {};
      match remote
      case None => Done(s.(toRemote := s.toRemote - {k}, toLocal := s.toLocal - forgotten))
      case Some(r) =>
        Done(s.(toRemote := s.toRemote[k := r], toLocal := (s.toLocal - forgotten)[(r, network) := asset]))
  }

  // ---------- runs ----------

  datatype Op =
    | OpSetBudget(asset: Asset, budget: Balance, factor: Balance)
    | OpSetNetwork(network: Network, info: NetworkInfo)
    | OpSetLockPeriod(period: Block)
    | OpTransferTo(caller: nat, network: Network, asset: Asset, amount: nat)
    | OpAcceptTransfer(from: Holder, network: Network, remote: Remote, amount: nat)
    | OpClaimStaleTo(caller: nat, asset: Asset, to: Holder)
    | OpTimelockedMint(network: Network, remote: Remote, to: Holder, amount: nat, lockTime: Block)
    | OpRescind(network: Network, remote: Remote, account: Holder, amount: nat)
    | OpClaimTo(caller: nat, asset: Asset, to: Holder)
    | OpUpdateMapping(asset: Asset, network: Network, mapping: Option<Remote>)
    | OpBlocks(passed: nat)
    | OpMoveFunds(balances: Balances)

  function Commit(s: State, outcome: Outcome): State {
    if outcome.Done? then outcome.state else s
  }

  /** Other pallets move funds as they like, except out of sub-accounts. */
  ghost predicate LeavesSubAccounts(before: Balances, after: Balances) {
    forall p: Purse {:trigger At(after, p)} ::
      && At(after, p) <= MAX_BALANCE
      && (p.0.SubAccount? ==> At(after, p) >= At(before, p))
  }

  ghost function Apply(s: State, op: Op): State {
    match op
    case OpSetBudget(asset, amount, factor) => SetBudget(s, asset, amount, factor)
    case OpSetNetwork(network, info) => s.(networks := s.networks[network := info])
    case OpSetLockPeriod(period) => Commit(s, SetLockPeriod(s, period))
    case OpTransferTo(caller, network, asset, amount) => Commit(s, TransferTo(s, caller, network, asset, amount))
    case OpAcceptTransfer(from, network, remote, amount) => Commit(s, AcceptTransfer(s, from, network, remote, amount))
    case OpClaimStaleTo(caller, asset, to) => Commit(s, ClaimStaleTo(s, caller, asset, to))
    case OpTimelockedMint(network, remote, to, amount, lockTime) =>
      Commit(s, TimelockedMint(s, network, remote, to, amount, lockTime))
    case OpRescind(network, remote, account, amount) =>
      Commit(s, RescindTimelockedMint(s, network, remote, account, amount))
    case OpClaimTo(caller, asset, to) => Commit(s, ClaimTo(s, caller, asset, to))
    case OpUpdateMapping(asset, network, mapping) => Commit(s, UpdateAssetMapping(s, asset, network, mapping))
    case OpBlocks(passed) => s.(now := s.now + passed)
    case OpMoveFunds(balances) => if LeavesSubAccounts(s.balances, balances) then s.(balances := balances) else s
  }

  ghost function Run(s: State, ops: seq<Op>): State {
    if ops == [] then s else Apply(Run(s, ops[..|ops| - 1]), ops[|ops| - 1])
  }

  ghost predicate Genesis(s: State) {
    && s.assets == map[] && s.outgoing == map[] && s.incoming == map[]
    && s.toRemote == map[] && s.toLocal == map[]
    && forall p: Purse {:trigger At(s.balances, p)} :: At(s.balances, p) <= MAX_BALANCE
  }

  // ---------- what every state keeps ----------

  /** Every locked amount is in its sub-account, and balances are balances. */
  ghost predicate Backed(s: State) {
    && (forall k :: k in s.outgoing ==> s.outgoing[k].amount <= At(s.balances, Outgoing(k.0, k.1)))
    && (forall k :: k in s.incoming ==> s.incoming[k].amount <= At(s.balances, Incoming(k.0, k.1)))
    && (forall p: Purse {:trigger At(s.balances, p)} :: At(s.balances, p) <= MAX_BALANCE)
  }

  /** No last mint is in the future. */
  ghost predicate Budgeted(s: State) {
    forall asset :: asset in s.assets ==> s.assets[asset].lastMintBlock <= s.now
  }

  /** Every remote asset leads to a local one that leads back. */
  ghost predicate RemoteReversed(s: State) {
    forall r, n :: (r, n) in s.toLocal ==>
      (s.toLocal[(r, n)], n) in s.toRemote && s.toRemote[(s.toLocal[(r, n)], n)] == r
  }

  /** Every local asset leads to a remote one that leads back. */
  ghost predicate LocalReversed(s: State) {
    forall a, n :: (a, n) in s.toRemote ==>
      (s.toRemote[(a, n)], n) in s.toLocal && s.toLocal[(s.toRemote[(a, n)], n)] == a
  }
}
