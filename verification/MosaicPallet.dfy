/** The bridge pallet: storage maps and balances updated in place by every call. Each
    call does exactly what the state machine of `MosaicSpec` does, so the invariants and
    run theorems of `MosaicTheorems` hold of every pallet built by the constructor. */
module MosaicPallet {
  import opened Amounts
  import opened MosaicSpec
  import opened MosaicTheorems

  datatype CallResult = Ok | Err(error: Error)

  function ResultOf(outcome: Outcome): CallResult {
    if outcome.Done? then Ok else Err(outcome.error)
  }

  /** Escrow is backed, mint blocks are past, and remote assets lead to local ones that lead back. */
  ghost predicate Inv(s: State) {
    Backed(s) && Budgeted(s) && RemoteReversed(s)
  }

  lemma StepStaysValid(s: State, op: Op)
    ensures Inv(s) ==> Inv(Apply(s, op))
  {
    if Inv(s) {
      StepKeepsBacked(s, op);
      StepKeepsBudgeted(s, op);
      StepKeepsReversed(s, op);
    }
  }

  lemma SetBudgetStaysValid(s: State, asset: Asset, amount: Balance, factor: Balance)
    ensures Inv(s) ==> Inv(MosaicSpec.SetBudget(s, asset, amount, factor))
  {
    StepStaysValid(s, OpSetBudget(asset, amount, factor));
  }

  lemma TransferToStaysValid(s: State, caller: nat, network: Network, asset: Asset, amount: nat)
    ensures Inv(s) ==> Inv(Commit(s, MosaicSpec.TransferTo(s, caller, network, asset, amount)))
  {
    StepStaysValid(s, OpTransferTo(caller, network, asset, amount));
  }

  lemma AcceptTransferStaysValid(s: State, from: Holder, network: Network, remote: Remote, amount: nat)
    ensures Inv(s) ==> Inv(Commit(s, MosaicSpec.AcceptTransfer(s, from, network, remote, amount)))
  {
    StepStaysValid(s, OpAcceptTransfer(from, network, remote, amount));
  }

  lemma ClaimStaleIsApplied(s: State, caller: nat, asset: Asset, to: Holder)
    ensures Apply(s, OpClaimStaleTo(caller, asset, to)) == Commit(s, MosaicSpec.ClaimStaleTo(s, caller, asset, to))
  {
  }

  lemma ClaimStaleToStaysValid(s: State, caller: nat, asset: Asset, to: Holder)
    ensures Inv(s) ==> Inv(Commit(s, MosaicSpec.ClaimStaleTo(s, caller, asset, to)))
  {
    ClaimStaleIsApplied(s, caller, asset, to);
    StepStaysValid(s, OpClaimStaleTo(caller, asset, to));
  }

  lemma MintIsApplied(s: State, network: Network, remote: Remote, to: Holder, amount: nat, lockTime: Block)
    ensures Apply(s, OpTimelockedMint(network, remote, to, amount, lockTime))
      == Commit(s, MosaicSpec.TimelockedMint(s, network, remote, to, amount, lockTime))
  {
  }

  lemma TimelockedMintStaysValid(s: State, network: Network, remote: Remote, to: Holder, amount: nat, lockTime: Block)
    ensures Inv(s) ==> Inv(Commit(s, MosaicSpec.TimelockedMint(s, network, remote, to, amount, lockTime)))
  {
    MintIsApplied(s, network, remote, to, amount, lockTime);
    StepStaysValid(s, OpTimelockedMint(network, remote, to, amount, lockTime));
  }

  lemma RescindTimelockedMintStaysValid(s: State, network: Network, remote: Remote, account: Holder, amount: nat)
    ensures Inv(s) ==> Inv(Commit(s, MosaicSpec.RescindTimelockedMint(s, network, remote, account, amount)))
  {
    StepStaysValid(s, OpRescind(network, remote, account, amount));
  }

  lemma ClaimIsApplied(s: State, caller: nat, asset: Asset, to: Holder)
    ensures Apply(s, OpClaimTo(caller, asset, to)) == Commit(s, MosaicSpec.ClaimTo(s, caller, asset, to))
  {
  }

  lemma ClaimToStaysValid(s: State, caller: nat, asset: Asset, to: Holder)
    ensures Inv(s) ==> Inv(Commit(s, MosaicSpec.ClaimTo(s, caller, asset, to)))
  {
    ClaimIsApplied(s, caller, asset, to);
    StepStaysValid(s, OpClaimTo(caller, asset, to));
  }

  lemma UpdateAssetMappingStaysValid(s: State, asset: Asset, network: Network, remote: Option<Remote>)
    ensures Inv(s) ==> Inv(Commit(s, MosaicSpec.UpdateAssetMapping(s, asset, network, remote)))
  {
    StepStaysValid(s, OpUpdateMapping(asset, network, remote));
  }

  class Pallet {
    var assetsInfo: map<Asset, AssetInfo>
    var networkInfos: map<Network, NetworkInfo>
    var timeLockPeriod: Block
    const minimumTimeLockPeriod: Block
    var outgoingTransactions: Escrow
    var incomingTransactions: Escrow
    var localToRemoteAsset: map<(Asset, Network), Remote>
    var remoteToLocalAsset: map<(Remote, Network), Asset>
    var balances: Balances
    var now: Block

    ghost function View(): State
      reads this
    {
      State(assetsInfo, networkInfos, timeLockPeriod, minimumTimeLockPeriod, outgoingTransactions,
            incomingTransactions, localToRemoteAsset, remoteToLocalAsset, balances, now)
    }

    ghost predicate Valid()
      reads this
    {
      Inv(View())
    }

    constructor (minimum: Block, balances: Balances, now: Block)
      requires forall p: Purse {:trigger At(balances, p)} :: At(balances, p) <= MAX_BALANCE
      ensures Valid() && Genesis(View())
      ensures timeLockPeriod == minimum && this.balances == balances && this.now == now
    {
      minimumTimeLockPeriod, timeLockPeriod := minimum, minimum;
      assetsInfo, networkInfos := map[], map[];
      outgoingTransactions, incomingTransactions := map[], map[];
      localToRemoteAsset, remoteToLocalAsset := map[], map[];
      this.balances, this.now := balances, now;
    }

    method SetBudget(asset: Asset, amount: Balance, factor: Balance)
      modifies this`assetsInfo
      ensures View() == MosaicSpec.SetBudget(old(View()), asset, amount, factor)
      ensures old(Valid()) ==> Valid()
    {
      SetBudgetStaysValid(View(), asset, amount, factor);
      if asset in assetsInfo {
        assetsInfo := assetsInfo[asset := assetsInfo[asset].(budget := amount, factor := factor)];
      } else {
        assetsInfo := assetsInfo[asset := AssetInfo(now, amount, 0, factor)];
      }
    }

    /** Move funds between two purses, or refuse. */
    method Move(from: Purse, to: Purse, amount: nat) returns (result: CallResult)
      modifies this`balances
      ensures
        match Transfer(old(balances), from, to, amount)
        case Balances(b) => result == Ok && balances == b
        case Refused(e) => result == Err(e) && balances == old(balances)
    {
      if At(balances, from) < amount {
        return Err(BalanceLow);
      }
      var taken := balances[from := At(balances, from) - amount];
      if At(taken, to) + amount > MAX_BALANCE {
        return Err(Overflow);
      }
      balances := taken[to := At(taken, to) + amount];
      return Ok;
    }

    method TransferTo(caller: nat, network: Network, asset: Asset, amount: nat) returns (result: CallResult)
      modifies this`balances, this`outgoingTransactions
      ensures
        var outcome := MosaicSpec.TransferTo(old(View()), caller, network, asset, amount);
        View() == Commit(old(View()), outcome) && result == ResultOf(outcome)
      ensures old(Valid()) ==> Valid()
    {
      TransferToStaysValid(View(), caller, network, asset, amount);
      result := EnterTransfer(caller, network, asset, amount);
    }

    /** The call, without what it keeps. */
    method EnterTransfer(caller: nat, network: Network, asset: Asset, amount: nat) returns (result: CallResult)
      modifies this`balances, this`outgoingTransactions
      ensures
        var outcome := MosaicSpec.TransferTo(old(View()), caller, network, asset, amount);
        View() == Commit(old(View()), outcome) && result == ResultOf(outcome)
    {
      if asset !in assetsInfo {
        return Err(UnsupportedAsset);
      }
      if (asset, network) !in localToRemoteAsset {
        return Err(AssetNotMapped);
      }
      if network !in networkInfos {
        return Err(UnsupportedNetwork);
      }
      if !networkInfos[network].enabled {
        return Err(NetworkDisabled);
      }
      if networkInfos[network].maxTransferSize < amount {
        return Err(ExceedsMaxTransferSize);
      }
      var k := (User(caller), asset);
      var locked := amount + if k in outgoingTransactions then outgoingTransactions[k].amount else 0;
      var before := balances;
      result := Move(k, Outgoing(User(caller), asset), amount);
      if result.Err? {
        return;
      }
      if locked > MAX_BALANCE {
        balances := before; // the call is transactional
        return Err(Overflow);
      }
      outgoingTransactions := outgoingTransactions[k := Locked(locked, now + timeLockPeriod)];
    }

    method AcceptTransfer(from: Holder, network: Network, remote: Remote, amount: nat) returns (result: CallResult)
      modifies this`balances, this`outgoingTransactions
      ensures
        var outcome := MosaicSpec.AcceptTransfer(old(View()), from, network, remote, amount);
        View() == Commit(old(View()), outcome) && result == ResultOf(outcome)
      ensures old(Valid()) ==> Valid()
    {
      AcceptTransferStaysValid(View(), from, network, remote, amount);
      result := EnterAccept(from, network, remote, amount);
    }

    /** The call, without what it keeps. */
    method EnterAccept(from: Holder, network: Network, remote: Remote, amount: nat) returns (result: CallResult)
      modifies this`balances, this`outgoingTransactions
      ensures
        var outcome := MosaicSpec.AcceptTransfer(old(View()), from, network, remote, amount);
        View() == Commit(old(View()), outcome) && result == ResultOf(outcome)
    {
      if (remote, network) !in remoteToLocalAsset {
        return Err(AssetNotMapped);
      }
      var asset := remoteToLocalAsset[(remote, network)];
      var k := (from, asset);
      if k !in outgoingTransactions {
        return Err(NoOutgoingTx);
      }
      var locked := outgoingTransactions[k];
      if amount > locked.amount {
        return Err(AmountMismatch);
      }
      var purse := Outgoing(from, asset);
      if At(balances, purse) < amount {
        return Err(BalanceLow);
      }
      balances := balances[purse := At(balances, purse) - amount];
      if amount == locked.amount {
        outgoingTransactions := outgoingTransactions - {k};
      } else {
        outgoingTransactions := outgoingTransactions[k := Locked(locked.amount - amount, locked.until)];
      }
      return Ok;
    }

    method ClaimStaleTo(caller: nat, asset: Asset, to: Holder) returns (result: CallResult)
      modifies this`balances, this`outgoingTransactions
      ensures
        var outcome := MosaicSpec.ClaimStaleTo(old(View()), caller, asset, to);
        View() == Commit(old(View()), outcome) && result == ResultOf(outcome)
      ensures old(Valid()) ==> Valid()
    {
      ClaimStaleToStaysValid(View(), caller, asset, to);
      result := EnterStaleClaim(caller, asset, to);
    }

    /** The call, without what it keeps. */
    method EnterStaleClaim(caller: nat, asset: Asset, to: Holder) returns (result: CallResult)
      modifies this`balances, this`outgoingTransactions
      ensures
        var outcome := MosaicSpec.ClaimStaleTo(old(View()), caller, asset, to);
        View() == Commit(old(View()), outcome) && result == ResultOf(outcome)
    {
      var k := (User(caller), asset);
      if k !in outgoingTransactions {
        return Err(NoStaleTransactions);
      }
      if outgoingTransactions[k].until >= now {
        return Err(TxStillLocked);
      }
      result := Move(Outgoing(User(caller), asset), (to, asset), outgoingTransactions[k].amount);
      if result.Ok? {
        outgoingTransactions := outgoingTransactions - {k};
      }
    }

    method TimelockedMint(network: Network, remote: Remote, to: Holder, amount: nat, lockTime: Block)
        returns (result: CallResult)
      modifies this`balances, this`incomingTransactions, this`assetsInfo
      ensures
        var outcome := MosaicSpec.TimelockedMint(old(View()), network, remote, to, amount, lockTime);
        View() == Commit(old(View()), outcome) && result == ResultOf(outcome)
      ensures old(Valid()) ==> Valid()
    {
      TimelockedMintStaysValid(View(), network, remote, to, amount, lockTime);
      result := EnterMint(network, remote, to, amount, lockTime);
    }

    /** The call, without what it keeps. */
    method EnterMint(network: Network, remote: Remote, to: Holder, amount: nat, lockTime: Block)
        returns (result: CallResult)
      modifies this`balances, this`incomingTransactions, this`assetsInfo
      ensures
        var outcome := MosaicSpec.TimelockedMint(old(View()), network, remote, to, amount, lockTime);
        View() == Commit(old(View()), outcome) && result == ResultOf(outcome)
    {
      if (remote, network) !in remoteToLocalAsset {
        return Err(AssetNotMapped);
      }
      var asset := remoteToLocalAsset[(remote, network)];
      if asset !in assetsInfo {
        return Err(UnsupportedAsset);
      }
      var info := assetsInfo[asset];
      var penalty := PenaltyAt(info, now);
      if amount > (if info.budget >= penalty then info.budget - penalty else 0) {
        return Err(InsufficientBudget);
      }
      var purse := Incoming(to, asset);
      if At(balances, purse) + amount > MAX_BALANCE {
        return Err(Overflow);
      }
      balances := balances[purse := At(balances, purse) + amount];
      var k := (to, asset);
      var already := if k in incomingTransactions then incomingTransactions[k].amount else 0;
      incomingTransactions := incomingTransactions[k := Locked(SaturatingAdd(already, amount), now + lockTime)];
      assetsInfo := assetsInfo[asset := AssetInfo(now, info.budget, SaturatingAdd(penalty, amount), info.factor)];
      return Ok;
    }

    method RescindTimelockedMint(network: Network, remote: Remote, account: Holder, amount: nat)
        returns (result: CallResult)
      modifies this`balances, this`incomingTransactions
      ensures
        var outcome := MosaicSpec.RescindTimelockedMint(old(View()), network, remote, account, amount);
        View() == Commit(old(View()), outcome) && result == ResultOf(outcome)
      ensures old(Valid()) ==> Valid()
    {
      RescindTimelockedMintStaysValid(View(), network, remote, account, amount);
      result := EnterRescission(network, remote, account, amount);
    }

    /** The call, without what it keeps. */
    method EnterRescission(network: Network, remote: Remote, account: Holder, amount: nat)
        returns (result: CallResult)
      modifies this`balances, this`incomingTransactions
      ensures
        var outcome := MosaicSpec.RescindTimelockedMint(old(View()), network, remote, account, amount);
        View() == Commit(old(View()), outcome) && result == ResultOf(outcome)
    {
      if (remote, network) !in remoteToLocalAsset {
        return Err(AssetNotMapped);
      }
      var asset := remoteToLocalAsset[(remote, network)];
      var k := (account, asset);
      if k !in incomingTransactions {
        return Err(NoClaimableTx);
      }
      var purse := Incoming(account, asset);
      if At(balances, purse) < amount {
        return Err(BalanceLow);
      }
      balances := balances[purse := At(balances, purse) - amount];
      var locked := incomingTransactions[k];
      if locked.amount == amount {
        incomingTransactions := incomingTransactions - {k};
      } else {
        var rest := if locked.amount >= amount then locked.amount - amount else 0;
        incomingTransactions := incomingTransactions[k := Locked(rest, locked.until)];
      }
      return Ok;
    }

    method ClaimTo(caller: nat, asset: Asset, to: Holder) returns (result: CallResult)
      modifies this`balances, this`incomingTransactions
      ensures
        var outcome := MosaicSpec.ClaimTo(old(View()), caller, asset, to);
        View() == Commit(old(View()), outcome) && result == ResultOf(outcome)
      ensures old(Valid()) ==> Valid()
    {
      ClaimToStaysValid(View(), caller, asset, to);
      var k := (User(caller), asset);
      if k !in incomingTransactions {
        return Err(NoClaimableTx);
      }
      if incomingTransactions[k].until >= now {
        return Err(TxStillLocked);
      }
      result := Move(Incoming(User(caller), asset), (to, asset), incomingTransactions[k].amount);
      if result.Ok? {
        incomingTransactions := incomingTransactions - {k};
      }
    }

    method UpdateAssetMapping(asset: Asset, network: Network, remote: Option<Remote>) returns (result: CallResult)
      modifies this`localToRemoteAsset, this`remoteToLocalAsset
      ensures
        var outcome := MosaicSpec.UpdateAssetMapping(old(View()), asset, network, remote);
        View() == Commit(old(View()), outcome) && result == ResultOf(outcome)
      ensures old(Valid()) ==> Valid()
    {
      UpdateAssetMappingStaysValid(View(), asset, network, remote);
      result := EnterMapping(asset, network, remote);
    }

    /** The call, without what it keeps. */
    method EnterMapping(asset: Asset, network: Network, remote: Option<Remote>) returns (result: CallResult)
      modifies this`localToRemoteAsset, this`remoteToLocalAsset
      ensures
        var outcome := MosaicSpec.UpdateAssetMapping(old(View()), asset, network, remote);
        View() == Commit(old(View()), outcome) && result == ResultOf(outcome)
    {
      if network !in networkInfos {
        return Err(UnsupportedNetwork);
      }
      var k := (asset, network);
      if k in localToRemoteAsset {
        remoteToLocalAsset := remoteToLocalAsset - {(localToRemoteAsset[k], network)};
        localToRemoteAsset := localToRemoteAsset - {k};
      }
      if remote.Some? {
        localToRemoteAsset := localToRemoteAsset[k := remote.value];
        remoteToLocalAsset := remoteToLocalAsset[(remote.value, network) := asset];
      }
      return Ok;
    }
  }
}
