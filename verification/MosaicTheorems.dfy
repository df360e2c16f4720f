/** Properties of the bridge over whole runs. */
module MosaicTheorems {
  import opened Amounts
  import opened Arithmetic
  import opened FiniteSums
  import opened MosaicSpec

  // ---------- escrow ----------

  /** A transfer lowers nobody but the payer, and by exactly the amount. */
  lemma TransferEffect(balances: Balances, from: Purse, to: Purse, amount: nat)
    requires Transfer(balances, from, to, amount).Balances?
    requires forall p: Purse {:trigger At(balances, p)} :: At(balances, p) <= MAX_BALANCE
    ensures
      var after := Transfer(balances, from, to, amount).value;
      && amount <= At(balances, from)
      && (forall p: Purse {:trigger At(after, p)} ::
           At(after, p) <= MAX_BALANCE &&
           At(after, p) == At(balances, p) - (if p == from then amount else 0) + (if p == to then amount else 0))
  {
    var taken := Burn(balances, from, amount).value;
    var after := Transfer(balances, from, to, amount).value;
    forall p: Purse
      ensures At(after, p) <= MAX_BALANCE
      ensures At(after, p) ==
              At(balances, p) - (if p == from then amount else 0) + (if p == to then amount else 0)
    {
      assert At(taken, p) == At(balances, p) - if p == from then amount else 0;
      assert At(balances, p) <= MAX_BALANCE;
    }
  }

  lemma TransferToKeepsBacked(s: State, caller: nat, network: Network, asset: Asset, amount: nat)
    requires Backed(s)
    ensures Backed(Commit(s, TransferTo(s, caller, network, asset, amount)))
  {
    if TransferTo(s, caller, network, asset, amount).Done? {
      TransferEffect(s.balances, (User(caller), asset), Outgoing(User(caller), asset), amount);
    }
  }

  lemma ClaimStaleKeepsBacked(s: State, caller: nat, asset: Asset, to: Holder)
    requires Backed(s)
    ensures Backed(Commit(s, ClaimStaleTo(s, caller, asset, to)))
  {
    if ClaimStaleTo(s, caller, asset, to).Done? {
      TransferEffect(s.balances, Outgoing(User(caller), asset), (to, asset), s.outgoing[(User(caller), asset)].amount);
    }
  }

  lemma ClaimKeepsBacked(s: State, caller: nat, asset: Asset, to: Holder)
    requires Backed(s)
    ensures Backed(Commit(s, ClaimTo(s, caller, asset, to)))
  {
    if ClaimTo(s, caller, asset, to).Done? {
      TransferEffect(s.balances, Incoming(User(caller), asset), (to, asset), s.incoming[(User(caller), asset)].amount);
    }
  }

  lemma AcceptKeepsBacked(s: State, from: Holder, network: Network, remote: Remote, amount: nat)
    requires Backed(s)
    ensures Backed(Commit(s, AcceptTransfer(s, from, network, remote, amount)))
  {
    if AcceptTransfer(s, from, network, remote, amount).Done? {
      var t := AcceptTransfer(s, from, network, remote, amount).state;
      var p := Outgoing(from, s.toLocal[(remote, network)]);
      assert forall q: Purse {:trigger At(t.balances, q)} ::
        At(t.balances, q) == At(s.balances, q) - if q == p then amount else 0;
    }
  }

  lemma RescindKeepsBacked(s: State, network: Network, remote: Remote, account: Holder, amount: nat)
    requires Backed(s)
    ensures Backed(Commit(s, RescindTimelockedMint(s, network, remote, account, amount)))
  {
    if RescindTimelockedMint(s, network, remote, account, amount).Done? {
      var t := RescindTimelockedMint(s, network, remote, account, amount).state;
      var p := Incoming(account, s.toLocal[(remote, network)]);
      assert forall q: Purse {:trigger At(t.balances, q)} ::
        At(t.balances, q) == At(s.balances, q) - if q == p then amount else 0;
    }
  }

  lemma MintKeepsBacked(s: State, network: Network, remote: Remote, to: Holder, amount: nat, lockTime: Block)
    requires Backed(s)
    ensures Backed(Commit(s, TimelockedMint(s, network, remote, to, amount, lockTime)))
  {
    if TimelockedMint(s, network, remote, to, amount, lockTime).Done? {
      var t := TimelockedMint(s, network, remote, to, amount, lockTime).state;
      var p := Incoming(to, s.toLocal[(remote, network)]);
      assert forall q: Purse {:trigger At(t.balances, q)} ::
        At(t.balances, q) == At(s.balances, q) + if q == p then amount else 0;
    }
  }

  /** Calls that touch neither escrow nor balances. */
  predicate Administrative(op: Op) {
    op.OpSetBudget? || op.OpSetNetwork? || op.OpSetLockPeriod? || op.OpUpdateMapping? || op.OpBlocks?
  }

  lemma {:induction false} AdministrativeStep(s: State, op: Op)
    requires Administrative(op)
    ensures
      var t := Apply(s, op);
      t.balances == s.balances && t.outgoing == s.outgoing && t.incoming == s.incoming
  {
    match op
    case OpSetBudget(_, _, _) =>
    case OpSetNetwork(_, _) =>
    case OpSetLockPeriod(_) =>
    case OpUpdateMapping(_, _, _) =>
    case OpBlocks(_) =>
  }

  lemma {:induction false} StepKeepsBacked(s: State, op: Op)
    requires Backed(s)
    ensures Backed(Apply(s, op))
  {
    if Administrative(op) {
      AdministrativeStep(s, op);
    } else {
      match op
      case OpTransferTo(caller, network, asset, amount) =>
        TransferToKeepsBacked(s, caller, network, asset, amount);
      case OpAcceptTransfer(from, network, remote, amount) =>
        AcceptKeepsBacked(s, from, network, remote, amount);
      case OpClaimStaleTo(caller, asset, to) =>
        ClaimStaleKeepsBacked(s, caller, asset, to);
      case OpTimelockedMint(network, remote, to, amount, lockTime) =>
        MintKeepsBacked(s, network, remote, to, amount, lockTime);
      case OpRescind(network, remote, account, amount) =>
        RescindKeepsBacked(s, network, remote, account, amount);
      case OpClaimTo(caller, asset, to) =>
        ClaimKeepsBacked(s, caller, asset, to);
      case OpMoveFunds(balances) =>
        MoveFundsKeepsBacked(s, balances);
    }
  }

  lemma MoveFundsKeepsBacked(s: State, balances: Balances)
    requires Backed(s)
    ensures LeavesSubAccounts(s.balances, balances) ==> Backed(s.(balances := balances))
  {
  }

  lemma {:induction false} RunKeepsBacked(s: State, ops: seq<Op>)
    requires Backed(s)
    ensures Backed(Run(s, ops))
  {
    if ops != [] {
      RunKeepsBacked(s, ops[..|ops| - 1]);
      StepKeepsBacked(Run(s, ops[..|ops| - 1]), ops[|ops| - 1]);
    }
  }

  predicate CanReceive(s: State, from: Purse, to: Purse, amount: nat) {
    to == from || At(s.balances, to) + amount <= MAX_BALANCE
  }

  /** A backed transfer is refused only when the receiver's balance would overflow. */
  lemma BackedTransfer(s: State, from: Purse, to: Purse, amount: nat)
    requires Backed(s) && amount <= At(s.balances, from)
    ensures Transfer(s.balances, from, to, amount).Balances? <==> CanReceive(s, from, to, amount)
  {
    var taken := Burn(s.balances, from, amount).value;
    assert At(s.balances, from) <= MAX_BALANCE;
    assert At(taken, to) == At(s.balances, to) - if to == from then amount else 0;
  }

  lemma BackedClaim(s: State, caller: nat, asset: Asset, to: Holder)
    requires Backed(s)
    ensures
      var k := (User(caller), asset);
      ClaimTo(s, caller, asset, to).Done? <==>
        k in s.incoming && s.incoming[k].until < s.now &&
        CanReceive(s, Incoming(k.0, asset), (to, asset), s.incoming[k].amount)
  {
    var k := (User(caller), asset);
    if k in s.incoming {
      BackedTransfer(s, Incoming(k.0, asset), (to, asset), s.incoming[k].amount);
    }
  }

  lemma BackedStaleClaim(s: State, caller: nat, asset: Asset, to: Holder)
    requires Backed(s)
    ensures
      var k := (User(caller), asset);
      ClaimStaleTo(s, caller, asset, to).Done? <==>
        k in s.outgoing && s.outgoing[k].until < s.now &&
        CanReceive(s, Outgoing(k.0, asset), (to, asset), s.outgoing[k].amount)
  {
    var k := (User(caller), asset);
    if k in s.outgoing {
      BackedTransfer(s, Outgoing(k.0, asset), (to, asset), s.outgoing[k].amount);
    }
  }

  /** In every reachable state a claim succeeds exactly when something is recorded, its
      lock is in the past, and the receiver's balance can hold it: it is never refused
      for lack of funds in the sub-account. */
  lemma ClaimsAreNeverShort(g: State, ops: seq<Op>, caller: nat, asset: Asset, to: Holder)
    requires Genesis(g)
    ensures
      var s := Run(g, ops);
      var k := (User(caller), asset);
      ClaimTo(s, caller, asset, to).Done? <==>
        k in s.incoming && s.incoming[k].until < s.now &&
        CanReceive(s, Incoming(k.0, asset), (to, asset), s.incoming[k].amount)
  {
    RunKeepsBacked(g, ops);
    BackedClaim(Run(g, ops), caller, asset, to);
  }

  /** The same for outgoing funds that the relayer has not picked up. */
  lemma StaleClaimsAreNeverShort(g: State, ops: seq<Op>, caller: nat, asset: Asset, to: Holder)
    requires Genesis(g)
    ensures
      var s := Run(g, ops);
      var k := (User(caller), asset);
      ClaimStaleTo(s, caller, asset, to).Done? <==>
        k in s.outgoing && s.outgoing[k].until < s.now &&
        CanReceive(s, Outgoing(k.0, asset), (to, asset), s.outgoing[k].amount)
  {
    RunKeepsBacked(g, ops);
    BackedStaleClaim(Run(g, ops), caller, asset, to);
  }

  // ---------- supply ----------

  ghost function Supply(balances: Balances, asset: Asset): int {
    Sum(balances.Keys, SupplyWeight(balances, asset))
  }

  ghost function SupplyWeight(balances: Balances, asset: Asset): Purse -> int {
    (p: Purse) => if p.1 == asset then At(balances, p) else 0
  }

  lemma SupplyChange(balances: Balances, p: Purse, amount: nat, asset: Asset)
    ensures Supply(balances[p := amount], asset) ==
            Supply(balances, asset) + if p.1 == asset then amount - At(balances, p) else 0
  {
    var after := balances[p := amount];
    assert after.Keys == balances.Keys + {p};
    SumChange(balances.Keys, SupplyWeight(balances, asset), SupplyWeight(after, asset), p);
  }

  lemma TransferConserves(balances: Balances, from: Purse, to: Purse, amount: nat, asset: Asset)
    requires from.1 == to.1
    requires Transfer(balances, from, to, amount).Balances?
    ensures Supply(Transfer(balances, from, to, amount).value, asset) == Supply(balances, asset)
  {
    var taken := Burn(balances, from, amount).value;
    SupplyChange(balances, from, At(balances, from) - amount, asset);
    SupplyChange(taken, to, At(taken, to) + amount, asset);
  }

  /** What a step creates and destroys of an asset. */
  function Minted(s: State, op: Op, asset: Asset): nat {
    if op.OpTimelockedMint? && TimelockedMint(s, op.network, op.remote, op.to, op.amount, op.lockTime).Done?
       && s.toLocal[(op.remote, op.network)] == asset
    then op.amount else 0
  }

  function Burned(s: State, op: Op, asset: Asset): nat {
    if op.OpAcceptTransfer? && AcceptTransfer(s, op.from, op.network, op.remote, op.amount).Done?
       && s.toLocal[(op.remote, op.network)] == asset
    then op.amount
    else if op.OpRescind? && RescindTimelockedMint(s, op.network, op.remote, op.account, op.amount).Done?
       && s.toLocal[(op.remote, op.network)] == asset
    then op.amount
    else 0
  }

  lemma TransferToConserves(s: State, caller: nat, network: Network, a: Asset, amount: nat, asset: Asset)
    ensures Supply(Commit(s, TransferTo(s, caller, network, a, amount)).balances, asset) == Supply(s.balances, asset)
  {
    if TransferTo(s, caller, network, a, amount).Done? {
      TransferConserves(s.balances, (User(caller), a), Outgoing(User(caller), a), amount, asset);
    }
  }

  lemma ClaimStaleConserves(s: State, caller: nat, a: Asset, to: Holder, asset: Asset)
    ensures Supply(Commit(s, ClaimStaleTo(s, caller, a, to)).balances, asset) == Supply(s.balances, asset)
  {
    if ClaimStaleTo(s, caller, a, to).Done? {
      TransferConserves(s.balances, Outgoing(User(caller), a), (to, a), s.outgoing[(User(caller), a)].amount, asset);
    }
  }

  lemma ClaimConserves(s: State, caller: nat, a: Asset, to: Holder, asset: Asset)
    ensures Supply(Commit(s, ClaimTo(s, caller, a, to)).balances, asset) == Supply(s.balances, asset)
  {
    if ClaimTo(s, caller, a, to).Done? {
      TransferConserves(s.balances, Incoming(User(caller), a), (to, a), s.incoming[(User(caller), a)].amount, asset);
    }
  }

  lemma MovesConserve(s: State, op: Op, asset: Asset)
    requires op.OpTransferTo? || op.OpClaimStaleTo? || op.OpClaimTo?
    ensures Supply(Apply(s, op).balances, asset) == Supply(s.balances, asset)
  {
    match op
    case OpTransferTo(caller, network, a, amount) => TransferToConserves(s, caller, network, a, amount, asset);
    case OpClaimStaleTo(caller, a, to) => ClaimStaleConserves(s, caller, a, to, asset);
    case OpClaimTo(caller, a, to) => ClaimConserves(s, caller, a, to, asset);
  }

  lemma AcceptBurns(s: State, op: Op, asset: Asset)
    requires op.OpAcceptTransfer?
    ensures Supply(Apply(s, op).balances, asset) == Supply(s.balances, asset) - Burned(s, op, asset)
  {
    if AcceptTransfer(s, op.from, op.network, op.remote, op.amount).Done? {
      var p := Outgoing(op.from, s.toLocal[(op.remote, op.network)]);
      SupplyChange(s.balances, p, At(s.balances, p) - op.amount, asset);
    }
  }

  lemma RescindBurns(s: State, op: Op, asset: Asset)
    requires op.OpRescind?
    ensures Supply(Apply(s, op).balances, asset) == Supply(s.balances, asset) - Burned(s, op, asset)
  {
    if RescindTimelockedMint(s, op.network, op.remote, op.account, op.amount).Done? {
      var p := Incoming(op.account, s.toLocal[(op.remote, op.network)]);
      SupplyChange(s.balances, p, At(s.balances, p) - op.amount, asset);
    }
  }

  lemma MintMints(s: State, op: Op, asset: Asset)
    requires op.OpTimelockedMint?
    ensures Supply(Apply(s, op).balances, asset) == Supply(s.balances, asset) + Minted(s, op, asset)
  {
    if TimelockedMint(s, op.network, op.remote, op.to, op.amount, op.lockTime).Done? {
      var p := Incoming(op.to, s.toLocal[(op.remote, op.network)]);
      SupplyChange(s.balances, p, At(s.balances, p) + op.amount, asset);
    }
  }

  lemma {:induction false} StepConserves(s: State, op: Op, asset: Asset)
    requires !op.OpMoveFunds?
    ensures Supply(Apply(s, op).balances, asset) == Supply(s.balances, asset) + Minted(s, op, asset) - Burned(s, op, asset)
  {
    if Administrative(op) {
      AdministrativeStep(s, op);
    } else if op.OpAcceptTransfer? {
      AcceptBurns(s, op, asset);
    } else if op.OpRescind? {
      RescindBurns(s, op, asset);
    } else if op.OpTimelockedMint? {
      MintMints(s, op, asset);
    } else {
      MovesConserve(s, op, asset);
    }
  }

  ghost function TotalMinted(s: State, ops: seq<Op>, asset: Asset): nat {
    if ops == [] then 0
    else
      var n := |ops| - 1;
      TotalMinted(s, ops[..n], asset) + Minted(Run(s, ops[..n]), ops[n], asset)
  }

  ghost function TotalBurned(s: State, ops: seq<Op>, asset: Asset): nat {
    if ops == [] then 0
    else
      var n := |ops| - 1;
      TotalBurned(s, ops[..n], asset) + Burned(Run(s, ops[..n]), ops[n], asset)
  }

  /** The bridge creates an asset only by minting and destroys it only by accepting
      transfers and rescinding mints; everything else moves it. */
  lemma {:induction false} SupplyIsConserved(s: State, ops: seq<Op>, asset: Asset)
    requires forall i :: 0 <= i < |ops| ==> !ops[i].OpMoveFunds?
    ensures Supply(Run(s, ops).balances, asset) + TotalBurned(s, ops, asset) ==
            Supply(s.balances, asset) + TotalMinted(s, ops, asset)
  {
    if ops != [] {
      var n := |ops| - 1;
      SupplyIsConserved(s, ops[..n], asset);
      StepConserves(Run(s, ops[..n]), ops[n], asset);
    }
  }

  // ---------- the mint budget ----------

  /** The decay without any bound on numbers. */
  function ExactPenalty(info: AssetInfo, now: Block): Balance
    requires info.lastMintBlock <= now
  {
    var gone := Reduction(now - info.lastMintBlock, info.factor);
    if gone <= info.penalty then info.penalty - gone else 0
  }

  /** Falling back to zero when the product overflows is what exact arithmetic gives. */
  lemma FallbackIsExact(info: AssetInfo, now: Block)
    requires info.lastMintBlock <= now
    ensures PenaltyAt(info, now) == ExactPenalty(info, now)
    ensures Reduction(now - info.lastMintBlock, info.factor) == (now - info.lastMintBlock) * info.factor
  {
    ReductionIsProduct(now - info.lastMintBlock, info.factor);
  }

  /** Letting time pass in two goes is the same as in one. */
  lemma DecayComposes(info: AssetInfo, mid: Block, end: Block)
    requires info.lastMintBlock <= mid <= end
    ensures
      ExactPenalty(info.(lastMintBlock := mid, penalty := ExactPenalty(info, mid)), end) == ExactPenalty(info, end)
    ensures ExactPenalty(info, end) <= ExactPenalty(info, mid) <= ExactPenalty(info, end) + Reduction(end - mid, info.factor)
  {
    ReductionAdds(mid - info.lastMintBlock, end - mid, info.factor);
  }

  /** After the recovery period nothing is left, and one block earlier at most what one
      block takes away. */
  lemma FullRecovery(info: AssetInfo)
    requires info.factor >= 1
    ensures
      var period := FullRecoveryPeriod(info.factor, info.penalty).value;
      && period >= 1
      && ExactPenalty(info, info.lastMintBlock + period) == 0
      && ExactPenalty(info, info.lastMintBlock + period - 1) < info.factor
  {
    var q, f := info.penalty / info.factor, info.factor;
    DivBounds(info.penalty, f);
    DivIsMax(info.penalty, f, 0);
    ReductionIsProduct(q, f);
  }

  /** Steps that set no budget and mint nothing leave the asset table alone; only blocks move the clock. */
  lemma {:induction false} QuietStep(s: State, op: Op)
    requires !op.OpTimelockedMint? && !op.OpSetBudget?
    ensures Apply(s, op).assets == s.assets
    ensures Apply(s, op).now == if op.OpBlocks? then s.now + op.passed else s.now
  {
    match op
    case OpSetNetwork(_, _) =>
    case OpSetLockPeriod(_) =>
    case OpTransferTo(_, _, _, _) =>
    case OpAcceptTransfer(_, _, _, _) =>
    case OpClaimStaleTo(_, _, _) =>
    case OpRescind(_, _, _, _) =>
    case OpClaimTo(_, _, _) =>
    case OpUpdateMapping(_, _, _) =>
    case OpBlocks(_) =>
    case OpMoveFunds(_) =>
  }

  lemma StepKeepsBudgeted(s: State, op: Op)
    requires Budgeted(s)
    ensures Budgeted(Apply(s, op)) && Apply(s, op).now >= s.now
  {
    if !op.OpTimelockedMint? && !op.OpSetBudget? {
      QuietStep(s, op);
    }
  }

  lemma {:induction false} RunKeepsBudgeted(s: State, ops: seq<Op>)
    requires Budgeted(s)
    ensures Budgeted(Run(s, ops)) && Run(s, ops).now >= s.now
  {
    if ops != [] {
      RunKeepsBudgeted(s, ops[..|ops| - 1]);
      StepKeepsBudgeted(Run(s, ops[..|ops| - 1]), ops[|ops| - 1]);
    }
  }

  /** The budget and decay of an asset, unless they are set. */
  predicate SameBudget(a: AssetInfo, b: AssetInfo) {
    a.budget == b.budget && a.factor == b.factor
  }

  /** A mint adds to the penalty exactly what it mints, and only within the budget. */
  lemma MintStep(s: State, op: Op, asset: Asset)
    requires Budgeted(s) && asset in s.assets && op.OpTimelockedMint?
    ensures
      var t := Apply(s, op);
      && asset in t.assets && t.now == s.now
      && SameBudget(s.assets[asset], t.assets[asset]) && t.assets[asset].lastMintBlock <= t.now
      && ExactPenalty(t.assets[asset], t.now) == ExactPenalty(s.assets[asset], s.now) + Minted(s, op, asset)
      && (Minted(s, op, asset) > 0 ==> ExactPenalty(t.assets[asset], t.now) <= s.assets[asset].budget)
  {
    FallbackIsExact(s.assets[asset], s.now);
  }

  /** What one step does to the penalty of an asset whose budget it does not set. */
  lemma PenaltyStep(s: State, op: Op, asset: Asset)
    requires Budgeted(s) && asset in s.assets
    requires !(op.OpSetBudget? && op.asset == asset)
    ensures
      var t := Apply(s, op);
      var before, after := ExactPenalty(s.assets[asset], s.now), Minted(s, op, asset);
      && asset in t.assets && SameBudget(s.assets[asset], t.assets[asset])
      && t.assets[asset].lastMintBlock <= t.now && s.now <= t.now
      && before + after <= ExactPenalty(t.assets[asset], t.now) + Reduction(t.now - s.now, s.assets[asset].factor)
      && ExactPenalty(t.assets[asset], t.now) <= before + after
      && (after > 0 ==> ExactPenalty(t.assets[asset], t.now) <= s.assets[asset].budget)
  {
    if op.OpTimelockedMint? {
      MintStep(s, op, asset);
    } else if !op.OpSetBudget? {
      QuietStep(s, op);
      DecayComposes(s.assets[asset], s.now, Apply(s, op).now);
    }
  }

  predicate NeverSetsBudget(ops: seq<Op>, asset: Asset) {
    forall i :: 0 <= i < |ops| ==> !(ops[i].OpSetBudget? && ops[i].asset == asset)
  }

  /** The penalty remembers every mint since state `s` that has not had time to decay, and
      is within the budget once anything has been minted. */
  ghost predicate Remembers(s: State, t: State, total: nat, asset: Asset) {
    && Budgeted(s) && Budgeted(t) && s.now <= t.now
    && asset in s.assets && asset in t.assets && SameBudget(s.assets[asset], t.assets[asset])
    && ExactPenalty(s.assets[asset], s.now) + total <=
         ExactPenalty(t.assets[asset], t.now) + Reduction(t.now - s.now, s.assets[asset].factor)
    && (total > 0 ==> ExactPenalty(t.assets[asset], t.now) <= s.assets[asset].budget)
  }

  lemma StepRemembers(s: State, u: State, op: Op, total: nat, asset: Asset)
    requires Remembers(s, u, total, asset) && !(op.OpSetBudget? && op.asset == asset)
    ensures Remembers(s, Apply(u, op), total + Minted(u, op, asset), asset)
  {
    StepKeepsBudgeted(u, op);
    PenaltyStep(u, op, asset);
    ReductionAdds(u.now - s.now, Apply(u, op).now - u.now, s.assets[asset].factor);
  }

  lemma {:induction false} RunRemembers(s: State, ops: seq<Op>, asset: Asset)
    requires Budgeted(s) && asset in s.assets && NeverSetsBudget(ops, asset)
    ensures Remembers(s, Run(s, ops), TotalMinted(s, ops, asset), asset)
  {
    if ops != [] {
      var n := |ops| - 1;
      RunRemembers(s, ops[..n], asset);
      StepRemembers(s, Run(s, ops[..n]), ops[n], TotalMinted(s, ops[..n], asset), asset);
    }
  }

  predicate AtMost(total: nat, budget: nat, blocks: int, factor: nat) {
    total <= budget + blocks * factor
  }

  /** What was minted between two states is within the budget plus what decays in between. */
  predicate WithinRate(s: State, t: State, total: nat, asset: Asset)
    requires asset in s.assets
  {
    AtMost(total, s.assets[asset].budget, t.now - s.now, s.assets[asset].factor)
  }

  lemma RememberedRate(s: State, t: State, total: nat, asset: Asset)
    requires Remembers(s, t, total, asset)
    ensures WithinRate(s, t, total, asset)
  {
    ReductionIsProduct(t.now - s.now, s.assets[asset].factor);
  }

  /** However the mints of a run are spread over its blocks, and whatever penalty it starts
      with, they stay within the budget plus what decays in that time. */
  lemma MintRateIsBounded(g: State, before: seq<Op>, ops: seq<Op>, asset: Asset)
    requires Genesis(g) && asset in Run(g, before).assets && NeverSetsBudget(ops, asset)
    ensures var s := Run(g, before); WithinRate(s, Run(s, ops), TotalMinted(s, ops, asset), asset)
  {
    RunKeepsBudgeted(g, before);
    var s := Run(g, before);
    RunRemembers(s, ops, asset);
    RememberedRate(s, Run(s, ops), TotalMinted(s, ops, asset), asset);
  }

  // ---------- the asset index ----------

  lemma MappingKeepsReversed(s: State, asset: Asset, network: Network, remote: Option<Remote>)
    requires RemoteReversed(s)
    ensures RemoteReversed(Commit(s, UpdateAssetMapping(s, asset, network, remote)))
  {
    var t := Commit(s, UpdateAssetMapping(s, asset, network, remote));
    forall r, n | (r, n) in t.toLocal
      ensures (t.toLocal[(r, n)], n) in t.toRemote && t.toRemote[(t.toLocal[(r, n)], n)] == r
    {
      if (r, n) in s.toLocal && t.toLocal[(r, n)] == s.toLocal[(r, n)] {
        assert (s.toLocal[(r, n)], n) in s.toRemote && s.toRemote[(s.toLocal[(r, n)], n)] == r;
      }
    }
  }

  lemma {:induction false} StepKeepsReversed(s: State, op: Op)
    requires RemoteReversed(s)
    ensures RemoteReversed(Apply(s, op))
  {
    if op.OpUpdateMapping? {
      MappingKeepsReversed(s, op.asset, op.network, op.mapping);
    } else {
      IndexUntouched(s, op);
    }
  }

  ghost predicate SameIndex(s: State, t: State) {
    t.toLocal == s.toLocal && t.toRemote == s.toRemote
  }

  lemma IndexUntouchedByOutgoing(s: State, op: Op)
    requires op.OpTransferTo? || op.OpAcceptTransfer? || op.OpClaimStaleTo?
    ensures SameIndex(s, Apply(s, op))
  {
  }

  lemma IndexUntouchedByIncoming(s: State, op: Op)
    requires op.OpTimelockedMint? || op.OpRescind? || op.OpClaimTo?
    ensures SameIndex(s, Apply(s, op))
  {
  }

  lemma IndexUntouched(s: State, op: Op)
    requires !op.OpUpdateMapping?
    ensures SameIndex(s, Apply(s, op))
  {
    if op.OpTransferTo? || op.OpAcceptTransfer? || op.OpClaimStaleTo? {
      IndexUntouchedByOutgoing(s, op);
    } else if op.OpTimelockedMint? || op.OpRescind? || op.OpClaimTo? {
      IndexUntouchedByIncoming(s, op);
    }
  }

  lemma {:induction false} RunKeepsReversed(s: State, ops: seq<Op>)
    requires RemoteReversed(s)
    ensures RemoteReversed(Run(s, ops))
  {
    if ops != [] {
      RunKeepsReversed(s, ops[..|ops| - 1]);
      StepKeepsReversed(Run(s, ops[..|ops| - 1]), ops[|ops| - 1]);
    }
  }

  /** In every reachable state no two remote assets of a network lead to the same local one. */
  lemma RemoteIndexIsInjective(g: State, ops: seq<Op>, r1: Remote, r2: Remote, n: Network)
    requires Genesis(g)
    requires
      var s := Run(g, ops);
      (r1, n) in s.toLocal && (r2, n) in s.toLocal && s.toLocal[(r1, n)] == s.toLocal[(r2, n)]
    ensures r1 == r2
  {
    RunKeepsReversed(g, ops);
    var s := Run(g, ops);
    assert s.toRemote[(s.toLocal[(r1, n)], n)] == r1;
  }

  /** The other direction is lost exactly when a remote asset is given to a second local one. */
  lemma MappingKeepsBijectionIff(s: State, asset: Asset, network: Network, remote: Option<Remote>)
    requires RemoteReversed(s) && LocalReversed(s) && network in s.networks
    ensures
      LocalReversed(Commit(s, UpdateAssetMapping(s, asset, network, remote))) <==>
      !(remote.Some? && (remote.value, network) in s.toLocal && s.toLocal[(remote.value, network)] != asset)
  {
    var t := UpdateAssetMapping(s, asset, network, remote).state;
    if remote.Some? && (remote.value, network) in s.toLocal && s.toLocal[(remote.value, network)] != asset {
      var other := s.toLocal[(remote.value, network)];
      assert (other, network) in s.toRemote && s.toRemote[(other, network)] == remote.value;
      assert (other, network) in t.toRemote && t.toRemote[(other, network)] == remote.value;
      assert t.toLocal[(remote.value, network)] == asset;
    } else {
      forall a, n | (a, n) in t.toRemote
        ensures (t.toRemote[(a, n)], n) in t.toLocal && t.toLocal[(t.toRemote[(a, n)], n)] == a
      {
        if (a, n) != (asset, network) {
          assert (s.toRemote[(a, n)], n) in s.toLocal && s.toLocal[(s.toRemote[(a, n)], n)] == a;
        }
      }
    }
  }

  lemma RunTwo(s: State, first: Op, second: Op)
    ensures Run(s, [first]) == Apply(s, first)
    ensures Run(s, [first, second]) == Apply(Apply(s, first), second)
  {
    assert [first, second][..1] == [first];
    assert [first][..0] == [];
  }

  /** From genesis: two local assets are mapped to one remote asset, and the first no longer
      leads to a remote asset that leads back. */
  lemma TwoLocalsOneRemote() returns (s: State, ops: seq<Op>)
    ensures Genesis(s) && LocalReversed(s)
    ensures !LocalReversed(Run(s, ops)) && RemoteReversed(Run(s, ops))
    ensures Run(s, ops).toRemote == map[(1, 7) := 5, (2, 7) := 5] && Run(s, ops).toLocal == map[(5, 7) := 2]
    ensures 7 in Run(s, ops).networks
  {
    s := State(map[], map[7 := NetworkInfo(true, 100)], 1, 1, map[], map[], map[], map[], map[], 0);
    var first, second := OpUpdateMapping(1, 7, Some(5)), OpUpdateMapping(2, 7, Some(5));
    ops := [first, second];
    RunTwo(s, first, second);
    var t := Run(s, ops);
    assert t.toRemote == map[(1, 7) := 5, (2, 7) := 5] && t.toLocal == map[(5, 7) := 2];
    assert (1, 7) in t.toRemote && t.toLocal[(t.toRemote[(1, 7)], 7)] != 1;
  }

  /** Clearing the mapping of the first then takes away the way back to the second. */
  lemma ClearingForgetsTheOther() returns (s: State, ops: seq<Op>)
    ensures Genesis(s)
    ensures (2, 7) in Run(s, ops).toRemote && Run(s, ops).toLocal == map[]
  {
    var before;
    s, before := TwoLocalsOneRemote();
    var clear := OpUpdateMapping(1, 7, None);
    ops := before + [clear];
    assert ops[..|ops| - 1] == before;
    var t := Run(s, before);
    assert t.toLocal - {(5, 7)} == map[];
  }
}
