/** The bridge in numbers: how long escrow is locked, whom it pays, and that it is exactly
    what the sub-accounts hold. */
module MosaicEscrow {
  import opened Amounts
  import opened MosaicSpec
  import opened MosaicTheorems

  /** What is recorded in an escrow. */
  function Recorded(escrow: Escrow, k: Purse): nat {
    if k in escrow then escrow[k].amount else 0
  }

  /** An amount, in one purse only. */
  function Only(p: Purse, q: Purse, amount: nat): nat {
    if p == q then amount else 0
  }

  // ---------- the calls, purse by purse ----------

  lemma TransferMoves(balances: Balances, from: Purse, to: Purse, amount: nat, p: Purse)
    requires Transfer(balances, from, to, amount).Balances?
    ensures At(Transfer(balances, from, to, amount).value, p) == At(balances, p) - Only(p, from, amount) + Only(p, to, amount)
  {
  }

  /** A transfer out takes the amount from the caller and adds it to its escrow, locked for the
      lock period from now. */
  lemma TransferEscrows(s: State, caller: nat, network: Network, asset: Asset, amount: nat, p: Purse)
    requires TransferTo(s, caller, network, asset, amount).Done?
    ensures
      var t, k := TransferTo(s, caller, network, asset, amount).state, (User(caller), asset);
      && At(t.balances, p) == At(s.balances, p) - Only(p, k, amount) + Only(p, Outgoing(User(caller), asset), amount)
      && Recorded(t.outgoing, p) == Recorded(s.outgoing, p) + Only(p, k, amount)
      && k in t.outgoing && t.outgoing[k].until == s.now + s.lockPeriod
  {
    TransferMoves(s.balances, (User(caller), asset), Outgoing(User(caller), asset), amount, p);
  }

  /** An accepted transfer burns the amount out of escrow and record alike; the rest keeps its
      date, and nothing is kept of nothing. */
  lemma AcceptingBurns(s: State, from: Holder, network: Network, remote: Remote, amount: nat, p: Purse)
    requires AcceptTransfer(s, from, network, remote, amount).Done?
    ensures
      var t, k := AcceptTransfer(s, from, network, remote, amount).state, (from, s.toLocal[(remote, network)]);
      && At(t.balances, p) == At(s.balances, p) - Only(p, Outgoing(k.0, k.1), amount)
      && Recorded(t.outgoing, p) == Recorded(s.outgoing, p) - Only(p, k, amount)
      && k in s.outgoing
      && (k in t.outgoing <==> amount < s.outgoing[k].amount)
      && (k in t.outgoing ==> t.outgoing[k].until == s.outgoing[k].until)
  {
  }

  /** A stale claim pays all that is recorded to whom the caller names. */
  lemma StaleClaimPays(s: State, caller: nat, asset: Asset, to: Holder, p: Purse)
    requires ClaimStaleTo(s, caller, asset, to).Done?
    ensures
      var t, k := ClaimStaleTo(s, caller, asset, to).state, (User(caller), asset);
      var amount := Recorded(s.outgoing, k);
      && At(t.balances, p) == At(s.balances, p) - Only(p, Outgoing(User(caller), asset), amount) + Only(p, (to, asset), amount)
      && t.outgoing == s.outgoing - {k}
  {
    var k := (User(caller), asset);
    TransferMoves(s.balances, Outgoing(User(caller), asset), (to, asset), s.outgoing[k].amount, p);
  }

  /** A mint creates the amount in the escrow of its receiver, locked for the time given. */
  lemma MintEscrows(s: State, network: Network, remote: Remote, to: Holder, amount: nat, lockTime: Block, p: Purse)
    requires Backed(s) && TimelockedMint(s, network, remote, to, amount, lockTime).Done?
    ensures
      var t, k := TimelockedMint(s, network, remote, to, amount, lockTime).state, (to, s.toLocal[(remote, network)]);
      && At(t.balances, p) == At(s.balances, p) + Only(p, Incoming(k.0, k.1), amount)
      && Recorded(t.incoming, p) == Recorded(s.incoming, p) + Only(p, k, amount)
      && k in t.incoming && t.incoming[k].until == s.now + lockTime
  {
  }

  /** A rescission burns the amount out of the escrow, and out of the record as far as it goes. */
  lemma RescindingBurns(s: State, network: Network, remote: Remote, account: Holder, amount: nat, p: Purse)
    requires RescindTimelockedMint(s, network, remote, account, amount).Done?
    ensures
      var t, k := RescindTimelockedMint(s, network, remote, account, amount).state, (account, s.toLocal[(remote, network)]);
      && At(t.balances, p) == At(s.balances, p) - Only(p, Incoming(k.0, k.1), amount)
      && Recorded(t.incoming, p) == SaturatingSub(Recorded(s.incoming, p), Only(p, k, amount))
      && (k in t.incoming ==> t.incoming[k].until == s.incoming[k].until)
  {
  }

  /** A claim pays all that is recorded to whom the caller names. */
  lemma ClaimPays(s: State, caller: nat, asset: Asset, to: Holder, p: Purse)
    requires ClaimTo(s, caller, asset, to).Done?
    ensures
      var t, k := ClaimTo(s, caller, asset, to).state, (User(caller), asset);
      var amount := Recorded(s.incoming, k);
      && At(t.balances, p) == At(s.balances, p) - Only(p, Incoming(User(caller), asset), amount) + Only(p, (to, asset), amount)
      && t.incoming == s.incoming - {k}
  {
    var k := (User(caller), asset);
    TransferMoves(s.balances, Incoming(User(caller), asset), (to, asset), s.incoming[k].amount, p);
  }

  // ---------- what is refused ----------

  /** Funds can leave exactly over an enabled network of a mapped and budgeted asset, within
      the size it allows, and if they are there. */
  lemma TransferSucceedsIff(s: State, caller: nat, network: Network, asset: Asset, amount: nat)
    requires Backed(s)
    ensures TransferTo(s, caller, network, asset, amount).Done? <==>
      && asset in s.assets && (asset, network) in s.toRemote
      && network in s.networks && s.networks[network].enabled
      && amount <= s.networks[network].maxTransferSize
      && amount <= At(s.balances, (User(caller), asset))
      && At(s.balances, Outgoing(User(caller), asset)) + amount <= MAX_BALANCE
  {
    var k := (User(caller), asset);
    assert k in s.outgoing ==> s.outgoing[k].amount <= At(s.balances, Outgoing(k.0, k.1));
  }

  /** Funds can be minted exactly of a mapped asset, within its budget less the penalty that has
      not decayed since the last mint: the factor goes off for every block. */
  lemma MintSucceedsIff(s: State, network: Network, remote: Remote, to: Holder, amount: nat, lockTime: Block)
    requires Budgeted(s)
    ensures TimelockedMint(s, network, remote, to, amount, lockTime).Done? <==>
      && (remote, network) in s.toLocal && s.toLocal[(remote, network)] in s.assets
      && var asset := s.toLocal[(remote, network)];
         var info := s.assets[asset];
         && amount <= Max(0, info.budget - Max(0, info.penalty - (s.now - info.lastMintBlock) * info.factor))
         && At(s.balances, Incoming(to, asset)) + amount <= MAX_BALANCE
  {
    if (remote, network) in s.toLocal && s.toLocal[(remote, network)] in s.assets {
      FallbackIsExact(s.assets[s.toLocal[(remote, network)]], s.now);
    }
  }

  /** Nothing more can be accepted than is recorded. */
  lemma AcceptingSucceedsIff(s: State, from: Holder, network: Network, remote: Remote, amount: nat)
    requires Backed(s)
    ensures AcceptTransfer(s, from, network, remote, amount).Done? <==>
      && (remote, network) in s.toLocal
      && var k := (from, s.toLocal[(remote, network)]);
         k in s.outgoing && amount <= s.outgoing[k].amount
  {
    if (remote, network) in s.toLocal {
      var k := (from, s.toLocal[(remote, network)]);
      assert k in s.outgoing ==> s.outgoing[k].amount <= At(s.balances, Outgoing(k.0, k.1));
    }
  }

  /** A rescission needs a record, but only the sub-account limits its amount. */
  lemma RescissionSucceedsIff(s: State, network: Network, remote: Remote, account: Holder, amount: nat)
    ensures RescindTimelockedMint(s, network, remote, account, amount).Done? <==>
      && (remote, network) in s.toLocal
      && var k := (account, s.toLocal[(remote, network)]);
         k in s.incoming && amount <= At(s.balances, Incoming(k.0, k.1))
  {
  }

  /** A new budget and decay leave what was minted before counted; a new asset has minted nothing. */
  lemma SettingBudgetKeepsPenalty(s: State, asset: Asset, amount: Balance, factor: Balance, other: Asset)
    ensures
      var t := SetBudget(s, asset, amount, factor);
      && asset in t.assets && t.assets[asset].budget == amount && t.assets[asset].factor == factor
      && (if asset in s.assets
          then t.assets[asset].penalty == s.assets[asset].penalty && t.assets[asset].lastMintBlock == s.assets[asset].lastMintBlock
          else t.assets[asset].penalty == 0 && t.assets[asset].lastMintBlock == s.now)
      && (other != asset ==> (other in t.assets <==> other in s.assets) && (other in s.assets ==> t.assets[other] == s.assets[other]))
  {
  }

  /** A mapping leads to its remote asset, and of all remote assets only this one leads to it;
      without one, none does. What leads to another local asset stays, except the remote asset
      set and the one that the asset led to before, whoever that led back to. */
  lemma MappingLeads(s: State, asset: Asset, network: Network, remote: Option<Remote>, r: Remote, a: Asset)
    requires RemoteReversed(s) && network in s.networks
    ensures
      var o := UpdateAssetMapping(s, asset, network, remote);
      && o.Done?
      && (remote.Some? ==> (asset, network) in o.state.toRemote && o.state.toRemote[(asset, network)] == remote.value)
      && (remote.None? ==> (asset, network) !in o.state.toRemote)
      && ((r, network) in o.state.toLocal && o.state.toLocal[(r, network)] == asset <==> remote == Some(r))
      && (a != asset ==>
           && ((a, network) in o.state.toRemote <==> (a, network) in s.toRemote)
           && ((a, network) in s.toRemote ==> o.state.toRemote[(a, network)] == s.toRemote[(a, network)])
           && ((r, network) in o.state.toLocal && o.state.toLocal[(r, network)] == a <==>
                && (r, network) in s.toLocal && s.toLocal[(r, network)] == a && remote != Some(r)
                && !((asset, network) in s.toRemote && s.toRemote[(asset, network)] == r)))
  {
  }

  // ---------- escrow is exact ----------

  /** Sub-accounts hold what is recorded, to the unit. */
  ghost predicate Exact(s: State) {
    && (forall k: Purse {:trigger Recorded(s.outgoing, k)} :: At(s.balances, Outgoing(k.0, k.1)) == Recorded(s.outgoing, k))
    && (forall k: Purse {:trigger Recorded(s.incoming, k)} :: At(s.balances, Incoming(k.0, k.1)) == Recorded(s.incoming, k))
  }

  /** Nobody pays into a sub-account from outside. */
  ghost predicate SparesSubAccounts(s: State, op: Op) {
    match op
    case OpClaimStaleTo(_, _, to) => to.User?
    case OpClaimTo(_, _, to) => to.User?
    case OpMoveFunds(balances) =>
      forall p: Purse {:trigger At(balances, p)} :: p.0.SubAccount? ==> At(balances, p) == At(s.balances, p)
    case _ => true
  }

  lemma TransferKeepsExact(s: State, caller: nat, network: Network, asset: Asset, amount: nat)
    requires Exact(s)
    ensures Exact(Commit(s, TransferTo(s, caller, network, asset, amount)))
  {
    var t := Commit(s, TransferTo(s, caller, network, asset, amount));
    forall k: Purse
      ensures At(t.balances, Outgoing(k.0, k.1)) == Recorded(t.outgoing, k)
      ensures At(t.balances, Incoming(k.0, k.1)) == Recorded(t.incoming, k)
    {
      assert At(s.balances, Outgoing(k.0, k.1)) == Recorded(s.outgoing, k);
      assert At(s.balances, Incoming(k.0, k.1)) == Recorded(s.incoming, k);
      if TransferTo(s, caller, network, asset, amount).Done? {
        TransferEscrows(s, caller, network, asset, amount, Outgoing(k.0, k.1));
        TransferEscrows(s, caller, network, asset, amount, Incoming(k.0, k.1));
        TransferEscrows(s, caller, network, asset, amount, k);
      }
    }
  }

  lemma AcceptKeepsExact(s: State, from: Holder, network: Network, remote: Remote, amount: nat)
    requires Exact(s)
    ensures Exact(Commit(s, AcceptTransfer(s, from, network, remote, amount)))
  {
    var t := Commit(s, AcceptTransfer(s, from, network, remote, amount));
    forall k: Purse
      ensures At(t.balances, Outgoing(k.0, k.1)) == Recorded(t.outgoing, k)
      ensures At(t.balances, Incoming(k.0, k.1)) == Recorded(t.incoming, k)
    {
      assert At(s.balances, Outgoing(k.0, k.1)) == Recorded(s.outgoing, k);
      assert At(s.balances, Incoming(k.0, k.1)) == Recorded(s.incoming, k);
      if AcceptTransfer(s, from, network, remote, amount).Done? {
        AcceptingBurns(s, from, network, remote, amount, Outgoing(k.0, k.1));
        AcceptingBurns(s, from, network, remote, amount, Incoming(k.0, k.1));
        AcceptingBurns(s, from, network, remote, amount, k);
      }
    }
  }

  lemma StaleClaimKeepsExact(s: State, caller: nat, asset: Asset, to: Holder)
    requires Exact(s) && to.User?
    ensures Exact(Commit(s, ClaimStaleTo(s, caller, asset, to)))
  {
    var t := Commit(s, ClaimStaleTo(s, caller, asset, to));
    forall k: Purse
      ensures At(t.balances, Outgoing(k.0, k.1)) == Recorded(t.outgoing, k)
      ensures At(t.balances, Incoming(k.0, k.1)) == Recorded(t.incoming, k)
    {
      assert At(s.balances, Outgoing(k.0, k.1)) == Recorded(s.outgoing, k);
      assert At(s.balances, Incoming(k.0, k.1)) == Recorded(s.incoming, k);
      if ClaimStaleTo(s, caller, asset, to).Done? {
        StaleClaimPays(s, caller, asset, to, Outgoing(k.0, k.1));
        StaleClaimPays(s, caller, asset, to, Incoming(k.0, k.1));
      }
    }
  }

  lemma MintKeepsExact(s: State, network: Network, remote: Remote, to: Holder, amount: nat, lockTime: Block)
    requires Exact(s) && Backed(s)
    ensures Exact(Commit(s, TimelockedMint(s, network, remote, to, amount, lockTime)))
  {
    var t := Commit(s, TimelockedMint(s, network, remote, to, amount, lockTime));
    forall k: Purse
      ensures At(t.balances, Outgoing(k.0, k.1)) == Recorded(t.outgoing, k)
      ensures At(t.balances, Incoming(k.0, k.1)) == Recorded(t.incoming, k)
    {
      assert At(s.balances, Outgoing(k.0, k.1)) == Recorded(s.outgoing, k);
      assert At(s.balances, Incoming(k.0, k.1)) == Recorded(s.incoming, k);
      if TimelockedMint(s, network, remote, to, amount, lockTime).Done? {
        MintEscrows(s, network, remote, to, amount, lockTime, Outgoing(k.0, k.1));
        MintEscrows(s, network, remote, to, amount, lockTime, Incoming(k.0, k.1));
        MintEscrows(s, network, remote, to, amount, lockTime, k);
      }
    }
  }

  /** Where record and sub-account agree, a rescission of more than is recorded fails. */
  lemma RescissionKeepsExact(s: State, network: Network, remote: Remote, account: Holder, amount: nat)
    requires Exact(s)
    ensures Exact(Commit(s, RescindTimelockedMint(s, network, remote, account, amount)))
  {
    var t := Commit(s, RescindTimelockedMint(s, network, remote, account, amount));
    forall k: Purse
      ensures At(t.balances, Outgoing(k.0, k.1)) == Recorded(t.outgoing, k)
      ensures At(t.balances, Incoming(k.0, k.1)) == Recorded(t.incoming, k)
    {
      assert At(s.balances, Outgoing(k.0, k.1)) == Recorded(s.outgoing, k);
      assert At(s.balances, Incoming(k.0, k.1)) == Recorded(s.incoming, k);
      if RescindTimelockedMint(s, network, remote, account, amount).Done? {
        RescindingBurns(s, network, remote, account, amount, Outgoing(k.0, k.1));
        RescindingBurns(s, network, remote, account, amount, Incoming(k.0, k.1));
        RescindingBurns(s, network, remote, account, amount, k);
      }
    }
  }

  lemma ClaimKeepsExact(s: State, caller: nat, asset: Asset, to: Holder)
    requires Exact(s) && to.User?
    ensures Exact(Commit(s, ClaimTo(s, caller, asset, to)))
  {
    var t := Commit(s, ClaimTo(s, caller, asset, to));
    forall k: Purse
      ensures At(t.balances, Outgoing(k.0, k.1)) == Recorded(t.outgoing, k)
      ensures At(t.balances, Incoming(k.0, k.1)) == Recorded(t.incoming, k)
    {
      assert At(s.balances, Outgoing(k.0, k.1)) == Recorded(s.outgoing, k);
      assert At(s.balances, Incoming(k.0, k.1)) == Recorded(s.incoming, k);
      if ClaimTo(s, caller, asset, to).Done? {
        ClaimPays(s, caller, asset, to, Outgoing(k.0, k.1));
        ClaimPays(s, caller, asset, to, Incoming(k.0, k.1));
      }
    }
  }

  lemma {:induction false} StepKeepsExact(s: State, op: Op)
    requires Exact(s) && Backed(s) && SparesSubAccounts(s, op)
    ensures Exact(Apply(s, op))
  {
    if Administrative(op) {
      AdministrativeStep(s, op);
    } else {
      match op
      case OpTransferTo(caller, network, asset, amount) => TransferKeepsExact(s, caller, network, asset, amount);
      case OpAcceptTransfer(from, network, remote, amount) => AcceptKeepsExact(s, from, network, remote, amount);
      case OpClaimStaleTo(caller, asset, to) => StaleClaimKeepsExact(s, caller, asset, to);
      case OpTimelockedMint(network, remote, to, amount, lockTime) =>
        MintKeepsExact(s, network, remote, to, amount, lockTime);
      case OpRescind(network, remote, account, amount) => RescissionKeepsExact(s, network, remote, account, amount);
      case OpClaimTo(caller, asset, to) => ClaimKeepsExact(s, caller, asset, to);
      case OpMoveFunds(balances) =>
    }
  }

  /** Where sub-accounts start empty and nobody pays into them from outside, they hold at all
      times what is recorded, to the unit: nothing is stuck, and nothing is owed twice. */
  lemma {:induction false} EscrowIsExact(g: State, ops: seq<Op>)
    requires Genesis(g) && forall p: Purse :: p.0.SubAccount? ==> At(g.balances, p) == 0
    requires forall i :: 0 <= i < |ops| ==> SparesSubAccounts(Run(g, ops[..i]), ops[i])
    ensures Exact(Run(g, ops))
  {
    if ops != [] {
      var before := ops[..|ops| - 1];
      forall i | 0 <= i < |before|
        ensures SparesSubAccounts(Run(g, before[..i]), before[i])
      {
        assert before[..i] == ops[..i];
      }
      EscrowIsExact(g, before);
      RunKeepsBacked(g, before);
      StepKeepsExact(Run(g, before), ops[|ops| - 1]);
    }
  }

  // ---------- locks ----------

  /** Calls that change what is recorded of `k` on its way out. */
  predicate TouchesOutgoing(op: Op, k: Purse) {
    || (op.OpTransferTo? && (User(op.caller), op.asset) == k)
    || (op.OpAcceptTransfer? && op.from == k.0)
    || (op.OpClaimStaleTo? && (User(op.caller), op.asset) == k)
  }

  /** And of what is on its way in. */
  predicate TouchesIncoming(op: Op, k: Purse) {
    || (op.OpTimelockedMint? && op.to == k.0)
    || (op.OpRescind? && op.account == k.0)
    || (op.OpClaimTo? && (User(op.caller), op.asset) == k)
  }

  ghost predicate SameEntry(a: Escrow, b: Escrow, k: Purse) {
    (k in a <==> k in b) && (k in a ==> a[k] == b[k])
  }

  lemma OutgoingCallKeepsEntries(s: State, op: Op, k: Purse)
    requires op.OpTransferTo? || op.OpAcceptTransfer? || op.OpClaimStaleTo?
    ensures !TouchesOutgoing(op, k) ==> SameEntry(s.outgoing, Apply(s, op).outgoing, k)
    ensures Apply(s, op).incoming == s.incoming
  {
  }

  lemma IncomingCallKeepsEntries(s: State, op: Op, k: Purse)
    requires op.OpTimelockedMint? || op.OpRescind? || op.OpClaimTo?
    ensures !TouchesIncoming(op, k) ==> SameEntry(s.incoming, Apply(s, op).incoming, k)
    ensures Apply(s, op).outgoing == s.outgoing
  {
  }

  lemma StepKeepsEntries(s: State, op: Op, k: Purse)
    ensures !TouchesOutgoing(op, k) ==> SameEntry(s.outgoing, Apply(s, op).outgoing, k)
    ensures !TouchesIncoming(op, k) ==> SameEntry(s.incoming, Apply(s, op).incoming, k)
  {
    if Administrative(op) {
      AdministrativeStep(s, op);
    } else if op.OpTransferTo? || op.OpAcceptTransfer? || op.OpClaimStaleTo? {
      OutgoingCallKeepsEntries(s, op, k);
    } else if op.OpTimelockedMint? || op.OpRescind? || op.OpClaimTo? {
      IncomingCallKeepsEntries(s, op, k);
    }
  }

  lemma {:induction false} RunKeepsEntries(s: State, ops: seq<Op>, k: Purse)
    ensures (forall i :: 0 <= i < |ops| ==> !TouchesOutgoing(ops[i], k)) ==> SameEntry(s.outgoing, Run(s, ops).outgoing, k)
    ensures (forall i :: 0 <= i < |ops| ==> !TouchesIncoming(ops[i], k)) ==> SameEntry(s.incoming, Run(s, ops).incoming, k)
  {
    if ops != [] {
      RunKeepsEntries(s, ops[..|ops| - 1], k);
      StepKeepsEntries(Run(s, ops[..|ops| - 1]), ops[|ops| - 1], k);
    }
  }

  /** A stale claim of an entry succeeds exactly after its block, and pays it. */
  lemma StaleClaimOfEntry(t: State, caller: nat, asset: Asset, to: Holder, entry: Locked)
    requires Backed(t) && (User(caller), asset) in t.outgoing && t.outgoing[(User(caller), asset)] == entry
    ensures
      var o := ClaimStaleTo(t, caller, asset, to);
      && (o.Done? <==> entry.until < t.now && CanReceive(t, Outgoing(User(caller), asset), (to, asset), entry.amount))
      && (o.Done? && to.User? ==> At(o.state.balances, (to, asset)) == At(t.balances, (to, asset)) + entry.amount)
  {
    BackedStaleClaim(t, caller, asset, to);
    if ClaimStaleTo(t, caller, asset, to).Done? {
      StaleClaimPays(t, caller, asset, to, (to, asset));
    }
  }

  lemma ClaimOfEntry(t: State, caller: nat, asset: Asset, to: Holder, entry: Locked)
    requires Backed(t) && (User(caller), asset) in t.incoming && t.incoming[(User(caller), asset)] == entry
    ensures
      var o := ClaimTo(t, caller, asset, to);
      && (o.Done? <==> entry.until < t.now && CanReceive(t, Incoming(User(caller), asset), (to, asset), entry.amount))
      && (o.Done? && to.User? ==> At(o.state.balances, (to, asset)) == At(t.balances, (to, asset)) + entry.amount)
  {
    BackedClaim(t, caller, asset, to);
    if ClaimTo(t, caller, asset, to).Done? {
      ClaimPays(t, caller, asset, to, (to, asset));
    }
  }

  /** A transfer that nobody accepts can be taken back exactly from the block after its lock
      period on, and then all of it, whatever else happens on the bridge meanwhile. */
  lemma TransferCanBeTakenBackIff(s: State, caller: nat, network: Network, asset: Asset, amount: nat, ops: seq<Op>, to: Holder)
    requires Backed(s) && TransferTo(s, caller, network, asset, amount).Done?
    requires forall i :: 0 <= i < |ops| ==> !TouchesOutgoing(ops[i], (User(caller), asset))
    ensures
      var k, t := (User(caller), asset), Run(TransferTo(s, caller, network, asset, amount).state, ops);
      var o, all := ClaimStaleTo(t, caller, asset, to), Recorded(s.outgoing, k) + amount;
      && (o.Done? <==> s.now + s.lockPeriod < t.now && CanReceive(t, Outgoing(User(caller), asset), (to, asset), all))
      && (o.Done? && to.User? ==> At(o.state.balances, (to, asset)) == At(t.balances, (to, asset)) + all)
  {
    var k, u := (User(caller), asset), TransferTo(s, caller, network, asset, amount).state;
    TransferEscrows(s, caller, network, asset, amount, k);
    TransferToKeepsBacked(s, caller, network, asset, amount);
    RunKeepsBacked(u, ops);
    RunKeepsEntries(u, ops, k);
    StaleClaimOfEntry(Run(u, ops), caller, asset, to, u.outgoing[k]);
  }

  /** A mint that nobody rescinds can be claimed exactly from the block after its lock time on,
      and then everything minted to that account. */
  lemma MintCanBeClaimedIff(s: State, network: Network, remote: Remote, owner: nat, amount: nat, lockTime: Block, ops: seq<Op>, to: Holder)
    requires Backed(s) && TimelockedMint(s, network, remote, User(owner), amount, lockTime).Done?
    requires forall i :: 0 <= i < |ops| ==> !TouchesIncoming(ops[i], (User(owner), s.toLocal[(remote, network)]))
    ensures
      var asset, t := s.toLocal[(remote, network)], Run(TimelockedMint(s, network, remote, User(owner), amount, lockTime).state, ops);
      var o, all := ClaimTo(t, owner, asset, to), Recorded(s.incoming, (User(owner), asset)) + amount;
      && (o.Done? <==> s.now + lockTime < t.now && CanReceive(t, Incoming(User(owner), asset), (to, asset), all))
      && (o.Done? && to.User? ==> At(o.state.balances, (to, asset)) == At(t.balances, (to, asset)) + all)
  {
    var asset, u := s.toLocal[(remote, network)], TimelockedMint(s, network, remote, User(owner), amount, lockTime).state;
    var k := (User(owner), asset);
    MintEscrows(s, network, remote, User(owner), amount, lockTime, k);
    MintKeepsBacked(s, network, remote, User(owner), amount, lockTime);
    RunKeepsBacked(u, ops);
    RunKeepsEntries(u, ops, k);
    ClaimOfEntry(Run(u, ops), owner, asset, to, u.incoming[k]);
  }

  /** The lock period can be set to exactly the values above the minimum. */
  lemma LockPeriodSucceedsIff(s: State, period: Block)
    ensures
      var t := Commit(s, SetLockPeriod(s, period));
      t.lockPeriod == if period > s.minLockPeriod then period else s.lockPeriod
  {
  }

  lemma {:induction false} StepKeepsLockPeriod(s: State, op: Op)
    requires !op.OpSetLockPeriod?
    ensures Apply(s, op).lockPeriod == s.lockPeriod && Apply(s, op).minLockPeriod == s.minLockPeriod
  {
    match op
    case OpSetBudget(_, _, _) =>
    case OpSetNetwork(_, _) =>
    case OpTransferTo(_, _, _, _) =>
    case OpAcceptTransfer(_, _, _, _) =>
    case OpClaimStaleTo(_, _, _) =>
    case OpTimelockedMint(_, _, _, _, _) =>
    case OpRescind(_, _, _, _) =>
    case OpClaimTo(_, _, _) =>
    case OpUpdateMapping(_, _, _) =>
    case OpBlocks(_) =>
    case OpMoveFunds(_) =>
  }

  /** So over every run transfers out are locked for the minimum or longer. */
  lemma {:induction false} LockPeriodIsLongEnough(s: State, ops: seq<Op>)
    requires s.lockPeriod >= s.minLockPeriod
    ensures Run(s, ops).lockPeriod >= s.minLockPeriod == Run(s, ops).minLockPeriod
  {
    if ops != [] {
      var t, op := Run(s, ops[..|ops| - 1]), ops[|ops| - 1];
      LockPeriodIsLongEnough(s, ops[..|ops| - 1]);
      if op.OpSetLockPeriod? {
        LockPeriodSucceedsIff(t, op.period);
      } else {
        StepKeepsLockPeriod(t, op);
      }
    }
  }
}
