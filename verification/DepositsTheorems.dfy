/** Over every run, what is held for democracy is exactly what its deposit records say. */
module DepositsTheorems {
  import opened Amounts
  import opened FiniteSums
  import opened DepositsSpec

  // ---------- one deposit entry ----------

  /** Held funds are counted with multiplicity. */
  lemma {:induction false} StakeIsMultiplicity(who: seq<Account>, amount: nat, a: Account)
    ensures Stake(who, amount, a) == multiset(who)[a] * amount
  {
    if who != [] {
      var before: seq<Account>, last: Account := who[..|who| - 1], who[|who| - 1];
      StakeIsMultiplicity(before, amount, a);
      assert who == before + [last];
      var times: nat := multiset(before)[a];
      assert multiset(who)[a] == if last == a then times + 1 else times;
      OneMore(times, amount);
    }
  }

  lemma OneMore(n: nat, amount: nat)
    ensures (n + 1) * amount == n * amount + amount
  {
  }

  /** Enough is held for everybody in a list. */
  ghost predicate Holds(l: Ledger, who: seq<Account>, amount: nat) {
    forall a {:trigger At(l.held, a)} :: Stake(who, amount, a) <= At(l.held, a)
  }

  lemma HoldsPrefix(l: Ledger, who: seq<Account>, amount: nat)
    requires who != [] && Holds(l, who, amount)
    ensures Holds(l, who[..|who| - 1], amount)
  {
    forall a {:trigger At(l.held, a)}
      ensures Stake(who[..|who| - 1], amount, a) <= At(l.held, a)
    {
      assert Stake(who, amount, a) <= At(l.held, a);
    }
  }

  /** Everybody gets back exactly what was held. */
  lemma {:induction false} ReleaseAllIs(l: Ledger, who: seq<Account>, amount: nat, a: Account)
    requires Holds(l, who, amount)
    ensures At(ReleaseAll(l, who, amount).held, a) == At(l.held, a) - Stake(who, amount, a)
    ensures At(ReleaseAll(l, who, amount).free, a) == At(l.free, a) + Stake(who, amount, a)
  {
    if who != [] {
      var before, last := who[..|who| - 1], who[|who| - 1];
      HoldsPrefix(l, who, amount);
      ReleaseAllIs(l, before, amount, a);
      ReleaseAllIs(l, before, amount, last);
      assert Stake(who, amount, last) <= At(l.held, last);
    }
  }

  function Slashed(who: seq<Account>, amount: nat): nat {
    if who == [] then 0 else Slashed(who[..|who| - 1], amount) + amount
  }

  /** Exactly what was held of everybody goes to one account. */
  lemma {:induction false} SlashAllIs(l: Ledger, who: seq<Account>, to: Account, amount: nat, a: Account)
    requires Holds(l, who, amount)
    ensures At(SlashAll(l, who, to, amount).held, a) == At(l.held, a) - Stake(who, amount, a)
    ensures At(SlashAll(l, who, to, amount).free, a) == At(l.free, a) + if a == to then Slashed(who, amount) else 0
  {
    if who != [] {
      var before, last := who[..|who| - 1], who[|who| - 1];
      HoldsPrefix(l, who, amount);
      SlashAllIs(l, before, to, amount, a);
      SlashAllIs(l, before, to, amount, last);
      assert Stake(who, amount, last) <= At(l.held, last);
    }
  }

  // ---------- records and their sums ----------

  lemma StakedPut(deposits: map<PropIndex, Deposit>, index: PropIndex, deposit: Deposit, a: Account)
    ensures Staked(deposits[index := deposit], a)
      == Staked(deposits, a) - StakeIn(deposits, index, a) + Stake(deposit.who, deposit.amount, a)
  {
    var after := deposits[index := deposit];
    assert after.Keys == deposits.Keys + {index};
    SumChange(deposits.Keys, (i: PropIndex) => StakeIn(deposits, i, a), (i: PropIndex) => StakeIn(after, i, a), index);
  }

  lemma StakedTake(deposits: map<PropIndex, Deposit>, index: PropIndex, a: Account)
    requires index in deposits
    ensures Staked(deposits - {index}, a) == Staked(deposits, a) - StakeIn(deposits, index, a)
  {
    var after := deposits - {index};
    SumRemove(deposits.Keys, (i: PropIndex) => StakeIn(deposits, i, a), index);
    assert after.Keys == deposits.Keys - {index};
    SumEqual(after.Keys, (i: PropIndex) => StakeIn(deposits, i, a), (i: PropIndex) => StakeIn(after, i, a));
  }

  lemma NotedPut(preimages: map<ProposalId, Preimage>, id: ProposalId, preimage: Preimage, a: Account)
    ensures Noted(preimages[id := preimage], a)
      == Noted(preimages, a) - NotedIn(preimages, id, a)
         + if preimage.Available? && preimage.provider == a then preimage.deposit else 0
  {
    var after := preimages[id := preimage];
    assert after.Keys == preimages.Keys + {id};
    SumChange(preimages.Keys, (i: ProposalId) => NotedIn(preimages, i, a), (i: ProposalId) => NotedIn(after, i, a), id);
  }

  lemma NotedTake(preimages: map<ProposalId, Preimage>, id: ProposalId, a: Account)
    requires id in preimages
    ensures Noted(preimages - {id}, a) == Noted(preimages, a) - NotedIn(preimages, id, a)
  {
    var after := preimages - {id};
    SumRemove(preimages.Keys, (i: ProposalId) => NotedIn(preimages, i, a), id);
    assert after.Keys == preimages.Keys - {id};
    SumEqual(after.Keys, (i: ProposalId) => NotedIn(preimages, i, a), (i: ProposalId) => NotedIn(after, i, a));
  }

  lemma SumsNonNegative(s: State, a: Account)
    ensures 0 <= Staked(s.deposits, a) && 0 <= Noted(s.preimages, a)
  {
    SumNonNegative(s.deposits.Keys, (i: PropIndex) => StakeIn(s.deposits, i, a));
    SumNonNegative(s.preimages.Keys, (i: ProposalId) => NotedIn(s.preimages, i, a));
  }

  /** What is held covers every deposit entry. */
  lemma EntryIsHeld(s: State, index: PropIndex)
    requires Backed(s) && index in s.deposits
    ensures Holds(s.ledger, s.deposits[index].who, s.deposits[index].amount)
  {
    forall a {:trigger At(s.ledger.held, a)}
      ensures Stake(s.deposits[index].who, s.deposits[index].amount, a) <= At(s.ledger.held, a)
    {
      assert At(s.ledger.held, a) == Staked(s.deposits, a) + Noted(s.preimages, a) + At(s.others, a);
      SumsNonNegative(s, a);
      SumTerm(s.deposits.Keys, (i: PropIndex) => StakeIn(s.deposits, i, a), index);
    }
  }

  lemma PreimageIsHeld(s: State, id: ProposalId)
    requires Backed(s) && id in s.preimages && s.preimages[id].Available?
    ensures s.preimages[id].deposit <= At(s.ledger.held, s.preimages[id].provider)
  {
    var a := s.preimages[id].provider;
    assert At(s.ledger.held, a) == Staked(s.deposits, a) + Noted(s.preimages, a) + At(s.others, a);
    SumsNonNegative(s, a);
    SumTerm(s.preimages.Keys, (i: ProposalId) => NotedIn(s.preimages, i, a), id);
  }

  // ---------- proposals ----------

  lemma StakeOneMore(who: seq<Account>, last: Account, amount: nat, a: Account)
    ensures Stake(who + [last], amount, a) == Stake(who, amount, a) + if last == a then amount else 0
  {
    assert (who + [last])[..|who + [last]| - 1] == who;
  }

  lemma ProposeKeepsInv(s: State, who: Account, id: ProposalId, value: nat)
    requires Inv(s)
    ensures Inv(Propose(s, who, id, value).state)
  {
    var t := Propose(s, who, id, value).state;
    if t != s {
      forall a
        ensures At(t.ledger.held, a) == Staked(t.deposits, a) + Noted(t.preimages, a) + At(t.others, a)
      {
        assert At(s.ledger.held, a) == Staked(s.deposits, a) + Noted(s.preimages, a) + At(s.others, a);
        StakedPut(s.deposits, s.propCount, Deposit([who], value), a);
        StakeOneMore([], who, value, a);
        assert [] + [who] == [who];
      }
    }
  }

  lemma SecondKeepsInv(s: State, who: Account, index: PropIndex, bound: nat)
    requires Inv(s)
    ensures Inv(Second(s, who, index, bound).state)
  {
    var t := Second(s, who, index, bound).state;
    if Second(s, who, index, bound).error.None? {
      var deposit := s.deposits[index];
      forall a
        ensures At(t.ledger.held, a) == Staked(t.deposits, a) + Noted(t.preimages, a) + At(t.others, a)
      {
        assert At(s.ledger.held, a) == Staked(s.deposits, a) + Noted(s.preimages, a) + At(s.others, a);
        StakedPut(s.deposits, index, Deposit(deposit.who + [who], deposit.amount), a);
        StakeOneMore(deposit.who, who, deposit.amount, a);
      }
    }
  }

  /** Without the deposit entry of one index, and its funds no longer held. */
  lemma TakenKeepsBacked(s: State, t: State, index: PropIndex)
    requires Backed(s) && index in s.deposits
    requires t.deposits == s.deposits - {index} && t.preimages == s.preimages && t.others == s.others
    requires forall a {:trigger At(t.ledger.held, a)} :: At(t.ledger.held, a) == At(s.ledger.held, a) - StakeIn(s.deposits, index, a)
    ensures Backed(t)
  {
    forall a
      ensures At(t.ledger.held, a) == Staked(t.deposits, a) + Noted(t.preimages, a) + At(t.others, a)
    {
      assert At(s.ledger.held, a) == Staked(s.deposits, a) + Noted(s.preimages, a) + At(s.others, a);
      StakedTake(s.deposits, index, a);
    }
  }

  lemma SlashKeepsBacked(s: State, index: PropIndex)
    requires Backed(s)
    ensures Backed(SlashDeposit(s, index))
  {
    if index in s.deposits {
      var t, deposit := SlashDeposit(s, index), s.deposits[index];
      EntryIsHeld(s, index);
      forall a {:trigger At(t.ledger.held, a)}
        ensures At(t.ledger.held, a) == At(s.ledger.held, a) - StakeIn(s.deposits, index, a)
      {
        SlashAllIs(s.ledger, deposit.who, s.config.treasury, deposit.amount, a);
      }
      TakenKeepsBacked(s, t, index);
    }
  }

  /** Some proposals taken out of the queue, none of the rest with the given index. */
  ghost predicate QueueWithout(s: State, props: seq<Proposal>, index: PropIndex) {
    && (forall i :: 0 <= i < |props| ==> props[i].index in s.deposits && props[i].index != index)
    && (forall i, j :: 0 <= i < j < |props| ==> props[i].index != props[j].index)
  }

  lemma {:induction false} WithoutIs(s: State, props: seq<Proposal>, index: PropIndex)
    requires forall i :: 0 <= i < |props| ==> props[i].index in s.deposits
    requires forall i, j :: 0 <= i < j < |props| ==> props[i].index != props[j].index
    ensures QueueWithout(s, Without(props, index), index)
    ensures forall p :: p in Without(props, index) ==> p in props
  {
    if props != [] {
      WithoutIs(s, props[..|props| - 1], index);
      var rest := Without(props[..|props| - 1], index);
      forall i | 0 <= i < |rest|
        ensures rest[i].index != props[|props| - 1].index
      {
        assert rest[i] in props[..|props| - 1];
      }
    }
  }

  lemma CancelKeepsInv(s: State, index: PropIndex)
    requires Inv(s)
    ensures Inv(CancelProposal(s, index))
  {
    WithoutIs(s, s.props, index);
    var t := s.(props := Without(s.props, index));
    assert Backed(t);
    SlashKeepsBacked(t, index);
  }

  lemma UnqueuedKeepsInv(s: State, id: ProposalId)
    requires Inv(s)
    ensures Inv(Unqueued(s, id))
  {
    var n := Position(s.props, id);
    if n < |s.props| {
      var t := s.(props := s.props[..n] + s.props[n + 1..]);
      assert Backed(t);
      assert QueueWithout(t, t.props, s.props[n].index);
      SlashKeepsBacked(t, s.props[n].index);
    }
  }

  lemma BlacklistKeepsInv(s: State, id: ProposalId)
    requires Inv(s)
    ensures Inv(BlacklistProposal(s, id))
  {
    var t := s.(blacklist := s.blacklist[id := Vetoed(MAX_BLOCK, {})]);
    QueuesAside(s, t);
    UnqueuedKeepsInv(t, id);
    QueuesAside(Unqueued(t, id), BlacklistProposal(s, id));
  }

  lemma LaunchKeepsInv(s: State)
    requires Inv(s)
    ensures Inv(LaunchPublic(s).state)
  {
    if s.props != [] {
      var n := Best(s.props, s.deposits, |s.props|);
      var t, index, rest := LaunchPublic(s).state, s.props[n].index, SwapRemove(s.props, n);
      var deposit := s.deposits[index];
      EntryIsHeld(s, index);
      forall a {:trigger At(t.ledger.held, a)}
        ensures At(t.ledger.held, a) == At(s.ledger.held, a) - StakeIn(s.deposits, index, a)
      {
        ReleaseAllIs(s.ledger, deposit.who, deposit.amount, a);
      }
      TakenKeepsBacked(s, t, index);
      SwapRemoveIs(s, n);
    }
  }

  lemma SwapRemoveIs(s: State, n: nat)
    requires Queued(s) && n < |s.props|
    ensures QueueWithout(s, SwapRemove(s.props, n), s.props[n].index)
  {
  }

  /** The external queue and the blacklist hold no deposits. */
  lemma QueuesAside(s: State, t: State)
    requires Inv(s)
    requires t == s.(external := t.external, lastWasExternal := t.lastWasExternal, blacklist := t.blacklist)
    ensures Inv(t)
  {
  }

  lemma LaunchNextKeepsInv(s: State)
    requires Inv(s)
    ensures Inv(LaunchNext(s).state)
  {
    var t := s.(lastWasExternal := false);
    QueuesAside(s, t);
    LaunchKeepsInv(t);
    QueuesAside(t, LaunchExternal(t).state);
  }

  // ---------- preimages ----------

  lemma NoteKeepsInv(s: State, who: Account, id: ProposalId, size: nat)
    requires Inv(s)
    ensures Inv(NotePreimage(s, who, id, size).state)
  {
    var deposit := PreimageDeposit(s, size);
    NotingKeepsInv(s, who, id, size, deposit);
  }

  lemma NotingKeepsInv(s: State, who: Account, id: ProposalId, size: nat, deposit: nat)
    requires Inv(s)
    ensures id !in s.preimages && Hold(s.ledger, who, deposit).Some? ==>
      Inv(s.(ledger := Hold(s.ledger, who, deposit).value,
             preimages := s.preimages[id := Available(size, who, deposit, s.now, None)]))
  {
    if id !in s.preimages && Hold(s.ledger, who, deposit).Some? {
      var p := Available(size, who, deposit, s.now, None);
      var t := s.(ledger := Hold(s.ledger, who, deposit).value, preimages := s.preimages[id := p]);
      forall a
        ensures At(t.ledger.held, a) == Staked(t.deposits, a) + Noted(t.preimages, a) + At(t.others, a)
      {
        assert At(s.ledger.held, a) == Staked(s.deposits, a) + Noted(s.preimages, a) + At(s.others, a);
        NotedPut(s.preimages, id, p, a);
      }
    }
  }

  /** A preimage record that carries no less and no more deposit. */
  lemma RewriteKeepsInv(s: State, id: ProposalId, p: Preimage)
    requires Inv(s)
    requires forall a {:trigger NotedIn(s.preimages, id, a)} ::
      NotedIn(s.preimages, id, a) == if p.Available? && p.provider == a then p.deposit else 0
    ensures Inv(s.(preimages := s.preimages[id := p]))
  {
    var t := s.(preimages := s.preimages[id := p]);
    forall a
      ensures At(t.ledger.held, a) == Staked(t.deposits, a) + Noted(t.preimages, a) + At(t.others, a)
    {
      assert At(s.ledger.held, a) == Staked(s.deposits, a) + Noted(s.preimages, a) + At(s.others, a);
      NotedPut(s.preimages, id, p, a);
    }
  }

  lemma NoteImminentKeepsInv(s: State, who: Account, id: ProposalId, size: nat)
    requires Inv(s)
    ensures Inv(NoteImminentPreimage(s, who, id, size).state)
  {
    if id in s.preimages && s.preimages[id].Missing? {
      RewriteKeepsInv(s, id, Available(size, who, 0, s.now, Some(s.preimages[id].until)));
    }
  }

  lemma AwaitKeepsInv(s: State, id: ProposalId, when: Block)
    requires Inv(s)
    ensures Inv(AwaitPreimage(s, id, when))
  {
    RewriteKeepsInv(s, id, AwaitPreimage(s, id, when).preimages[id]);
  }

  /** Without one preimage record, and its funds no longer held. */
  lemma UsedKeepsInv(s: State, t: State, id: ProposalId)
    requires Inv(s) && id in s.preimages
    requires t == s.(preimages := s.preimages - {id}, ledger := t.ledger)
    requires forall a {:trigger At(t.ledger.held, a)} :: At(t.ledger.held, a) == At(s.ledger.held, a) - NotedIn(s.preimages, id, a)
    ensures Inv(t)
  {
    forall a
      ensures At(t.ledger.held, a) == Staked(t.deposits, a) + Noted(t.preimages, a) + At(t.others, a)
    {
      assert At(s.ledger.held, a) == Staked(s.deposits, a) + Noted(s.preimages, a) + At(s.others, a);
      NotedTake(s.preimages, id, a);
    }
  }

  lemma ReapKeepsInv(s: State, who: Account, id: ProposalId, bound: nat)
    requires Inv(s)
    ensures Inv(ReapPreimage(s, who, id, bound).state)
  {
    if ReapPreimage(s, who, id, bound).error.None? {
      PreimageIsHeld(s, id);
      UsedKeepsInv(s, ReapPreimage(s, who, id, bound).state, id);
    }
  }

  lemma EnactKeepsInv(s: State, id: ProposalId, decodes: bool, registered: bool)
    requires Inv(s)
    ensures Inv(EnactProposal(s, id, decodes, registered).state)
  {
    if id in s.preimages {
      if s.preimages[id].Available? {
        PreimageIsHeld(s, id);
      }
      UsedKeepsInv(s, EnactProposal(s, id, decodes, registered).state, id);
    }
  }

  // ---------- runs ----------

  lemma ElsewhereKeepsInv(s: State, ledger: Ledger, others: Balances)
    requires Inv(s) && OnlyOthers(s, ledger, others)
    ensures Inv(s.(ledger := ledger, others := others))
  {
    forall a
      ensures At(ledger.held, a) == Staked(s.deposits, a) + Noted(s.preimages, a) + At(others, a)
    {
      assert At(s.ledger.held, a) == Staked(s.deposits, a) + Noted(s.preimages, a) + At(s.others, a);
    }
  }

  predicate OfExternals(op: Op) {
    op.OpExternalPropose? || op.OpExternalReplace? || op.OpVeto? || op.OpFastTrack?
  }

  predicate OfPreimages(op: Op) {
    op.OpNote? || op.OpNoteImminent? || op.OpReap? || op.OpEnact? || op.OpAwait?
  }

  lemma ExternalStepKeepsInv(s: State, op: Op)
    requires Inv(s) && OfExternals(op)
    ensures Inv(Apply(s, op))
  {
    QueuesAside(s, Apply(s, op));
  }

  lemma PreimageStepKeepsInv(s: State, op: Op)
    requires Inv(s) && OfPreimages(op)
    ensures Inv(Apply(s, op))
  {
    match op
    case OpNote(who, id, size) => NoteKeepsInv(s, who, id, size);
    case OpNoteImminent(who, id, size) => NoteImminentKeepsInv(s, who, id, size);
    case OpReap(who, id, bound) => ReapKeepsInv(s, who, id, bound);
    case OpEnact(id, decodes, registered) => EnactKeepsInv(s, id, decodes, registered);
    case OpAwait(id, when) => AwaitKeepsInv(s, id, when);
  }

  lemma ProposalStepKeepsInv(s: State, op: Op)
    requires Inv(s) && !OfExternals(op) && !OfPreimages(op)
    ensures Inv(Apply(s, op))
  {
    match op
    case OpPropose(who, id, value) => ProposeKeepsInv(s, who, id, value);
    case OpSecond(who, index, bound) => SecondKeepsInv(s, who, index, bound);
    case OpClear =>
    case OpCancel(index) => CancelKeepsInv(s, index);
    case OpBlacklist(id) => BlacklistKeepsInv(s, id);
    case OpLaunch => LaunchKeepsInv(s);
    case OpLaunchNext => LaunchNextKeepsInv(s);
    case OpBlocks(passed) =>
    case OpElsewhere(ledger, others) =>
      if OnlyOthers(s, ledger, others) {
        ElsewhereKeepsInv(s, ledger, others);
      }
  }

  lemma StepKeepsInv(s: State, op: Op)
    requires Inv(s)
    ensures Inv(Apply(s, op))
  {
    if OfExternals(op) {
      ExternalStepKeepsInv(s, op);
    } else if OfPreimages(op) {
      PreimageStepKeepsInv(s, op);
    } else {
      ProposalStepKeepsInv(s, op);
    }
  }

  lemma GenesisHasInv(s: State)
    requires Genesis(s)
    ensures Inv(s)
  {
    forall a
      ensures At(s.ledger.held, a) == Staked(s.deposits, a) + Noted(s.preimages, a) + At(s.others, a)
    {
      SumZero(s.deposits.Keys, (i: PropIndex) => StakeIn(s.deposits, i, a));
      SumZero(s.preimages.Keys, (i: ProposalId) => NotedIn(s.preimages, i, a));
      assert At(s.ledger.held, a) == At(s.others, a);
    }
  }

  lemma {:induction false} RunKeepsInv(s: State, ops: seq<Op>)
    requires Inv(s)
    ensures Inv(Run(s, ops))
  {
    if ops != [] {
      RunKeepsInv(s, ops[..|ops| - 1]);
      StepKeepsInv(Run(s, ops[..|ops| - 1]), ops[|ops| - 1]);
    }
  }

  /** In every reachable state what democracy holds of an account is exactly its deposits,
      with multiplicity, plus the deposits of the preimages it provides. */
  lemma HeldIsRecorded(s: State, ops: seq<Op>, a: Account)
    requires Genesis(s)
    ensures
      var t := Run(s, ops);
      At(t.ledger.held, a) - At(t.others, a) == Staked(t.deposits, a) + Noted(t.preimages, a)
  {
    GenesisHasInv(s);
    RunKeepsInv(s, ops);
  }

  // ---------- tabling ----------

  /** The tabled proposal is backed by at least as much as any other, and by more than those
      queued after it. */
  lemma {:induction false} BestIsLastMaximum(s: State, n: nat)
    requires 0 < n <= |s.props|
    ensures forall i :: 0 <= i < n ==> Backing(s.deposits, s.props[i].index) <= Backing(s.deposits, s.props[Best(s.props, s.deposits, n)].index)
    ensures forall i :: Best(s.props, s.deposits, n) < i < n ==> Backing(s.deposits, s.props[i].index) < Backing(s.deposits, s.props[Best(s.props, s.deposits, n)].index)
  {
    if n > 1 {
      BestIsLastMaximum(s, n - 1);
    }
  }

  /** Tabling pays every depositor back exactly what was held for the proposal, and nobody
      else anything. */
  lemma LaunchRefunds(s: State, a: Account)
    requires Inv(s) && s.props != []
    ensures
      var t, index := LaunchPublic(s).state, s.props[Best(s.props, s.deposits, |s.props|)].index;
      && At(t.ledger.free, a) == At(s.ledger.free, a) + StakeIn(s.deposits, index, a)
      && At(t.ledger.held, a) == At(s.ledger.held, a) - StakeIn(s.deposits, index, a)
  {
    var index := s.props[Best(s.props, s.deposits, |s.props|)].index;
    EntryIsHeld(s, index);
    ReleaseAllIs(s.ledger, s.deposits[index].who, s.deposits[index].amount, a);
  }

  // ---------- cleared proposals ----------

  /** Some queued proposal has this index, which is what a caller can look up. */
  ghost predicate IsQueued(s: State, index: PropIndex) {
    exists i :: 0 <= i < |s.props| && s.props[i].index == index
  }

  /** A deposit entry whose proposal is not queued. */
  ghost predicate Stranded(s: State, index: PropIndex) {
    index in s.deposits && !IsQueued(s, index)
  }

  /** Seconding extends a deposit entry; nothing else changes it. */
  ghost predicate Extends(was: Deposit, now: Deposit) {
    was.amount == now.amount && was.who <= now.who
  }

  lemma StrandedByQueue(s: State, t: State, index: PropIndex)
    requires Inv(s) && Stranded(s, index)
    requires forall p :: p in t.props ==> p in s.props
    requires index in t.deposits
    ensures Stranded(t, index)
  {
    forall i | 0 <= i < |t.props|
      ensures t.props[i].index != index
    {
      assert t.props[i] in s.props;
    }
  }

  lemma {:induction false} WithoutIsPart(props: seq<Proposal>, index: PropIndex)
    ensures forall p :: p in Without(props, index) ==> p in props
  {
    if props != [] {
      WithoutIsPart(props[..|props| - 1], index);
    }
  }

  /** Removing some other proposal leaves a stranded deposit alone. */
  lemma StrandedThroughRemoval(s: State, op: Op, index: PropIndex)
    requires Inv(s) && Stranded(s, index) && op != OpCancel(index)
    requires op.OpCancel? || op.OpBlacklist?
    ensures Stranded(Apply(s, op), index) && Apply(s, op).deposits[index] == s.deposits[index]
  {
    if op.OpCancel? {
      WithoutIsPart(s.props, op.index);
    }
    StrandedByQueue(s, Apply(s, op), index);
  }

  lemma StrandedThroughLaunch(s: State, index: PropIndex)
    requires Inv(s) && Stranded(s, index)
    ensures Stranded(LaunchPublic(s).state, index) && LaunchPublic(s).state.deposits[index] == s.deposits[index]
  {
    StrandedByQueue(s, LaunchPublic(s).state, index);
  }

  lemma StrandedThroughLaunchNext(s: State, index: PropIndex)
    requires Inv(s) && Stranded(s, index)
    ensures Stranded(LaunchNext(s).state, index) && LaunchNext(s).state.deposits[index] == s.deposits[index]
  {
    var t := s.(lastWasExternal := false);
    QueuesAside(s, t);
    StrandedThroughLaunch(t, index);
  }

  lemma ProposalsAside(s: State, op: Op)
    requires OfExternals(op) || OfPreimages(op)
    ensures Apply(s, op).props == s.props && Apply(s, op).deposits == s.deposits
  {
  }

  /** Once its proposal has left the queue by clearing, a deposit is never refunded: only a
      cancellation, which slashes it, ever removes it. */
  lemma StrandedStep(s: State, op: Op, index: PropIndex)
    requires Inv(s) && Stranded(s, index) && op != OpCancel(index)
    ensures Stranded(Apply(s, op), index) && Extends(s.deposits[index], Apply(s, op).deposits[index])
  {
    if op.OpCancel? || op.OpBlacklist? {
      StrandedThroughRemoval(s, op, index);
    } else if op.OpLaunch? {
      StrandedThroughLaunch(s, index);
    } else if op.OpLaunchNext? {
      StrandedThroughLaunchNext(s, index);
    } else if OfExternals(op) || OfPreimages(op) {
      ProposalsAside(s, op);
    }
  }

  lemma {:induction false} StrandedUntilCancelled(s: State, ops: seq<Op>, index: PropIndex)
    requires Inv(s) && Stranded(s, index) && OpCancel(index) !in ops
    ensures Stranded(Run(s, ops), index) && Extends(s.deposits[index], Run(s, ops).deposits[index])
  {
    if ops != [] {
      var before := ops[..|ops| - 1];
      assert ops == before + [ops[|ops| - 1]];
      StrandedUntilCancelled(s, before, index);
      RunKeepsInv(s, before);
      StrandedStep(Run(s, before), ops[|ops| - 1], index);
    }
  }

  // ---------- refunds ----------

  lemma {:induction false} RunAfter(s: State, op: Op, ops: seq<Op>)
    ensures Run(s, [op] + ops) == Run(Apply(s, op), ops)
  {
    if ops == [] {
      assert [op] + ops == [op] && [op][..0] == [];
    } else {
      var before, last := ops[..|ops| - 1], ops[|ops| - 1];
      assert ([op] + ops)[..|[op] + ops| - 1] == [op] + before;
      RunAfter(s, op, before);
    }
  }

  /** What tabling one proposal does to everybody's free funds and recorded deposits. */
  lemma LaunchReturns(s: State, a: Account)
    requires Inv(s) && s.props != []
    ensures
      var t := LaunchPublic(s).state;
      At(t.ledger.free, a) + Staked(t.deposits, a) == At(s.ledger.free, a) + Staked(s.deposits, a)
  {
    var index := s.props[Best(s.props, s.deposits, |s.props|)].index;
    LaunchRefunds(s, a);
    StakedTake(s.deposits, index, a);
  }

  /** Tabling removes the entry of one queued proposal; the others stay queued. */
  lemma LaunchShortens(s: State, index: PropIndex)
    requires Inv(s) && IsQueued(s, index)
    ensures
      var t := LaunchPublic(s).state;
      && |t.props| < |s.props|
      && (index in t.deposits ==> IsQueued(t, index) && t.deposits[index] == s.deposits[index])
  {
    var n, t := Best(s.props, s.deposits, |s.props|), LaunchPublic(s).state;
    var i :| 0 <= i < |s.props| && s.props[i].index == index;
    if i != n {
      var k := if i == |s.props| - 1 then n else i;
      assert t.props[k].index == index;
    }
  }

  ghost predicate OnlyLaunches(ops: seq<Op>) {
    forall op :: op in ops ==> op == OpLaunch
  }

  /** A queued proposal can be tabled, with no help but the launch of what is queued; until
      then everybody is paid back exactly the deposits that are taken off the records. */
  lemma {:induction false} QueuedIsRefunded(s: State, index: PropIndex) returns (ops: seq<Op>)
    requires Inv(s) && IsQueued(s, index)
    ensures OnlyLaunches(ops) && index !in Run(s, ops).deposits
    ensures forall a {:trigger Staked(Run(s, ops).deposits, a)} ::
      At(Run(s, ops).ledger.free, a) + Staked(Run(s, ops).deposits, a) == At(s.ledger.free, a) + Staked(s.deposits, a)
    ensures forall i :: i in Run(s, ops).deposits ==> i in s.deposits && Run(s, ops).deposits[i] == s.deposits[i]
    decreases |s.props|
  {
    var t := LaunchPublic(s).state;
    LaunchShortens(s, index);
    LaunchKeepsInv(s);
    var rest := [];
    if index in t.deposits {
      rest := QueuedIsRefunded(t, index);
    }
    ops := [OpLaunch] + rest;
    RunAfter(s, OpLaunch, rest);
    forall a
      ensures At(Run(t, rest).ledger.free, a) + Staked(Run(t, rest).deposits, a)
        == At(s.ledger.free, a) + Staked(s.deposits, a)
    {
      LaunchReturns(s, a);
      assert index in t.deposits ==>
        At(Run(t, rest).ledger.free, a) + Staked(Run(t, rest).deposits, a) == At(t.ledger.free, a) + Staked(t.deposits, a);
    }
  }

  /** A part of the records counts for no more than the records without one entry. */
  lemma StakedWithout(part: map<PropIndex, Deposit>, all: map<PropIndex, Deposit>, index: PropIndex, a: Account)
    requires index in all && index !in part && forall i :: i in part ==> i in all && part[i] == all[i]
    ensures Staked(part, a) + StakeIn(all, index, a) <= Staked(all, a)
  {
    var weight := (i: PropIndex) => StakeIn(all, i, a);
    SumRemove(all.Keys, weight, index);
    SumWithin(part.Keys, all.Keys - {index}, weight);
    SumEqual(part.Keys, (i: PropIndex) => StakeIn(part, i, a), weight);
  }

  /** On the way every depositor of the proposal gets back at least its deposit for it. */
  lemma DepositorsAreRefunded(s: State, index: PropIndex) returns (ops: seq<Op>)
    requires Inv(s) && index in s.deposits && IsQueued(s, index)
    ensures OnlyLaunches(ops) && index !in Run(s, ops).deposits
    ensures forall a {:trigger StakeIn(s.deposits, index, a)} ::
      At(s.ledger.free, a) + StakeIn(s.deposits, index, a) <= At(Run(s, ops).ledger.free, a)
  {
    ops := QueuedIsRefunded(s, index);
    var t := Run(s, ops);
    forall a
      ensures At(s.ledger.free, a) + StakeIn(s.deposits, index, a) <= At(t.ledger.free, a)
    {
      StakedWithout(t.deposits, s.deposits, index, a);
      assert At(t.ledger.free, a) + Staked(t.deposits, a) == At(s.ledger.free, a) + Staked(s.deposits, a);
    }
  }

  /** A deposit can leave the records without being cancelled if and only if its proposal is
      queued, and then launches are enough. */
  lemma RefundableIffQueued(s: State, index: PropIndex)
    requires Inv(s) && index in s.deposits
    ensures (exists ops :: OpCancel(index) !in ops && index !in Run(s, ops).deposits) <==> IsQueued(s, index)
    ensures (exists ops :: OnlyLaunches(ops) && index !in Run(s, ops).deposits) <==> IsQueued(s, index)
  {
    if IsQueued(s, index) {
      var ops := QueuedIsRefunded(s, index);
      assert OnlyLaunches(ops) && OpCancel(index) !in ops && index !in Run(s, ops).deposits;
    } else {
      forall ops | OpCancel(index) !in ops
        ensures index in Run(s, ops).deposits
      {
        StrandedUntilCancelled(s, ops, index);
      }
    }
  }

  /** Clearing strands every deposit; nobody is paid, and what was held stays held. */
  lemma ClearStrands(s: State, index: PropIndex)
    requires Inv(s) && index in s.deposits
    ensures
      var t := ClearPublicProposals(s);
      && t.ledger == s.ledger && t.deposits == s.deposits
      && !(exists ops :: OpCancel(index) !in ops && index !in Run(t, ops).deposits)
  {
    var t := ClearPublicProposals(s);
    StepKeepsInv(s, OpClear);
    RefundableIffQueued(t, index);
    assert !IsQueued(t, index);
  }

  lemma RunTwo(s: State, first: Op, second: Op)
    ensures Run(s, [first, second]) == Apply(Apply(s, first), second)
  {
    assert [first, second][..1] == [first];
    assert [first][..0] == [];
    assert Run(s, [first]) == Apply(s, first);
  }

  /** From genesis: whoever proposes before the proposals are cleared has the deposit on
      hold, and no sequence of calls without a cancellation gives it back. */
  lemma ProposedThenCleared(s: State, who: Account, id: ProposalId, value: nat, ops: seq<Op>)
    requires Genesis(s) && s.config.minimumDeposit <= value <= At(s.ledger.free, who) && s.config.maxProposals > 0
    requires OpCancel(0) !in ops
    ensures
      var t := Run(Run(s, [OpPropose(who, id, value), OpClear]), ops);
      && StakeIn(t.deposits, 0, who) >= value
      && At(t.ledger.held, who) - At(t.others, who) >= value
  {
    var calls := [OpPropose(who, id, value), OpClear];
    RunTwo(s, OpPropose(who, id, value), OpClear);
    var t := ClearPublicProposals(Propose(s, who, id, value).state);
    GenesisHasInv(s);
    RunKeepsInv(s, calls);
    assert t.deposits[0] == Deposit([who], value);
    StakeOneMore([], who, value, who);
    assert [] + [who] == [who];
    StrandedUntilCancelled(t, ops, 0);
    var u := Run(t, ops);
    StakeGrows(t.deposits[0], u.deposits[0], who);
    RunKeepsInv(t, ops);
    assert At(u.ledger.held, who) == Staked(u.deposits, who) + Noted(u.preimages, who) + At(u.others, who);
    SumsNonNegative(u, who);
    SumTerm(u.deposits.Keys, (i: PropIndex) => StakeIn(u.deposits, i, who), 0);
  }

  lemma {:induction false} StakePrefix(part: seq<Account>, who: seq<Account>, amount: nat, a: Account)
    requires part <= who
    ensures Stake(part, amount, a) <= Stake(who, amount, a)
  {
    if |part| < |who| {
      StakePrefix(part, who[..|who| - 1], amount, a);
    } else {
      assert part == who;
    }
  }

  lemma StakeGrows(was: Deposit, now: Deposit, a: Account)
    requires Extends(was, now)
    ensures Stake(was.who, was.amount, a) <= Stake(now.who, now.amount, a)
  {
    StakePrefix(was.who, now.who, was.amount, a);
  }
}
