/** Every call keeps the caches of the voting state machine equal to a recount,
    and the funds behind them locked. */
module DemocracyInvariant {
  import opened Amounts
  import opened DemocracyTypes
  import opened DemocracySpec
  import opened FiniteSums

  // ---------- how a recount moves when one account changes ----------

  lemma RecountChange(voting: Accounts, k: Key, v: AccountState, r: nat, p: Part)
    ensures Recount(voting[k := v], r, p) ==
            Recount(voting, r, p) - Component(Weight(VotingAt(voting, k), r), p) + Component(Weight(v, r), p)
  {
    var voting' := voting[k := v];
    assert voting'.Keys == voting.Keys + {k};
    SumChange(voting.Keys, RecountWeight(voting, r, p), RecountWeight(voting', r, p), k);
  }

  lemma ReceivedChange(voting: Accounts, giver: Key, v: AccountState, k: Key, p: DelegationPart)
    ensures Received(voting[giver := v], k, p) ==
            Received(voting, k, p) - Share(Given(giver, VotingAt(voting, giver), k), p) + Share(Given(giver, v, k), p)
  {
    var voting' := voting[giver := v];
    assert voting'.Keys == voting.Keys + {giver};
    SumChange(voting.Keys, ReceivedWeight(voting, k, p), ReceivedWeight(voting', k, p), giver);
  }

  /** An account that neither starts nor stops delegating, and keeps the
      delegations it received, leaves the delegation totals alone. */
  lemma DelegationsKept(voting: Accounts, k: Key, v: AccountState)
    requires DelegationsAgree(voting)
    requires VotingAt(voting, k).Direct? && v.Direct?
    requires v.delegations == VotingAt(voting, k).delegations
    ensures DelegationsAgree(voting[k := v])
  {
    var voting' := voting[k := v];
    forall j: Key, p: DelegationPart
      ensures Share(VotingAt(voting', j).delegations, p) == Received(voting', j, p)
    {
      ReceivedChange(voting, k, v, j, p);
      assert Share(VotingAt(voting, j).delegations, p) == Received(voting, j, p);
    }
  }

  /** Replacing one account and the tally of one referendum accordingly. */
  lemma TalliesMoved(voting: Accounts, referenda: Referenda, k: Key, v: AccountState, r: nat)
    requires TalliesAgree(voting, referenda)
    requires IsOngoing(referenda, r)
    requires forall q :: q != r && IsOngoing(referenda, q) ==> Weight(v, q) == Weight(VotingAt(voting, k), q)
    ensures
      var tally := referenda[r].status.tally.Minus(Weight(VotingAt(voting, k), r)).Plus(Weight(v, r));
      TalliesAgree(voting[k := v], WithTally(referenda, r, tally))
  {
    var before := VotingAt(voting, k);
    var tally := referenda[r].status.tally.Minus(Weight(before, r)).Plus(Weight(v, r));
    var referenda' := WithTally(referenda, r, tally);
    forall q: nat | IsOngoing(referenda', q)
      ensures TallyAgrees(voting[k := v], q, referenda'[q].status.tally)
    {
      assert TallyAgrees(voting, q, referenda[q].status.tally);
      forall p: Part ensures Component(referenda'[q].status.tally, p) == Recount(voting[k := v], q, p) {
        RecountChange(voting, k, v, q, p);
        assert Component(referenda[q].status.tally, p) == Recount(voting, q, p);
      }
    }
  }

  /** Replacing one account without touching its weight in anything ongoing. */
  lemma TalliesKept(voting: Accounts, referenda: Referenda, k: Key, v: AccountState)
    requires TalliesAgree(voting, referenda)
    requires forall q :: IsOngoing(referenda, q) ==> Weight(v, q) == Weight(VotingAt(voting, k), q)
    ensures TalliesAgree(voting[k := v], referenda)
  {
    forall q: nat | IsOngoing(referenda, q)
      ensures TallyAgrees(voting[k := v], q, referenda[q].status.tally)
    {
      assert TallyAgrees(voting, q, referenda[q].status.tally);
      forall p: Part ensures Component(referenda[q].status.tally, p) == Recount(voting[k := v], q, p) {
        RecountChange(voting, k, v, q, p);
        assert Component(referenda[q].status.tally, p) == Recount(voting, q, p);
      }
    }
  }

  /** Accounts other than `k` stay sound when no referendum starts being ongoing. */
  lemma OthersStaySound(s: State, s': State, k: Key)
    requires AccountsSound(s)
    requires s'.free == s.free && s.count <= s'.count
    requires forall j: Key :: j != k ==> At(s'.locks, j) == At(s.locks, j)
    requires forall j: Key :: j != k ==>
      VotingAt(s'.voting, j) == VotingAt(s.voting, j).(delegations := VotingAt(s'.voting, j).delegations)
    requires forall r: nat :: r < s.count && IsOngoing(s'.referenda, r) ==>
      IsOngoing(s.referenda, r) && s'.referenda[r].status.asset == s.referenda[r].status.asset
    requires SoundAt(s', k)
    ensures AccountsSound(s')
  {
    forall j: Key ensures SoundAt(s', j) {
      if j != k {
        assert SoundAt(s, j);
        assert VotingAt(s'.voting, j) == VotingAt(s.voting, j).(delegations := VotingAt(s'.voting, j).delegations);
      }
    }
  }

  // ---------- voting ----------

  lemma VoteKeepsInv(s: State, who: Account, r: nat, vote: AccountVote)
    requires Inv(s) && TryVote(s, who, r, vote).Done?
    ensures Inv(TryVote(s, who, r, vote).state)
  {
    var k := (who, s.referenda[r].status.asset);
    var v := VotingAt(s.voting, k);
    var v' := v.(votes := v.votes[r := vote]);
    var s' := RecordVote(s, k, r, vote);
    DelegationsKept(s.voting, k, v');
    TalliesMoved(s.voting, s.referenda, k, v', r);
    assert SoundAt(s, k);
    assert SoundAt(s', k);
    OthersStaySound(s, s', k);
  }

  lemma ForgetVoteKeepsInv(s: State, k: Key, r: nat, prior: PriorLock)
    requires Inv(s) && VotingAt(s.voting, k).Direct?
    ensures Inv(ForgetVote(s, k, r, prior))
  {
    var v := VotingAt(s.voting, k);
    var v' := Direct(v.votes - {r}, v.delegations, prior);
    var s' := ForgetVote(s, k, r, prior);
    DelegationsKept(s.voting, k, v');
    if IsOngoing(s.referenda, r) {
      TalliesMoved(s.voting, s.referenda, k, v', r);
      assert s.referenda[r].status.tally.Minus(Weight(v, r)).Plus(Weight(v', r))
          == s.referenda[r].status.tally.Minus(Weight(v, r));
    } else {
      TalliesKept(s.voting, s.referenda, k, v');
    }
    assert SoundAt(s, k);
    assert SoundAt(s', k);
    OthersStaySound(s, s', k);
  }

  lemma RemoveVoteKeepsInv(s: State, who: Account, asset: Asset, r: nat, scope: UnvoteScope)
    requires Inv(s)
    ensures Inv(Commit(s, TryRemoveVote(s, who, asset, r, scope)))
  {
    var k := (who, asset);
    var outcome := TryRemoveVote(s, who, asset, r, scope);
    if outcome.Done? && VotingAt(s.voting, k).Direct? {
      ForgetVoteKeepsInv(s, k, r, VotingAt(outcome.state.voting, k).prior);
    }
  }

  // ---------- delegation ----------

  lemma BumpMovesTallies(s: State, k: Key, amount: Delegations)
    requires TalliesAgree(s.voting, s.referenda)
    ensures var s' := Bump(s, k, amount); TalliesAgree(s'.voting, s'.referenda)
  {
    var v := VotingAt(s.voting, k);
    var v' := v.(delegations := v.delegations.Plus(amount));
    var s' := Bump(s, k, amount);
    forall q: nat | IsOngoing(s'.referenda, q)
      ensures TallyAgrees(s'.voting, q, s'.referenda[q].status.tally)
    {
      assert TallyAgrees(s.voting, q, s.referenda[q].status.tally);
      forall p: Part ensures Component(s'.referenda[q].status.tally, p) == Recount(s'.voting, q, p) {
        RecountChange(s.voting, k, v', q, p);
        assert Component(s.referenda[q].status.tally, p) == Recount(s.voting, q, p);
      }
    }
  }

  /** What `giver` gives to everybody moves by `amount` at `target` and nowhere else. */
  ghost predicate GivesMore(giver: Key, v: AccountState, v': AccountState, target: Key, amount: Delegations) {
    forall j: Key :: GivesMoreTo(giver, v, v', target, amount, j)
  }

  predicate GivesMoreTo(giver: Key, v: AccountState, v': AccountState, target: Key, amount: Delegations, j: Key) {
    Given(giver, v', j) == if j == target then Given(giver, v, j).Plus(amount) else Given(giver, v, j)
  }

  /** Starting and ending a delegation. */
  lemma StartGiving(giver: Key, v: AccountState, to: Account, conviction: Conviction, balance: nat, d: Delegations, prior: PriorLock)
    requires v.Direct?
    ensures GivesMore(giver, v, Delegating(balance, to, conviction, d, prior), (to, giver.1), conviction.Votes(balance))
  {
  }

  lemma StopGiving(giver: Key, v: AccountState, v': AccountState)
    requires v.Delegating? && v'.Direct?
    ensures GivesMore(giver, v, v', (v.target, giver.1), v.conviction.Votes(v.balance).Negate())
  {
  }

  /** Recording an amount at a target while the giver starts (or, with the sign
      reversed, stops) giving exactly that amount. */
  lemma DelegationMoved(voting: Accounts, giver: Key, target: Key, amount: Delegations, v: AccountState)
    requires DelegationsAgree(voting)
    requires giver != target
    requires v.delegations == VotingAt(voting, giver).delegations
    requires GivesMore(giver, VotingAt(voting, giver), v, target, amount)
    ensures
      var t := VotingAt(voting, target);
      DelegationsAgree(voting[target := t.(delegations := t.delegations.Plus(amount))][giver := v])
  {
    var t := VotingAt(voting, target);
    var t' := t.(delegations := t.delegations.Plus(amount));
    var voting2 := voting[target := t'][giver := v];
    forall j: Key, p: DelegationPart
      ensures Share(VotingAt(voting2, j).delegations, p) == Received(voting2, j, p)
    {
      assert GivesMoreTo(giver, VotingAt(voting, giver), v, target, amount, j);
      assert Share(VotingAt(voting, j).delegations, p) == Received(voting, j, p);
      DelegationMovedAt(voting, giver, target, amount, v, j, p);
    }
  }

  /** Received delegations of one account carry no weight for what others receive. */
  lemma ReceivedUnmoved(voting: Accounts, target: Key, d: Delegations, j: Key, p: DelegationPart)
    ensures Received(voting[target := VotingAt(voting, target).(delegations := d)], j, p) == Received(voting, j, p)
  {
    var t := VotingAt(voting, target);
    ReceivedChange(voting, target, t.(delegations := d), j, p);
    assert Given(target, t.(delegations := d), j) == Given(target, t, j);
  }

  lemma DelegationMovedAt(voting: Accounts, giver: Key, target: Key, amount: Delegations, v: AccountState, j: Key, p: DelegationPart)
    requires Share(VotingAt(voting, j).delegations, p) == Received(voting, j, p)
    requires giver != target
    requires v.delegations == VotingAt(voting, giver).delegations
    requires GivesMoreTo(giver, VotingAt(voting, giver), v, target, amount, j)
    ensures
      var t := VotingAt(voting, target);
      var voting2 := voting[target := t.(delegations := t.delegations.Plus(amount))][giver := v];
      Share(VotingAt(voting2, j).delegations, p) == Received(voting2, j, p)
  {
    var d := VotingAt(voting, target).delegations.Plus(amount);
    var voting1 := voting[target := VotingAt(voting, target).(delegations := d)];
    var voting2 := voting1[giver := v];
    ReceivedUnmoved(voting, target, d, j, p);
    ReceivedChange(voting1, giver, v, j, p);
    assert VotingAt(voting1, giver) == VotingAt(voting, giver);
    var before, after := Given(giver, VotingAt(voting, giver), j), Given(giver, v, j);
    SharePlus(before, after, amount, j == target, p);
    SharePlus(VotingAt(voting, j).delegations, VotingAt(voting2, j).delegations, amount, j == target, p);
  }

  lemma SharePlus(before: Delegations, after: Delegations, amount: Delegations, moved: bool, p: DelegationPart)
    requires after == if moved then before.Plus(amount) else before
    ensures Share(after, p) == Share(before, p) + if moved then Share(amount, p) else 0
  {
  }

  lemma DetachKeepsInv(s: State, k: Key)
    requires Inv(s) && VotingAt(s.voting, k).Delegating?
    ensures Inv(Detach(s, k))
  {
    var v := VotingAt(s.voting, k);
    var v' := Direct(map[], v.delegations, v.prior);
    assert SoundAt(s, k);
    StopGiving(k, v, v');
    RewireKeepsInv(s, Detach(s, k), k, v', (v.target, k.1), v.conviction.Votes(v.balance).Negate());
  }

  lemma AttachKeepsInv(s: State, k: Key, to: Account, conviction: Conviction, balance: nat)
    requires Inv(s) && VotingAt(s.voting, k).Direct? && VotingAt(s.voting, k).votes == map[]
    requires to != k.0 && balance <= At(s.free, k)
    ensures Inv(Attach(s, k, to, conviction, balance))
  {
    var v := VotingAt(s.voting, k);
    var v' := Delegating(balance, to, conviction, v.delegations, v.prior);
    StartGiving(k, v, to, conviction, balance, v.delegations, v.prior);
    RewireKeepsInv(s, Attach(s, k, to, conviction, balance), k, v', (to, k.1), conviction.Votes(balance));
  }

  /** Moving the received delegations of a target together with the account that gives them. */
  lemma RewireKeepsInv(s: State, s': State, k: Key, v': AccountState, target: Key, amount: Delegations)
    requires Inv(s) && k != target
    requires v'.delegations == VotingAt(s.voting, k).delegations
    requires forall r :: Weight(v', r) == Weight(VotingAt(s.voting, k), r)
    requires GivesMore(k, VotingAt(s.voting, k), v', target, amount)
    requires
      var s1 := Bump(s, target, amount);
      s' == s1.(voting := s1.voting[k := v'], locks := s'.locks)
    requires forall j: Key :: j != k ==> At(s'.locks, j) == At(s.locks, j)
    requires SoundAt(s', k)
    ensures Inv(s')
  {
    var s1 := Bump(s, target, amount);
    BumpMovesTallies(s, target, amount);
    assert VotingAt(s1.voting, k) == VotingAt(s.voting, k);
    TalliesKept(s1.voting, s1.referenda, k, v');
    DelegationMoved(s.voting, k, target, amount, v');
    OthersStaySound(s, s', k);
  }

  lemma DelegateKeepsInv(s: State, who: Account, target: Account, asset: Asset, conviction: Conviction, balance: nat)
    requires Inv(s) && TryDelegate(s, who, target, asset, conviction, balance).Done?
    ensures Inv(TryDelegate(s, who, target, asset, conviction, balance).state)
  {
    var k := (who, asset);
    if VotingAt(s.voting, k).Delegating? {
      DetachKeepsInv(s, k);
      AttachKeepsInv(Detach(s, k), k, target, conviction, balance);
    } else {
      AttachKeepsInv(s, k, target, conviction, balance);
    }
  }

  /** A prior lock carries no weight: the caches do not depend on it. */
  lemma PriorIsWeightless(s: State, k: Key, prior: PriorLock)
    requires Inv(s)
    ensures Inv(s.(voting := s.voting[k := VotingAt(s.voting, k).(prior := prior)]))
  {
    var v := VotingAt(s.voting, k);
    var v' := v.(prior := prior);
    var s' := s.(voting := s.voting[k := v']);
    TalliesKept(s.voting, s.referenda, k, v');
    forall j: Key, p: DelegationPart
      ensures Share(VotingAt(s'.voting, j).delegations, p) == Received(s'.voting, j, p)
    {
      ReceivedChange(s.voting, k, v', j, p);
      assert Given(k, v', j) == Given(k, v, j);
      assert Share(VotingAt(s.voting, j).delegations, p) == Received(s.voting, j, p);
    }
    assert SoundAt(s, k);
    assert SoundAt(s', k);
    OthersStaySound(s, s', k);
  }

  lemma UndelegateKeepsInv(s: State, who: Account, asset: Asset)
    requires Inv(s) && TryUndelegate(s, who, asset).Done?
    ensures Inv(TryUndelegate(s, who, asset).state)
  {
    var k := (who, asset);
    var v := VotingAt(s.voting, k);
    DetachKeepsInv(s, k);
    var until := LockEnd(s.config, s.now, v.conviction.LockPeriods());
    PriorIsWeightless(Detach(s, k), k, v.prior.Accumulate(until, v.balance));
  }

  // ---------- locks ----------

  lemma {:induction false} LargestVoteIsMax(votes: Votes, floor: nat)
    ensures floor <= LargestVote(votes, floor)
    ensures forall r :: r in votes ==> votes[r].Balance() <= LargestVote(votes, floor)
    ensures LargestVote(votes, floor) == floor ||
            exists r :: r in votes && votes[r].Balance() == LargestVote(votes, floor)
  {
    if votes != map[] {
      var r :| r in votes && LargestVote(votes, floor) == Max(votes[r].Balance(), LargestVote(votes - {r}, floor));
      LargestVoteIsMax(votes - {r}, floor);
      var rest := LargestVote(votes - {r}, floor);
      assert LargestVote(votes, floor) == Max(votes[r].Balance(), rest);
      forall q | q in votes ensures votes[q].Balance() <= LargestVote(votes, floor) {
        assert q != r ==> q in votes - {r} && (votes - {r})[q] == votes[q];
      }
      if LargestVote(votes, floor) != rest {
        assert votes[r].Balance() == LargestVote(votes, floor);
      } else if rest != floor {
        var q :| q in votes - {r} && (votes - {r})[q].Balance() == rest;
        assert q in votes && votes[q].Balance() == LargestVote(votes, floor);
      }
    }
  }

  lemma UnlockKeepsInv(s: State, who: Account, asset: Asset)
    requires Inv(s)
    ensures Inv(Unlock(s, who, asset))
  {
    var k := (who, asset);
    var v := VotingAt(s.voting, k);
    var prior := v.prior.Rejig(s.now);
    PriorIsWeightless(s, k, prior);
    var s1 := s.(voting := s.voting[k := v.(prior := prior)]);
    var s' := Unlock(s, who, asset);
    if v.Direct? {
      LargestVoteIsMax(v.votes, prior.amount);
    }
    assert SoundAt(s1, k);
    assert SoundAt(s', k);
    OthersStaySound(s1, s', k);
  }

  // ---------- referenda ----------

  lemma EmptyRecount(s: State, r: nat, p: Part)
    requires AccountsSound(s) && s.count <= r
    ensures Recount(s.voting, r, p) == 0
  {
    forall k: Key ensures RecountWeight(s.voting, r, p)(k) == 0 {
      assert SoundAt(s, k);
    }
    SumZero(s.voting.Keys, RecountWeight(s.voting, r, p));
  }

  lemma StartKeepsInv(s: State, period: nat, asset: Asset, threshold: VoteThreshold, delay: Block)
    requires Inv(s)
    ensures Inv(Start(s, period, asset, threshold, delay))
  {
    var s' := Start(s, period, asset, threshold, delay);
    forall r: nat | IsOngoing(s'.referenda, r)
      ensures TallyAgrees(s'.voting, r, s'.referenda[r].status.tally)
    {
      if r == s.count {
        forall p: Part ensures Component(s'.referenda[r].status.tally, p) == Recount(s'.voting, r, p) {
          EmptyRecount(s, r, p);
        }
      } else {
        assert TallyAgrees(s.voting, r, s.referenda[r].status.tally);
      }
    }
    var k: Key := (0, 0);
    assert SoundAt(s, k);
    OthersStaySound(s, s', k);
  }

  /** Finishing or removing referenda concerns nobody's weight. */
  lemma FewerOngoingKeepsInv(s: State, s': State)
    requires Inv(s)
    requires s' == s.(referenda := s'.referenda, lowestUnbaked := s'.lowestUnbaked)
    requires s'.referenda.Keys <= s.referenda.Keys
    requires forall r :: IsOngoing(s'.referenda, r) ==> r in s.referenda && s'.referenda[r] == s.referenda[r]
    requires s'.lowestUnbaked <= s.count
    requires forall r :: r in s'.referenda && r < s'.lowestUnbaked ==> s'.referenda[r].Finished?
    ensures Inv(s')
  {
    forall r: nat | IsOngoing(s'.referenda, r)
      ensures TallyAgrees(s'.voting, r, s'.referenda[r].status.tally)
    {
      assert TallyAgrees(s.voting, r, s.referenda[r].status.tally);
    }
    var k: Key := (0, 0);
    assert SoundAt(s, k);
    OthersStaySound(s, s', k);
  }

  lemma TickKeepsInv(s: State)
    requires Inv(s)
    ensures Inv(s.(now := s.now + 1))
  {
    var s' := s.(now := s.now + 1);
    forall k: Key ensures SoundAt(s', k) {
      assert SoundAt(s, k);
    }
  }

  lemma OpenBlockKeepsInv(s: State, launched: Option<Tabled>)
    requires Inv(s)
    ensures Inv(OpenBlock(s, launched))
  {
    TickKeepsInv(s);
    if launched.Some? {
      StartKeepsInv(s.(now := s.now + 1), s.config.votingPeriod, launched.value.asset,
                    launched.value.threshold, s.config.enactmentPeriod);
    }
  }

  lemma BeginBlockKeepsInv(s: State, launched: Option<Tabled>)
    requires Inv(s)
    ensures Inv(BeginBlock(s, launched))
  {
    OpenBlockKeepsInv(s, launched);
    var s2 := OpenBlock(s, launched);
    var s' := BeginBlock(s, launched);
    forall r | r in s'.referenda && r < s'.lowestUnbaked ensures s'.referenda[r].Finished? {
      assert !(s.lowestUnbaked <= r < s'.lowestUnbaked && IsOngoing(s'.referenda, r));
    }
    FewerOngoingKeepsInv(s2, s');
  }

  lemma MoveFundsKeepsInv(s: State, free: map<Key, nat>, issuance: map<Asset, nat>)
    requires Inv(s) && SoundCurrency(free, issuance) && RespectsLocks(s, free)
    ensures Inv(s.(free := free, issuance := issuance))
  {
    var s' := s.(free := free, issuance := issuance);
    forall k: Key ensures SoundAt(s', k) {
      assert SoundAt(s, k);
      assert At(free, k) >= At(s.locks, k) || At(free, k) >= At(s.free, k);
    }
  }

  // ---------- every reachable state ----------

  lemma GenesisHasInv(s: State)
    requires Genesis(s)
    ensures Inv(s)
  {
    forall k: Key, p: DelegationPart
      ensures Share(VotingAt(s.voting, k).delegations, p) == Received(s.voting, k, p)
    {
      SumZero(s.voting.Keys, ReceivedWeight(s.voting, k, p));
    }
  }

  lemma {:induction false} StepKeepsInv(s: State, op: Op)
    requires Inv(s)
    ensures Inv(Apply(s, op))
  {
    match op
    case Vote(who, r, vote) =>
      if TryVote(s, who, r, vote).Done? {
        VoteKeepsInv(s, who, r, vote);
      }
    case RemoveVote(who, asset, r, scope) =>
      RemoveVoteKeepsInv(s, who, asset, r, scope);
    case Delegate(who, target, asset, conviction, balance) =>
      if TryDelegate(s, who, target, asset, conviction, balance).Done? {
        DelegateKeepsInv(s, who, target, asset, conviction, balance);
      }
    case Undelegate(who, asset) =>
      if TryUndelegate(s, who, asset).Done? {
        UndelegateKeepsInv(s, who, asset);
      }
    case UnlockFunds(who, asset) => UnlockKeepsInv(s, who, asset);
    case StartReferendum(period, asset, threshold, delay) => StartKeepsInv(s, period, asset, threshold, delay);
    case CancelReferendum(r) => FewerOngoingKeepsInv(s, Cancel(s, r));
    case NextBlock(launched) => BeginBlockKeepsInv(s, launched);
    case MoveFunds(free, issuance) =>
      if SoundCurrency(free, issuance) && RespectsLocks(s, free) {
        MoveFundsKeepsInv(s, free, issuance);
      }
  }

  lemma {:induction false} RunKeepsInv(s: State, ops: seq<Op>)
    requires Inv(s)
    ensures Inv(Run(s, ops))
  {
    if ops != [] {
      RunKeepsInv(s, ops[..|ops| - 1]);
      StepKeepsInv(Run(s, ops[..|ops| - 1]), ops[|ops| - 1]);
    }
  }
}
