/** What single calls do to a tally and to a lock, in numbers, and how votes, removals and
    delegations stand for one another. */
module DemocracyVotes {
  import opened Amounts
  import opened DemocracyTypes
  import opened DemocracySpec

  function TallyAt(s: State, r: nat): Tally {
    if IsOngoing(s.referenda, r) then s.referenda[r].status.tally else EMPTY_TALLY
  }

  function AssetOf(s: State, r: nat): Asset
    requires IsOngoing(s.referenda, r)
  {
    s.referenda[r].status.asset
  }

  // ---------- voting ----------

  /** A vote succeeds exactly when the referendum is ongoing, what is put at stake is there,
      the account does not delegate, and there is room for another vote. */
  lemma VoteSucceedsIff(s: State, who: Account, r: nat, vote: AccountVote)
    ensures TryVote(s, who, r, vote).Done? <==>
      && IsOngoing(s.referenda, r)
      && var k := (who, AssetOf(s, r));
         && (match vote
             case Standard(_, _, amount) => amount
             case Split(ayes, nays) => Min(ayes + nays, MAX_BALANCE)) <= At(s.free, k)
         && VotingAt(s.voting, k).Direct?
         && (r in VotingAt(s.voting, k).votes || |VotingAt(s.voting, k).votes| <= s.config.maxVotes)
  {
  }

  /** A first vote of an account moves the tally by this much: a split vote both sides by a
      tenth each, a standard vote its own side by capital times conviction, and by whatever
      others have delegated to the account. */
  lemma FirstVoteCounts(s: State, who: Account, r: nat, vote: AccountVote)
    requires TryVote(s, who, r, vote).Done?
    requires r !in VotingAt(s.voting, (who, AssetOf(s, r))).votes
    ensures
      var t, d := TryVote(s, who, r, vote).state, VotingAt(s.voting, (who, AssetOf(s, r))).delegations;
      var before := TallyAt(s, r);
      && IsOngoing(t.referenda, r)
      && TallyAt(t, r) ==
         match vote
         case Split(ayes, nays) =>
           Tally(before.ayes + ayes / 10, before.nays + nays / 10, before.turnout + ayes + nays)
         case Standard(aye, conviction, amount) =>
           var votes := (if conviction.Unlocked? then amount / 10 else Min(Level(conviction) * amount, MAX_BALANCE)) + d.votes;
           Tally(before.ayes + (if aye then votes else 0), before.nays + (if aye then 0 else votes),
                 before.turnout + amount + d.capital)
  {
    if vote.Standard? {
      VotesByLevel(vote.conviction, vote.amount);
    }
  }

  /** And locks what is at stake in the account that votes, and nothing anywhere else. */
  lemma VoteLocks(s: State, who: Account, r: nat, vote: AccountVote, k: Key)
    requires TryVote(s, who, r, vote).Done?
    ensures
      At(TryVote(s, who, r, vote).state.locks, k) ==
        if k != (who, AssetOf(s, r)) then At(s.locks, k)
        else
          match vote
          case Standard(_, _, amount) => Max(At(s.locks, k), amount)
          case Split(ayes, nays) => Max(At(s.locks, k), Min(ayes + nays, MAX_BALANCE))
  {
  }

  lemma TallyMinusPlus(t: Tally, w: Tally)
    ensures t.Plus(w).Minus(w) == t && t.Minus(EMPTY_TALLY) == t
  {
  }

  lemma ForgetAfterRecord(s: State, k: Key, r: nat, vote: AccountVote)
    requires IsOngoing(s.referenda, r) && VotingAt(s.voting, k).Direct? && r !in VotingAt(s.voting, k).votes
    ensures
      var t := RecordVote(s, k, r, vote);
      var u := ForgetVote(t, k, r, VotingAt(t.voting, k).prior);
      && VotingAt(u.voting, k) == VotingAt(s.voting, k)
      && u.referenda == s.referenda
  {
    var v, t := VotingAt(s.voting, k), RecordVote(s, k, r, vote);
    assert v.votes[r := vote] - {r} == v.votes;
    TallyMinusPlus(s.referenda[r].status.tally, Weight(VotingAt(t.voting, k), r));
  }

  /** Removing a first vote takes exactly that away again. */
  lemma RemovingUndoesVoting(s: State, who: Account, r: nat, vote: AccountVote)
    requires TryVote(s, who, r, vote).Done?
    requires r !in VotingAt(s.voting, (who, AssetOf(s, r))).votes
    ensures
      var k := (who, AssetOf(s, r));
      var removed := TryRemoveVote(TryVote(s, who, r, vote).state, who, k.1, r, AnyVote);
      && removed.Done?
      && VotingAt(removed.state.voting, k) == VotingAt(s.voting, k)
      && removed.state.referenda == s.referenda
  {
    ForgetAfterRecord(s, (who, AssetOf(s, r)), r, vote);
  }

  lemma RecordAfterForget(s: State, k: Key, r: nat, vote: AccountVote)
    requires IsOngoing(s.referenda, r) && VotingAt(s.voting, k).Direct? && r in VotingAt(s.voting, k).votes
    ensures RecordVote(ForgetVote(s, k, r, VotingAt(s.voting, k).prior), k, r, vote) == RecordVote(s, k, r, vote)
  {
    var v := VotingAt(s.voting, k);
    assert (v.votes - {r})[r := vote] == v.votes[r := vote];
  }

  lemma OneVoteLess(votes: Votes, r: nat)
    requires r in votes
    ensures |votes| == |votes - {r}| + 1
  {
    assert votes == (votes - {r})[r := votes[r]];
  }

  /** Changing a vote is removing it and voting anew. */
  lemma RevotingIsRemovingFirst(s: State, who: Account, r: nat, vote: AccountVote)
    requires TryVote(s, who, r, vote).Done?
    requires r in VotingAt(s.voting, (who, AssetOf(s, r))).votes
    requires |VotingAt(s.voting, (who, AssetOf(s, r))).votes| <= s.config.maxVotes + 1
    ensures
      var removed := TryRemoveVote(s, who, AssetOf(s, r), r, AnyVote);
      removed.Done? && TryVote(removed.state, who, r, vote) == TryVote(s, who, r, vote)
  {
    var k := (who, AssetOf(s, r));
    var v := VotingAt(s.voting, k);
    RecordAfterForget(s, k, r, vote);
    OneVoteLess(v.votes, r);
  }

  /** A vote can be removed exactly when there is one, and by others than its owner only when
      its referendum is over and nothing is owed for it: it was split, or lost, or its lock
      periods are over. */
  lemma RemovalSucceedsIff(s: State, who: Account, asset: Asset, r: nat, scope: UnvoteScope)
    requires VotingAt(s.voting, (who, asset)).Direct?
    ensures TryRemoveVote(s, who, asset, r, scope).Done? <==>
      && r in VotingAt(s.voting, (who, asset)).votes
      && (scope == OnlyExpired && r in s.referenda ==>
           && s.referenda[r].Finished?
           && var vote, info := VotingAt(s.voting, (who, asset)).votes[r], s.referenda[r];
              || vote.Split?
              || vote.aye != info.approved
              || s.now >= info.finishedAt + s.config.voteLockingPeriod * vote.conviction.LockPeriods())
  {
  }

  /** A removal leaves a prior lock exactly where the vote has won and is locked still. */
  lemma RemovalLeavesLock(s: State, who: Account, asset: Asset, r: nat, scope: UnvoteScope)
    requires VotingAt(s.voting, (who, asset)).Direct? && TryRemoveVote(s, who, asset, r, scope).Done?
    ensures
      var k := (who, asset);
      var v, t := VotingAt(s.voting, k), TryRemoveVote(s, who, asset, r, scope).state;
      && r in v.votes && t.locks == s.locks
      && VotingAt(t.voting, k).Direct? && VotingAt(t.voting, k).votes == v.votes - {r}
      && VotingAt(t.voting, k).prior ==
           if r !in s.referenda || s.referenda[r].Ongoing? || v.votes[r].Split? || v.votes[r].aye != s.referenda[r].approved
           then v.prior
           else
             var until := s.referenda[r].finishedAt + s.config.voteLockingPeriod * v.votes[r].conviction.LockPeriods();
             if until <= s.now then v.prior
             else PriorLock(Max(v.prior.until, until), Max(v.prior.amount, v.votes[r].amount))
  {
  }

  // ---------- delegating ----------

  /** A delegation succeeds exactly to somebody else, with funds that are there, and from an
      account without votes; and locks these funds. */
  lemma DelegationSucceedsIff(s: State, who: Account, target: Account, asset: Asset, conviction: Conviction, balance: nat)
    ensures
      var k, o := (who, asset), TryDelegate(s, who, target, asset, conviction, balance);
      && (o.Done? <==>
           && who != target
           && balance <= At(s.free, k)
           && (VotingAt(s.voting, k).Delegating? || |VotingAt(s.voting, k).votes| == 0))
      && (o.Done? ==> At(o.state.locks, k) == Max(At(s.locks, k), balance))
      && (TryUndelegate(s, who, asset).Done? <==> VotingAt(s.voting, k).Delegating?)
  {
  }

  /** The vote a delegation to `v` casts in a referendum, if any. */
  function CastThrough(v: AccountState, r: nat, conviction: Conviction, balance: nat): Option<AccountVote> {
    if v.Direct? && r in v.votes && v.votes[r].Standard?
    then Some(Standard(v.votes[r].aye, conviction, balance))
    else None
  }

  /** Delegating to an account moves every ongoing tally as voting like it would, with the
      conviction and the balance delegated; where it has no standard vote, nothing moves. */
  lemma DelegatingIsVotingAlike(s: State, who: Account, target: Account, asset: Asset,
                                conviction: Conviction, balance: nat, r: nat)
    requires VotingAt(s.voting, (who, asset)).Direct? && IsOngoing(s.referenda, r)
    requires TryDelegate(s, who, target, asset, conviction, balance).Done?
    ensures
      var t := TryDelegate(s, who, target, asset, conviction, balance).state;
      var cast := CastThrough(VotingAt(s.voting, (target, asset)), r, conviction, balance);
      && IsOngoing(t.referenda, r)
      && TallyAt(t, r) == if cast.Some? then TallyAt(s, r).Plus(OwnWeight(cast.value)) else TallyAt(s, r)
  {
  }

  lemma BumpIs(s: State, j: Key, d: Delegations, r: nat)
    ensures Bump(s, j, d).referenda.Keys == s.referenda.Keys
    ensures r in s.referenda ==> Bump(s, j, d).referenda[r] == Bumped(s.referenda[r], VotingAt(s.voting, j), r, d)
    ensures
      VotingAt(Bump(s, j, d).voting, j) == VotingAt(s.voting, j).(delegations := VotingAt(s.voting, j).delegations.Plus(d))
  {
  }

  lemma PlusBack(v: AccountState, d: Delegations)
    ensures var w := v.(delegations := v.delegations.Plus(d)); w.(delegations := w.delegations.Plus(d.Negate())) == v
  {
  }

  /** A change of received delegations and the opposite change cancel out. */
  lemma BumpBack(s: State, w: State, j: Key, d: Delegations)
    requires w.referenda == Bump(s, j, d).referenda
    requires VotingAt(w.voting, j) == VotingAt(Bump(s, j, d).voting, j)
    ensures Bump(w, j, d.Negate()).referenda == s.referenda
    ensures VotingAt(Bump(w, j, d.Negate()).voting, j) == VotingAt(s.voting, j)
  {
    var back := Bump(w, j, d.Negate()).referenda;
    BumpIs(s, j, d, 0);
    BumpIs(w, j, d.Negate(), 0);
    PlusBack(VotingAt(s.voting, j), d);
    forall r | r in s.referenda
      ensures back[r] == s.referenda[r]
    {
      BumpIs(s, j, d, r);
      BumpIs(w, j, d.Negate(), r);
      BumpedBack(s.referenda[r], VotingAt(s.voting, j), VotingAt(w.voting, j), r, d);
    }
    SameReferenda(back, s.referenda);
  }

  lemma SameReferenda(a: Referenda, b: Referenda)
    requires a.Keys == b.Keys && forall r :: r in b ==> a[r] == b[r]
    ensures a == b
  {
  }

  lemma AttachDetach(s: State, k: Key, target: Account, conviction: Conviction, balance: nat)
    requires VotingAt(s.voting, k).Direct? && target != k.0
    ensures
      var t := Attach(s, k, target, conviction, balance);
      && Detach(t, k).referenda == s.referenda
      && VotingAt(Detach(t, k).voting, (target, k.1)) == VotingAt(s.voting, (target, k.1))
  {
    BumpBack(s, Attach(s, k, target, conviction, balance), (target, k.1), conviction.Votes(balance));
  }

  /** Undelegating takes every tally back to where it was. */
  lemma UndelegatingUndoesDelegating(s: State, who: Account, target: Account, asset: Asset,
                                     conviction: Conviction, balance: nat)
    requires VotingAt(s.voting, (who, asset)).Direct?
    requires TryDelegate(s, who, target, asset, conviction, balance).Done?
    ensures
      var u := TryUndelegate(TryDelegate(s, who, target, asset, conviction, balance).state, who, asset);
      && u.Done? && u.state.referenda == s.referenda
      && VotingAt(u.state.voting, (target, asset)) == VotingAt(s.voting, (target, asset))
  {
    AttachDetach(s, (who, asset), target, conviction, balance);
  }

  lemma BumpedBack(info: ReferendumInfo, v: AccountState, w: AccountState, r: nat, d: Delegations)
    requires w == v.(delegations := w.delegations)
    ensures Bumped(Bumped(info, v, r, d), w, r, d.Negate()) == info
  {
  }

  function WithPrior(v: AccountState, prior: PriorLock): AccountState {
    v.(prior := prior)
  }

  /** The two states are the same but for a prior lock. */
  predicate SameButPrior(t: State, w: State, k: Key) {
    w == t.(voting := t.voting[k := WithPrior(VotingAt(t.voting, k), VotingAt(w.voting, k).prior)])
  }

  lemma AttachIgnoresPrior(s: State, k: Key, prior: PriorLock, target: Account, conviction: Conviction, balance: nat)
    requires VotingAt(s.voting, k).Direct? && target != k.0 && k in s.voting
    ensures
      var u := s.(voting := s.voting[k := WithPrior(VotingAt(s.voting, k), prior)]);
      && VotingAt(Attach(u, k, target, conviction, balance).voting, k).prior == prior
      && SameButPrior(Attach(s, k, target, conviction, balance), Attach(u, k, target, conviction, balance), k)
  {
  }

  /** Delegating elsewhere is undelegating and delegating anew, but for the prior lock that
      only an undelegation leaves. */
  lemma RedelegatingIsUndelegatingFirst(s: State, who: Account, target: Account, asset: Asset,
                                        conviction: Conviction, balance: nat)
    requires VotingAt(s.voting, (who, asset)).Delegating?
    requires TryDelegate(s, who, target, asset, conviction, balance).Done?
    ensures
      var u := TryUndelegate(s, who, asset);
      && u.Done? && TryDelegate(u.state, who, target, asset, conviction, balance).Done?
      && SameButPrior(TryDelegate(s, who, target, asset, conviction, balance).state,
                      TryDelegate(u.state, who, target, asset, conviction, balance).state, (who, asset))
  {
    var k := (who, asset);
    var u, d := TryUndelegate(s, who, asset).state, Detach(s, k);
    var prior := VotingAt(u.voting, k).prior;
    assert u == d.(voting := d.voting[k := WithPrior(VotingAt(d.voting, k), prior)]);
    AttachIgnoresPrior(d, k, prior, target, conviction, balance);
  }
}
