/** What holds of crowdloan rewards over every run in which block numbers do not fall. */
module CrowdloanTheorems {
  import opened Amounts
  import opened FiniteSums
  import opened CrowdloanRewards

  // ---------- one claim ----------

  /** In a state where claims are due, a claim succeeds exactly when more is due than was
      claimed, pays the difference, and leaves exactly what is due claimed: earlier claims
      make no difference. */
  lemma ClaimIsExact(s: State, remote: Remote, account: Account)
    requires ClaimsAreDue(s) && remote in s.rewards && s.start.Some?
    ensures
      var o, due, claimed := Claim(s, remote, account), DueTo(s, s.rewards[remote], s.start.value), s.rewards[remote].claimed;
      && (o.Done? <==> due > claimed)
      && (o.Done? ==> o.value == due - claimed && o.state.rewards[remote] == s.rewards[remote].(claimed := due))
      && (o.Done? ==> forall a :: At(o.state.minted, a) == At(s.minted, a) + if a == account then o.value else 0)
  {
  }

  lemma ClaimKeepsDue(s: State, remote: Remote, account: Account)
    requires ClaimsAreDue(s)
    ensures ClaimsAreDue(Commit(s, Claim(s, remote, account)))
  {
    if remote in s.rewards && s.start.Some? {
      ClaimIsExact(s, remote, account);
    }
  }

  lemma ClaimedWithinTotal(s: State)
    requires ClaimsAreDue(s)
    ensures 0 <= Claims(s.rewards) <= Totals(s.rewards)
  {
    forall r | r in s.rewards
      ensures s.rewards[r].claimed <= s.rewards[r].total
    {
      if s.start.Some? {
        DueWithin(s.config, s.rewards[r].total, s.rewards[r].period, s.start.value, s.now);
      }
    }
    ClaimsWithinTotals(s.rewards);
  }

  /** Every record of a claim moves by the same value. */
  ghost predicate CountedClaim(s: State, t: State, remote: Remote, account: Account, value: nat) {
    && remote in s.rewards && s.rewards[remote].claimed + value <= MAX_BALANCE
    && t.rewards == s.rewards[remote := s.rewards[remote].(claimed := s.rewards[remote].claimed + value)]
    && t.claimedRewards == Capped(s.claimedRewards + value) && t.totalRewards == s.totalRewards
    && t.minted == s.minted[account := (if account in s.minted then s.minted[account] else 0) + value]
  }

  lemma ClaimIsCounted(s: State, remote: Remote, account: Account)
    requires ClaimsAreDue(s) && Claim(s, remote, account).Done?
    ensures CountedClaim(s, Claim(s, remote, account).state, remote, account, Claim(s, remote, account).value)
  {
    ClaimIsExact(s, remote, account);
  }

  lemma CountedClaimKeepsCounted(s: State, t: State, remote: Remote, account: Account, value: nat)
    requires Counted(s) && CountedClaim(s, t, remote, account, value)
    requires 0 <= Claims(t.rewards) <= Totals(t.rewards)
    ensures Counted(t)
  {
    var next := s.rewards[remote].(claimed := s.rewards[remote].claimed + value);
    ClaimsChange(s.rewards, remote, next);
    MintedChange(s.minted, account, value);
  }

  lemma ClaimKeepsCounted(s: State, remote: Remote, account: Account)
    requires Inv(s) && Claim(s, remote, account).Done?
    ensures Counted(Claim(s, remote, account).state)
  {
    var t, value := Claim(s, remote, account).state, Claim(s, remote, account).value;
    ClaimKeepsDue(s, remote, account);
    ClaimIsCounted(s, remote, account);
    ClaimedWithinTotal(t);
    CountedClaimKeepsCounted(s, t, remote, account, value);
  }

  lemma ClaimsChange(rewards: map<Remote, Reward>, remote: Remote, next: Reward)
    requires remote in rewards && next.total == rewards[remote].total
    ensures Claims(rewards[remote := next]) == Claims(rewards) - rewards[remote].claimed + next.claimed
    ensures Totals(rewards[remote := next]) == Totals(rewards)
  {
    var after := rewards[remote := next];
    assert rewards.Keys + {remote} == after.Keys;
    SumChange(rewards.Keys, r => if r in rewards then rewards[r].claimed else 0,
              r => if r in after then after[r].claimed else 0, remote);
    SumChange(rewards.Keys, r => if r in rewards then rewards[r].total else 0,
              r => if r in after then after[r].total else 0, remote);
  }

  lemma MintedChange(minted: map<Account, nat>, account: Account, amount: nat)
    ensures Minted(minted[account := (if account in minted then minted[account] else 0) + amount]) == Minted(minted) + amount
  {
    var after := minted[account := (if account in minted then minted[account] else 0) + amount];
    assert minted.Keys + {account} == after.Keys;
    SumChange(minted.Keys, a => if a in minted then minted[a] else 0,
              a => if a in after then after[a] else 0, account);
  }

  lemma ClaimsWithinTotals(rewards: map<Remote, Reward>)
    ensures 0 <= Claims(rewards) && 0 <= Totals(rewards)
    ensures (forall r :: r in rewards ==> rewards[r].claimed <= rewards[r].total) ==> Claims(rewards) <= Totals(rewards)
  {
    SumNonNegative(rewards.Keys, r => if r in rewards then rewards[r].claimed else 0);
    SumNonNegative(rewards.Keys, r => if r in rewards then rewards[r].total else 0);
    if forall r :: r in rewards ==> rewards[r].claimed <= rewards[r].total {
      SumAtMost(rewards.Keys, r => if r in rewards then rewards[r].claimed else 0,
                r => if r in rewards then rewards[r].total else 0);
    }
  }

  // ---------- every step ----------

  lemma {:induction false} ListedUnclaimed(entries: seq<Entry>)
    ensures forall r :: r in Listed(entries) ==> Listed(entries)[r].claimed == 0
  {
    if entries != [] {
      ListedUnclaimed(entries[..|entries| - 1]);
    }
  }

  lemma NothingClaimed(rewards: map<Remote, Reward>)
    requires forall r :: r in rewards ==> rewards[r].claimed == 0
    ensures Claims(rewards) == 0
  {
    SumZero(rewards.Keys, r => if r in rewards then rewards[r].claimed else 0);
  }

  lemma PopulateKeepsInv(s: State, entries: seq<Entry>)
    requires Inv(s)
    ensures Inv(Commit(s, Populate(s, entries)))
  {
    if s.start.None? {
      ListedUnclaimed(entries);
      NothingClaimed(s.rewards);
      NothingClaimed(Listed(entries));
      ClaimsWithinTotals(Listed(entries));
    }
  }

  lemma ClaimKeepsInv(s: State, remote: Remote, account: Account)
    requires Inv(s)
    ensures Inv(Commit(s, Claim(s, remote, account)))
  {
    ClaimKeepsDue(s, remote, account);
    if Claim(s, remote, account).Done? {
      ClaimKeepsCounted(s, remote, account);
    }
  }

  lemma AssociateKeepsInv(s: State, account: Account, proof: Option<Remote>)
    requires Inv(s)
    ensures Inv(Commit(s, Associate(s, account, proof)))
  {
    if proof.Some? {
      ClaimKeepsInv(s, proof.value, account);
      if Associate(s, account, proof).Done? {
        AssociatingKeepsInv(Claim(s, proof.value, account).state, account, proof.value);
      }
    }
  }

  lemma AssociatingKeepsInv(s: State, account: Account, remote: Remote)
    requires Inv(s) && s.start.Some?
    ensures Inv(s.(associations := s.associations[account := remote]))
  {
  }

  lemma BlocksKeepInv(s: State, passed: nat)
    requires Inv(s)
    ensures Inv(s.(now := s.now + passed))
  {
    var t := s.(now := s.now + passed);
    if s.start.Some? {
      forall r | r in s.rewards
        ensures s.rewards[r].claimed <= DueTo(t, s.rewards[r], s.start.value)
      {
        var reward := s.rewards[r];
        DueMonotone(s.config, reward.total, reward.period, s.start.value, s.now, t.now);
      }
    }
  }

  lemma StepKeepsInv(s: State, op: Op)
    requires Inv(s)
    ensures Inv(Apply(s, op))
  {
    match op
    case OpPopulate(entries) => PopulateKeepsInv(s, entries);
    case OpInitializeAt(at) =>
    case OpAssociate(account, proof) => AssociateKeepsInv(s, account, proof);
    case OpClaim(account) =>
      if account in s.associations {
        ClaimKeepsInv(s, s.associations[account], account);
      }
    case OpBlocks(passed) => BlocksKeepInv(s, passed);
  }

  lemma GenesisHasInv(config: Config, now: Block)
    ensures Inv(Genesis(config, now))
  {
    var s := Genesis(config, now);
    NothingClaimed(s.rewards);
    ClaimsWithinTotals(s.rewards);
    SumZero(s.minted.Keys, a => if a in s.minted then s.minted[a] else 0);
    SumZero(s.rewards.Keys, r => if r in s.rewards then s.rewards[r].total else 0);
  }

  /** In every reachable state the counters are the sums they stand for, every claimed unit
      was minted exactly once, and nobody has claimed more than was due. */
  lemma {:induction false} RunKeepsInv(s: State, ops: seq<Op>)
    requires Inv(s)
    ensures Inv(Run(s, ops))
  {
    if ops != [] {
      RunKeepsInv(s, ops[..|ops| - 1]);
      StepKeepsInv(Run(s, ops[..|ops| - 1]), ops[|ops| - 1]);
    }
  }

  // ---------- consequences ----------

  /** The plain subtraction of the query never underflows. */
  lemma AvailabilityNeverUnderflows(config: Config, now: Block, ops: seq<Op>, account: Account)
    ensures AvailableFor(Run(Genesis(config, now), ops), account) != Failed(Underflow)
  {
    GenesisHasInv(config, now);
    RunKeepsInv(Genesis(config, now), ops);
  }

  /** Rewards are never paid out beyond the total promised, and the counters say exactly
      what was paid and promised unless the promises exceed the balance type. */
  lemma PaidWithinPromises(config: Config, now: Block, ops: seq<Op>)
    ensures
      var s := Run(Genesis(config, now), ops);
      && Minted(s.minted) <= Totals(s.rewards)
      && s.claimedRewards <= s.totalRewards
      && (Totals(s.rewards) <= MAX_BALANCE ==>
            s.claimedRewards == Minted(s.minted) && s.totalRewards == Totals(s.rewards))
  {
    GenesisHasInv(config, now);
    RunKeepsInv(Genesis(config, now), ops);
  }

  /** A contributor who claims once the period is over has received exactly the total,
      whatever was claimed before. */
  lemma EverythingIsPaidInTheEnd(s: State, remote: Remote, account: Account)
    requires Inv(s) && remote in s.rewards && s.start.Some?
    requires SaturatingSub(s.now, s.start.value) >= s.rewards[remote].period
    ensures
      var t := Commit(s, Claim(s, remote, account));
      remote in t.rewards && t.rewards[remote].claimed == s.rewards[remote].total
  {
    ClaimIsExact(s, remote, account);
  }

  /** What a step may do to a contributor once the start is set: nothing, or bring the
      claims up to what is due now. */
  lemma RewardStep(s: State, op: Op, remote: Remote)
    requires ClaimsAreDue(s) && s.start.Some? && remote in s.rewards
    ensures
      var t := Apply(s, op);
      && t.start == s.start && t.config == s.config && s.now <= t.now && remote in t.rewards
      && (t.rewards[remote] == s.rewards[remote]
          || t.rewards[remote] == s.rewards[remote].(claimed := DueTo(s, s.rewards[remote], s.start.value)))
  {
    match op
    case OpAssociate(account, proof) =>
      if proof.Some? {
        ClaimOnlyTouches(s, proof.value, account, remote);
      }
    case OpClaim(account) =>
      if account in s.associations {
        ClaimOnlyTouches(s, s.associations[account], account, remote);
      }
    case _ =>
  }

  lemma ClaimOnlyTouches(s: State, claimant: Remote, account: Account, remote: Remote)
    requires ClaimsAreDue(s) && s.start.Some? && remote in s.rewards
    ensures
      var t := Commit(s, Claim(s, claimant, account));
      && t.start == s.start && t.config == s.config && s.now == t.now && remote in t.rewards
      && (t.rewards[remote] == s.rewards[remote]
          || t.rewards[remote] == s.rewards[remote].(claimed := DueTo(s, s.rewards[remote], s.start.value)))
  {
    if claimant in s.rewards {
      ClaimIsExact(s, claimant, account);
    }
  }

  /** Over any run, what a contributor has claimed is what was due at some block on the way,
      namely that of the last claim, or what was claimed at the beginning. */
  lemma {:induction false} ClaimsFollowTheSchedule(s: State, ops: seq<Op>, remote: Remote) returns (at: Block)
    requires Inv(s) && s.start.Some? && remote in s.rewards
    ensures
      var t, first := Run(s, ops), s.rewards[remote];
      && t.start == s.start && t.config == s.config && s.now <= at <= t.now && remote in t.rewards
      && (t.rewards[remote] == first || t.rewards[remote] == first.(claimed := DueTo(s.(now := at), first, s.start.value)))
  {
    at := s.now;
    if ops != [] {
      at := ClaimsFollowTheSchedule(s, ops[..|ops| - 1], remote);
      var t := Run(s, ops[..|ops| - 1]);
      RunKeepsInv(s, ops[..|ops| - 1]);
      RewardStep(t, ops[|ops| - 1], remote);
      if Run(s, ops).rewards[remote] != t.rewards[remote] {
        at := t.now;
      }
    }
  }

  /** After a claim, whether it pays anything or not, what is due at that block is claimed. */
  lemma ClaimSettles(s: State, ops: seq<Op>, remote: Remote, account: Account)
    requires Inv(s) && s.start.Some? && remote in s.rewards
    ensures
      var t := Run(s, ops);
      var settled := Commit(t, Claim(t, remote, account));
      && remote in settled.rewards
      && settled.rewards[remote]
           == s.rewards[remote].(claimed := DueTo(s.(now := t.now), s.rewards[remote], s.start.value))
  {
    var at := ClaimsFollowTheSchedule(s, ops, remote);
    RunKeepsInv(s, ops);
    ClaimIsExact(Run(s, ops), remote, account);
  }

  /** Two histories of claims that end with a claim at the same block leave the same claimed. */
  lemma ClaimingIsPathIndependent(s: State, ops1: seq<Op>, ops2: seq<Op>, remote: Remote, a1: Account, a2: Account)
    requires Inv(s) && s.start.Some? && remote in s.rewards
    requires Run(s, ops1).now == Run(s, ops2).now
    ensures
      var t1, t2 := Commit(Run(s, ops1), Claim(Run(s, ops1), remote, a1)), Commit(Run(s, ops2), Claim(Run(s, ops2), remote, a2));
      remote in t1.rewards && remote in t2.rewards && t1.rewards[remote] == t2.rewards[remote]
  {
    ClaimSettles(s, ops1, remote, a1);
    ClaimSettles(s, ops2, remote, a2);
  }

  lemma RunTwo(s: State, first: Op, second: Op)
    ensures Run(s, [first, second]) == Apply(Apply(s, first), second)
  {
    assert [first, second][..1] == [first];
    assert [first][..0] == [];
    assert Run(s, [first]) == Apply(s, first);
  }

  /** From genesis: whatever is claimed in between and by whom, a claim brings a contributor to
      what its last entry in the list promises by that block, and to the whole of it when the
      period of that entry is over. */
  lemma PromisedIsPaid(config: Config, now: Block, entries: seq<Entry>, at: Block, ops: seq<Op>, i: nat, account: Account)
    requires i < |entries| && forall j :: i < j < |entries| ==> entries[j].remote != entries[i].remote
    ensures
      var e := entries[i];
      var t := Run(Run(Genesis(config, now), [OpPopulate(entries), OpInitializeAt(at)]), ops);
      var settled := Commit(t, Claim(t, e.remote, account));
      && e.remote in settled.rewards
      && settled.rewards[e.remote] == Reward(e.total, Due(config, e.total, e.period, at, t.now), e.period)
      && (at + e.period <= t.now ==> settled.rewards[e.remote].claimed == e.total)
  {
    var g := Genesis(config, now);
    var s := Run(g, [OpPopulate(entries), OpInitializeAt(at)]);
    GenesisHasInv(config, now);
    RunKeepsInv(g, [OpPopulate(entries), OpInitializeAt(at)]);
    RunTwo(g, OpPopulate(entries), OpInitializeAt(at));
    ListedIs(entries, i);
    assert s.start == Some(at) && s.rewards == Listed(entries) && s.config == config;
    ClaimSettles(s, ops, entries[i].remote, account);
  }

  /** An account is associated exactly after the start, with a proof of a contributor, once, and
      if there is something to claim; and what is claimed is minted to it. */
  lemma AssociationSucceedsIff(s: State, account: Account, proof: Option<Remote>)
    requires ClaimsAreDue(s)
    ensures
      var o := Associate(s, account, proof);
      && (o.Done? <==>
           && s.start.Some? && s.start.value <= s.now
           && account !in s.associations
           && proof.Some? && proof.value in s.rewards
           && s.rewards[proof.value].claimed < DueTo(s, s.rewards[proof.value], s.start.value))
      && (o.Done? ==>
           && o.state.associations == s.associations[account := proof.value]
           && (forall a :: At(o.state.minted, a) == At(s.minted, a) + if a == account then o.value else 0))
  {
    if s.start.Some? && proof.Some? && proof.value in s.rewards {
      ClaimIsExact(s, proof.value, account);
    }
  }

  /** What the query says is available is what a claim pays: a claim fails where it says nothing. */
  lemma AvailabilityIsPaid(s: State, account: Account)
    requires ClaimsAreDue(s)
    ensures
      var q, o := AvailableFor(s, account), ClaimAssociated(s, account);
      && (o.Done? <==> q.Done? && q.value > 0)
      && (o.Done? ==> o.value == q.value)
  {
    if account in s.associations && s.associations[account] in s.rewards && s.start.Some? {
      ClaimIsExact(s, s.associations[account], account);
    }
  }
}
