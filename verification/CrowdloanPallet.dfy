/** The crowdloan rewards pallet: storage updated in place by every call. */
module CrowdloanPallet {
  import opened Amounts
  import opened FiniteSums
  import opened CrowdloanRewards
  import opened CrowdloanTheorems

  datatype CallResult = Ok(value: nat) | Err(error: Error)

  function ResultOf(o: Outcome): CallResult {
    if o.Done? then Ok(o.value) else Err(o.error)
  }

  /** Every call keeps a valid pallet valid. */
  lemma StepStaysValid(s: State, op: Op)
    ensures Inv(s) ==> Inv(Apply(s, op))
  {
    if Inv(s) {
      StepKeepsInv(s, op);
    }
  }

  lemma ClaimStaysValid(s: State, remote: Remote, account: Account)
    ensures Inv(s) ==> Inv(Commit(s, Claim(s, remote, account)))
  {
    if Inv(s) {
      ClaimKeepsInv(s, remote, account);
    }
  }

  class Pallet {
    const config: Config
    var rewards: map<Remote, Reward>
    var totalRewards: Balance
    var claimedRewards: Balance
    var totalContributors: nat
    var vestingBlockStart: Option<Block>
    var associations: map<Account, Remote>
    var minted: map<Account, nat>
    var now: Block

    ghost function View(): State
      reads this
    {
      State(config, rewards, totalRewards, claimedRewards, totalContributors, vestingBlockStart, associations, minted, now)
    }

    /** The counters are what they stand for, and nobody has claimed more than was due. */
    ghost predicate Valid()
      reads this
    {
      Inv(View())
    }

    constructor (config: Config, now: Block)
      ensures Valid() && View() == Genesis(config, now)
    {
      this.config, this.now := config, now;
      rewards, totalRewards, claimedRewards, totalContributors := map[], 0, 0, 0;
      vestingBlockStart, associations, minted := None, map[], map[];
      new;
      GenesisHasInv(config, now);
    }

    method Initialize(at: Block) returns (result: CallResult)
      modifies this`vestingBlockStart
      ensures
        var outcome := InitializeAt(old(View()), at);
        View() == Commit(old(View()), outcome) && result == ResultOf(outcome)
      ensures old(Valid()) ==> Valid()
    {
      StepStaysValid(View(), OpInitializeAt(at));
      if vestingBlockStart.Some? {
        return Err(AlreadyInitialized);
      }
      vestingBlockStart := Some(at);
      return Ok(0);
    }

    /** Insert entries one by one, possibly overwriting. */
    method InsertAll(entries: seq<Entry>)
      modifies this`rewards
      ensures rewards == Listed(entries)
    {
      rewards := map[];
      for i := 0 to |entries|
        invariant rewards == Listed(entries[..i])
      {
        assert entries[..i + 1][..i] == entries[..i];
        rewards := rewards[entries[i].remote := Reward(entries[i].total, 0, entries[i].period)];
      }
      assert entries[..|entries|] == entries;
    }

    method DoPopulate(entries: seq<Entry>) returns (result: CallResult)
      modifies this`rewards, this`totalRewards, this`totalContributors
      ensures
        var outcome := Populate(old(View()), entries);
        View() == Commit(old(View()), outcome) && result == ResultOf(outcome)
      ensures old(Valid()) ==> Valid()
    {
      StepStaysValid(View(), OpPopulate(entries));
      if vestingBlockStart.Some? {
        return Err(AlreadyInitialized);
      }
      InsertAll(entries);
      totalRewards, totalContributors := Recount(rewards);
      return Ok(0);
    }

    method DoClaim(remote: Remote, account: Account) returns (result: CallResult)
      modifies this`rewards, this`claimedRewards, this`minted
      ensures
        var outcome := Claim(old(View()), remote, account);
        View() == Commit(old(View()), outcome) && result == ResultOf(outcome)
      ensures old(Valid()) ==> Valid()
    {
      ClaimStaysValid(View(), remote, account);
      if remote !in rewards {
        return Err(InvalidProof);
      }
      if vestingBlockStart.None? {
        return Err(NotInitialized);
      }
      var reward := rewards[remote];
      var available := SaturatingSub(Due(config, reward.total, reward.period, vestingBlockStart.value, now), reward.claimed);
      if available == 0 {
        return Err(NothingToClaim);
      }
      minted := minted[account := (if account in minted then minted[account] else 0) + available];
      rewards := rewards[remote := reward.(claimed := Capped(available + reward.claimed))];
      claimedRewards := Capped(claimedRewards + available);
      return Ok(available);
    }

    method DoAssociate(account: Account, proof: Option<Remote>) returns (result: CallResult)
      modifies this`rewards, this`claimedRewards, this`minted, this`associations
      ensures
        var outcome := Associate(old(View()), account, proof);
        View() == Commit(old(View()), outcome) && result == ResultOf(outcome)
      ensures old(Valid()) ==> Valid()
    {
      StepStaysValid(View(), OpAssociate(account, proof));
      if vestingBlockStart.None? {
        return Err(NotInitialized);
      }
      if vestingBlockStart.value > now {
        return Err(NotClaimableYet);
      }
      if proof.None? {
        return Err(InvalidProof);
      }
      if account in associations {
        return Err(AlreadyAssociated);
      }
      result := DoClaim(proof.value, account);
      if result.Ok? {
        associations := associations[account := proof.value];
      }
    }

    method ClaimReward(account: Account) returns (result: CallResult)
      modifies this`rewards, this`claimedRewards, this`minted
      ensures
        var outcome := ClaimAssociated(old(View()), account);
        View() == Commit(old(View()), outcome) && result == ResultOf(outcome)
      ensures old(Valid()) ==> Valid()
    {
      StepStaysValid(View(), OpClaim(account));
      if account !in associations {
        return Err(NotAssociated);
      }
      result := DoClaim(associations[account], account);
    }
  }

  /** Totals recomputed over the stored rewards, visited in some order, with capped additions. */
  method Recount(rewards: map<Remote, Reward>) returns (total: Balance, contributors: nat)
    ensures total == Capped(if Totals(rewards) < 0 then 0 else Totals(rewards))
    ensures contributors == if |rewards| > MAX_CONTRIBUTORS then MAX_CONTRIBUTORS else |rewards|
    ensures 0 <= Totals(rewards)
  {
    ghost var weight := r => if r in rewards then rewards[r].total else 0;
    SumNonNegative(rewards.Keys, weight);
    total, contributors := 0, 0;
    var rest := rewards.Keys;
    ghost var seen: nat := 0;
    while rest != {}
      invariant rest <= rewards.Keys
      invariant 0 <= Sum(rest, weight) && seen + Sum(rest, weight) == Sum(rewards.Keys, weight)
      invariant total == Capped(seen)
      invariant contributors == if |rewards.Keys| - |rest| > MAX_CONTRIBUTORS then MAX_CONTRIBUTORS else |rewards.Keys| - |rest|
      decreases |rest|
    {
      var r :| r in rest;
      SumRemove(rest, weight, r);
      SumNonNegative(rest - {r}, weight);
      total := Capped(total + rewards[r].total);
      seen := seen + rewards[r].total;
      contributors := if contributors == MAX_CONTRIBUTORS then MAX_CONTRIBUTORS else contributors + 1;
      rest := rest - {r};
    }
    assert Sum(rest, weight) == 0;
  }
}
