/** What the invariant means: tallies equal a recomputation that uses no cached value,
    no total ever leaves the balance type, and this in every reachable state. */
module DemocracyTheorems {
  import opened Amounts
  import opened DemocracyTypes
  import opened DemocracySpec
  import opened DemocracyInvariant
  import opened FiniteSums

  // ---------- from received delegations to the accounts behind them ----------

  /** The delegated part of an account's weight. */
  function Followed(v: AccountState, r: nat): Tally {
    if v.Direct? && r in v.votes && v.votes[r].Standard? then Side(v.votes[r].aye, v.delegations) else EMPTY_TALLY
  }

  ghost function FollowedWeight(voting: Accounts, r: nat, p: Part): Key -> int {
    (k: Key) => Component(Followed(VotingAt(voting, k), r), p)
  }

  ghost function DirectWeight(voting: Accounts, r: nat, p: Part): Key -> int {
    (k: Key) => if VotingAt(voting, k).Direct? then Component(OwnStake(voting, k, r), p) else 0
  }

  /** The stake of accounts delegating to one of `targets`. */
  ghost function DelegatedWeight(voting: Accounts, targets: set<Key>, r: nat, p: Part): Key -> int {
    (k: Key) =>
      var v := VotingAt(voting, k);
      if v.Delegating? && (v.target, k.1) in targets then Component(OwnStake(voting, k, r), p) else 0
  }

  /** The accounts that delegate to `target` hold together what it has received. */
  lemma FollowersOf(voting: Accounts, target: Key, r: nat, p: Part)
    requires DelegationsAgree(voting)
    ensures Sum(voting.Keys, DelegatedWeight(voting, {target}, r, p)) ==
            Component(Followed(VotingAt(voting, target), r), p)
  {
    var t := VotingAt(voting, target);
    var w := DelegatedWeight(voting, {target}, r, p);
    if t.Direct? && r in t.votes && t.votes[r].Standard? {
      var aye := t.votes[r].aye;
      var share := if p.Turnout? then CapitalPart else VotesPart;
      if p.Turnout? || p.Ayes? == aye {
        assert Share(t.delegations, share) == Received(voting, target, share);
        assert Component(Side(aye, t.delegations), p) == Share(t.delegations, share);
        SumEqual(voting.Keys, w, ReceivedWeight(voting, target, share));
      } else {
        SumZero(voting.Keys, w);
      }
    } else {
      SumZero(voting.Keys, w);
    }
  }

  /** Exchange of summation: first over targets, or directly over their followers. */
  lemma {:induction false} ExchangeSums(voting: Accounts, targets: set<Key>, r: nat, p: Part)
    requires DelegationsAgree(voting)
    ensures Sum(targets, FollowedWeight(voting, r, p)) ==
            Sum(voting.Keys, DelegatedWeight(voting, targets, r, p))
  {
    if targets == {} {
      SumZero(voting.Keys, DelegatedWeight(voting, targets, r, p));
    } else {
      var t :| t in targets;
      SumRemove(targets, FollowedWeight(voting, r, p), t);
      ExchangeSums(voting, targets - {t}, r, p);
      FollowersOf(voting, t, r, p);
      SumPlus(voting.Keys,
              DelegatedWeight(voting, targets - {t}, r, p),
              DelegatedWeight(voting, {t}, r, p),
              DelegatedWeight(voting, targets, r, p));
    }
  }

  /** Counting votes with the cached delegations, or counting every account's own
      stake with nothing cached, is the same. */
  lemma RecountIsFromScratch(voting: Accounts, r: nat, p: Part)
    requires DelegationsAgree(voting)
    ensures Recount(voting, r, p) == FromScratch(voting, r, p)
  {
    var keys := voting.Keys;
    SumPlus(keys, DirectWeight(voting, r, p), FollowedWeight(voting, r, p), RecountWeight(voting, r, p));
    ExchangeSums(voting, keys, r, p);
    SumPlus(keys, DirectWeight(voting, r, p), DelegatedWeight(voting, keys, r, p), StakeWeight(voting, r, p));
  }

  // ---------- no total leaves the balance type ----------

  /** Free balances of the accounts that take part are within the issuance. */
  lemma SupplyBounds(s: State, keys: set<Key>, asset: Asset)
    requires SoundCurrency(s.free, s.issuance)
    ensures Sum(keys, SupplyWeight(s.free, asset)) <= At(s.issuance, asset)
    ensures 6 * At(s.issuance, asset) <= MAX_BALANCE
  {
    SumWithin(keys, s.free.Keys, SupplyWeight(s.free, asset));
    assert Supply(s.free, asset) <= At(s.issuance, asset);
  }

  ghost function Scaled(f: Key -> int): Key -> int {
    (k: Key) => 6 * f(k)
  }

  lemma {:induction false} SumScaled(keys: set<Key>, f: Key -> int)
    ensures Sum(keys, Scaled(f)) == 6 * Sum(keys, f)
  {
    if keys != {} {
      var k :| k in keys;
      SumRemove(keys, f, k);
      SumRemove(keys, Scaled(f), k);
      SumScaled(keys - {k}, f);
    }
  }

  /** Any weights bounded by free balances (or six times as much) add up to at most the
      issuance (or six times as much). */
  lemma BoundedBySupply(s: State, asset: Asset, w: Key -> int, sixfold: bool)
    requires SoundCurrency(s.free, s.issuance)
    requires forall k :: k in s.voting.Keys ==>
      0 <= w(k) <= if sixfold then 6 * SupplyWeight(s.free, asset)(k) else SupplyWeight(s.free, asset)(k)
    ensures 0 <= Sum(s.voting.Keys, w) <=
            if sixfold then 6 * At(s.issuance, asset) else At(s.issuance, asset)
  {
    var supply := SupplyWeight(s.free, asset);
    SumNonNegative(s.voting.Keys, w);
    SupplyBounds(s, s.voting.Keys, asset);
    if sixfold {
      SumAtMost(s.voting.Keys, w, Scaled(supply));
      SumScaled(s.voting.Keys, supply);
    } else {
      SumAtMost(s.voting.Keys, w, supply);
    }
  }

  /** The stake of one account in an ongoing referendum is covered by its free balance. */
  lemma StakeCovered(s: State, k: Key, r: nat)
    requires Inv(s) && IsOngoing(s.referenda, r)
    ensures
      var own := OwnStake(s.voting, k, r);
      var free := SupplyWeight(s.free, s.referenda[r].status.asset)(k);
      && 0 <= own.turnout <= free
      && 0 <= own.ayes <= 6 * free
      && 0 <= own.nays <= 6 * free
  {
    assert SoundAt(s, k);
    var v := VotingAt(s.voting, k);
    var asset := s.referenda[r].status.asset;
    SupplyBounds(s, {}, k.1);
    FreeWithinIssuance(s, k);
    if v.Delegating? {
      assert SoundAt(s, (v.target, k.1));
    } else if r in v.votes {
      assert v.votes[r].Balance() <= At(s.free, k) < MAX_BALANCE;
      assert OwnWeight(v.votes[r]).turnout == v.votes[r].Balance();
    }
  }

  lemma FreeWithinIssuance(s: State, k: Key)
    requires SoundCurrency(s.free, s.issuance)
    ensures At(s.free, k) <= At(s.issuance, k.1)
  {
    SupplyBounds(s, {k}, k.1);
    SumRemove({k}, SupplyWeight(s.free, k.1), k);
    SumZero({k} - {k}, SupplyWeight(s.free, k.1));
  }

  /** Running totals are balances, and turnout never exceeds the electorate. */
  lemma TallyFits(s: State, r: nat)
    requires Inv(s) && IsOngoing(s.referenda, r)
    ensures
      var status := s.referenda[r].status;
      && 0 <= status.tally.turnout <= At(s.issuance, status.asset)
      && 0 <= status.tally.ayes <= 6 * At(s.issuance, status.asset) <= MAX_BALANCE
      && 0 <= status.tally.nays <= 6 * At(s.issuance, status.asset)
  {
    var status := s.referenda[r].status;
    SupplyBounds(s, {}, status.asset);
    forall p: Part
      ensures 0 <= Component(status.tally, p) <=
              if p.Turnout? then At(s.issuance, status.asset) else 6 * At(s.issuance, status.asset)
    {
      assert TallyAgrees(s.voting, r, status.tally);
      assert Component(status.tally, p) == Recount(s.voting, r, p);
      RecountIsFromScratch(s.voting, r, p);
      var w := StakeWeight(s.voting, r, p);
      forall k | k in s.voting.Keys
        ensures 0 <= w(k) <= if !p.Turnout? then 6 * SupplyWeight(s.free, status.asset)(k) else SupplyWeight(s.free, status.asset)(k)
      {
        StakeCovered(s, k, r);
      }
      BoundedBySupply(s, status.asset, w, !p.Turnout?);
    }
    assert Component(status.tally, Ayes) == status.tally.ayes;
    assert Component(status.tally, Nays) == status.tally.nays;
    assert Component(status.tally, Turnout) == status.tally.turnout;
  }

  /** Received delegations are balances as well. */
  lemma DelegationsFit(s: State, k: Key)
    requires Inv(s)
    ensures
      var d := VotingAt(s.voting, k).delegations;
      && 0 <= d.capital <= At(s.issuance, k.1)
      && 0 <= d.votes <= 6 * At(s.issuance, k.1) <= MAX_BALANCE
  {
    var d := VotingAt(s.voting, k).delegations;
    SupplyBounds(s, {}, k.1);
    forall p: DelegationPart
      ensures 0 <= Share(d, p) <= if p.VotesPart? then 6 * At(s.issuance, k.1) else At(s.issuance, k.1)
    {
      assert Share(d, p) == Received(s.voting, k, p);
      var w := ReceivedWeight(s.voting, k, p);
      forall j | j in s.voting.Keys
        ensures 0 <= w(j) <= if p.VotesPart? then 6 * SupplyWeight(s.free, k.1)(j) else SupplyWeight(s.free, k.1)(j)
      {
        assert SoundAt(s, j);
      }
      BoundedBySupply(s, k.1, w, p.VotesPart?);
    }
    assert Share(d, VotesPart) == d.votes && Share(d, CapitalPart) == d.capital;
  }

  /** A part of a received total is never larger than the total. */
  lemma GivenWithinReceived(s: State, giver: Key, k: Key)
    requires Inv(s)
    ensures
      var d := VotingAt(s.voting, k).delegations;
      var g := Given(giver, VotingAt(s.voting, giver), k);
      g.votes <= d.votes && g.capital <= d.capital
  {
    DelegationsFit(s, k);
    if giver in s.voting {
      forall p: DelegationPart ensures Share(Given(giver, VotingAt(s.voting, giver), k), p) <= Share(VotingAt(s.voting, k).delegations, p) {
        assert Share(VotingAt(s.voting, k).delegations, p) == Received(s.voting, k, p);
        SumTerm(s.voting.Keys, ReceivedWeight(s.voting, k, p), giver);
      }
      assert Share(VotingAt(s.voting, k).delegations, VotesPart) == VotingAt(s.voting, k).delegations.votes;
      assert Share(VotingAt(s.voting, k).delegations, CapitalPart) == VotingAt(s.voting, k).delegations.capital;
      assert Share(Given(giver, VotingAt(s.voting, giver), k), VotesPart) == Given(giver, VotingAt(s.voting, giver), k).votes;
      assert Share(Given(giver, VotingAt(s.voting, giver), k), CapitalPart) == Given(giver, VotingAt(s.voting, giver), k).capital;
    }
  }

  /** The weight of one account is never larger than the running tally. */
  lemma WeightWithinTally(s: State, k: Key, r: nat)
    requires Inv(s) && IsOngoing(s.referenda, r)
    ensures
      var w := Weight(VotingAt(s.voting, k), r);
      var t := s.referenda[r].status.tally;
      w.ayes <= t.ayes && w.nays <= t.nays && w.turnout <= t.turnout
  {
    TallyFits(s, r);
    var t := s.referenda[r].status.tally;
    var w := Weight(VotingAt(s.voting, k), r);
    if k in s.voting {
      forall p: Part ensures Component(w, p) <= Component(t, p) {
        assert TallyAgrees(s.voting, r, t);
        assert Component(t, p) == Recount(s.voting, r, p);
        var f := RecountWeight(s.voting, r, p);
        forall j | j in s.voting.Keys ensures 0 <= f(j) {
          DelegationsFit(s, j);
        }
        SumTerm(s.voting.Keys, f, k);
      }
      assert Component(w, Ayes) <= Component(t, Ayes);
      assert Component(w, Nays) <= Component(t, Nays);
      assert Component(w, Turnout) <= Component(t, Turnout);
    }
  }

  // ---------- every reachable state ----------

  /** The tally of a referendum, recomputed without any cached value. */
  ghost function TrueTally(voting: Accounts, r: nat): Tally {
    Tally(FromScratch(voting, r, Ayes), FromScratch(voting, r, Nays), FromScratch(voting, r, Turnout))
  }

  /** In every state reached from genesis by any sequence of calls, blocks and
      movements of unlocked funds, running tallies and received delegations equal
      their recomputations, and both stay within the balance type. */
  lemma TalliesAreExact(s: State, ops: seq<Op>)
    requires Genesis(s)
    ensures
      var t := Run(s, ops);
      && (forall r: nat {:trigger TrueTally(t.voting, r)} :: IsOngoing(t.referenda, r) ==>
           && t.referenda[r].status.tally == TrueTally(t.voting, r)
           && t.referenda[r].status.tally.turnout <= At(t.issuance, t.referenda[r].status.asset))
      && (forall k: Key {:trigger VotingAt(t.voting, k)} ::
           VotingAt(t.voting, k).delegations ==
           Delegations(Received(t.voting, k, VotesPart), Received(t.voting, k, CapitalPart)))
  {
    GenesisHasInv(s);
    RunKeepsInv(s, ops);
    var t := Run(s, ops);
    forall r: nat | IsOngoing(t.referenda, r)
      ensures t.referenda[r].status.tally == TrueTally(t.voting, r)
      ensures t.referenda[r].status.tally.turnout <= At(t.issuance, t.referenda[r].status.asset)
    {
      var tally := t.referenda[r].status.tally;
      assert TallyAgrees(t.voting, r, tally);
      forall p: Part ensures Component(tally, p) == FromScratch(t.voting, r, p) {
        assert Component(tally, p) == Recount(t.voting, r, p);
        RecountIsFromScratch(t.voting, r, p);
      }
      assert Component(tally, Ayes) == tally.ayes && Component(tally, Nays) == tally.nays;
      assert Component(tally, Turnout) == tally.turnout;
      TallyFits(t, r);
    }
    forall k: Key
      ensures VotingAt(t.voting, k).delegations ==
              Delegations(Received(t.voting, k, VotesPart), Received(t.voting, k, CapitalPart))
    {
      var d := VotingAt(t.voting, k).delegations;
      assert Share(d, VotesPart) == Received(t.voting, k, VotesPart);
      assert Share(d, CapitalPart) == Received(t.voting, k, CapitalPart);
    }
  }
}
