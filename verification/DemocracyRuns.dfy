/** Safety over whole runs: winning votes stay locked, and referenda are decided
    once, at their end block. */
module DemocracyRuns {
  import opened Amounts
  import opened DemocracyTypes
  import opened DemocracySpec
  import opened DemocracyInvariant
  import opened DemocracyTheorems
  import opened FiniteSums
  import VoteThresholds

  // ---------- time and records ----------

  /** The immutable part of an ongoing referendum. */
  predicate SameReferendum(a: Status, b: Status) {
    a.end == b.end && a.asset == b.asset && a.threshold == b.threshold && a.delay == b.delay
  }

  predicate SameTerms(a: ReferendumInfo, b: ReferendumInfo) {
    if a.Finished? then b == a else b.Ongoing? && SameReferendum(a.status, b.status)
  }

  /** Calls about votes and locks move neither the clock nor the terms of any referendum. */
  ghost predicate InBlock(s: State, t: State) {
    && t.config == s.config && t.now == s.now
    && t.referenda.Keys == s.referenda.Keys
    && forall r :: r in s.referenda ==> SameTerms(s.referenda[r], t.referenda[r])
  }

  lemma InBlockTwice(s: State, t: State, u: State)
    requires InBlock(s, t) && InBlock(t, u)
    ensures InBlock(s, u)
  {
    forall r | r in s.referenda ensures SameTerms(s.referenda[r], u.referenda[r]) {
      assert SameTerms(s.referenda[r], t.referenda[r]);
    }
  }

  lemma VoteInBlock(s: State, who: Account, r: nat, vote: AccountVote)
    ensures InBlock(s, Commit(s, TryVote(s, who, r, vote)))
  {
  }

  lemma RemoveVoteInBlock(s: State, who: Account, asset: Asset, r: nat, scope: UnvoteScope)
    ensures InBlock(s, Commit(s, TryRemoveVote(s, who, asset, r, scope)))
  {
    var outcome := TryRemoveVote(s, who, asset, r, scope);
    var k := (who, asset);
    if outcome.Done? && VotingAt(s.voting, k).Direct? {
      var t := ForgetVote(s, k, r, VotingAt(outcome.state.voting, k).prior);
      assert InBlock(s, t);
      assert outcome.state == t;
    }
  }

  lemma BumpInBlock(s: State, k: Key, d: Delegations)
    ensures InBlock(s, Bump(s, k, d))
  {
  }

  lemma DelegateInBlock(s: State, who: Account, target: Account, asset: Asset, conviction: Conviction, balance: nat)
    ensures InBlock(s, Commit(s, TryDelegate(s, who, target, asset, conviction, balance)))
  {
    var k := (who, asset);
    var v := VotingAt(s.voting, k);
    var s1 := if v.Delegating? then Detach(s, k) else s;
    if v.Delegating? {
      BumpInBlock(s, (v.target, asset), v.conviction.Votes(v.balance).Negate());
    }
    BumpInBlock(s1, (target, asset), conviction.Votes(balance));
    InBlockTwice(s, s1, Attach(s1, k, target, conviction, balance));
  }

  lemma UndelegateInBlock(s: State, who: Account, asset: Asset)
    ensures InBlock(s, Commit(s, TryUndelegate(s, who, asset)))
  {
    var v := VotingAt(s.voting, (who, asset));
    if v.Delegating? {
      BumpInBlock(s, (v.target, asset), v.conviction.Votes(v.balance).Negate());
    }
  }

  predicate Cancels(op: Op, r: nat) {
    op == CancelReferendum(r)
  }

  lemma {:induction false} StepInBlock(s: State, op: Op)
    requires !op.NextBlock? && !op.StartReferendum? && !op.CancelReferendum?
    ensures InBlock(s, Apply(s, op))
  {
    match op
    case Vote(who, r, vote) => VoteInBlock(s, who, r, vote);
    case RemoveVote(who, asset, r, scope) => RemoveVoteInBlock(s, who, asset, r, scope);
    case Delegate(who, target, asset, conviction, balance) =>
      DelegateInBlock(s, who, target, asset, conviction, balance);
    case Undelegate(who, asset) => UndelegateInBlock(s, who, asset);
    case UnlockFunds(who, asset) => assert InBlock(s, Unlock(s, who, asset));
    case MoveFunds(free, issuance) =>
      assert InBlock(s, s.(free := free, issuance := issuance));
  }

  lemma StepTime(s: State, op: Op)
    requires Inv(s)
    ensures Apply(s, op).config == s.config
    ensures Apply(s, op).now == if op.NextBlock? then s.now + 1 else s.now
  {
    if op.NextBlock? {
      assert BeginBlock(s, op.launched).now == s.now + 1;
    } else if !op.StartReferendum? && !op.CancelReferendum? {
      StepInBlock(s, op);
    }
  }

  lemma {:induction false} RunTime(s: State, ops: seq<Op>)
    requires Inv(s)
    ensures Run(s, ops).config == s.config && Run(s, ops).now >= s.now
  {
    if ops != [] {
      RunTime(s, ops[..|ops| - 1]);
      RunKeepsInv(s, ops[..|ops| - 1]);
      StepTime(Run(s, ops[..|ops| - 1]), ops[|ops| - 1]);
    }
  }

  /** What one step can do to one referendum: nothing to its terms, or, at its end
      block, the verdict on the tally it has reached. */
  lemma ReferendumStep(s: State, op: Op, r: nat)
    requires Inv(s) && r in s.referenda && !Cancels(op, r)
    ensures
      var referenda := Apply(s, op).referenda;
      && r in referenda
      && if s.referenda[r].Ongoing? && op.NextBlock? && s.referenda[r].status.end == s.now + 1
         then referenda[r] == Finished(Verdict(s.referenda[r].status, s.issuance), s.now + 1)
         else SameTerms(s.referenda[r], referenda[r])
  {
    if op.NextBlock? {
      BlockStep(s, op.launched, r);
    } else if !op.StartReferendum? && !op.CancelReferendum? {
      StepInBlock(s, op);
    }
  }

  lemma BlockStep(s: State, launched: Option<Tabled>, r: nat)
    requires Inv(s) && r in s.referenda
    ensures
      var referenda := BeginBlock(s, launched).referenda;
      && r in referenda
      && if s.referenda[r].Ongoing? && s.referenda[r].status.end == s.now + 1
         then referenda[r] == Finished(Verdict(s.referenda[r].status, s.issuance), s.now + 1)
         else referenda[r] == s.referenda[r]
  {
  }

  /** The verdict of the block at its end, by the roots of the turnout reached and of the
      issuance of that block: a block decides by these products and nothing else. */
  lemma BlockDecides(s: State, launched: Option<Tabled>, r: nat, v: nat, e: nat)
    requires Inv(s) && IsOngoing(s.referenda, r) && s.referenda[r].status.end == s.now + 1
    requires v * v <= s.referenda[r].status.tally.turnout < (v + 1) * (v + 1)
    requires e * e <= At(s.issuance, s.referenda[r].status.asset) < (e + 1) * (e + 1)
    ensures
      var status := s.referenda[r].status;
      var passes :=
        && v > 0
        && match status.threshold
           case SuperMajorityApprove => status.tally.nays * e < status.tally.ayes * v
           case SuperMajorityAgainst => status.tally.nays * v < status.tally.ayes * e
           case SimpleMajority => status.tally.nays < status.tally.ayes;
      && r in BeginBlock(s, launched).referenda
      && BeginBlock(s, launched).referenda[r] == Finished(passes, s.now + 1)
  {
    var status := s.referenda[r].status;
    BlockStep(s, launched, r);
    VoteThresholds.PassesByRoots(status.threshold, status.tally, At(s.issuance, status.asset), v, e);
  }

  // ---------- baking ----------

  /** Scanning from the lowest unbaked index finds what a full scan would find. */
  lemma ScanIsComplete(s: State, r: nat, now: Block)
    requires Inv(s)
    ensures Matures(s.referenda, r, s.lowestUnbaked, s.count, now) <==>
            IsOngoing(s.referenda, r) && s.referenda[r].status.end == now
  {
  }

  predicate NeverCancels(ops: seq<Op>, r: nat) {
    forall i :: 0 <= i < |ops| ==> !Cancels(ops[i], r)
  }

  /** The step of a run that decided a referendum: the block at its end, with the tally
      and the issuance of that moment. */
  ghost predicate DecidedAt(s: State, ops: seq<Op>, r: nat, i: int) {
    && 0 <= i < |ops| && ops[i].NextBlock?
    && var before := Run(s, ops[..i]);
       var after := Run(s, ops);
       && IsOngoing(before.referenda, r)
       && before.now + 1 == before.referenda[r].status.end
       && r in after.referenda
       && after.referenda[r] == Finished(Verdict(before.referenda[r].status, before.issuance), before.now + 1)
  }

  lemma PrefixOfPrefix(ops: seq<Op>, i: nat)
    requires i < |ops|
    ensures ops[..|ops| - 1][..i] == ops[..i]
  {
  }

  /** A referendum that ends in the future is ongoing, unchanged in its terms, until that
      block; from then on it is finished, with the verdict of the tally at that block. */
  lemma {:induction false} DecidedOnceAtEnd(s: State, ops: seq<Op>, r: nat)
    requires Inv(s) && IsOngoing(s.referenda, r) && s.now < s.referenda[r].status.end
    requires NeverCancels(ops, r)
    ensures
      var t := Run(s, ops);
      && (t.now < s.referenda[r].status.end ==>
           IsOngoing(t.referenda, r) && SameReferendum(t.referenda[r].status, s.referenda[r].status))
      && (t.now >= s.referenda[r].status.end ==>
           exists i :: DecidedAt(s, ops, r, i) && Run(s, ops[..i]).referenda[r].status.end == s.referenda[r].status.end)
  {
    if ops != [] {
      var n := |ops| - 1;
      var u := Run(s, ops[..n]);
      DecidedOnceAtEnd(s, ops[..n], r);
      RunKeepsInv(s, ops[..n]);
      StepTime(u, ops[n]);
      var t := Run(s, ops);
      if u.now < s.referenda[r].status.end {
        ReferendumStep(u, ops[n], r);
        if t.now >= s.referenda[r].status.end {
          assert DecidedAt(s, ops, r, n);
        }
      } else {
        var i :| DecidedAt(s, ops[..n], r, i) && Run(s, ops[..n][..i]).referenda[r].status.end == s.referenda[r].status.end;
        PrefixOfPrefix(ops, i);
        ReferendumStep(u, ops[n], r);
        assert DecidedAt(s, ops, r, i);
      }
    }
  }

  /** A referendum whose end is not in the future is never decided. */
  lemma {:induction false} OverdueIsNeverDecided(s: State, ops: seq<Op>, r: nat)
    requires Inv(s) && IsOngoing(s.referenda, r) && s.referenda[r].status.end <= s.now
    requires NeverCancels(ops, r)
    ensures
      var t := Run(s, ops);
      IsOngoing(t.referenda, r) && SameReferendum(t.referenda[r].status, s.referenda[r].status)
  {
    if ops != [] {
      var n := |ops| - 1;
      OverdueIsNeverDecided(s, ops[..n], r);
      RunKeepsInv(s, ops[..n]);
      RunTime(s, ops[..n]);
      ReferendumStep(Run(s, ops[..n]), ops[n], r);
    }
  }

  function Blocks(n: nat): seq<Op> {
    seq(n, _ => NextBlock(None))
  }

  lemma {:induction false} BlocksTakeTime(s: State, n: nat)
    requires Inv(s)
    ensures Run(s, Blocks(n)).now == s.now + n
  {
    if n > 0 {
      assert Blocks(n)[..n - 1] == Blocks(n - 1);
      BlocksTakeTime(s, n - 1);
      RunKeepsInv(s, Blocks(n - 1));
    }
  }

  /** A new referendum can be decided without cancelling it exactly when its voting
      period is positive: a fast-tracked one with period zero stays ongoing for ever. */
  lemma DecidableIffPeriodPositive(s: State, period: nat, asset: Asset, threshold: VoteThreshold, delay: Block)
    requires Inv(s)
    ensures
      var t := Start(s, period, asset, threshold, delay);
      (exists ops :: NeverCancels(ops, s.count) && !IsOngoing(Run(t, ops).referenda, s.count)) <==> period >= 1
  {
    var t := Start(s, period, asset, threshold, delay);
    StartKeepsInv(s, period, asset, threshold, delay);
    if period == 0 {
      forall ops | NeverCancels(ops, s.count) ensures IsOngoing(Run(t, ops).referenda, s.count) {
        OverdueIsNeverDecided(t, ops, s.count);
      }
    } else {
      var ops := Blocks(period);
      BlocksTakeTime(t, period);
      DecidedOnceAtEnd(t, ops, s.count);
      assert NeverCancels(ops, s.count) && !IsOngoing(Run(t, ops).referenda, s.count);
    }
  }

  /** A step that starts referenda with positive periods only. */
  predicate PositivePeriods(config: Config, op: Op) {
    (op.StartReferendum? ==> op.period >= 1) && (op.NextBlock? && op.launched.Some? ==> config.votingPeriod >= 1)
  }

  ghost predicate NothingOverdue(s: State) {
    forall r :: r in s.referenda && s.referenda[r].Ongoing? ==> s.referenda[r].status.end > s.now
  }

  /** Where a referendum comes from: it takes the next index, and ends a period after now. */
  lemma NewReferendum(s: State, op: Op, r: nat)
    requires Inv(s) && r !in s.referenda && r in Apply(s, op).referenda
    ensures r == s.count && Apply(s, op).referenda[r].Ongoing?
    ensures op.StartReferendum? || (op.NextBlock? && op.launched.Some?)
    ensures Apply(s, op).referenda[r].status.end ==
            Apply(s, op).now + if op.StartReferendum? then op.period else s.config.votingPeriod
    ensures
      var status := Apply(s, op).referenda[r].status;
      && status.tally == Tally(0, 0, 0)
      && if op.StartReferendum? then status.asset == op.asset && status.threshold == op.threshold && status.delay == op.delay
         else status.asset == op.launched.value.asset && status.threshold == op.launched.value.threshold
              && status.delay == s.config.enactmentPeriod
  {
    if op.NextBlock? {
      LaunchedReferendum(s, op.launched, r);
    } else if !op.StartReferendum? && !op.CancelReferendum? {
      StepInBlock(s, op);
    }
  }

  lemma LaunchedReferendum(s: State, launched: Option<Tabled>, r: nat)
    requires Inv(s) && r !in s.referenda && r in BeginBlock(s, launched).referenda
    ensures r == s.count && launched.Some? && BeginBlock(s, launched).referenda[r].Ongoing?
    ensures BeginBlock(s, launched).referenda[r].status.end == s.now + 1 + s.config.votingPeriod
    ensures
      var status := BeginBlock(s, launched).referenda[r].status;
      && status.tally == Tally(0, 0, 0) && status.delay == s.config.enactmentPeriod
      && status.asset == launched.value.asset && status.threshold == launched.value.threshold
  {
  }

  lemma StepLeavesNothingOverdue(s: State, op: Op)
    requires Inv(s) && NothingOverdue(s) && PositivePeriods(s.config, op)
    ensures NothingOverdue(Apply(s, op))
  {
    var t := Apply(s, op);
    StepTime(s, op);
    forall r | r in t.referenda && t.referenda[r].Ongoing? ensures t.referenda[r].status.end > t.now {
      if r in s.referenda {
        assert !Cancels(op, r);
        ReferendumStep(s, op, r);
      } else {
        NewReferendum(s, op, r);
      }
    }
  }

  /** With positive periods no block leaves an overdue referendum behind. */
  lemma {:induction false} NothingIsEverOverdue(s: State, ops: seq<Op>)
    requires Genesis(s)
    requires forall i :: 0 <= i < |ops| ==> PositivePeriods(s.config, ops[i])
    ensures NothingOverdue(Run(s, ops))
  {
    if ops != [] {
      var n := |ops| - 1;
      NothingIsEverOverdue(s, ops[..n]);
      GenesisHasInv(s);
      RunTime(s, ops[..n]);
      RunKeepsInv(s, ops[..n]);
      StepLeavesNothingOverdue(Run(s, ops[..n]), ops[n]);
    }
  }

  // ---------- locks of winning votes ----------

  /** `amount` is locked until block `until` on account of referendum `r`: either the
      vote is still recorded on a referendum it won, or a prior lock has taken over. */
  ghost predicate HeldUntil(s: State, k: Key, r: nat, amount: nat, until: Block) {
    var v := VotingAt(s.voting, k);
    && v.Direct?
    && amount <= At(s.locks, k)
    && amount <= At(s.free, k)
    && (|| (amount <= v.prior.amount && until <= v.prior.until)
        || (r in v.votes && v.votes[r].Standard? && v.votes[r].amount == amount &&
            r in s.referenda && s.referenda[r].Finished? &&
            UnlockBlock(s.config, s.referenda[r], v.votes[r]) == Some((until, amount))))
  }

  /** The two steps the promise does not cover: delegating the same funds, and root
      removing the record of the finished referendum. */
  predicate Disturbs(op: Op, k: Key, r: nat) {
    || (op.Delegate? && (op.who, op.asset) == k)
    || Cancels(op, r)
  }

  lemma DelegationKeepsHold(s: State, k: Key, r: nat, amount: nat, until: Block, j: Key, d: Delegations)
    requires HeldUntil(s, k, r, amount, until)
    ensures HeldUntil(Bump(s, j, d), k, r, amount, until)
  {
  }

  lemma UnlockKeepsHold(s: State, k: Key, r: nat, amount: nat, until: Block, who: Account, asset: Asset)
    requires HeldUntil(s, k, r, amount, until) && s.now < until
    ensures HeldUntil(Unlock(s, who, asset), k, r, amount, until)
  {
    var v := VotingAt(s.voting, k);
    if (who, asset) == k {
      LargestVoteIsMax(v.votes, v.prior.Rejig(s.now).amount);
    }
  }

  /** Removing a vote keeps the hold if the prior lock only grew, and took over the
      vote if that was the one removed. */
  lemma ForgetVoteKeepsHold(s: State, k: Key, r: nat, amount: nat, until: Block, j: Key, index: nat, prior: PriorLock)
    requires HeldUntil(s, k, r, amount, until) && VotingAt(s.voting, j).Direct?
    requires prior.until >= VotingAt(s.voting, j).prior.until && prior.amount >= VotingAt(s.voting, j).prior.amount
    requires j == k && index == r && r in VotingAt(s.voting, k).votes && r in s.referenda && s.referenda[r].Finished? &&
             UnlockBlock(s.config, s.referenda[r], VotingAt(s.voting, k).votes[r]) == Some((until, amount)) ==>
               amount <= prior.amount && until <= prior.until
    ensures HeldUntil(ForgetVote(s, j, index, prior), k, r, amount, until)
  {
  }

  lemma RemoveVoteKeepsHold(s: State, k: Key, r: nat, amount: nat, until: Block,
                            who: Account, asset: Asset, index: nat, scope: UnvoteScope)
    requires HeldUntil(s, k, r, amount, until) && s.now < until
    ensures HeldUntil(Commit(s, TryRemoveVote(s, who, asset, index, scope)), k, r, amount, until)
  {
    var j := (who, asset);
    var outcome := TryRemoveVote(s, who, asset, index, scope);
    if outcome.Done? && VotingAt(s.voting, j).Direct? {
      var prior := VotingAt(outcome.state.voting, j).prior;
      ForgetVoteKeepsHold(s, k, r, amount, until, j, index, prior);
      assert outcome.state == ForgetVote(s, j, index, prior);
    }
  }

  lemma VoteKeepsHold(s: State, k: Key, r: nat, amount: nat, until: Block, who: Account, index: nat, vote: AccountVote)
    requires HeldUntil(s, k, r, amount, until)
    ensures HeldUntil(Commit(s, TryVote(s, who, index, vote)), k, r, amount, until)
  {
  }

  lemma BlockKeepsHold(s: State, k: Key, r: nat, amount: nat, until: Block, launched: Option<Tabled>)
    requires Inv(s) && HeldUntil(s, k, r, amount, until)
    ensures HeldUntil(BeginBlock(s, launched), k, r, amount, until)
  {
    if r in s.referenda {
      BlockStep(s, launched, r);
    }
  }

  lemma {:induction false} StepKeepsHold(s: State, op: Op, k: Key, r: nat, amount: nat, until: Block)
    requires Inv(s) && HeldUntil(s, k, r, amount, until) && s.now < until
    requires !Disturbs(op, k, r)
    ensures HeldUntil(Apply(s, op), k, r, amount, until)
  {
    match op
    case Vote(who, index, vote) =>
      VoteKeepsHold(s, k, r, amount, until, who, index, vote);
    case RemoveVote(who, asset, index, scope) =>
      RemoveVoteKeepsHold(s, k, r, amount, until, who, asset, index, scope);
    case Delegate(who, target, asset, conviction, balance) =>
      DelegateKeepsHold(s, k, r, amount, until, who, target, asset, conviction, balance);
    case Undelegate(who, asset) =>
      UndelegateKeepsHold(s, k, r, amount, until, who, asset);
    case UnlockFunds(who, asset) =>
      UnlockKeepsHold(s, k, r, amount, until, who, asset);
    case StartReferendum(_, _, _, _) =>
    case CancelReferendum(_) =>
    case NextBlock(launched) =>
      BlockKeepsHold(s, k, r, amount, until, launched);
    case MoveFunds(free, _) =>
      assert At(free, k) >= At(s.locks, k) || At(free, k) >= At(s.free, k)
        || !RespectsLocks(s, free);
  }

  lemma DetachKeepsHold(s: State, k: Key, r: nat, amount: nat, until: Block, j: Key)
    requires HeldUntil(s, k, r, amount, until) && VotingAt(s.voting, j).Delegating?
    ensures HeldUntil(Detach(s, j), k, r, amount, until)
  {
    var v := VotingAt(s.voting, j);
    DelegationKeepsHold(s, k, r, amount, until, (v.target, j.1), v.conviction.Votes(v.balance).Negate());
  }

  lemma DelegateKeepsHold(s: State, k: Key, r: nat, amount: nat, until: Block,
                          who: Account, target: Account, asset: Asset, conviction: Conviction, balance: nat)
    requires HeldUntil(s, k, r, amount, until) && (who, asset) != k
    ensures HeldUntil(Commit(s, TryDelegate(s, who, target, asset, conviction, balance)), k, r, amount, until)
  {
    var j := (who, asset);
    var s1 := if VotingAt(s.voting, j).Delegating? then Detach(s, j) else s;
    if VotingAt(s.voting, j).Delegating? {
      DetachKeepsHold(s, k, r, amount, until, j);
    }
    DelegationKeepsHold(s1, k, r, amount, until, (target, asset), conviction.Votes(balance));
  }

  lemma UndelegateKeepsHold(s: State, k: Key, r: nat, amount: nat, until: Block, who: Account, asset: Asset)
    requires HeldUntil(s, k, r, amount, until)
    ensures HeldUntil(Commit(s, TryUndelegate(s, who, asset)), k, r, amount, until)
  {
    var j := (who, asset);
    if VotingAt(s.voting, j).Delegating? {
      DetachKeepsHold(s, k, r, amount, until, j);
    }
  }

  lemma {:induction false} RunKeepsHold(s: State, ops: seq<Op>, k: Key, r: nat, amount: nat, until: Block)
    requires Inv(s) && HeldUntil(s, k, r, amount, until)
    requires forall i :: 0 <= i < |ops| ==> !Disturbs(ops[i], k, r)
    requires Run(s, ops).now < until
    ensures HeldUntil(Run(s, ops), k, r, amount, until)
  {
    if ops != [] {
      var n := |ops| - 1;
      RunKeepsInv(s, ops[..n]);
      StepTime(Run(s, ops[..n]), ops[n]);
      RunKeepsHold(s, ops[..n], k, r, amount, until);
      StepKeepsHold(Run(s, ops[..n]), ops[n], k, r, amount, until);
    }
  }

  /** The balance of a standard vote on the winning side stays locked, and stays in the
      account, until the referendum's end plus its conviction's lock periods, whatever
      calls are made in between short of the two that the promise does not cover. */
  lemma WinnersStayLocked(g: State, before: seq<Op>, ops: seq<Op>, k: Key, r: nat)
    requires Genesis(g)
    requires WonVote(Run(g, before), k, r)
    requires forall i :: 0 <= i < |ops| ==> !Disturbs(ops[i], k, r)
    ensures
      var s := Run(g, before);
      var t := Run(s, ops);
      var vote := VotingAt(s.voting, k).votes[r];
      t.now < s.referenda[r].finishedAt + g.config.voteLockingPeriod * vote.conviction.LockPeriods() ==>
        vote.amount <= At(t.locks, k) && vote.amount <= At(t.free, k)
  {
    GenesisHasInv(g);
    RunKeepsInv(g, before);
    RunTime(g, before);
    LockedFromTheEnd(Run(g, before), ops, k, r);
  }

  /** A standard vote recorded on a finished referendum whose outcome it supported. */
  ghost predicate WonVote(s: State, k: Key, r: nat) {
    && VotingAt(s.voting, k).Direct? && r in VotingAt(s.voting, k).votes
    && VotingAt(s.voting, k).votes[r].Standard?
    && r in s.referenda && s.referenda[r].Finished?
    && s.referenda[r].approved == VotingAt(s.voting, k).votes[r].aye
  }

  lemma LockedFromTheEnd(s: State, ops: seq<Op>, k: Key, r: nat)
    requires Inv(s) && WonVote(s, k, r)
    requires forall i :: 0 <= i < |ops| ==> !Disturbs(ops[i], k, r)
    ensures
      var t := Run(s, ops);
      var vote := VotingAt(s.voting, k).votes[r];
      t.now < LockEnd(s.config, s.referenda[r].finishedAt, vote.conviction.LockPeriods()) ==>
        vote.amount <= At(t.locks, k) && vote.amount <= At(t.free, k)
  {
    var vote := VotingAt(s.voting, k).votes[r];
    var until := LockEnd(s.config, s.referenda[r].finishedAt, vote.conviction.LockPeriods());
    assert SoundAt(s, k);
    assert HeldUntil(s, k, r, vote.amount, until);
    if Run(s, ops).now < until {
      RunKeepsHold(s, ops, k, r, vote.amount, until);
    }
  }

  // ---------- when locks end ----------

  lemma {:induction false} UncancelledIndex(ops: seq<Op>) returns (r: nat)
    ensures forall i :: 0 <= i < |ops| && ops[i].CancelReferendum? ==> ops[i].index < r
  {
    r := 0;
    if ops != [] {
      var before := UncancelledIndex(ops[1..]);
      r := if ops[0].CancelReferendum? then Max(before, ops[0].index + 1) else before;
      forall i | 0 <= i < |ops| && ops[i].CancelReferendum?
        ensures ops[i].index < r
      {
        if i > 0 {
          assert ops[i] == ops[1..][i - 1];
        }
      }
    }
  }

  /** What was delegated stays locked, and in the account, until the lock periods after the
      undelegation are over, whatever calls are made short of delegating again. */
  lemma UndelegatedStaysLocked(g: State, before: seq<Op>, ops: seq<Op>, k: Key)
    requires Genesis(g) && VotingAt(Run(g, before).voting, k).Delegating?
    requires forall i :: 0 <= i < |ops| ==> !(ops[i].Delegate? && (ops[i].who, ops[i].asset) == k)
    ensures
      var s := Run(g, before);
      var v, t := VotingAt(s.voting, k), Run(Apply(s, Undelegate(k.0, k.1)), ops);
      t.now < s.now + g.config.voteLockingPeriod * v.conviction.LockPeriods() ==>
        v.balance <= At(t.locks, k) && v.balance <= At(t.free, k)
  {
    GenesisHasInv(g);
    RunKeepsInv(g, before);
    RunTime(g, before);
    var s := Run(g, before);
    var u, v := Apply(s, Undelegate(k.0, k.1)), VotingAt(s.voting, k);
    StepKeepsInv(s, Undelegate(k.0, k.1));
    StepTime(s, Undelegate(k.0, k.1));
    assert SoundAt(s, k);
    var r := UncancelledIndex(ops);
    var until := s.now + g.config.voteLockingPeriod * v.conviction.LockPeriods();
    UndelegatingHolds(s, k, r);
    if Run(u, ops).now < until {
      RunKeepsHold(u, ops, k, r, v.balance, until);
    }
  }

  lemma UndelegatingHolds(s: State, k: Key, r: nat)
    requires VotingAt(s.voting, k).Delegating? && SoundAt(s, k)
    ensures
      var v := VotingAt(s.voting, k);
      HeldUntil(Apply(s, Undelegate(k.0, k.1)), k, r, v.balance, s.now + s.config.voteLockingPeriod * v.conviction.LockPeriods())
  {
    var v := VotingAt(s.voting, k);
    var u := Detach(s, k);
    assert u.locks == s.locks && u.free == s.free;
  }

  /** Calls of the account itself that vote or delegate; anybody may unlock. */
  predicate ActsFor(op: Op, k: Key) {
    || (op.Vote? && op.who == k.0)
    || (op.RemoveVote? && (op.who, op.asset) == k)
    || (op.Delegate? && (op.who, op.asset) == k)
    || (op.Undelegate? && (op.who, op.asset) == k)
  }

  /** No votes, and this prior lock while it runs. */
  ghost predicate OwesOnly(s: State, k: Key, prior: PriorLock) {
    var v := VotingAt(s.voting, k);
    v.Direct? && v.votes == map[] && v.prior.Rejig(s.now) == prior.Rejig(s.now)
  }

  lemma BumpKeepsOwing(s: State, k: Key, prior: PriorLock, j: Key, d: Delegations)
    requires OwesOnly(s, k, prior)
    ensures OwesOnly(Bump(s, j, d), k, prior)
  {
  }

  lemma DelegateKeepsOwing(s: State, k: Key, prior: PriorLock,
                           who: Account, target: Account, asset: Asset, conviction: Conviction, balance: nat)
    requires OwesOnly(s, k, prior) && (who, asset) != k
    ensures OwesOnly(Commit(s, TryDelegate(s, who, target, asset, conviction, balance)), k, prior)
  {
    var j := (who, asset);
    var v := VotingAt(s.voting, j);
    var s1 := if v.Delegating? then Detach(s, j) else s;
    if v.Delegating? {
      BumpKeepsOwing(s, k, prior, (v.target, asset), v.conviction.Votes(v.balance).Negate());
    }
    BumpKeepsOwing(s1, k, prior, (target, asset), conviction.Votes(balance));
  }

  lemma UndelegateKeepsOwing(s: State, k: Key, prior: PriorLock, who: Account, asset: Asset)
    requires OwesOnly(s, k, prior) && (who, asset) != k
    ensures OwesOnly(Commit(s, TryUndelegate(s, who, asset)), k, prior)
  {
    var v := VotingAt(s.voting, (who, asset));
    if v.Delegating? {
      BumpKeepsOwing(s, k, prior, (v.target, asset), v.conviction.Votes(v.balance).Negate());
    }
  }

  lemma VotesKeepOwing(s: State, k: Key, prior: PriorLock, op: Op)
    requires OwesOnly(s, k, prior) && !ActsFor(op, k) && (op.Vote? || op.RemoveVote?)
    ensures OwesOnly(Apply(s, op), k, prior)
  {
  }

  lemma {:induction false} StepKeepsOwing(s: State, op: Op, k: Key, prior: PriorLock)
    requires Inv(s) && OwesOnly(s, k, prior) && !ActsFor(op, k)
    ensures OwesOnly(Apply(s, op), k, prior)
  {
    match op
    case Vote(_, _, _) => VotesKeepOwing(s, k, prior, op);
    case RemoveVote(_, _, _, _) => VotesKeepOwing(s, k, prior, op);
    case Delegate(who, target, asset, conviction, balance) =>
      DelegateKeepsOwing(s, k, prior, who, target, asset, conviction, balance);
    case Undelegate(who, asset) => UndelegateKeepsOwing(s, k, prior, who, asset);
    case UnlockFunds(who, asset) => assert OwesOnly(Unlock(s, who, asset), k, prior);
    case NextBlock(launched) => assert OwesOnly(BeginBlock(s, launched), k, prior);
    case _ =>
  }

  lemma {:induction false} RunKeepsOwing(s: State, ops: seq<Op>, k: Key, prior: PriorLock)
    requires Inv(s) && OwesOnly(s, k, prior)
    requires forall i :: 0 <= i < |ops| ==> !ActsFor(ops[i], k)
    ensures OwesOnly(Run(s, ops), k, prior)
  {
    if ops != [] {
      var n := |ops| - 1;
      RunKeepsOwing(s, ops[..n], k, prior);
      RunKeepsInv(s, ops[..n]);
      StepKeepsOwing(Run(s, ops[..n]), ops[n], k, prior);
    }
  }

  /** And no longer: an account that undelegates and then rests can unlock everything from
      exactly the block on at which the last of its prior locks ends. */
  lemma UndelegatedIsFreed(s: State, ops: seq<Op>, k: Key)
    requires Inv(s) && VotingAt(s.voting, k).Delegating?
    requires forall i :: 0 <= i < |ops| ==> !ActsFor(ops[i], k)
    ensures
      var v, t := VotingAt(s.voting, k), Run(Apply(s, Undelegate(k.0, k.1)), ops);
      var until := Max(v.prior.until, s.now + s.config.voteLockingPeriod * v.conviction.LockPeriods());
      At(Unlock(t, k.0, k.1).locks, k) == if t.now < until then Max(v.prior.amount, v.balance) else 0
  {
    var v, u := VotingAt(s.voting, k), Apply(s, Undelegate(k.0, k.1));
    var until := Max(v.prior.until, s.now + s.config.voteLockingPeriod * v.conviction.LockPeriods());
    var prior := PriorLock(until, Max(v.prior.amount, v.balance));
    StepKeepsInv(s, Undelegate(k.0, k.1));
    UndelegatingOwes(s, k);
    RunKeepsOwing(u, ops, k, prior);
    LargestVoteIsMax(map[], prior.Rejig(Run(u, ops).now).amount);
  }

  lemma UndelegatingOwes(s: State, k: Key)
    requires VotingAt(s.voting, k).Delegating?
    ensures
      var v := VotingAt(s.voting, k);
      var until := Max(v.prior.until, s.now + s.config.voteLockingPeriod * v.conviction.LockPeriods());
      OwesOnly(Apply(s, Undelegate(k.0, k.1)), k, PriorLock(until, Max(v.prior.amount, v.balance)))
  {
  }

  /** The same for a vote that is removed when its referendum is over, by its owner or by
      others: if it was the last vote of an account that then rests, everything can be
      unlocked from exactly the block on at which the last of its locks ends, and a vote that
      was split or lost has left none. */
  lemma RemovedVoteIsFreed(s: State, ops: seq<Op>, k: Key, r: nat, scope: UnvoteScope)
    requires Inv(s) && VotingAt(s.voting, k).Direct? && VotingAt(s.voting, k).votes.Keys == {r}
    requires r in s.referenda && s.referenda[r].Finished?
    requires TryRemoveVote(s, k.0, k.1, r, scope).Done?
    requires forall i :: 0 <= i < |ops| ==> !ActsFor(ops[i], k)
    ensures
      var v, info, t := VotingAt(s.voting, k), s.referenda[r], Run(Apply(s, RemoveVote(k.0, k.1, r, scope)), ops);
      var vote := v.votes[r];
      var won := vote.Standard? && vote.aye == info.approved;
      var end := if won then info.finishedAt + s.config.voteLockingPeriod * vote.conviction.LockPeriods() else 0;
      At(Unlock(t, k.0, k.1).locks, k) ==
        if s.now < end then (if t.now < Max(v.prior.until, end) then Max(v.prior.amount, vote.amount) else 0)
        else if t.now < v.prior.until then v.prior.amount else 0
  {
    var op := RemoveVote(k.0, k.1, r, scope);
    var u := Apply(s, op);
    var prior := VotingAt(u.voting, k).prior;
    StepKeepsInv(s, op);
    RemovingOwes(s, k, r, scope);
    RunKeepsOwing(u, ops, k, prior);
    LargestVoteIsMax(map[], prior.Rejig(Run(u, ops).now).amount);
  }

  lemma RemovingOwes(s: State, k: Key, r: nat, scope: UnvoteScope)
    requires VotingAt(s.voting, k).Direct? && VotingAt(s.voting, k).votes.Keys == {r}
    requires r in s.referenda && s.referenda[r].Finished?
    requires TryRemoveVote(s, k.0, k.1, r, scope).Done?
    ensures
      var v, info, u := VotingAt(s.voting, k), s.referenda[r], Apply(s, RemoveVote(k.0, k.1, r, scope));
      var vote := v.votes[r];
      var won := vote.Standard? && vote.aye == info.approved;
      var end := if won then info.finishedAt + s.config.voteLockingPeriod * vote.conviction.LockPeriods() else 0;
      && OwesOnly(u, k, VotingAt(u.voting, k).prior)
      && VotingAt(u.voting, k).prior ==
           if s.now < end then PriorLock(Max(v.prior.until, end), Max(v.prior.amount, vote.amount)) else v.prior
  {
    assert VotingAt(s.voting, k).votes - {r} == map[];
  }

  // ---------- what `unlock` does to a lock ----------

  /** `unlock` raises a lock exactly when a direct voter has an unexpired prior lock
      larger than the current one. */
  lemma UnlockRaisesIff(s: State, who: Account, asset: Asset)
    requires Inv(s)
    ensures
      var k := (who, asset);
      var v := VotingAt(s.voting, k);
      At(Unlock(s, who, asset).locks, k) > At(s.locks, k) <==>
        v.Direct? && s.now < v.prior.until && v.prior.amount > At(s.locks, k)
  {
    var k := (who, asset);
    var v := VotingAt(s.voting, k);
    assert SoundAt(s, k);
    if v.Direct? {
      LargestVoteIsMax(v.votes, v.prior.Rejig(s.now).amount);
    }
  }

  ghost predicate PriorWithinLock(s: State, k: Key) {
    VotingAt(s.voting, k).Direct? && VotingAt(s.voting, k).prior.amount <= At(s.locks, k)
  }

  lemma DelegateKeepsPrior(s: State, k: Key, who: Account, target: Account, asset: Asset, conviction: Conviction, balance: nat)
    requires PriorWithinLock(s, k) && (who, asset) != k
    ensures PriorWithinLock(Commit(s, TryDelegate(s, who, target, asset, conviction, balance)), k)
  {
    var j := (who, asset);
    if VotingAt(s.voting, j).Delegating? {
      assert PriorWithinLock(Detach(s, j), k);
    }
  }

  lemma RemoveVoteKeepsPrior(s: State, k: Key, who: Account, asset: Asset, r: nat, scope: UnvoteScope)
    requires Inv(s) && PriorWithinLock(s, k)
    ensures PriorWithinLock(Commit(s, TryRemoveVote(s, who, asset, r, scope)), k)
  {
    assert SoundAt(s, k);
  }

  lemma UnlockKeepsPrior(s: State, k: Key, who: Account, asset: Asset)
    requires PriorWithinLock(s, k)
    ensures PriorWithinLock(Unlock(s, who, asset), k)
  {
    LargestVoteIsMax(VotingAt(s.voting, k).votes, VotingAt(s.voting, k).prior.Rejig(s.now).amount);
  }

  lemma {:induction false} StepKeepsPriorWithinLock(s: State, op: Op, k: Key)
    requires Inv(s) && PriorWithinLock(s, k)
    requires !(op.Delegate? && (op.who, op.asset) == k)
    ensures PriorWithinLock(Apply(s, op), k)
  {
    match op
    case Vote(who, r, vote) =>
      assert PriorWithinLock(Commit(s, TryVote(s, who, r, vote)), k);
    case RemoveVote(who, asset, r, scope) => RemoveVoteKeepsPrior(s, k, who, asset, r, scope);
    case Delegate(who, target, asset, conviction, balance) =>
      DelegateKeepsPrior(s, k, who, target, asset, conviction, balance);
    case Undelegate(who, asset) =>
      assert PriorWithinLock(Commit(s, TryUndelegate(s, who, asset)), k);
    case UnlockFunds(who, asset) => UnlockKeepsPrior(s, k, who, asset);
    case NextBlock(launched) =>
      assert PriorWithinLock(BeginBlock(s, launched), k);
    case _ =>
  }

  /** For an account that never delegates, `unlock` never raises the lock. */
  lemma {:induction false} DirectVotersOnlyUnlock(s: State, ops: seq<Op>, k: Key)
    requires Genesis(s)
    requires forall i :: 0 <= i < |ops| ==> !(ops[i].Delegate? && (ops[i].who, ops[i].asset) == k)
    ensures
      var t := Run(s, ops);
      && PriorWithinLock(t, k)
      && At(Unlock(t, k.0, k.1).locks, k) <= At(t.locks, k)
  {
    GenesisHasInv(s);
    RunKeepsInv(s, ops);
    if ops != [] {
      var n := |ops| - 1;
      DirectVotersOnlyUnlock(s, ops[..n], k);
      RunKeepsInv(s, ops[..n]);
      StepKeepsPriorWithinLock(Run(s, ops[..n]), ops[n], k);
    }
    UnlockRaisesIff(Run(s, ops), k.0, k.1);
  }

  lemma RunOneMore(s: State, ops: seq<Op>, op: Op)
    ensures Run(s, ops + [op]) == Apply(Run(s, ops), op)
  {
    assert (ops + [op])[..|ops|] == ops;
  }

  lemma RunThree(s: State, a: Op, b: Op, c: Op)
    ensures Run(s, [a, b, c]) == Apply(Apply(Apply(s, a), b), c)
  {
    RunOneMore(s, [], a);
    RunOneMore(s, [a], b);
    RunOneMore(s, [a, b], c);
    assert [] + [a] == [a] && [a] + [b] == [a, b] && [a, b] + [c] == [a, b, c];
  }

  lemma {:induction false} RunConcat(s: State, a: seq<Op>, b: seq<Op>)
    ensures Run(s, a + b) == Run(Run(s, a), b)
  {
    if b == [] {
      assert a + b == a;
    } else {
      var n := |b| - 1;
      RunConcat(s, a, b[..n]);
      assert (a + b)[..|a + b| - 1] == a + b[..n];
    }
  }

  /** `k` has no votes, and holds this prior lock, lock and free balance. */
  ghost predicate IdleWith(s: State, k: Key, prior: PriorLock, lock: nat, free: nat) {
    && VotingAt(s.voting, k).Direct? && VotingAt(s.voting, k).votes == map[]
    && VotingAt(s.voting, k).prior == prior && At(s.locks, k) == lock && At(s.free, k) == free
  }

  /** `k` delegates a balance with single conviction, and holds this prior lock, lock and free balance. */
  ghost predicate DelegatesWith(s: State, k: Key, balance: nat, prior: PriorLock, lock: nat, free: nat) {
    && VotingAt(s.voting, k).Delegating? && VotingAt(s.voting, k).balance == balance
    && VotingAt(s.voting, k).conviction == Locked1x
    && VotingAt(s.voting, k).prior == prior && At(s.locks, k) == lock && At(s.free, k) == free
  }

  lemma IdleDelegates(s: State, k: Key, target: Account, balance: nat, prior: PriorLock, lock: nat, free: nat)
    requires IdleWith(s, k, prior, lock, free) && target != k.0 && balance <= free
    ensures
      var t := Commit(s, TryDelegate(s, k.0, target, k.1, Locked1x, balance));
      && DelegatesWith(t, k, balance, prior, Max(lock, balance), free)
      && t.now == s.now && t.config == s.config
  {
  }

  lemma DelegatorUnlocks(s: State, k: Key, balance: nat, prior: PriorLock, lock: nat, free: nat)
    requires DelegatesWith(s, k, balance, prior, lock, free) && prior.Rejig(s.now) == prior
    ensures
      var t := Unlock(s, k.0, k.1);
      DelegatesWith(t, k, balance, prior, balance, free) && t.now == s.now && t.config == s.config
  {
  }

  lemma DelegatorUndelegates(s: State, k: Key, balance: nat, prior: PriorLock, lock: nat, free: nat)
    requires DelegatesWith(s, k, balance, prior, lock, free)
    ensures
      var t := Commit(s, TryUndelegate(s, k.0, k.1));
      && IdleWith(t, k, prior.Accumulate(LockEnd(s.config, s.now, 1), balance), lock, free)
      && t.now == s.now && t.config == s.config
  {
  }

  /** Delegate, unlock, undelegate: the lock follows the delegation, the prior lock accumulates. */
  lemma DelegationRound(s: State, k: Key, target: Account, balance: nat, prior: PriorLock, lock: nat, free: nat)
    requires IdleWith(s, k, prior, lock, free) && target != k.0 && balance <= free
    requires prior.Rejig(s.now) == prior
    ensures
      var t := Run(s, [Delegate(k.0, target, k.1, Locked1x, balance), UnlockFunds(k.0, k.1), Undelegate(k.0, k.1)]);
      && IdleWith(t, k, prior.Accumulate(LockEnd(s.config, s.now, 1), balance), balance, free)
      && t.now == s.now && t.config == s.config
  {
    RunThree(s, Delegate(k.0, target, k.1, Locked1x, balance), UnlockFunds(k.0, k.1), Undelegate(k.0, k.1));
    IdleDelegates(s, k, target, balance, prior, lock, free);
    var s1 := Commit(s, TryDelegate(s, k.0, target, k.1, Locked1x, balance));
    DelegatorUnlocks(s1, k, balance, prior, Max(lock, balance), free);
    DelegatorUndelegates(Unlock(s1, k.0, k.1), k, balance, prior, balance, free);
  }

  lemma ExampleSupply(k: Key, amount: nat, asset: Asset)
    ensures Supply(map[k := amount], asset) == if asset == k.1 then amount else 0
  {
    var free := map[k := amount];
    var w := SupplyWeight(free, asset);
    assert free.Keys == {k};
    SumRemove({k}, w, k);
    SumZero({k} - {k}, w);
  }

  /** The condition of `UnlockRaisesIff` is reachable: the lock needed by a delegating
      account leaves its prior lock out, and undelegating brings it back. */
  lemma UnlockCanRaise() returns (g: State, ops: seq<Op>)
    ensures Genesis(g)
    ensures
      var t := Run(g, ops);
      At(t.locks, (1, 0)) == 10 && At(Unlock(t, 1, 0).locks, (1, 0)) == 100
  {
    var k: Key := (1, 0);
    g := State(Config(100, 5, 1, 1), map[], map[], 0, 0, map[], map[k := 100], map[0 := 100], 0);
    forall asset: Asset ensures Supply(g.free, asset) <= At(g.issuance, asset) {
      ExampleSupply(k, 100, asset);
    }
    var first := [Delegate(1, 2, 0, Locked1x, 100), UnlockFunds(1, 0), Undelegate(1, 0)];
    var second := [Delegate(1, 2, 0, Locked1x, 10), UnlockFunds(1, 0), Undelegate(1, 0)];
    ops := first + second;
    RunConcat(g, first, second);
    DelegationRound(g, k, 2, 100, NO_PRIOR, 0, 100);
    DelegationRound(Run(g, first), k, 2, 10, PriorLock(5, 100), 100, 100);
    LockOfIdle(Run(g, ops), k, PriorLock(5, 100), 10, 100);
  }

  lemma LockOfIdle(s: State, k: Key, prior: PriorLock, lock: nat, free: nat)
    requires IdleWith(s, k, prior, lock, free) && s.now < prior.until
    ensures At(Unlock(s, k.0, k.1).locks, k) == prior.amount
  {
    LargestVoteIsMax(map[], prior.amount);
  }
}
