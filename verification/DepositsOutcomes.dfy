/** What becomes of deposits, account by account: who pays, who gets back, who is slashed and
    who gains by it; and how long a veto lasts. */
module DepositsOutcomes {
  import opened Amounts
  import opened DemocracyTypes
  import opened DepositsSpec
  import opened DepositsTheorems
  import opened DepositsQueues

  /** One account has an amount put on hold. */
  predicate PutOnHold(l: Ledger, t: Ledger, who: Account, amount: nat, a: Account) {
    var own := if a == who then amount else 0;
    At(t.free, a) == At(l.free, a) - own && At(t.held, a) == At(l.held, a) + own
  }

  /** An amount on hold of one account becomes free for another, or the same. */
  predicate PaidFromHold(l: Ledger, t: Ledger, from: Account, to: Account, amount: nat, a: Account) {
    && At(t.free, a) == At(l.free, a) + (if a == to then amount else 0)
    && At(t.held, a) == At(l.held, a) - (if a == from then amount else 0)
  }

  // ---------- proposals ----------

  /** A proposal takes the next index, goes to the end of the queue with a deposit of its own,
      and holds the value of its proposer. */
  lemma ProposalIsQueued(s: State, who: Account, id: ProposalId, value: nat, a: Account)
    requires Propose(s, who, id, value).error.None?
    ensures
      var t := Propose(s, who, id, value).state;
      && value >= s.config.minimumDeposit && |s.props| < s.config.maxProposals
      && t.props == s.props + [Proposal(s.propCount, id, who)] && t.propCount == s.propCount + 1
      && t.deposits == s.deposits[s.propCount := Deposit([who], value)]
      && PutOnHold(s.ledger, t.ledger, who, value, a)
  {
  }

  /** It is taken exactly when it is worth the minimum, the queue has room, the id is not
      barred and the value is there. */
  lemma ProposalSucceedsIff(s: State, who: Account, id: ProposalId, value: nat)
    ensures Propose(s, who, id, value).error.None? <==>
      && s.config.minimumDeposit <= value <= At(s.ledger.free, who)
      && |s.props| < s.config.maxProposals
      && (id in s.blacklist ==> s.blacklist[id].until <= s.now)
  {
  }

  lemma SecondSucceedsIff(s: State, who: Account, index: PropIndex, bound: nat)
    ensures Second(s, who, index, bound).error.None? <==>
      index in s.deposits && |s.deposits[index].who| <= bound && s.deposits[index].amount <= At(s.ledger.free, who)
  {
  }

  /** A second joins the deposit with the same amount. */
  lemma SecondJoins(s: State, who: Account, index: PropIndex, bound: nat, a: Account)
    requires Second(s, who, index, bound).error.None?
    ensures
      var t := Second(s, who, index, bound).state;
      && index in s.deposits && index in t.deposits
      && |s.deposits[index].who| <= bound && t.deposits[index].who == s.deposits[index].who + [who]
      && t.deposits[index].amount == s.deposits[index].amount
      && PutOnHold(s.ledger, t.ledger, who, s.deposits[index].amount, a)
  {
  }

  /** The backing of a proposal is what its depositors hold for it together. */
  lemma BackingIsTotal(deposits: map<PropIndex, Deposit>, index: PropIndex)
    requires index in deposits
    ensures Backing(deposits, index) == Slashed(deposits[index].who, deposits[index].amount)
  {
    SlashedIs(deposits[index].who, deposits[index].amount);
  }

  lemma {:induction false} SlashedIs(who: seq<Account>, amount: nat)
    ensures Slashed(who, amount) == amount * |who|
  {
    if who != [] {
      SlashedIs(who[..|who| - 1], amount);
      assert amount * |who| == amount * (|who| - 1) + amount;
    }
  }

  /** Everybody in an entry loses its stake, and the treasury gains all of it. */
  ghost predicate IsSlashed(s: State, t: State, index: PropIndex, a: Account)
    requires index in s.deposits
  {
    var total := |s.deposits[index].who| * s.deposits[index].amount;
    && t.deposits == s.deposits - {index}
    && At(t.ledger.free, a) == At(s.ledger.free, a) + (if a == s.config.treasury then total else 0)
    && At(t.ledger.held, a) == At(s.ledger.held, a) - StakeIn(s.deposits, index, a)
  }

  lemma SlashingMoves(s: State, index: PropIndex, a: Account)
    requires Backed(s) && index in s.deposits
    ensures IsSlashed(s, SlashDeposit(s, index), index, a)
  {
    var d := s.deposits[index];
    EntryIsHeld(s, index);
    SlashAllIs(s.ledger, d.who, s.config.treasury, d.amount, a);
    SlashedIs(d.who, d.amount);
    assert d.amount * |d.who| == |d.who| * d.amount;
  }

  /** A cancellation removes this proposal from the queue and no other, and slashes its
      depositors. */
  lemma CancellationSlashes(s: State, index: PropIndex, a: Account, other: PropIndex)
    requires Inv(s) && index in s.deposits
    ensures IsSlashed(s, CancelProposal(s, index), index, a)
    ensures IsQueued(CancelProposal(s, index), other) <==> other != index && IsQueued(s, other)
  {
    var t := s.(props := Without(s.props, index));
    SlashingMoves(t, index, a);
    WithoutOnly(s.props, index, other);
    assert IsQueued(t, other) <==> Has(t.props, other);
    assert IsQueued(s, other) <==> Has(s.props, other);
  }

  predicate Has(props: seq<Proposal>, index: PropIndex) {
    exists i :: 0 <= i < |props| && props[i].index == index
  }

  lemma HasConcat(a: seq<Proposal>, b: seq<Proposal>, index: PropIndex)
    ensures Has(a + b, index) <==> Has(a, index) || Has(b, index)
  {
    if i :| 0 <= i < |a| && a[i].index == index {
      assert (a + b)[i].index == index;
    }
    if i :| 0 <= i < |b| && b[i].index == index {
      assert (a + b)[|a| + i].index == index;
    }
  }

  lemma {:induction false} WithoutOnly(props: seq<Proposal>, index: PropIndex, other: PropIndex)
    ensures Has(Without(props, index), other) <==> other != index && Has(props, other)
  {
    if props != [] {
      var before, last := props[..|props| - 1], [props[|props| - 1]];
      WithoutOnly(before, index, other);
      assert props == before + last;
      HasConcat(before, last, other);
      HasConcat(Without(before, index), if last[0].index == index then [] else last, other);
      assert Has(last, other) <==> last[0].index == other;
    }
  }

  /** The proposal tabled leaves the queue; the last one takes its place, and the others keep theirs. */
  lemma LaunchReorders(s: State, i: nat)
    requires s.props != []
    ensures
      var t, n, last := LaunchPublic(s).state, Best(s.props, s.deposits, |s.props|), |s.props| - 1;
      && |t.props| == last
      && (i < last ==> t.props[i] == s.props[if i == n then last else i])
      && t.propCount == s.propCount && t.preimages == s.preimages && t.blacklist == s.blacklist
  {
  }

  /** A blacklisting slashes the depositors of the first queued proposal with that id, or
      nobody; it bars the id until the last block and takes it off the external queue. */
  lemma BlacklistingSlashes(s: State, id: ProposalId, a: Account)
    requires Inv(s)
    ensures
      var t, n := BlacklistProposal(s, id), Position(s.props, id);
      && (if n < |s.props| then IsSlashed(s, t, s.props[n].index, a) else t.ledger == s.ledger && t.deposits == s.deposits)
      && (s.now < 0xFFFF_FFFF ==> Barred(t, id))
      && (t.external.Some? ==> t.external == s.external && t.external.value.id != id)
  {
    var n := Position(s.props, id);
    if n < |s.props| {
      var u := s.(blacklist := s.blacklist[id := Vetoed(MAX_BLOCK, {})], props := s.props[..n] + s.props[n + 1..]);
      SlashingMoves(u, s.props[n].index, a);
    }
  }

  // ---------- preimages ----------

  /** Noting holds the deposit for every byte, up to the largest balance. */
  lemma NotingHolds(s: State, who: Account, id: ProposalId, size: nat, a: Account)
    requires NotePreimage(s, who, id, size).error.None?
    ensures
      var t, deposit := NotePreimage(s, who, id, size).state, Min(size * s.config.byteDeposit, MAX_BALANCE);
      && id !in s.preimages && id in t.preimages
      && t.preimages[id] == Available(size, who, deposit, s.now, None)
      && PutOnHold(s.ledger, t.ledger, who, deposit, a)
  {
  }

  /** An imminent preimage costs nothing, and keeps the date it is needed at. */
  lemma NotingImminentIsFree(s: State, who: Account, id: ProposalId, size: nat)
    requires NoteImminentPreimage(s, who, id, size).error.None?
    ensures
      var t := NoteImminentPreimage(s, who, id, size).state;
      && t.ledger == s.ledger
      && id in s.preimages && s.preimages[id].Missing? && id in t.preimages
      && t.preimages[id] == Available(size, who, 0, s.now, Some(s.preimages[id].until))
  {
  }

  /** A preimage can be reaped when its size is named, when it has been there for a voting
      period, for anybody but its provider an enactment period more, and when it is not
      needed any more. */
  lemma ReapingSucceedsIff(s: State, who: Account, id: ProposalId, bound: nat)
    ensures ReapPreimage(s, who, id, bound).error.None? <==>
      && id in s.preimages && s.preimages[id].Available?
      && var p := s.preimages[id];
         && p.size <= bound
         && p.since + s.config.votingPeriod <= s.now
         && (who != p.provider ==> p.since + s.config.votingPeriod + s.config.enactmentPeriod <= s.now)
         && (p.expiry.Some? ==> p.expiry.value < s.now)
  {
  }

  /** Whoever reaps gets the provider's deposit. */
  lemma ReapingPays(s: State, who: Account, id: ProposalId, bound: nat, a: Account)
    requires Inv(s) && ReapPreimage(s, who, id, bound).error.None?
    ensures
      var t, p := ReapPreimage(s, who, id, bound).state, s.preimages[id];
      && t.preimages == s.preimages - {id}
      && PaidFromHold(s.ledger, t.ledger, p.provider, who, p.deposit, a)
  {
    PreimageIsHeld(s, id);
  }

  /** Using a preimage gives its provider the deposit back if it decodes, and gives it to the
      treasury if it does not. */
  lemma EnactingPays(s: State, id: ProposalId, decodes: bool, registered: bool, a: Account)
    requires Inv(s) && id in s.preimages && s.preimages[id].Available?
    ensures
      var o, p := EnactProposal(s, id, decodes, registered), s.preimages[id];
      var payee := if decodes then p.provider else s.config.treasury;
      && (o.error.None? <==> decodes && registered)
      && o.state.preimages == s.preimages - {id}
      && PaidFromHold(s.ledger, o.state.ledger, p.provider, payee, p.deposit, a)
  {
    PreimageIsHeld(s, id);
  }

  // ---------- the external queue ----------

  /** An external proposal by simple origins waits for a super-majority; it is taken exactly
      when nothing waits and it is not barred. */
  lemma ExternalSucceedsIff(s: State, id: ProposalId)
    ensures
      var o := ExternalPropose(s, id);
      && (o.error.None? <==> s.external.None? && (id in s.blacklist ==> s.blacklist[id].until <= s.now))
      && (o.error.None? ==> o.state.external == Some(External(id, SuperMajorityApprove)))
  {
  }

  /** What the other external origins put forward replaces what waits, barred or not, and is what
      the next launch in turn tables, under their threshold. */
  lemma ReplacementIsTabled(s: State, id: ProposalId, threshold: VoteThreshold)
    ensures
      var t := ExternalReplace(s, id, threshold);
      && t.ledger == s.ledger && t.props == s.props && t.blacklist == s.blacklist
      && (s.props == [] || !s.lastWasExternal ==>
            NextTabled(t) == Some(External(id, threshold)) && LaunchNext(t).state.external.None?)
  {
  }

  /** A fast track takes what waits exactly when it has the same hash, whatever its asset, and
      did not come from the simple origins. */
  lemma FastTrackSucceedsIff(s: State, id: ProposalId)
    ensures
      var o := FastTrack(s, id);
      && (o.error.None? <==>
           s.external.Some? && s.external.value.id.hash == id.hash && s.external.value.threshold != SuperMajorityApprove)
      && o.state.external == if o.error.None? then None else s.external
  {
  }

  /** A veto takes what waits off the queue exactly when it names it and comes from somebody
      who has not vetoed it before. */
  lemma VetoSucceedsIff(s: State, who: Account, id: ProposalId)
    ensures
      var o := VetoExternal(s, who, id);
      && (o.error.None? <==>
           s.external.Some? && s.external.value.id == id && (id in s.blacklist ==> who !in s.blacklist[id].vetoers))
      && (o.error.None? ==>
           && o.state.external.None? && id in o.state.blacklist
           && o.state.blacklist[id].until == s.now + s.config.cooloffPeriod
           && (forall other :: other in o.state.blacklist[id].vetoers <==>
                other == who || (id in s.blacklist && other in s.blacklist[id].vetoers)))
  {
  }

  // ---------- vetoes ----------

  /** The id is out until a block, and these are among those who vetoed it. */
  predicate VetoedUntil(s: State, id: ProposalId, until: Block) {
    id in s.blacklist && s.blacklist[id].until >= until
  }

  lemma ExternalStepKeepsVeto(s: State, op: Op, id: ProposalId, until: Block)
    requires OfExternals(op) && VetoedUntil(s, id, until) && until <= s.now + s.config.cooloffPeriod
    ensures VetoedUntil(Apply(s, op), id, until)
    ensures Apply(s, op).now == s.now && Apply(s, op).config == s.config
  {
    ExternalsAside(s, op);
  }

  lemma RemovalsKeepVeto(s: State, op: Op, id: ProposalId, until: Block)
    requires op.OpCancel? || op.OpBlacklist?
    requires VetoedUntil(s, id, until) && until <= MAX_BLOCK
    ensures VetoedUntil(Apply(s, op), id, until)
    ensures Apply(s, op).now == s.now && Apply(s, op).config == s.config
  {
    RemovalsKeepPreimages(s, op);
  }

  lemma LaunchesKeepVeto(s: State)
    ensures LaunchPublic(s).state.blacklist == s.blacklist && LaunchNext(s).state.blacklist == s.blacklist
  {
  }

  lemma PreimagesKeepVeto(s: State, op: Op)
    requires OfPreimages(op)
    ensures Apply(s, op).blacklist == s.blacklist
  {
  }

  lemma StepKeepsVeto(s: State, op: Op, id: ProposalId, until: Block)
    requires VetoedUntil(s, id, until) && until <= MAX_BLOCK && until <= s.now + s.config.cooloffPeriod
    ensures VetoedUntil(Apply(s, op), id, until)
    ensures Apply(s, op).now >= s.now && Apply(s, op).config == s.config
  {
    if OfExternals(op) {
      ExternalStepKeepsVeto(s, op, id, until);
    } else if OfPreimages(op) {
      PreimagesKeepClock(s, op);
      PreimagesKeepVeto(s, op);
    } else if op.OpCancel? || op.OpBlacklist? {
      RemovalsKeepVeto(s, op, id, until);
    } else if op.OpLaunch? || op.OpLaunchNext? {
      LaunchesKeepPreimages(s);
      LaunchesKeepVeto(s);
    }
  }

  lemma {:induction false} RunKeepsVeto(s: State, ops: seq<Op>, id: ProposalId, until: Block)
    requires VetoedUntil(s, id, until) && until <= MAX_BLOCK && until <= s.now + s.config.cooloffPeriod
    ensures VetoedUntil(Run(s, ops), id, until)
    ensures Run(s, ops).now >= s.now && Run(s, ops).config == s.config
  {
    if ops != [] {
      RunKeepsVeto(s, ops[..|ops| - 1], id, until);
      StepKeepsVeto(Run(s, ops[..|ops| - 1]), ops[|ops| - 1], id, until);
    }
  }

  /** A vetoed proposal is off the external queue, and for the whole cooling-off period can come
      back neither that way nor as a public proposal, whatever else happens. */
  lemma VetoLasts(s: State, who: Account, id: ProposalId, ops: seq<Op>)
    requires VetoExternal(s, who, id).error.None? && s.now + s.config.cooloffPeriod <= MAX_BLOCK
    ensures
      var u := VetoExternal(s, who, id).state;
      var t := Run(u, ops);
      && u.external.None?
      && (t.now < s.now + s.config.cooloffPeriod ==>
            ExternalPropose(t, id).error.Some? && forall a, value :: Propose(t, a, id, value).error.Some?)
  {
    RunKeepsVeto(VetoExternal(s, who, id).state, ops, id, s.now + s.config.cooloffPeriod);
  }

  /** Vetoing this id, or blacklisting it. */
  predicate Bars(op: Op, id: ProposalId) {
    (op.OpVeto? && op.id == id) || (op.OpBlacklist? && op.id == id)
  }

  lemma StepKeepsBar(s: State, op: Op, id: ProposalId)
    requires id in s.blacklist && !Bars(op, id)
    ensures id in Apply(s, op).blacklist && Apply(s, op).blacklist[id].until == s.blacklist[id].until
  {
    if OfPreimages(op) {
      PreimagesKeepVeto(s, op);
    } else if op.OpLaunch? || op.OpLaunchNext? {
      LaunchesKeepVeto(s);
    }
  }

  lemma {:induction false} RunKeepsBar(s: State, ops: seq<Op>, id: ProposalId)
    requires id in s.blacklist && forall i :: 0 <= i < |ops| ==> !Bars(ops[i], id)
    ensures id in Run(s, ops).blacklist && Run(s, ops).blacklist[id].until == s.blacklist[id].until
  {
    if ops != [] {
      RunKeepsBar(s, ops[..|ops| - 1], id);
      StepKeepsBar(Run(s, ops[..|ops| - 1]), ops[|ops| - 1], id);
    }
  }

  /** And no longer: if nobody bars it again, it can come back from exactly the end of the
      cooling-off period on. */
  lemma VetoEnds(s: State, who: Account, id: ProposalId, ops: seq<Op>)
    requires VetoExternal(s, who, id).error.None?
    requires forall i :: 0 <= i < |ops| ==> !Bars(ops[i], id)
    ensures
      var t := Run(VetoExternal(s, who, id).state, ops);
      Barred(t, id) <==> t.now < s.now + s.config.cooloffPeriod
  {
    RunKeepsBar(VetoExternal(s, who, id).state, ops, id);
  }
}
