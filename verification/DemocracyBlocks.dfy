/** What a block of the whole pallet does: every launch period something is tabled and becomes a
    referendum, and each referendum that passes uses its preimage, now or at its date. */
module DemocracyBlocks {
  import opened Amounts
  import opened DemocracyTypes
  import opened DemocracyWhole
  import Voting = DemocracySpec
  import VotingRuns = DemocracyRuns
  import VotingInvariant = DemocracyInvariant
  import Queue = DepositsSpec
  import QueueTheorems = DepositsTheorems

  // ---------- what is tabled becomes a referendum ----------

  /** In every block whose number is a multiple of the launch period, and in no other, what the
      queues yield becomes the next referendum: on its own asset and threshold, for a voting
      period, with the enactment period for a delay, and with nothing counted yet. */
  lemma TabledIsStarted(s: State, world: World)
    requires Voting.Inv(s.voting)
    ensures
      var t, r := BeginBlock(s, world), s.voting.count;
      var due := (s.voting.now + 1) % s.launchPeriod == 0;
      var tabled := if due then Queue.NextTabled(s.queue.(now := s.queue.now + 1)) else None;
      && (tabled.None? ==> t.voting.count == r && r !in t.voting.referenda)
      && (tabled.Some? ==>
           && t.voting.count == r + 1 && r in t.voting.referenda && r in t.proposalOf && t.proposalOf[r] == tabled.value.id
           && t.voting.referenda[r] ==
                Ongoing(Status(t.voting.now + s.voting.config.votingPeriod, tabled.value.id.asset, tabled.value.threshold,
                               s.voting.config.enactmentPeriod, Tally(0, 0, 0))))
  {
    var tabled := AsTabled(Tabled(s));
    var v := Voting.BeginBlock(s.voting, tabled);
    assert s.voting.count !in s.voting.referenda;
    if tabled.Some? {
      VotingRuns.LaunchedReferendum(s.voting, tabled, s.voting.count);
    }
  }

  /** A fast track takes what waits externally and starts a referendum on the asset of the call,
      for the period and with the delay of the call. */
  lemma FastTrackStarts(s: State, id: ProposalId, period: nat, delay: Block)
    requires Voting.Inv(s.voting)
    requires s.queue.external.Some? && s.queue.external.value.id.hash == id.hash
    requires s.queue.external.value.threshold != SuperMajorityApprove
    ensures
      var t, r := FastTrack(s, id, period, delay), s.voting.count;
      && t.queue == s.queue.(external := None)
      && r in t.voting.referenda && r in t.proposalOf && t.proposalOf[r] == id
      && t.voting.referenda[r] ==
           Ongoing(Status(s.voting.now + period, id.asset, s.queue.external.value.threshold, delay, Tally(0, 0, 0)))
  {
  }

  /** A blacklisting cancels the referendum named if and only if it is an ongoing one on that
      proposal, and no other referendum. */
  lemma BlacklistingCancels(s: State, id: ProposalId, index: Option<nat>, r: nat)
    ensures
      var t := Blacklist(s, id, index);
      var about := index == Some(r) && Voting.IsOngoing(s.voting.referenda, r) && r in s.proposalOf && s.proposalOf[r] == id;
      && (r in t.voting.referenda <==> r in s.voting.referenda && !about)
      && (r in t.voting.referenda ==> t.voting.referenda[r] == s.voting.referenda[r])
      && t.voting.voting == s.voting.voting && t.voting.locks == s.voting.locks && t.proposalOf == s.proposalOf
  {
  }

  // ---------- what passes uses its preimage ----------

  /** The referendum ends in this block, and is approved. */
  predicate PassesIn(s: State, t: State, r: nat) {
    && Voting.IsOngoing(s.voting.referenda, r) && s.voting.referenda[r].status.end == s.voting.now + 1
    && r in t.voting.referenda && t.voting.referenda[r] == Finished(true, s.voting.now + 1)
  }

  lemma PassesIff(s: State, world: World, r: nat)
    requires Voting.Inv(s.voting)
    ensures
      var t := BeginBlock(s, world);
      && (Passes(s.voting.referenda, t.voting.referenda, r, t.voting.now) <==> PassesIn(s, t, r))
      && (PassesIn(s, t, r) ==> s.voting.lowestUnbaked <= r < s.voting.count)
  {
    if r in s.voting.referenda {
      VotingRuns.BlockStep(s.voting, AsTabled(Tabled(s)), r);
    }
  }

  /** The preimage is used up, or kept for the date. */
  predicate IsUsed(q: Queue.State, id: ProposalId, delay: Block, now: Block) {
    if delay == 0 then id !in q.preimages
    else
      && id in q.preimages
      && match q.preimages[id]
         case Missing(until) => until == now + delay
         case Available(_, _, _, _, expiry) => expiry == Some(now + delay)
  }

  lemma PassedUses(q: Queue.State, id: ProposalId, delay: Block, now: Block, world: World)
    ensures IsUsed(Passed(q, id, delay, now, world), id, delay, now)
  {
  }

  lemma PassedSparesOthers(q: Queue.State, id: ProposalId, delay: Block, now: Block, world: World, other: ProposalId)
    requires other != id
    ensures
      var t := Passed(q, id, delay, now, world);
      (other in t.preimages <==> other in q.preimages) && (other in q.preimages ==> t.preimages[other] == q.preimages[other])
  {
  }

  lemma {:induction false} DecidedUses(q: Queue.State, proposalOf: map<nat, ProposalId>, before: Voting.Referenda,
                                       after: Voting.Referenda, from: nat, to: nat, now: Block, world: World, r: nat)
    requires from <= r < to && Passes(before, after, r, now) && r in proposalOf
    requires forall j :: from <= j < to && j != r && Passes(before, after, j, now) && j in proposalOf ==>
      proposalOf[j] != proposalOf[r]
    ensures IsUsed(Decided(q, proposalOf, before, after, from, to, now, world), proposalOf[r], before[r].status.delay, now)
    decreases if from < to then to else 0
  {
    var rest := Decided(q, proposalOf, before, after, from, to - 1, now, world);
    if r == to - 1 {
      PassedUses(rest, proposalOf[r], before[r].status.delay, now, world);
    } else {
      DecidedUses(q, proposalOf, before, after, from, to - 1, now, world, r);
      if Passes(before, after, to - 1, now) && to - 1 in proposalOf {
        PassedSparesOthers(rest, proposalOf[to - 1], before[to - 1].status.delay, now, world, proposalOf[r]);
      }
    }
  }

  /** A referendum that passes without a delay uses up its preimage in that block; one with a
      delay has it awaited at exactly its date, noted or not: unless another referendum on the
      same proposal passes in the same block. */
  lemma PassedPreimageIsUsed(s: State, world: World, r: nat)
    requires Voting.Inv(s.voting) && Linked(s)
    requires PassesIn(s, BeginBlock(s, world), r)
    requires forall j :: PassesIn(s, BeginBlock(s, world), j) && j != r && j in s.proposalOf ==> s.proposalOf[j] != s.proposalOf[r]
    ensures IsUsed(BeginBlock(s, world).queue, s.proposalOf[r], s.voting.referenda[r].status.delay, s.voting.now + 1)
  {
    var t := BeginBlock(s, world);
    PassesIff(s, world, r);
    forall j | Passes(s.voting.referenda, t.voting.referenda, j, t.voting.now) && j != r && j in s.proposalOf
      ensures s.proposalOf[j] != s.proposalOf[r]
    {
      PassesIff(s, world, j);
    }
    DecidedUses(Launched(s), s.proposalOf, s.voting.referenda, t.voting.referenda,
                s.voting.lowestUnbaked, s.voting.count, t.voting.now, world, r);
  }

  lemma {:induction false} NothingDecided(q: Queue.State, proposalOf: map<nat, ProposalId>, before: Voting.Referenda,
                                          after: Voting.Referenda, from: nat, to: nat, now: Block, world: World)
    requires forall j :: from <= j < to ==> !Passes(before, after, j, now)
    ensures Decided(q, proposalOf, before, after, from, to, now, world) == q
    decreases if from < to then to else 0
  {
    if from < to {
      NothingDecided(q, proposalOf, before, after, from, to - 1, now, world);
    }
  }

  lemma {:induction false} OneDecided(q: Queue.State, proposalOf: map<nat, ProposalId>, before: Voting.Referenda,
                                      after: Voting.Referenda, from: nat, to: nat, now: Block, world: World, r: nat)
    requires from <= r < to && Passes(before, after, r, now) && r in proposalOf
    requires forall j :: from <= j < to && j != r ==> !Passes(before, after, j, now)
    ensures Decided(q, proposalOf, before, after, from, to, now, world)
      == Passed(q, proposalOf[r], before[r].status.delay, now, world)
    decreases if from < to then to else 0
  {
    if r == to - 1 {
      NothingDecided(q, proposalOf, before, after, from, to - 1, now, world);
    } else {
      OneDecided(q, proposalOf, before, after, from, to - 1, now, world, r);
    }
  }

  lemma OnlyOneDecided(s: State, world: World, r: nat)
    requires Voting.Inv(s.voting) && Linked(s)
    requires PassesIn(s, BeginBlock(s, world), r)
    requires forall j :: PassesIn(s, BeginBlock(s, world), j) ==> j == r
    ensures BeginBlock(s, world).queue
      == Passed(Launched(s), s.proposalOf[r], s.voting.referenda[r].status.delay, s.voting.now + 1, world)
  {
    var t := BeginBlock(s, world);
    PassesIff(s, world, r);
    forall j | j != r
      ensures !Passes(s.voting.referenda, t.voting.referenda, j, t.voting.now)
    {
      PassesIff(s, world, j);
    }
    OneDecided(Launched(s), s.proposalOf, s.voting.referenda, t.voting.referenda,
               s.voting.lowestUnbaked, s.voting.count, t.voting.now, world, r);
  }

  lemma PassedIs(q: Queue.State, id: ProposalId, delay: Block, now: Block, world: World)
    ensures Passed(q, id, delay, now, world) ==
      if delay == 0 then Queue.EnactProposal(q, id, id in world.decodes, id.asset in world.registered).state
      else Queue.AwaitPreimage(q, id, now + delay)
  {
  }

  /** Where one referendum alone passes, the block does exactly this to the deposits: the
      preimage is enacted, or awaited at its date, after the launch if one is due. */
  lemma OnePasses(s: State, world: World, r: nat)
    requires Voting.Inv(s.voting) && Linked(s)
    requires PassesIn(s, BeginBlock(s, world), r)
    requires forall j :: PassesIn(s, BeginBlock(s, world), j) ==> j == r
    ensures
      var ticked := Ticked(s.queue);
      var launched := if (s.voting.now + 1) % s.launchPeriod == 0 then Queue.LaunchNext(ticked).state else ticked;
      var id, delay := s.proposalOf[r], s.voting.referenda[r].status.delay;
      BeginBlock(s, world).queue ==
        if delay == 0 then Queue.EnactProposal(launched, id, id in world.decodes, id.asset in world.registered).state
        else Queue.AwaitPreimage(launched, id, s.voting.now + 1 + delay)
  {
    OnlyOneDecided(s, world, r);
    PassedIs(Launched(s), s.proposalOf[r], s.voting.referenda[r].status.delay, s.voting.now + 1, world);
  }
}
