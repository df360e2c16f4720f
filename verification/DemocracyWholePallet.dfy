/** The calls that concern both halves of the pallet's storage. */
module DemocracyWholePallet {
  import opened Amounts
  import opened DemocracyTypes
  import Voting = DemocracySpec
  import Queue = DepositsSpec
  import DemocracyPallet
  import DepositsPallet
  import opened DemocracyWhole

  class Democracy {
    const launchPeriod: Period
    const voting: DemocracyPallet.Pallet
    const queue: DepositsPallet.Pallet
    var proposalOf: map<nat, ProposalId>

    ghost function View(): State
      reads this, voting, queue
    {
      State(launchPeriod, voting.View(), queue.View(), proposalOf)
    }

    ghost predicate Valid()
      reads this, voting, queue
    {
      voting.Valid() && queue.Valid() && Linked(View())
    }

    constructor (launchPeriod: Period, voting: DemocracyPallet.Pallet, queue: DepositsPallet.Pallet)
      requires voting.Valid() && queue.Valid() && voting.referendumInfoOf == map[] && voting.now == queue.now
      requires voting.config.votingPeriod == queue.config.votingPeriod
      requires voting.config.enactmentPeriod == queue.config.enactmentPeriod
      ensures this.voting == voting && this.queue == queue
      ensures Valid() && View() == State(launchPeriod, voting.View(), queue.View(), map[])
    {
      this.launchPeriod, this.voting, this.queue, proposalOf := launchPeriod, voting, queue, map[];
    }

    method DoFastTrack(id: ProposalId, period: nat, delay: Block) returns (error: Option<Queue.Error>)
      requires Valid()
      modifies this, voting, queue
      ensures Valid() && View() == FastTrack(old(View()), id, period, delay)
      ensures error == Queue.FastTrack(old(View()).queue, id).error
    {
      FastTrackKeepsLinked(View(), id, period, delay);
      var external := queue.nextExternal;
      error := queue.DoFastTrack(id);
      if error.None? {
        var r := voting.InjectReferendum(period, id.asset, external.value.threshold, delay);
        proposalOf := proposalOf[r := id];
      }
    }

    method DoBlacklist(id: ProposalId, index: Option<nat>)
      requires Valid()
      modifies this, voting, queue
      ensures Valid() && View() == Blacklist(old(View()), id, index)
    {
      BlacklistKeepsLinked(View(), id, index);
      queue.DoBlacklist(id);
      if index.Some? {
        var r := index.value;
        if r in voting.referendumInfoOf && voting.referendumInfoOf[r].Ongoing? && r in proposalOf && proposalOf[r] == id {
          voting.CancelReferendum(r);
        }
      }
    }

    /** The clock and the launch of a block, as far as the queue is concerned. */
    method Launch() returns (tabled: Option<Queue.External>)
      requires queue.Valid() && voting.now == queue.now
      modifies queue
      ensures queue.Valid() && queue.View() == Launched(old(View())) && tabled == Tabled(old(View()))
    {
      queue.Tick();
      tabled := None;
      if queue.now % launchPeriod == 0 {
        var error: Option<Queue.Error>;
        error, tabled := queue.DoLaunchNext();
      }
    }

    /** What the referenda that pass do with their preimages. */
    method UsePreimages(before: map<nat, ReferendumInfo>, after: map<nat, ReferendumInfo>, from: nat, to: nat, now: Block, world: World)
      requires queue.Valid() && from <= to
      modifies queue
      ensures queue.Valid()
      ensures queue.View() == Decided(old(queue.View()), proposalOf, before, after, from, to, now, world)
    {
      for r := from to to
        invariant queue.Valid()
        invariant queue.View() == Decided(old(queue.View()), proposalOf, before, after, from, r, now, world)
      {
        if Passes(before, after, r, now) && r in proposalOf {
          var id, delay := proposalOf[r], before[r].status.delay;
          if delay == 0 {
            var _ := queue.DoEnactProposal(id, id in world.decodes, id.asset in world.registered);
          } else {
            queue.DoAwaitPreimage(id, now + delay);
          }
        }
      }
    }

    method DoBeginBlock(world: World)
      requires Valid()
      modifies this, voting, queue
      ensures Valid() && View() == BeginBlock(old(View()), world)
    {
      BlockKeepsLinked(View(), world);
      EnterBlock(world);
    }

    /** The block, without what it keeps of the links between the halves. */
    method EnterBlock(world: World)
      requires voting.Valid() && queue.Valid() && voting.now == queue.now
      modifies this, voting, queue
      ensures voting.Valid() && queue.Valid() && View() == BeginBlock(old(View()), world)
    {
      var from, to, before := voting.lowestUnbaked, voting.referendumCount, voting.referendumInfoOf;
      var tabled := Launch();
      assert voting.View() == old(voting.View());
      voting.BeginBlock(AsTabled(tabled));
      assert voting.View() == Voting.Apply(old(voting.View()), Voting.NextBlock(AsTabled(tabled)));
      UsePreimages(before, voting.referendumInfoOf, from, to, voting.now, world);
      if tabled.Some? {
        proposalOf := proposalOf[to := tabled.value.id];
      }
    }
  }
}
