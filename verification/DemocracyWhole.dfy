/** The democracy pallet as a whole: the queues of proposals feed referenda, and referenda
    that pass use the preimages. Every run is a run of the voting machine and a run of the
    deposit machine at once, so what holds of those holds here. */
module DemocracyWhole {
  import opened Amounts
  import opened DemocracyTypes
  import Voting = DemocracySpec
  import VotingInvariant = DemocracyInvariant
  import VotingRuns = DemocracyRuns
  import VotingTheorems = DemocracyTheorems
  import Queue = DepositsSpec
  import QueueTheorems = DepositsTheorems
  import QueueTurns = DepositsQueues

  type ProposalId = Queue.ProposalId
  type Period = n: nat | n > 0 witness 1

  /** The proposal behind each referendum is kept with it. */
  datatype State = State(
    launchPeriod: Period,
    voting: Voting.State,
    queue: Queue.State,
    proposalOf: map<nat, ProposalId>)

  /** What is outside the pallet: which preimages decode, and which assets have an origin to
      dispatch with. */
  datatype World = World(decodes: set<ProposalId>, registered: set<Asset>)

  // ---------- calls that concern both ----------

  function FastTrack(s: State, id: ProposalId, period: nat, delay: Block): State {
    var o := Queue.FastTrack(s.queue, id);
    if o.error.Some? then s
    else
      s.(queue := o.state,
         voting := Voting.Start(s.voting, period, id.asset, s.queue.external.value.threshold, delay),
         proposalOf := s.proposalOf[s.voting.count := id])
  }

  /** Also cancels the referendum named, if it is an ongoing one on this proposal. */
  function Blacklist(s: State, id: ProposalId, index: Option<nat>): State {
    var t := s.(queue := Queue.BlacklistProposal(s.queue, id));
    if index.Some? && IsAbout(s, index.value, id) then t.(voting := Voting.Cancel(s.voting, index.value)) else t
  }

  predicate IsAbout(s: State, r: nat, id: ProposalId) {
    Voting.IsOngoing(s.voting.referenda, r) && r in s.proposalOf && s.proposalOf[r] == id
  }

  // ---------- blocks ----------

  predicate LaunchIsDue(s: State) {
    (s.voting.now + 1) % s.launchPeriod == 0
  }

  function Ticked(q: Queue.State): Queue.State {
    q.(now := q.now + 1)
  }

  function Tabled(s: State): Option<Queue.External> {
    if LaunchIsDue(s) then Queue.NextTabled(Ticked(s.queue)) else None
  }

  function AsTabled(e: Option<Queue.External>): Option<Voting.Tabled> {
    match e
    case None => None
    case Some(e) => Some(Voting.Tabled(e.id.asset, e.threshold))
  }

  /** What passing does with the preimage: use it now, or see that it is there in time. */
  function Passed(q: Queue.State, id: ProposalId, delay: Block, now: Block, world: World): Queue.State {
    if delay == 0 then Queue.EnactProposal(q, id, id in world.decodes, id.asset in world.registered).state
    else Queue.AwaitPreimage(q, id, now + delay)
  }

  /** Whether a referendum passes in this block. */
  predicate Passes(before: Voting.Referenda, after: Voting.Referenda, r: nat, now: Block) {
    && Voting.IsOngoing(before, r) && before[r].status.end == now
    && r in after && after[r].Finished? && after[r].approved
  }

  /** The queue after the referenda of a range have been decided, in rising order. */
  function Decided(q: Queue.State, proposalOf: map<nat, ProposalId>, before: Voting.Referenda, after: Voting.Referenda,
                   from: nat, to: nat, now: Block, world: World): Queue.State
  {
    if to <= from then q
    else
      var rest := Decided(q, proposalOf, before, after, from, to - 1, now, world);
      if Passes(before, after, to - 1, now) && to - 1 in proposalOf
      then Passed(rest, proposalOf[to - 1], before[to - 1].status.delay, now, world)
      else rest
  }

  ghost function BeginBlock(s: State, world: World): State {
    var voting := Voting.Apply(s.voting, Voting.NextBlock(AsTabled(Tabled(s))));
    s.(voting := voting,
       queue := Decided(Launched(s), s.proposalOf, s.voting.referenda, voting.referenda,
                        s.voting.lowestUnbaked, s.voting.count, voting.now, world),
       proposalOf := if Tabled(s).Some? then s.proposalOf[s.voting.count := Tabled(s).value.id] else s.proposalOf)
  }

  // ---------- runs ----------

  datatype Op =
    | OpVoting(voting: Voting.Op)
    | OpQueue(queue: Queue.Op)
    | OpFastTrack(id: ProposalId, period: nat, delay: Block)
    | OpBlacklist(id: ProposalId, index: Option<nat>)
    | OpBlock(world: World)

  /** Starting referenda and passing blocks are not calls of their own. */
  predicate IsVotingCall(op: Voting.Op) {
    !op.StartReferendum? && !op.NextBlock?
  }

  predicate IsQueueCall(op: Queue.Op) {
    !op.OpLaunch? && !op.OpLaunchNext? && !op.OpFastTrack? && !op.OpAwait? && !op.OpBlocks? && !op.OpBlacklist?
  }

  ghost function Apply(s: State, op: Op): State {
    match op
    case OpVoting(v) => if IsVotingCall(v) then s.(voting := Voting.Apply(s.voting, v)) else s
    case OpQueue(q) => if IsQueueCall(q) then s.(queue := Queue.Apply(s.queue, q)) else s
    case OpFastTrack(id, period, delay) => FastTrack(s, id, period, delay)
    case OpBlacklist(id, index) => Blacklist(s, id, index)
    case OpBlock(world) => BeginBlock(s, world)
  }

  ghost function Run(s: State, ops: seq<Op>): State {
    if ops == [] then s else Apply(Run(s, ops[..|ops| - 1]), ops[|ops| - 1])
  }

  ghost predicate Genesis(s: State) {
    && Voting.Genesis(s.voting) && Queue.Genesis(s.queue) && s.proposalOf == map[]
    && s.voting.now == s.queue.now && SameConfig(s)
  }

  /** Both halves are configured with the same periods. */
  predicate SameConfig(s: State) {
    && s.voting.config.votingPeriod == s.queue.config.votingPeriod
    && s.voting.config.enactmentPeriod == s.queue.config.enactmentPeriod
  }

  // ---------- what is passed between the halves ----------

  /** What passing means for the preimage. */
  function PassingOp(id: ProposalId, delay: Block, now: Block, world: World): Queue.Op {
    if delay == 0 then Queue.OpEnact(id, id in world.decodes, id.asset in world.registered)
    else Queue.OpAwait(id, now + delay)
  }

  /** The use or the awaiting of the preimage of each referendum of a range that passes. */
  function PassingOps(proposalOf: map<nat, ProposalId>, before: Voting.Referenda, after: Voting.Referenda,
                      from: nat, to: nat, now: Block, world: World): seq<Queue.Op>
  {
    if to <= from then []
    else
      PassingOps(proposalOf, before, after, from, to - 1, now, world)
      + if Passes(before, after, to - 1, now) && to - 1 in proposalOf
        then [PassingOp(proposalOf[to - 1], before[to - 1].status.delay, now, world)]
        else []
  }

  /** What an operation of the whole is for the voting machine: a block brings what the queues
      table, a fast track or a blacklisting what they start or cancel. */
  ghost function VotingOps(s: State, op: Op): seq<Voting.Op> {
    match op
    case OpVoting(v) => if IsVotingCall(v) then [v] else []
    case OpQueue(_) => []
    case OpFastTrack(id, period, delay) =>
      if Queue.FastTrack(s.queue, id).error.Some? then []
      else [Voting.StartReferendum(period, id.asset, s.queue.external.value.threshold, delay)]
    case OpBlacklist(id, index) =>
      if index.Some? && IsAbout(s, index.value, id) then [Voting.CancelReferendum(index.value)] else []
    case OpBlock(_) => [Voting.NextBlock(AsTabled(Tabled(s)))]
  }

  /** And for the deposit machine: a block brings the clock, the launch if one is due, and what
      the referenda that pass do with their preimages. */
  ghost function QueueOps(s: State, op: Op): seq<Queue.Op> {
    match op
    case OpVoting(_) => []
    case OpQueue(q) => if IsQueueCall(q) then [q] else []
    case OpFastTrack(id, _, _) => [Queue.OpFastTrack(id)]
    case OpBlacklist(id, _) => [Queue.OpBlacklist(id)]
    case OpBlock(world) =>
      var t := BeginBlock(s, world);
      LaunchOps(s)
      + PassingOps(s.proposalOf, s.voting.referenda, t.voting.referenda,
                   s.voting.lowestUnbaked, s.voting.count, t.voting.now, world)
  }

  function LaunchOps(s: State): seq<Queue.Op> {
    [Queue.OpBlocks(1)] + if LaunchIsDue(s) then [Queue.OpLaunchNext] else []
  }

  ghost function VotingTrace(s: State, ops: seq<Op>): seq<Voting.Op> {
    if ops == [] then []
    else VotingTrace(s, ops[..|ops| - 1]) + VotingOps(Run(s, ops[..|ops| - 1]), ops[|ops| - 1])
  }

  ghost function QueueTrace(s: State, ops: seq<Op>): seq<Queue.Op> {
    if ops == [] then []
    else QueueTrace(s, ops[..|ops| - 1]) + QueueOps(Run(s, ops[..|ops| - 1]), ops[|ops| - 1])
  }

  // ---------- both machines at once ----------

  lemma PassedIsOp(q: Queue.State, id: ProposalId, delay: Block, now: Block, world: World)
    ensures Passed(q, id, delay, now, world) == Queue.Apply(q, PassingOp(id, delay, now, world))
  {
  }

  lemma {:induction false} DecidedIsRun(q: Queue.State, proposalOf: map<nat, ProposalId>, before: Voting.Referenda,
                                        after: Voting.Referenda, from: nat, to: nat, now: Block, world: World)
    ensures Decided(q, proposalOf, before, after, from, to, now, world)
      == Queue.Run(q, PassingOps(proposalOf, before, after, from, to, now, world))
    decreases if from < to then to else 0
  {
    if from < to {
      DecidedIsRun(q, proposalOf, before, after, from, to - 1, now, world);
      var ops := PassingOps(proposalOf, before, after, from, to - 1, now, world);
      if Passes(before, after, to - 1, now) && to - 1 in proposalOf {
        var rest := Queue.Run(q, ops);
        PassedIsOp(rest, proposalOf[to - 1], before[to - 1].status.delay, now, world);
        QueueRunOneMore(q, ops, PassingOp(proposalOf[to - 1], before[to - 1].status.delay, now, world));
      } else {
        assert ops + [] == ops;
      }
    }
  }

  lemma QueueRunOneMore(q: Queue.State, ops: seq<Queue.Op>, op: Queue.Op)
    ensures Queue.Run(q, ops + [op]) == Queue.Apply(Queue.Run(q, ops), op)
  {
    assert (ops + [op])[..|ops + [op]| - 1] == ops;
  }

  lemma VotingRunOneMore(v: Voting.State, ops: seq<Voting.Op>, op: Voting.Op)
    ensures Voting.Run(v, ops + [op]) == Voting.Apply(Voting.Run(v, ops), op)
  {
    assert (ops + [op])[..|ops + [op]| - 1] == ops;
  }

  lemma {:induction false} QueueRunConcat(q: Queue.State, first: seq<Queue.Op>, second: seq<Queue.Op>)
    ensures Queue.Run(q, first + second) == Queue.Run(Queue.Run(q, first), second)
  {
    if second == [] {
      assert first + second == first;
    } else {
      var before, op := second[..|second| - 1], second[|second| - 1];
      QueueRunConcat(q, first, before);
      assert (first + before) + [op] == first + second by {
        assert before + [op] == second;
      }
      QueueRunOneMore(q, first + before, op);
    }
  }

  lemma {:induction false} VotingRunConcat(v: Voting.State, first: seq<Voting.Op>, second: seq<Voting.Op>)
    ensures Voting.Run(v, first + second) == Voting.Run(Voting.Run(v, first), second)
  {
    if second == [] {
      assert first + second == first;
    } else {
      var before, op := second[..|second| - 1], second[|second| - 1];
      VotingRunConcat(v, first, before);
      assert (first + before) + [op] == first + second by {
        assert before + [op] == second;
      }
      VotingRunOneMore(v, first + before, op);
    }
  }

  lemma QueueRunOne(q: Queue.State, op: Queue.Op)
    ensures Queue.Run(q, [op]) == Queue.Apply(q, op)
  {
    QueueRunOneMore(q, [], op);
    assert [] + [op] == [op];
  }

  lemma VotingRunOne(v: Voting.State, op: Voting.Op)
    ensures Voting.Run(v, [op]) == Voting.Apply(v, op)
  {
    VotingRunOneMore(v, [], op);
    assert [] + [op] == [op];
  }

  /** The queue after the clock and the launch of a block. */
  function Launched(s: State): Queue.State {
    if LaunchIsDue(s) then Queue.LaunchNext(Ticked(s.queue)).state else Ticked(s.queue)
  }

  lemma LaunchIsRun(s: State)
    ensures Launched(s) == Queue.Run(s.queue, LaunchOps(s))
  {
    QueueRunOne(s.queue, Queue.OpBlocks(1));
    if LaunchIsDue(s) {
      QueueRunOneMore(s.queue, [Queue.OpBlocks(1)], Queue.OpLaunchNext);
    } else {
      assert LaunchOps(s) == [Queue.OpBlocks(1)];
    }
  }

  /** What a block does to the queue is a run of the deposit machine. */
  lemma BlockIsRun(s: State, world: World)
    ensures BeginBlock(s, world).queue == Queue.Run(s.queue, QueueOps(s, OpBlock(world)))
  {
    var t := BeginBlock(s, world);
    var from, to := s.voting.lowestUnbaked, s.voting.count;
    LaunchIsRun(s);
    DecidedIsRun(Launched(s), s.proposalOf, s.voting.referenda, t.voting.referenda, from, to, t.voting.now, world);
    QueueRunConcat(s.queue, LaunchOps(s),
                   PassingOps(s.proposalOf, s.voting.referenda, t.voting.referenda, from, to, t.voting.now, world));
  }

  lemma VotingStepIsRun(s: State, op: Op)
    ensures Apply(s, op).voting == Voting.Run(s.voting, VotingOps(s, op))
  {
    var ops := VotingOps(s, op);
    if |ops| == 1 {
      VotingRunOne(s.voting, ops[0]);
      assert ops == [ops[0]];
    }
  }

  lemma QueueStepIsRun(s: State, op: Op)
    ensures Apply(s, op).queue == Queue.Run(s.queue, QueueOps(s, op))
  {
    match op
    case OpVoting(_) =>
    case OpQueue(q) => QueueRunOne(s.queue, q);
    case OpFastTrack(id, _, _) => QueueRunOne(s.queue, Queue.OpFastTrack(id));
    case OpBlacklist(id, _) => QueueRunOne(s.queue, Queue.OpBlacklist(id));
    case OpBlock(world) => BlockIsRun(s, world);
  }

  /** Every run of the pallet is a run of the voting machine and one of the deposit machine,
      with exactly this passed between them. */
  lemma {:induction false} RunIsBothRuns(s: State, ops: seq<Op>)
    ensures Run(s, ops).voting == Voting.Run(s.voting, VotingTrace(s, ops))
    ensures Run(s, ops).queue == Queue.Run(s.queue, QueueTrace(s, ops))
  {
    if ops != [] {
      var before, op := ops[..|ops| - 1], ops[|ops| - 1];
      var t := Run(s, before);
      RunIsBothRuns(s, before);
      VotingStepIsRun(t, op);
      QueueStepIsRun(t, op);
      VotingRunConcat(s.voting, VotingTrace(s, before), VotingOps(t, op));
      QueueRunConcat(s.queue, QueueTrace(s, before), QueueOps(t, op));
    }
  }

  // ---------- what holds of the whole ----------

  /** Through all of it tallies stay exact and holds stay recorded. */
  lemma WholeIsExact(s: State, ops: seq<Op>)
    requires Genesis(s)
    ensures Voting.Inv(Run(s, ops).voting) && Queue.Inv(Run(s, ops).queue)
    ensures
      var v := Run(s, ops).voting;
      forall r: nat {:trigger VotingTheorems.TrueTally(v.voting, r)} :: Voting.IsOngoing(v.referenda, r) ==>
        v.referenda[r].status.tally == VotingTheorems.TrueTally(v.voting, r)
    ensures
      var q := Run(s, ops).queue;
      forall a {:trigger Queue.Staked(q.deposits, a)} ::
        At(q.ledger.held, a) - At(q.others, a) == Queue.Staked(q.deposits, a) + Queue.Noted(q.preimages, a)
  {
    var vs, qs := VotingTrace(s, ops), QueueTrace(s, ops);
    RunIsBothRuns(s, ops);
    VotingInvariant.GenesisHasInv(s.voting);
    VotingInvariant.RunKeepsInv(s.voting, vs);
    VotingTheorems.TalliesAreExact(s.voting, vs);
    QueueTheorems.GenesisHasInv(s.queue);
    QueueTheorems.RunKeepsInv(s.queue, qs);
    forall a
      ensures
        var q := Run(s, ops).queue;
        At(q.ledger.held, a) - At(q.others, a) == Queue.Staked(q.deposits, a) + Queue.Noted(q.preimages, a)
    {
      QueueTheorems.HeldIsRecorded(s.queue, qs, a);
    }
  }

  /** Every referendum has its proposal, on the asset it is voted on with, and the two halves
      have the same clock and the same periods. */
  ghost predicate Linked(s: State) {
    && s.voting.now == s.queue.now && SameConfig(s)
    && (forall r :: r in s.voting.referenda ==> r in s.proposalOf)
    && forall r :: r in s.proposalOf && Voting.IsOngoing(s.voting.referenda, r) ==>
         s.proposalOf[r].asset == s.voting.referenda[r].status.asset
  }

  lemma VotingCallKeepsLinked(s: State, v: Voting.Op)
    requires Linked(s) && Voting.Inv(s.voting) && IsVotingCall(v)
    ensures Linked(s.(voting := Voting.Apply(s.voting, v)))
  {
    if !v.CancelReferendum? {
      VotingRuns.StepInBlock(s.voting, v);
      var t := Voting.Apply(s.voting, v);
      forall r | Voting.IsOngoing(t.referenda, r)
        ensures s.proposalOf[r].asset == t.referenda[r].status.asset
      {
        assert VotingRuns.SameTerms(s.voting.referenda[r], t.referenda[r]);
      }
    }
  }

  lemma QueueCallKeepsClock(q: Queue.State, op: Queue.Op)
    requires !op.OpBlocks?
    ensures Queue.Apply(q, op).now == q.now && Queue.Apply(q, op).config == q.config
  {
    if QueueTheorems.OfPreimages(op) {
      QueueTurns.PreimagesKeepClock(q, op);
    } else if QueueTheorems.OfExternals(op) {
      QueueTurns.ExternalsAside(q, op);
    } else if op.OpCancel? || op.OpBlacklist? {
      QueueTurns.RemovalsKeepPreimages(q, op);
    } else if op.OpLaunch? || op.OpLaunchNext? {
      QueueTurns.LaunchesKeepPreimages(q);
    }
  }

  lemma {:induction false} DecidedKeepsClock(q: Queue.State, proposalOf: map<nat, ProposalId>, before: Voting.Referenda,
                                             after: Voting.Referenda, from: nat, to: nat, now: Block, world: World)
    ensures
      var t := Decided(q, proposalOf, before, after, from, to, now, world);
      t.now == q.now && t.config == q.config
    decreases if from < to then to else 0
  {
    if from < to {
      DecidedKeepsClock(q, proposalOf, before, after, from, to - 1, now, world);
      if Passes(before, after, to - 1, now) && to - 1 in proposalOf {
        var rest := Decided(q, proposalOf, before, after, from, to - 1, now, world);
        PassedIsOp(rest, proposalOf[to - 1], before[to - 1].status.delay, now, world);
        QueueCallKeepsClock(rest, PassingOp(proposalOf[to - 1], before[to - 1].status.delay, now, world));
      }
    }
  }

  lemma LaunchKeepsClock(s: State)
    ensures Launched(s).now == s.queue.now + 1 && Launched(s).config == s.queue.config
  {
    QueueTurns.LaunchesKeepPreimages(Ticked(s.queue));
  }

  lemma BlockKeepsLinked(s: State, world: World)
    requires Linked(s) && Voting.Inv(s.voting)
    ensures Linked(BeginBlock(s, world))
  {
    var t, tabled := BeginBlock(s, world), Tabled(s);
    var next := Voting.NextBlock(AsTabled(tabled));
    VotingRuns.StepTime(s.voting, next);
    LaunchKeepsClock(s);
    DecidedKeepsClock(Launched(s), s.proposalOf, s.voting.referenda, t.voting.referenda,
                      s.voting.lowestUnbaked, s.voting.count, t.voting.now, world);
    forall r | r in t.voting.referenda
      ensures r in t.proposalOf
      ensures t.voting.referenda[r].Ongoing? ==> t.proposalOf[r].asset == t.voting.referenda[r].status.asset
    {
      ReferendumIsLinked(s, tabled, r);
    }
  }

  lemma ReferendumIsLinked(s: State, tabled: Option<Queue.External>, r: nat)
    requires Linked(s) && Voting.Inv(s.voting)
    requires r in Voting.BeginBlock(s.voting, AsTabled(tabled)).referenda
    ensures
      var referenda := Voting.BeginBlock(s.voting, AsTabled(tabled)).referenda;
      var proposalOf := if tabled.Some? then s.proposalOf[s.voting.count := tabled.value.id] else s.proposalOf;
      && r in proposalOf
      && (referenda[r].Ongoing? ==> proposalOf[r].asset == referenda[r].status.asset)
  {
    if r in s.voting.referenda {
      VotingRuns.BlockStep(s.voting, AsTabled(tabled), r);
    } else {
      VotingRuns.LaunchedReferendum(s.voting, AsTabled(tabled), r);
    }
  }

  lemma FastTrackKeepsLinked(s: State, id: ProposalId, period: nat, delay: Block)
    requires Linked(s) && Voting.Inv(s.voting)
    ensures Linked(FastTrack(s, id, period, delay))
  {
  }

  lemma BlacklistKeepsLinked(s: State, id: ProposalId, index: Option<nat>)
    requires Linked(s)
    ensures Linked(Blacklist(s, id, index))
  {
    QueueCallKeepsClock(s.queue, Queue.OpBlacklist(id));
  }

  lemma StepKeepsLinked(s: State, op: Op)
    requires Linked(s) && Voting.Inv(s.voting)
    ensures Linked(Apply(s, op))
  {
    match op
    case OpVoting(v) =>
      if IsVotingCall(v) {
        VotingCallKeepsLinked(s, v);
      }
    case OpQueue(q) =>
      if IsQueueCall(q) {
        QueueCallKeepsClock(s.queue, q);
      }
    case OpFastTrack(id, period, delay) => FastTrackKeepsLinked(s, id, period, delay);
    case OpBlacklist(id, index) => BlacklistKeepsLinked(s, id, index);
    case OpBlock(world) => BlockKeepsLinked(s, world);
  }

  /** In every reachable state each referendum has its proposal. */
  lemma {:induction false} RunKeepsLinked(s: State, ops: seq<Op>)
    requires Genesis(s)
    ensures Linked(Run(s, ops))
  {
    if ops != [] {
      RunKeepsLinked(s, ops[..|ops| - 1]);
      WholeIsExact(s, ops[..|ops| - 1]);
      StepKeepsLinked(Run(s, ops[..|ops| - 1]), ops[|ops| - 1]);
    }
  }
}
