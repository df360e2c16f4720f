/** Deposits are paid back by blocks alone: a queued proposal is tabled after at most two
    launches for each proposal in its queue, external proposals included. */
module DemocracyRefunds {
  import opened Amounts
  import opened Arithmetic
  import Voting = DemocracySpec
  import VotingInvariant = DemocracyInvariant
  import VotingRuns = DemocracyRuns
  import Queue = DepositsSpec
  import QueueTheorems = DepositsTheorems
  import opened DemocracyWhole

  // ---------- what a block does to the queues ----------

  ghost predicate WholeInv(s: State) {
    Voting.Inv(s.voting) && Queue.Inv(s.queue) && Linked(s)
  }

  lemma StepKeepsWholeInv(s: State, op: Op)
    requires WholeInv(s)
    ensures WholeInv(Apply(s, op))
  {
    VotingStepIsRun(s, op);
    QueueStepIsRun(s, op);
    VotingInvariant.RunKeepsInv(s.voting, VotingOps(s, op));
    QueueTheorems.RunKeepsInv(s.queue, QueueOps(s, op));
    StepKeepsLinked(s, op);
  }

  lemma ReachableHasWholeInv(s: State, ops: seq<Op>)
    requires Genesis(s)
    ensures WholeInv(Run(s, ops))
  {
    WholeIsExact(s, ops);
    RunKeepsLinked(s, ops);
  }

  predicate SameQueues(q: Queue.State, t: Queue.State) {
    && t.props == q.props && t.deposits == q.deposits
    && t.external == q.external && t.lastWasExternal == q.lastWasExternal
  }

  ghost predicate NobodyLoses(q: Queue.State, t: Queue.State) {
    forall a {:trigger At(t.ledger.free, a)} :: At(q.ledger.free, a) <= At(t.ledger.free, a)
  }

  lemma PassedKeepsQueues(q: Queue.State, id: ProposalId, delay: Block, now: Block, world: World)
    ensures SameQueues(q, Passed(q, id, delay, now, world)) && NobodyLoses(q, Passed(q, id, delay, now, world))
  {
  }

  lemma {:induction false} DecidedKeepsQueues(q: Queue.State, proposalOf: map<nat, ProposalId>, before: Voting.Referenda,
                                              after: Voting.Referenda, from: nat, to: nat, now: Block, world: World)
    ensures
      var t := Decided(q, proposalOf, before, after, from, to, now, world);
      SameQueues(q, t) && NobodyLoses(q, t)
    decreases if from < to then to else 0
  {
    if from < to {
      var rest := Decided(q, proposalOf, before, after, from, to - 1, now, world);
      DecidedKeepsQueues(q, proposalOf, before, after, from, to - 1, now, world);
      if Passes(before, after, to - 1, now) && to - 1 in proposalOf {
        var id, delay := proposalOf[to - 1], before[to - 1].status.delay;
        PassedKeepsQueues(rest, id, delay, now, world);
        LosesTransitively(q, rest, Passed(rest, id, delay, now, world));
      }
    }
  }

  lemma LosesTransitively(q: Queue.State, r: Queue.State, t: Queue.State)
    requires NobodyLoses(q, r) && NobodyLoses(r, t)
    ensures NobodyLoses(q, t)
  {
    forall a
      ensures At(q.ledger.free, a) <= At(t.ledger.free, a)
    {
      assert At(q.ledger.free, a) <= At(r.ledger.free, a);
    }
  }

  lemma BlockQueues(s: State, world: World)
    ensures SameQueues(Launched(s), BeginBlock(s, world).queue) && NobodyLoses(Launched(s), BeginBlock(s, world).queue)
  {
    var t := BeginBlock(s, world);
    DecidedKeepsQueues(Launched(s), s.proposalOf, s.voting.referenda, t.voting.referenda,
                       s.voting.lowestUnbaked, s.voting.count, t.voting.now, world);
  }

  // ---------- how long it takes ----------

  /** Blocks before the one that launches. */
  function Wait(s: State): nat {
    if LaunchIsDue(s) then 0 else s.launchPeriod - (s.voting.now + 1) % s.launchPeriod
  }

  lemma NextRemainder(n: nat, p: nat)
    requires p > 0
    ensures (n + 1) % p == if n % p == p - 1 then 0 else n % p + 1
  {
    DivBounds(n, p);
    if n % p == p - 1 {
      assert (n / p + 1) * p == n / p * p + p;
      DivUnique(n + 1, p, n / p + 1);
      DivBounds(n + 1, p);
    } else {
      DivUnique(n + 1, p, n / p);
      DivBounds(n + 1, p);
    }
  }

  lemma BlockMovesClock(s: State, world: World)
    requires Voting.Inv(s.voting)
    ensures BeginBlock(s, world).voting.now == s.voting.now + 1 && BeginBlock(s, world).launchPeriod == s.launchPeriod
  {
    VotingRuns.StepTime(s.voting, Voting.NextBlock(AsTabled(Tabled(s))));
  }

  lemma WaitStep(s: State, t: State)
    requires t.launchPeriod == s.launchPeriod && t.voting.now == s.voting.now + 1
    ensures Wait(t) == if LaunchIsDue(s) then s.launchPeriod - 1 else Wait(s) - 1
  {
    NextRemainder(s.voting.now + 1, s.launchPeriod);
  }

  /** Launches before a queue of public proposals is empty: an external proposal may come
      before each. */
  function Turns(q: Queue.State): int {
    2 * |q.props| - if q.external.Some? && !q.lastWasExternal then 0 else 1
  }

  /** A launch either tables what is external, or takes one off the public queue and pays its
      depositors. */
  lemma LaunchTakesATurn(q: Queue.State, index: Queue.PropIndex)
    requires Queue.Inv(q) && index in q.deposits && QueueTheorems.IsQueued(q, index)
    ensures
      var t := Queue.LaunchNext(q).state;
      && Turns(t) < Turns(q) && NobodyLoses(q, t)
      && (index in t.deposits ==> QueueTheorems.IsQueued(t, index) && t.deposits[index] == q.deposits[index])
      && (index !in t.deposits ==> forall a {:trigger Queue.StakeIn(q.deposits, index, a)} ::
            At(q.ledger.free, a) + Queue.StakeIn(q.deposits, index, a) <= At(t.ledger.free, a))
  {
    var u := q.(lastWasExternal := false);
    QueueTheorems.QueuesAside(q, u);
    assert QueueTheorems.IsQueued(u, index);
    if q.lastWasExternal || q.external.None? {
      PublicLaunch(u, index);
    } else {
      assert Queue.LaunchNext(q).state == Queue.LaunchExternal(u).state;
    }
  }

  lemma PublicLaunch(q: Queue.State, index: Queue.PropIndex)
    requires Queue.Inv(q) && index in q.deposits && QueueTheorems.IsQueued(q, index)
    ensures
      var t := Queue.LaunchPublic(q).state;
      && |t.props| == |q.props| - 1 && NobodyLoses(q, t)
      && t.external == q.external && t.lastWasExternal == q.lastWasExternal
      && (index in t.deposits ==> QueueTheorems.IsQueued(t, index) && t.deposits[index] == q.deposits[index])
      && (index !in t.deposits ==> forall a {:trigger Queue.StakeIn(q.deposits, index, a)} ::
            At(q.ledger.free, a) + Queue.StakeIn(q.deposits, index, a) <= At(t.ledger.free, a))
  {
    QueueTheorems.LaunchShortens(q, index);
    var t := Queue.LaunchPublic(q).state;
    forall a
      ensures At(q.ledger.free, a) <= At(t.ledger.free, a)
      ensures index !in t.deposits ==> At(q.ledger.free, a) + Queue.StakeIn(q.deposits, index, a) <= At(t.ledger.free, a)
    {
      QueueTheorems.LaunchRefunds(q, a);
    }
  }

  // ---------- refunds by blocks alone ----------

  ghost predicate OnlyBlocks(ops: seq<Op>) {
    forall op :: op in ops ==> op.OpBlock?
  }

  lemma {:induction false} RunAfter(s: State, op: Op, ops: seq<Op>)
    ensures Run(s, [op] + ops) == Run(Apply(s, op), ops)
  {
    if ops == [] {
      assert [op] + ops == [op] && [op][..0] == [];
    } else {
      var before, last := ops[..|ops| - 1], ops[|ops| - 1];
      assert ([op] + ops)[..|[op] + ops| - 1] == [op] + before;
      RunAfter(s, op, before);
    }
  }

  /** The deposits of a proposal are paid back, and nobody has less. */
  ghost predicate PaidBack(q: Queue.State, t: Queue.State, index: Queue.PropIndex) {
    && index !in t.deposits
    && forall a {:trigger Queue.StakeIn(q.deposits, index, a)} ::
         At(q.ledger.free, a) + Queue.StakeIn(q.deposits, index, a) <= At(t.ledger.free, a)
  }

  function Blocks(world: World, n: nat): seq<Op> {
    seq(n, _ => OpBlock(world))
  }

  lemma OneBlockMore(s: State, world: World, n: nat)
    ensures Run(s, Blocks(world, n + 1)) == Run(BeginBlock(s, world), Blocks(world, n))
  {
    assert Blocks(world, n + 1) == [OpBlock(world)] + Blocks(world, n);
    RunAfter(s, OpBlock(world), Blocks(world, n));
  }

  /** One block on the way: it leaves the queues, or takes a turn, or pays back. */
  lemma BlockStep(s: State, world: World, index: Queue.PropIndex)
    requires WholeInv(s) && index in s.queue.deposits && QueueTheorems.IsQueued(s.queue, index)
    ensures
      var q, t := s.queue, BeginBlock(s, world);
      && WholeInv(t) && NobodyLoses(q, t.queue) && t.launchPeriod == s.launchPeriod
      && (if LaunchIsDue(s) then Turns(t.queue) < Turns(q) && Wait(t) == s.launchPeriod - 1
          else index in t.queue.deposits && Turns(t.queue) == Turns(q) && Wait(t) == Wait(s) - 1)
      && (index in t.queue.deposits ==>
            QueueTheorems.IsQueued(t.queue, index) && t.queue.deposits[index] == q.deposits[index])
      && (index !in t.queue.deposits ==> PaidBack(q, t.queue, index))
  {
    var t := BeginBlock(s, world);
    StepKeepsWholeInv(s, OpBlock(world));
    BlockQueues(s, world);
    BlockMovesClock(s, world);
    WaitStep(s, t);
    var ticked := Ticked(s.queue);
    QueueTheorems.StepKeepsInv(s.queue, Queue.OpBlocks(1));
    assert QueueTheorems.IsQueued(ticked, index);
    if LaunchIsDue(s) {
      LaunchTakesATurn(ticked, index);
      LosesTransitively(s.queue, Launched(s), t.queue);
      PaidBackLater(s.queue, Launched(s), t.queue, index);
      SameQueued(Launched(s), t.queue, index);
    } else {
      LosesTransitively(s.queue, ticked, t.queue);
      SameQueued(ticked, t.queue, index);
    }
  }

  lemma SameQueued(q: Queue.State, t: Queue.State, index: Queue.PropIndex)
    requires SameQueues(q, t)
    ensures QueueTheorems.IsQueued(q, index) <==> QueueTheorems.IsQueued(t, index)
    ensures Turns(q) == Turns(t)
  {
  }

  lemma PaidBackLater(q: Queue.State, r: Queue.State, t: Queue.State, index: Queue.PropIndex)
    requires NobodyLoses(r, t) && t.deposits == r.deposits
    ensures index !in r.deposits && PaidBack(q, r, index) ==> PaidBack(q, t, index)
  {
    if index !in r.deposits && PaidBack(q, r, index) {
      forall a {:trigger Queue.StakeIn(q.deposits, index, a)}
        ensures At(q.ledger.free, a) + Queue.StakeIn(q.deposits, index, a) <= At(t.ledger.free, a)
      {
        assert At(r.ledger.free, a) <= At(t.ledger.free, a);
      }
    }
  }

  lemma PaidBackEarlier(q: Queue.State, r: Queue.State, t: Queue.State, index: Queue.PropIndex)
    requires NobodyLoses(q, r) && index in q.deposits && index in r.deposits && r.deposits[index] == q.deposits[index]
    requires PaidBack(r, t, index)
    ensures PaidBack(q, t, index)
  {
    forall a {:trigger Queue.StakeIn(q.deposits, index, a)}
      ensures At(q.ledger.free, a) + Queue.StakeIn(q.deposits, index, a) <= At(t.ledger.free, a)
    {
      assert At(q.ledger.free, a) <= At(r.ledger.free, a);
      assert At(r.ledger.free, a) + Queue.StakeIn(r.deposits, index, a) <= At(t.ledger.free, a);
    }
  }

  lemma QueuedTurns(q: Queue.State, index: Queue.PropIndex)
    requires QueueTheorems.IsQueued(q, index)
    ensures Turns(q) >= 1
  {
  }

  /** The blocks that are left before some turns are over. */
  function Left(wait: nat, turns: nat, p: nat): nat
    requires turns >= 1
  {
    wait + 1 + (turns - 1) * p
  }

  lemma OneBlockLess(due: bool, wait: nat, wait': nat, turns: nat, turns': nat, p: nat)
    requires turns >= 1 && turns' >= 1
    requires if due then turns' < turns && wait' + 1 == p else turns' == turns && wait' + 1 == wait
    ensures Left(wait', turns', p) + 1 <= Left(wait, turns, p)
  {
    if due {
      MulLe(turns', turns - 1, p);
      assert (turns' - 1) * p + p == turns' * p;
    }
  }

  lemma OneBlockEarlier(s: State, world: World, index: Queue.PropIndex, rest: nat)
    requires WholeInv(s) && index in s.queue.deposits && QueueTheorems.IsQueued(s.queue, index)
    requires
      var t := BeginBlock(s, world);
      if index in t.queue.deposits then PaidBack(t.queue, Run(t, Blocks(world, rest)).queue, index) else rest == 0
    ensures PaidBack(s.queue, Run(s, Blocks(world, rest + 1)).queue, index)
  {
    var t := BeginBlock(s, world);
    BlockStep(s, world, index);
    OneBlockMore(s, world, rest);
    if index in t.queue.deposits {
      PaidBackEarlier(s.queue, t.queue, Run(t, Blocks(world, rest)).queue, index);
    } else {
      assert Blocks(world, 0) == [];
    }
  }

  lemma BlockTakesItsTime(s: State, world: World, index: Queue.PropIndex)
    requires WholeInv(s) && index in s.queue.deposits && QueueTheorems.IsQueued(s.queue, index)
    requires index in BeginBlock(s, world).queue.deposits
    ensures
      var t := BeginBlock(s, world);
      && Turns(s.queue) >= 1 && Turns(t.queue) >= 1
      && Left(Wait(t), Turns(t.queue), t.launchPeriod) + 1 <= Left(Wait(s), Turns(s.queue), s.launchPeriod)
  {
    var t := BeginBlock(s, world);
    BlockStep(s, world, index);
    QueuedTurns(s.queue, index);
    QueuedTurns(t.queue, index);
    OneBlockLess(LaunchIsDue(s), Wait(s), Wait(t), Turns(s.queue), Turns(t.queue), s.launchPeriod);
  }

  /** The budget of blocks is enough until the proposal has had its turn. */
  ghost predicate Lasts(s: State, index: Queue.PropIndex, budget: nat) {
    index in s.queue.deposits && QueueTheorems.IsQueued(s.queue, index) ==>
      Turns(s.queue) >= 1 && Left(Wait(s), Turns(s.queue), s.launchPeriod) <= budget
  }

  lemma OneBlockAtLeast(wait: nat, turns: nat, p: nat, budget: nat)
    requires turns >= 1 && Left(wait, turns, p) <= budget
    ensures budget >= 1
  {
    assert (turns - 1) * p >= 0;
  }

  lemma StillLasts(s: State, t: State, index: Queue.PropIndex, budget: nat)
    requires index in s.queue.deposits && QueueTheorems.IsQueued(s.queue, index) && Lasts(s, index, budget)
    requires Turns(s.queue) >= 1 && Turns(t.queue) >= 1
    requires Left(Wait(t), Turns(t.queue), t.launchPeriod) + 1 <= Left(Wait(s), Turns(s.queue), s.launchPeriod)
    ensures budget >= 1 && Lasts(t, index, budget - 1)
  {
  }

  lemma BudgetLasts(s: State, world: World, index: Queue.PropIndex, budget: nat)
    requires WholeInv(s) && index in s.queue.deposits && QueueTheorems.IsQueued(s.queue, index)
    requires Lasts(s, index, budget)
    ensures budget >= 1
    ensures index in BeginBlock(s, world).queue.deposits ==> Lasts(BeginBlock(s, world), index, budget - 1)
  {
    var t := BeginBlock(s, world);
    OneBlockAtLeast(Wait(s), Turns(s.queue), s.launchPeriod, budget);
    if index in t.queue.deposits {
      BlockTakesItsTime(s, world, index);
      StillLasts(s, t, index, budget);
    }
  }

  /** A queued proposal is tabled and its depositors are paid back by blocks alone. */
  lemma {:induction false} BlocksPayBack(s: State, world: World, index: Queue.PropIndex, budget: nat) returns (n: nat)
    requires WholeInv(s) && index in s.queue.deposits && QueueTheorems.IsQueued(s.queue, index)
    requires Lasts(s, index, budget)
    ensures PaidBack(s.queue, Run(s, Blocks(world, n)).queue, index)
    ensures n <= budget
    decreases budget
  {
    var t := BeginBlock(s, world);
    BudgetLasts(s, world, index, budget);
    BlockStep(s, world, index);
    var rest := 0;
    if index in t.queue.deposits {
      rest := BlocksPayBack(t, world, index, budget - 1);
    }
    OneBlockEarlier(s, world, index, rest);
    n := rest + 1;
  }

  lemma WithinTurns(wait: nat, turns: nat, props: nat, p: nat)
    requires wait < p && 1 <= turns <= 2 * props
    ensures Left(wait, turns, p) <= 2 * props * p
  {
    assert (turns - 1) * p + p == turns * p;
    MulLe(turns, 2 * props, p);
  }

  /** In at most two launch periods for each queued proposal. */
  lemma QueuedIsRefundedInBlocks(s: State, world: World, index: Queue.PropIndex) returns (n: nat)
    requires WholeInv(s) && index in s.queue.deposits && QueueTheorems.IsQueued(s.queue, index)
    ensures PaidBack(s.queue, Run(s, Blocks(world, n)).queue, index)
    ensures n <= 2 * |s.queue.props| * s.launchPeriod
  {
    WithinTurns(Wait(s), Turns(s.queue), |s.queue.props|, s.launchPeriod);
    n := BlocksPayBack(s, world, index, 2 * |s.queue.props| * s.launchPeriod);
  }

  // ---------- and only while queued ----------

  /** Nothing but a call to cancel it reaches the deposit machine as its cancellation. */
  lemma {:induction false} PassingNeverCancels(proposalOf: map<nat, ProposalId>, before: Voting.Referenda, after: Voting.Referenda,
                                               from: nat, to: nat, now: Block, world: World, index: Queue.PropIndex)
    ensures Queue.OpCancel(index) !in PassingOps(proposalOf, before, after, from, to, now, world)
    decreases if from < to then to else 0
  {
    if from < to {
      PassingNeverCancels(proposalOf, before, after, from, to - 1, now, world, index);
    }
  }

  lemma OnlyCancelCancels(s: State, op: Op, index: Queue.PropIndex)
    requires op != OpQueue(Queue.OpCancel(index))
    ensures Queue.OpCancel(index) !in QueueOps(s, op)
  {
    if op.OpBlock? {
      var t := BeginBlock(s, op.world);
      PassingNeverCancels(s.proposalOf, s.voting.referenda, t.voting.referenda,
                          s.voting.lowestUnbaked, s.voting.count, t.voting.now, op.world, index);
    }
  }

  lemma {:induction false} TraceNeverCancels(s: State, ops: seq<Op>, index: Queue.PropIndex)
    requires OpQueue(Queue.OpCancel(index)) !in ops
    ensures Queue.OpCancel(index) !in QueueTrace(s, ops)
  {
    if ops != [] {
      var before, op := ops[..|ops| - 1], ops[|ops| - 1];
      assert ops == before + [op];
      TraceNeverCancels(s, before, index);
      OnlyCancelCancels(Run(s, before), op, index);
    }
  }

  /** In the whole pallet a deposit can leave the records without a cancellation if and only if
      its proposal is queued; and then blocks alone are enough to pay it back. */
  lemma RefundableInBlocksIff(s: State, index: Queue.PropIndex)
    requires WholeInv(s) && index in s.queue.deposits
    ensures (exists ops :: OpQueue(Queue.OpCancel(index)) !in ops && index !in Run(s, ops).queue.deposits)
      <==> QueueTheorems.IsQueued(s.queue, index)
    ensures (exists ops :: OnlyBlocks(ops) && PaidBack(s.queue, Run(s, ops).queue, index))
      <==> QueueTheorems.IsQueued(s.queue, index)
  {
    if QueueTheorems.IsQueued(s.queue, index) {
      var world := World({}, {});
      var n := QueuedIsRefundedInBlocks(s, world, index);
      assert OnlyBlocks(Blocks(world, n)) && OpQueue(Queue.OpCancel(index)) !in Blocks(world, n);
    } else {
      forall ops | OpQueue(Queue.OpCancel(index)) !in ops
        ensures index in Run(s, ops).queue.deposits
      {
        TraceNeverCancels(s, ops, index);
        RunIsBothRuns(s, ops);
        QueueTheorems.StrandedUntilCancelled(s.queue, QueueTrace(s, ops), index);
      }
      forall ops | OnlyBlocks(ops)
        ensures OpQueue(Queue.OpCancel(index)) !in ops
      {
      }
    }
  }
}
