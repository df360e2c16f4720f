/** The two queues of proposals take turns, and preimages that are needed are kept. */
module DepositsQueues {
  import opened Amounts
  import opened DemocracyTypes
  import opened DepositsSpec
  import opened DepositsTheorems

  // ---------- turns ----------

  /** Only a launch passes the turn. */
  lemma TurnIsKept(s: State, op: Op)
    requires op != OpLaunchNext
    ensures Apply(s, op).lastWasExternal == s.lastWasExternal
  {
    match op
    case OpPropose(_, _, _) =>
    case _ =>
  }

  lemma {:induction false} TurnIsKeptInRuns(s: State, ops: seq<Op>)
    requires OpLaunchNext !in ops
    ensures Run(s, ops).lastWasExternal == s.lastWasExternal
  {
    if ops != [] {
      assert ops == ops[..|ops| - 1] + [ops[|ops| - 1]];
      TurnIsKeptInRuns(s, ops[..|ops| - 1]);
      TurnIsKept(Run(s, ops[..|ops| - 1]), ops[|ops| - 1]);
    }
  }

  /** What a launch tables when nobody has to wait: the best-backed public proposal, or what
      the external origins put forward. */
  predicate TablesPublic(s: State) {
    && s.props != []
    && NextTabled(s) == Some(External(s.props[Best(s.props, s.deposits, |s.props|)].id, SuperMajorityApprove))
    && !LaunchNext(s).state.lastWasExternal
  }

  predicate TablesExternal(s: State) {
    s.external.Some? && NextTabled(s) == s.external && LaunchNext(s).state.lastWasExternal
  }

  /** A launch tables something exactly when one of the queues has something, and leaves the
      other queue alone. */
  lemma LaunchTablesIff(s: State)
    requires Inv(s)
    ensures NextTabled(s).Some? <==> s.props != [] || s.external.Some?
    ensures LaunchNext(s).error.None? <==> NextTabled(s).Some?
    ensures s.props != [] && (s.lastWasExternal || s.external.None?) ==> TablesPublic(s) && LaunchNext(s).state.external == s.external
    ensures s.external.Some? && (!s.lastWasExternal || s.props == []) ==> TablesExternal(s) && LaunchNext(s).state.props == s.props
  {
  }

  /** Between two launches anything may happen: after an external proposal a public one is
      tabled if any is waiting then, and after a public one an external. */
  lemma QueuesTakeTurns(s: State, ops: seq<Op>)
    requires Inv(s) && NextTabled(s).Some? && OpLaunchNext !in ops
    ensures
      var t := Run(LaunchNext(s).state, ops);
      && (TablesExternal(s) && t.props != [] ==> TablesPublic(t))
      && (TablesPublic(s) && t.external.Some? ==> TablesExternal(t))
  {
    var u := LaunchNext(s).state;
    StepKeepsInv(s, OpLaunchNext);
    RunKeepsInv(u, ops);
    TurnIsKeptInRuns(u, ops);
    LaunchTablesIff(Run(u, ops));
  }

  // ---------- preimages that are needed ----------

  /** The preimage of a proposal, or the note that it is missing, is kept until a block. */
  predicate Awaited(s: State, id: ProposalId, when: Block) {
    && id in s.preimages
    && match s.preimages[id]
       case Missing(until) => until >= when
       case Available(_, _, _, _, expiry) => expiry.Some? && expiry.value >= when
  }

  /** Using the proposal, or awaiting it for an earlier block. */
  predicate Overrides(op: Op, id: ProposalId, when: Block) {
    (op.OpEnact? && op.id == id) || (op.OpAwait? && op.id == id && op.when < when)
  }

  lemma AwaitedStep(s: State, op: Op, id: ProposalId, when: Block)
    requires Awaited(s, id, when) && !Overrides(op, id, when) && s.now <= when
    ensures Awaited(Apply(s, op), id, when)
  {
    if OfPreimages(op) {
      match op
      case OpNote(who, other, size) =>
      case OpNoteImminent(who, other, size) =>
      case OpReap(who, other, bound) =>
      case OpEnact(other, decodes, registered) =>
      case OpAwait(other, until) =>
    } else {
      PreimagesAside(s, op);
    }
  }

  lemma PreimagesAside(s: State, op: Op)
    requires !OfPreimages(op)
    ensures Apply(s, op).preimages == s.preimages && s.now <= Apply(s, op).now
  {
    if OfExternals(op) {
      ExternalsAside(s, op);
    } else {
      ProposalsKeepPreimages(s, op);
    }
  }

  lemma ExternalsAside(s: State, op: Op)
    requires OfExternals(op)
    ensures Apply(s, op).preimages == s.preimages && Apply(s, op).now == s.now && Apply(s, op).config == s.config
  {
  }

  lemma LaunchesKeepPreimages(s: State)
    ensures LaunchPublic(s).state.preimages == s.preimages && LaunchPublic(s).state.now == s.now
    ensures LaunchNext(s).state.preimages == s.preimages && LaunchNext(s).state.now == s.now
    ensures LaunchPublic(s).state.config == LaunchNext(s).state.config == s.config
  {
  }

  lemma RemovalsKeepPreimages(s: State, op: Op)
    requires op.OpCancel? || op.OpBlacklist?
    ensures Apply(s, op).preimages == s.preimages && Apply(s, op).now == s.now && Apply(s, op).config == s.config
  {
  }

  lemma ProposalsKeepPreimages(s: State, op: Op)
    requires !OfPreimages(op) && !OfExternals(op)
    ensures Apply(s, op).preimages == s.preimages && s.now <= Apply(s, op).now
  {
    if op.OpCancel? || op.OpBlacklist? {
      RemovalsKeepPreimages(s, op);
    } else if op.OpLaunch? || op.OpLaunchNext? {
      LaunchesKeepPreimages(s);
    }
  }

  lemma PreimagesKeepClock(s: State, op: Op)
    requires OfPreimages(op)
    ensures Apply(s, op).now == s.now && Apply(s, op).config == s.config
  {
  }

  /** Nobody can reap a preimage that is needed, whatever happens before the block it is
      needed at, short of its use; and noting a missing one keeps the date. */
  lemma {:induction false} AwaitedUntilNeeded(s: State, ops: seq<Op>, id: ProposalId, when: Block)
    requires Awaited(s, id, when)
    requires forall i :: 0 <= i < |ops| ==> !Overrides(ops[i], id, when)
    ensures Run(s, ops).now <= when ==> Awaited(Run(s, ops), id, when)
  {
    if ops != [] {
      var before := ops[..|ops| - 1];
      AwaitedUntilNeeded(s, before, id, when);
      ClockIsMonotone(Run(s, before), ops[|ops| - 1]);
      if Run(s, ops).now <= when {
        AwaitedStep(Run(s, before), ops[|ops| - 1], id, when);
      }
    }
  }

  lemma ClockIsMonotone(s: State, op: Op)
    ensures s.now <= Apply(s, op).now
  {
    if OfPreimages(op) {
      PreimagesKeepClock(s, op);
    } else {
      PreimagesAside(s, op);
    }
  }

  /** Passing a referendum makes its preimage awaited. */
  lemma AwaitingAwaits(s: State, id: ProposalId, when: Block)
    ensures Awaited(AwaitPreimage(s, id, when), id, when)
  {
  }

  /** So a referendum that passes with a delay finds its preimage, or can still have it noted,
      at its date: nobody can reap it before. */
  lemma PassedPreimageIsKept(s: State, ops: seq<Op>, id: ProposalId, when: Block)
    requires forall i :: 0 <= i < |ops| ==> !Overrides(ops[i], id, when)
    ensures
      var t := Run(AwaitPreimage(s, id, when), ops);
      t.now <= when ==> Awaited(t, id, when) && forall who, bound :: ReapPreimage(t, who, id, bound).error.Some?
  {
    AwaitingAwaits(s, id, when);
    AwaitedUntilNeeded(AwaitPreimage(s, id, when), ops, id, when);
  }
}
