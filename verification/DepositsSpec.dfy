/** Deposits of democracy: native funds held for public proposals, their seconders and
    noted preimages. */
module DepositsSpec {
  import opened Amounts
  import opened FiniteSums
  import opened DemocracyTypes

  const MAX_BLOCK: nat := 0xFFFF_FFFF

  type PropIndex = nat
  type Balances = map<Account, nat>

  /** The hash of a preimage, and the asset whose holders decide. */
  datatype ProposalId = ProposalId(hash: nat, asset: Asset)

  datatype Proposal = Proposal(index: PropIndex, id: ProposalId, proposer: Account)

  /** What waits to be put to a referendum by the external origins. */
  datatype External = External(id: ProposalId, threshold: VoteThreshold)

  /** Everybody in the list, as often as it is listed, has this amount held. */
  datatype Deposit = Deposit(who: seq<Account>, amount: nat)

  datatype Preimage =
    | Missing(until: Block)
    | Available(size: nat, provider: Account, deposit: nat, since: Block, expiry: Option<Block>)

  /** Native balances: what is free and what is on hold, for whatever reason. */
  datatype Ledger = Ledger(free: Balances, held: Balances)

  datatype Config = Config(
    minimumDeposit: nat,
    maxProposals: nat,
    byteDeposit: nat,
    votingPeriod: Block,
    enactmentPeriod: Block,
    cooloffPeriod: Block,
    treasury: Account)

  /** Until when a proposal may not come back, and who said so. */
  datatype Vetoed = Vetoed(until: Block, vetoers: set<Account>)

  /** `others` is the part of the held balances that other pallets have put on hold. */
  datatype State = State(
    config: Config,
    props: seq<Proposal>,
    propCount: PropIndex,
    deposits: map<PropIndex, Deposit>,
    preimages: map<ProposalId, Preimage>,
    blacklist: map<ProposalId, Vetoed>,
    external: Option<External>,
    lastWasExternal: bool,
    ledger: Ledger,
    others: Balances,
    now: Block)

  datatype Error =
    | ValueLow | TooManyProposals | ProposalBlacklisted | ProposalMissing | WrongUpperBound | BalanceLow
    | DuplicateProposal | NoProposal | AlreadyVetoed | NotSimpleMajority | InvalidHash | NoRegistry
    | NoneWaiting | DuplicatePreimage | NotImminent | PreimageMissing | PreimageInvalid | TooEarly | Imminent

  /** Some calls change storage and then report an error. */
  datatype Outcome = Outcome(state: State, error: Option<Error>)

  // ---------- native balances ----------

  function Hold(l: Ledger, a: Account, amount: nat): Option<Ledger> {
    if At(l.free, a) < amount then None
    else Some(Ledger(l.free[a := At(l.free, a) - amount], l.held[a := At(l.held, a) + amount]))
  }

  /** Best effort: as much of the amount as is held. */
  function Release(l: Ledger, a: Account, amount: nat): Ledger {
    var actual := Min(amount, At(l.held, a));
    Ledger(l.free[a := At(l.free, a) + actual], l.held[a := At(l.held, a) - actual])
  }

  /** Best effort, from held to somebody's free balance. */
  function TransferHeld(l: Ledger, from: Account, to: Account, amount: nat): Ledger {
    var actual := Min(amount, At(l.held, from));
    Ledger(l.free[to := At(l.free, to) + actual], l.held[from := At(l.held, from) - actual])
  }

  function ReleaseAll(l: Ledger, who: seq<Account>, amount: nat): Ledger {
    if who == [] then l else Release(ReleaseAll(l, who[..|who| - 1], amount), who[|who| - 1], amount)
  }

  function SlashAll(l: Ledger, who: seq<Account>, to: Account, amount: nat): Ledger {
    if who == [] then l else TransferHeld(SlashAll(l, who[..|who| - 1], to, amount), who[|who| - 1], to, amount)
  }

  // ---------- calls ----------

  function Fail(s: State, error: Error): Outcome {
    Outcome(s, Some(error))
  }

  predicate Barred(s: State, id: ProposalId) {
    id in s.blacklist && s.now < s.blacklist[id].until
  }

  function Propose(s: State, who: Account, id: ProposalId, value: nat): Outcome {
    if value < s.config.minimumDeposit then Fail(s, ValueLow)
    else if |s.props| >= s.config.maxProposals then Fail(s, TooManyProposals)
    else if Barred(s, id) then Fail(s, ProposalBlacklisted)
    else
      match Hold(s.ledger, who, value)
      case None => Fail(s, BalanceLow)
      case Some(l) =>
        Outcome(s.(ledger := l,
                   propCount := s.propCount + 1,
                   deposits := s.deposits[s.propCount := Deposit([who], value)],
                   props := s.props + [Proposal(s.propCount, id, who)]), None)
  }

  function Second(s: State, who: Account, index: PropIndex, bound: nat): Outcome {
    if index !in s.deposits then Fail(s, ProposalMissing)
    else if |s.deposits[index].who| > bound then Fail(s, WrongUpperBound)
    else
      match Hold(s.ledger, who, s.deposits[index].amount)
      case None => Fail(s, BalanceLow)
      case Some(l) =>
        Outcome(s.(ledger := l,
                   deposits := s.deposits[index := Deposit(s.deposits[index].who + [who], s.deposits[index].amount)]), None)
  }

  /** The deposits of cleared proposals stay where they are. */
  function ClearPublicProposals(s: State): State {
    s.(props := [])
  }

  /** Take away a proposal's deposit entry and slash everybody in it. */
  function SlashDeposit(s: State, index: PropIndex): State {
    if index !in s.deposits then s
    else
      s.(deposits := s.deposits - {index},
         ledger := SlashAll(s.ledger, s.deposits[index].who, s.config.treasury, s.deposits[index].amount))
  }

  function Without(props: seq<Proposal>, index: PropIndex): seq<Proposal> {
    if props == [] then []
    else
      Without(props[..|props| - 1], index)
      + if props[|props| - 1].index == index then [] else [props[|props| - 1]]
  }

  function CancelProposal(s: State, index: PropIndex): State {
    SlashDeposit(s.(props := Without(s.props, index)), index)
  }

  /** The first queued proposal with an id, or the length of the queue. */
  function Position(props: seq<Proposal>, id: ProposalId): (n: nat)
    ensures n <= |props|
    ensures n < |props| ==> props[n].id == id
    ensures forall i :: 0 <= i < n ==> props[i].id != id
  {
    if props == [] || props[0].id == id then 0 else 1 + Position(props[1..], id)
  }

  /** The first queued proposal with an id leaves the queue, and its depositors are slashed. */
  function Unqueued(s: State, id: ProposalId): State {
    var n := Position(s.props, id);
    if n == |s.props| then s
    else SlashDeposit(s.(props := s.props[..n] + s.props[n + 1..]), s.props[n].index)
  }

  /** The proposal leaves both queues and may not be proposed again. */
  function BlacklistProposal(s: State, id: ProposalId): State {
    Unqueued(s.(blacklist := s.blacklist[id := Vetoed(MAX_BLOCK, {})]), id).(
      external := if s.external.Some? && s.external.value.id == id then None else s.external)
  }

  function Backing(deposits: map<PropIndex, Deposit>, index: PropIndex): nat {
    if index in deposits then deposits[index].amount * |deposits[index].who| else 0
  }

  /** The last of the best-backed among the first `n` proposals. */
  function Best(props: seq<Proposal>, deposits: map<PropIndex, Deposit>, n: nat): (best: nat)
    requires 0 < n <= |props|
    ensures best < n
  {
    if n == 1 then 0
    else
      var best := Best(props, deposits, n - 1);
      if Backing(deposits, props[n - 1].index) >= Backing(deposits, props[best].index) then n - 1 else best
  }

  function SwapRemove(props: seq<Proposal>, n: nat): seq<Proposal>
    requires n < |props|
  {
    var last := |props| - 1;
    if n == last then props[..last] else props[..last][n := props[last]]
  }

  /** The best-backed proposal is tabled and its depositors refunded. */
  function LaunchPublic(s: State): Outcome {
    if s.props == [] then Fail(s, NoneWaiting)
    else
      var n := Best(s.props, s.deposits, |s.props|);
      var index := s.props[n].index;
      var t := s.(props := SwapRemove(s.props, n));
      Outcome(if index !in s.deposits then t
              else t.(deposits := s.deposits - {index},
                      ledger := ReleaseAll(s.ledger, s.deposits[index].who, s.deposits[index].amount)), None)
  }

  // ---------- the external queue ----------

  function ExternalPropose(s: State, id: ProposalId): Outcome {
    if s.external.Some? then Fail(s, DuplicateProposal)
    else if Barred(s, id) then Fail(s, ProposalBlacklisted)
    else Outcome(s.(external := Some(External(id, SuperMajorityApprove))), None)
  }

  /** The majority and default origins replace what waits and disregard the blacklist. */
  function ExternalReplace(s: State, id: ProposalId, threshold: VoteThreshold): State {
    s.(external := Some(External(id, threshold)))
  }

  function VetoExternal(s: State, who: Account, id: ProposalId): Outcome {
    if s.external.None? then Fail(s, NoProposal)
    else if s.external.value.id != id then Fail(s, ProposalMissing)
    else
      var vetoers := if id in s.blacklist then s.blacklist[id].vetoers else {};
      if who in vetoers then Fail(s, AlreadyVetoed)
      else
        Outcome(s.(blacklist := s.blacklist[id := Vetoed(s.now + s.config.cooloffPeriod, vetoers + {who})],
                   external := None), None)
  }

  /** What waits is taken off the queue at once. Only the hash is compared: the referendum is
      for the asset of the call. */
  function FastTrack(s: State, id: ProposalId): Outcome {
    if s.external.None? then Fail(s, ProposalMissing)
    else if s.external.value.threshold == SuperMajorityApprove then Fail(s, NotSimpleMajority)
    else if s.external.value.id.hash != id.hash then Fail(s, InvalidHash)
    else Outcome(s.(external := None), None)
  }

  function LaunchExternal(s: State): Outcome {
    if s.external.None? then Fail(s, NoneWaiting)
    else Outcome(s.(external := None, lastWasExternal := true), None)
  }

  /** The queues take turns: after an external proposal a public one, if there is one. */
  function LaunchNext(s: State): Outcome {
    var t := s.(lastWasExternal := false);
    if s.lastWasExternal then
      if t.props != [] then LaunchPublic(t) else LaunchExternal(t)
    else
      if t.external.Some? then LaunchExternal(t) else LaunchPublic(t)
  }

  /** What that puts to a referendum. */
  function NextTabled(s: State): Option<External> {
    if s.props != [] && (s.lastWasExternal || s.external.None?) then
      var p := s.props[Best(s.props, s.deposits, |s.props|)];
      if p.index in s.deposits then Some(External(p.id, SuperMajorityApprove)) else None
    else s.external
  }

  // ---------- preimages ----------

  function PreimageDeposit(s: State, size: nat): nat {
    Min(size * s.config.byteDeposit, MAX_BALANCE)
  }

  function NotePreimage(s: State, who: Account, id: ProposalId, size: nat): Outcome {
    if id in s.preimages then Fail(s, DuplicatePreimage)
    else
      var deposit := PreimageDeposit(s, size);
      match Hold(s.ledger, who, deposit)
      case None => Fail(s, BalanceLow)
      case Some(l) =>
        Outcome(s.(ledger := l, preimages := s.preimages[id := Available(size, who, deposit, s.now, None)]), None)
  }

  function NoteImminentPreimage(s: State, who: Account, id: ProposalId, size: nat): Outcome {
    if id !in s.preimages then Fail(s, NotImminent)
    else if s.preimages[id].Available? then Fail(s, DuplicatePreimage)
    else Outcome(s.(preimages := s.preimages[id := Available(size, who, 0, s.now, Some(s.preimages[id].until))]), None)
  }

  function ReapPreimage(s: State, who: Account, id: ProposalId, bound: nat): Outcome {
    if id !in s.preimages || s.preimages[id].Missing? then Fail(s, PreimageMissing)
    else
      var p := s.preimages[id];
      if p.size > bound then Fail(s, WrongUpperBound)
      else if s.now < p.since + s.config.votingPeriod + (if who == p.provider then 0 else s.config.enactmentPeriod)
      then Fail(s, TooEarly)
      else if p.expiry.Some? && s.now <= p.expiry.value then Fail(s, Imminent)
      else
        Outcome(s.(preimages := s.preimages - {id},
                   // not best effort: nothing moves if too little is held
                   ledger := if At(s.ledger.held, p.provider) < p.deposit then s.ledger
                             else TransferHeld(s.ledger, p.provider, who, p.deposit)), None)
  }

  /** The preimage is used up: its deposit is released, or slashed if it does not decode. An
      asset without a registered origin is found out only after the release. */
  function EnactProposal(s: State, id: ProposalId, decodes: bool, registered: bool): Outcome {
    if id !in s.preimages then Fail(s, PreimageMissing)
    else
      var t := s.(preimages := s.preimages - {id});
      match s.preimages[id]
      case Missing(_) => Fail(t, PreimageMissing)
      case Available(_, provider, deposit, _, _) =>
        if decodes then
          Outcome(t.(ledger := Release(s.ledger, provider, deposit)), if registered then None else Some(NoRegistry))
        else Fail(t.(ledger := TransferHeld(s.ledger, provider, s.config.treasury, deposit)), PreimageInvalid)
  }

  /** An approved referendum with a delay needs its preimage until then. */
  function AwaitPreimage(s: State, id: ProposalId, when: Block): State {
    s.(preimages := s.preimages[id :=
         if id in s.preimages && s.preimages[id].Available? then s.preimages[id].(expiry := Some(when))
         else Missing(when)])
  }

  // ---------- runs ----------

  datatype Op =
    | OpPropose(who: Account, id: ProposalId, value: nat)
    | OpSecond(who: Account, index: PropIndex, bound: nat)
    | OpClear
    | OpCancel(index: PropIndex)
    | OpBlacklist(id: ProposalId)
    | OpExternalPropose(id: ProposalId)
    | OpExternalReplace(id: ProposalId, threshold: VoteThreshold)
    | OpVeto(who: Account, id: ProposalId)
    | OpFastTrack(id: ProposalId)
    | OpLaunch
    | OpLaunchNext
    | OpNote(who: Account, id: ProposalId, size: nat)
    | OpNoteImminent(who: Account, id: ProposalId, size: nat)
    | OpReap(who: Account, id: ProposalId, bound: nat)
    | OpEnact(id: ProposalId, decodes: bool, registered: bool)
    | OpAwait(id: ProposalId, when: Block)
    | OpBlocks(passed: nat)
    | OpElsewhere(ledger: Ledger, others: Balances)

  /** Other pallets move free funds and change their own holds. */
  ghost predicate OnlyOthers(s: State, ledger: Ledger, others: Balances) {
    forall a {:trigger At(ledger.held, a)} ::
      At(ledger.held, a) - At(others, a) == At(s.ledger.held, a) - At(s.others, a)
  }

  ghost function Apply(s: State, op: Op): State {
    match op
    case OpPropose(who, id, value) => Propose(s, who, id, value).state
    case OpSecond(who, index, bound) => Second(s, who, index, bound).state
    case OpClear => ClearPublicProposals(s)
    case OpCancel(index) => CancelProposal(s, index)
    case OpBlacklist(id) => BlacklistProposal(s, id)
    case OpExternalPropose(id) => ExternalPropose(s, id).state
    case OpExternalReplace(id, threshold) => ExternalReplace(s, id, threshold)
    case OpVeto(who, id) => VetoExternal(s, who, id).state
    case OpFastTrack(id) => FastTrack(s, id).state
    case OpLaunch => LaunchPublic(s).state
    case OpLaunchNext => LaunchNext(s).state
    case OpNote(who, id, size) => NotePreimage(s, who, id, size).state
    case OpNoteImminent(who, id, size) => NoteImminentPreimage(s, who, id, size).state
    case OpReap(who, id, bound) => ReapPreimage(s, who, id, bound).state
    case OpEnact(id, decodes, registered) => EnactProposal(s, id, decodes, registered).state
    case OpAwait(id, when) => AwaitPreimage(s, id, when)
    case OpBlocks(passed) => s.(now := s.now + passed)
    case OpElsewhere(ledger, others) =>
      if OnlyOthers(s, ledger, others) then s.(ledger := ledger, others := others) else s
  }

  ghost function Run(s: State, ops: seq<Op>): State {
    if ops == [] then s else Apply(Run(s, ops[..|ops| - 1]), ops[|ops| - 1])
  }

  ghost predicate Genesis(s: State) {
    && s.props == [] && s.propCount == 0 && s.deposits == map[] && s.preimages == map[] && s.blacklist == map[]
    && s.external.None? && !s.lastWasExternal
    && forall a {:trigger At(s.ledger.held, a)} :: At(s.ledger.held, a) == At(s.others, a)
  }

  // ---------- what every state keeps ----------

  /** What one deposit entry holds of an account: its amount once for each time it is listed. */
  function Stake(who: seq<Account>, amount: nat, a: Account): nat {
    if who == [] then 0
    else Stake(who[..|who| - 1], amount, a) + if who[|who| - 1] == a then amount else 0
  }

  function StakeIn(deposits: map<PropIndex, Deposit>, index: PropIndex, a: Account): nat {
    if index in deposits then Stake(deposits[index].who, deposits[index].amount, a) else 0
  }

  function NotedIn(preimages: map<ProposalId, Preimage>, id: ProposalId, a: Account): nat {
    if id in preimages && preimages[id].Available? && preimages[id].provider == a then preimages[id].deposit else 0
  }

  ghost function Staked(deposits: map<PropIndex, Deposit>, a: Account): int {
    Sum(deposits.Keys, (i: PropIndex) => StakeIn(deposits, i, a))
  }

  ghost function Noted(preimages: map<ProposalId, Preimage>, a: Account): int {
    Sum(preimages.Keys, (id: ProposalId) => NotedIn(preimages, id, a))
  }

  /** Exactly the recorded deposits are held, besides what others hold. */
  ghost predicate Backed(s: State) {
    forall a {:trigger At(s.ledger.held, a)} ::
      At(s.ledger.held, a) == Staked(s.deposits, a) + Noted(s.preimages, a) + At(s.others, a)
  }

  /** Every queued proposal has its own deposit entry, and indices come from the counter. */
  ghost predicate Queued(s: State) {
    && (forall i :: 0 <= i < |s.props| ==> s.props[i].index in s.deposits)
    && (forall i, j :: 0 <= i < j < |s.props| ==> s.props[i].index != s.props[j].index)
    && (forall i :: i in s.deposits ==> i < s.propCount)
  }

  ghost predicate Inv(s: State) {
    Backed(s) && Queued(s)
  }
}
