/** Delegated, conviction-weighted voting as a state machine in exact arithmetic.

    The state keeps the same caches as the pallet (received delegations and
    running tallies) and every call moves them incrementally. What the caches
    must agree with is defined from scratch at the end of the module. */
module DemocracySpec {
  import opened Amounts
  import opened DemocracyTypes
  import opened FiniteSums
  import VoteThresholds

  type Votes = map<nat, AccountVote>
  type AccountState = Voting<Votes>
  type Accounts = map<Key, AccountState>
  type Referenda = map<nat, ReferendumInfo>

  datatype Config = Config(maxVotes: nat, voteLockingPeriod: nat, votingPeriod: nat, enactmentPeriod: nat)

  /** Pallet storage together with the parts of the currency it relies on: free
      balances, the democracy lock of every account, and total issuance. */
  datatype State = State(
    config: Config,
    voting: Accounts,
    referenda: Referenda,
    count: nat,
    lowestUnbaked: nat,
    locks: map<Key, nat>,
    free: map<Key, nat>,
    issuance: map<Asset, nat>,
    now: Block)

  const NO_ACTIVITY: AccountState := Direct(map[], NO_DELEGATIONS, NO_PRIOR)

  function VotingAt(voting: Accounts, k: Key): AccountState {
    if k in voting then voting[k] else NO_ACTIVITY
  }

  predicate IsOngoing(referenda: Referenda, r: nat) {
    r in referenda && referenda[r].Ongoing?
  }

  datatype Outcome = Done(state: State) | Failed(error: Error)

  // ---------- voting ----------

  /** What an account state weighs in a referendum. */
  function Weight(v: AccountState, r: nat): Tally {
    if v.Direct? && r in v.votes then FullWeight(v.votes[r], v.delegations) else EMPTY_TALLY
  }

  function WithTally(referenda: Referenda, r: nat, tally: Tally): Referenda
    requires IsOngoing(referenda, r)
  {
    referenda[r := Ongoing(referenda[r].status.(tally := tally))]
  }

  function RecordVote(s: State, k: Key, r: nat, vote: AccountVote): State
    requires IsOngoing(s.referenda, r) && VotingAt(s.voting, k).Direct?
  {
    var v := VotingAt(s.voting, k);
    var v' := v.(votes := v.votes[r := vote]);
    var tally := s.referenda[r].status.tally.Minus(Weight(v, r)).Plus(Weight(v', r));
    s.(voting := s.voting[k := v'],
       referenda := WithTally(s.referenda, r, tally),
       locks := s.locks[k := Max(At(s.locks, k), vote.Balance())])
  }

  function TryVote(s: State, who: Account, r: nat, vote: AccountVote): Outcome {
    if !IsOngoing(s.referenda, r) then Failed(ReferendumInvalid)
    else
      var k := (who, s.referenda[r].status.asset);
      var v := VotingAt(s.voting, k);
      if vote.Balance() > At(s.free, k) then Failed(InsufficientFunds)
      else if v.Delegating? then Failed(AlreadyDelegating)
      else if r !in v.votes && |v.votes| > s.config.maxVotes then Failed(MaxVotesReached)
      else Done(RecordVote(s, k, r, vote))
  }

  /** The end of a lock of some periods that starts at a block. */
  function LockEnd(config: Config, from: Block, periods: nat): Block {
    from + config.voteLockingPeriod * periods
  }

  /** Block until which the winning side stays locked, if it is locked at all. */
  function UnlockBlock(config: Config, info: ReferendumInfo, vote: AccountVote): Option<(Block, nat)>
    requires info.Finished?
  {
    match vote.LockedIf(info.approved)
    case Some((periods, amount)) => Some((LockEnd(config, info.finishedAt, periods), amount))
    case None => None
  }

  function ForgetVote(s: State, k: Key, r: nat, prior: PriorLock): State
    requires VotingAt(s.voting, k).Direct?
  {
    var v := VotingAt(s.voting, k);
    s.(voting := s.voting[k := Direct(v.votes - {r}, v.delegations, prior)],
       referenda :=
         if IsOngoing(s.referenda, r)
         then WithTally(s.referenda, r, s.referenda[r].status.tally.Minus(Weight(v, r)))
         else s.referenda)
  }

  function TryRemoveVote(s: State, who: Account, asset: Asset, r: nat, scope: UnvoteScope): Outcome {
    var k := (who, asset);
    var v := VotingAt(s.voting, k);
    if v.Delegating? then Done(s)
    else if r !in v.votes then Failed(NotVoter)
    else if r !in s.referenda then Done(ForgetVote(s, k, r, v.prior))
    else
      match s.referenda[r]
      case Ongoing(_) =>
        if scope.AnyVote? then Done(ForgetVote(s, k, r, v.prior)) else Failed(NoPermission)
      case Finished(_, _) =>
        match UnlockBlock(s.config, s.referenda[r], v.votes[r])
        case None => Done(ForgetVote(s, k, r, v.prior))
        case Some((unlockAt, amount)) =>
          if s.now >= unlockAt then Done(ForgetVote(s, k, r, v.prior))
          else if scope.AnyVote? then Done(ForgetVote(s, k, r, v.prior.Accumulate(unlockAt, amount)))
          else Failed(NoPermission)
  }

  // ---------- delegation ----------

  /** Change the delegations received by `k`, and every ongoing referendum that
      `k` has a standard vote on, by a signed amount. */
  function Bump(s: State, k: Key, amount: Delegations): State {
    var v := VotingAt(s.voting, k);
    s.(voting := s.voting[k := v.(delegations := v.delegations.Plus(amount))],
       referenda := map r | r in s.referenda :: Bumped(s.referenda[r], v, r, amount))
  }

  function Bumped(info: ReferendumInfo, v: AccountState, r: nat, amount: Delegations): ReferendumInfo {
    if info.Ongoing? && v.Direct? && r in v.votes && v.votes[r].Standard?
    then Ongoing(info.status.(tally := info.status.tally.Plus(Side(v.votes[r].aye, amount))))
    else info
  }

  /** End the delegation of `k`, leaving it without votes. */
  function Detach(s: State, k: Key): State
    requires VotingAt(s.voting, k).Delegating?
  {
    var v := VotingAt(s.voting, k);
    var s' := Bump(s, (v.target, k.1), v.conviction.Votes(v.balance).Negate());
    s'.(voting := s'.voting[k := Direct(map[], v.delegations, v.prior)])
  }

  /** Start a delegation for an account without votes. */
  function Attach(s: State, k: Key, target: Account, conviction: Conviction, balance: nat): State
    requires VotingAt(s.voting, k).Direct?
  {
    var v := VotingAt(s.voting, k);
    var s' := Bump(s, (target, k.1), conviction.Votes(balance));
    s'.(voting := s'.voting[k := Delegating(balance, target, conviction, v.delegations, v.prior)],
        locks := s'.locks[k := Max(At(s'.locks, k), balance)])
  }

  function TryDelegate(s: State, who: Account, target: Account, asset: Asset,
                       conviction: Conviction, balance: nat): Outcome
  {
    var k := (who, asset);
    var v := VotingAt(s.voting, k);
    if who == target then Failed(Nonsense)
    else if balance > At(s.free, k) then Failed(InsufficientFunds)
    else if v.Direct? && v.votes != map[] then Failed(VotesExist)
    else
      var s' := if v.Delegating? then Detach(s, k) else s;
      Done(Attach(s', k, target, conviction, balance))
  }

  function TryUndelegate(s: State, who: Account, asset: Asset): Outcome {
    var k := (who, asset);
    var v := VotingAt(s.voting, k);
    if v.Direct? then Failed(NotDelegating)
    else
      var s' := Detach(s, k);
      var until := LockEnd(s.config, s.now, v.conviction.LockPeriods());
      Done(s'.(voting := s'.voting[k := Direct(map[], v.delegations, v.prior.Accumulate(until, v.balance))]))
  }

  // ---------- locks ----------

  /** The largest of some floor and the balances of a set of votes. */
  ghost function LargestVote(votes: Votes, floor: nat): nat {
    if votes == map[] then floor
    else
      var r :| r in votes;
      Max(votes[r].Balance(), LargestVote(votes - {r}, floor))
  }

  ghost function LockNeeded(v: AccountState): nat {
    match v
    case Direct(votes, _, prior) => LargestVote(votes, prior.amount)
    case Delegating(balance, _, _, _, _) => balance
  }

  ghost function Unlock(s: State, who: Account, asset: Asset): State {
    var k := (who, asset);
    var v := VotingAt(s.voting, k);
    var v' := v.(prior := v.prior.Rejig(s.now));
    s.(voting := s.voting[k := v'], locks := s.locks[k := LockNeeded(v')])
  }

  // ---------- referenda ----------

  function Start(s: State, period: nat, asset: Asset, threshold: VoteThreshold, delay: Block): State {
    s.(referenda := s.referenda[s.count := Ongoing(Status(s.now + period, asset, threshold, delay, EMPTY_TALLY))],
       count := s.count + 1)
  }

  function Cancel(s: State, r: nat): State {
    s.(referenda := s.referenda - {r})
  }

  predicate Verdict(status: Status, issuance: map<Asset, nat>) {
    status.tally.turnout >= 0 &&
    VoteThresholds.Passes(status.threshold, status.tally, At(issuance, status.asset))
  }

  /** A referendum inside the scanned range that ends at this block. */
  predicate Matures(referenda: Referenda, r: nat, from: nat, to: nat, now: Block) {
    from <= r < to && IsOngoing(referenda, r) && referenda[r].status.end == now
  }

  function Bake(s: State, from: nat, to: nat): Referenda {
    map r | r in s.referenda ::
      if Matures(s.referenda, r, from, to, s.now)
      then Finished(Verdict(s.referenda[r].status, s.issuance), s.now)
      else s.referenda[r]
  }

  /** First index at or after `from` that is still ongoing, or `to`. */
  function SkipBaked(referenda: Referenda, from: nat, to: nat): (next: nat)
    requires from <= to
    ensures from <= next <= to
    ensures forall r :: from <= r < next ==> !IsOngoing(referenda, r)
    ensures next < to ==> IsOngoing(referenda, next)
    decreases if from <= to then to - from else 0
  {
    if from < to && !IsOngoing(referenda, from) then SkipBaked(referenda, from + 1, to) else from
  }

  datatype Tabled = Tabled(asset: Asset, threshold: VoteThreshold)

  /** The clock moves, and what is waiting is tabled. */
  function OpenBlock(s: State, launched: Option<Tabled>): State {
    var s1 := s.(now := s.now + 1);
    if launched.Some?
    then Start(s1, s.config.votingPeriod, launched.value.asset, launched.value.threshold, s.config.enactmentPeriod)
    else s1
  }

  /** The start of a block: table what is waiting, bake what ends now, and move the
      scanning bound. The range is the one that was current before tabling. */
  function BeginBlock(s: State, launched: Option<Tabled>): State
    requires s.lowestUnbaked <= s.count
  {
    var s' := OpenBlock(s, launched);
    var referenda := Bake(s', s.lowestUnbaked, s.count);
    s'.(referenda := referenda, lowestUnbaked := SkipBaked(referenda, s.lowestUnbaked, s.count))
  }

  // ---------- the currency around the pallet ----------

  ghost function Supply(free: map<Key, nat>, asset: Asset): int {
    Sum(free.Keys, SupplyWeight(free, asset))
  }

  ghost function SupplyWeight(free: map<Key, nat>, asset: Asset): Key -> int {
    (k: Key) => if k.1 == asset then At(free, k) else 0
  }

  /** No asset has more free balance than issuance, and six times the issuance is a balance. */
  ghost predicate SoundCurrency(free: map<Key, nat>, issuance: map<Asset, nat>) {
    forall asset: Asset {:trigger At(issuance, asset)} ::
      Supply(free, asset) <= At(issuance, asset) && 6 * At(issuance, asset) <= MAX_BALANCE
  }

  /** Any movement of funds that leaves locked balances where they are. */
  ghost predicate RespectsLocks(s: State, free: map<Key, nat>) {
    forall k: Key {:trigger At(free, k)} ::
      At(free, k) >= At(s.locks, k) || At(free, k) >= At(s.free, k)
  }

  // ---------- runs ----------

  datatype Op =
    | Vote(who: Account, index: nat, vote: AccountVote)
    | RemoveVote(who: Account, asset: Asset, index: nat, scope: UnvoteScope)
    | Delegate(who: Account, target: Account, asset: Asset, conviction: Conviction, balance: nat)
    | Undelegate(who: Account, asset: Asset)
    | UnlockFunds(who: Account, asset: Asset)
    | StartReferendum(period: nat, asset: Asset, threshold: VoteThreshold, delay: Block)
    | CancelReferendum(index: nat)
    | NextBlock(launched: Option<Tabled>)
    | MoveFunds(free: map<Key, nat>, issuance: map<Asset, nat>)

  /** A failed call leaves the state as it was. */
  function Commit(s: State, outcome: Outcome): State {
    if outcome.Done? then outcome.state else s
  }

  ghost function Apply(s: State, op: Op): State {
    match op
    case Vote(who, r, vote) => Commit(s, TryVote(s, who, r, vote))
    case RemoveVote(who, asset, r, scope) => Commit(s, TryRemoveVote(s, who, asset, r, scope))
    case Delegate(who, target, asset, conviction, balance) =>
      Commit(s, TryDelegate(s, who, target, asset, conviction, balance))
    case Undelegate(who, asset) => Commit(s, TryUndelegate(s, who, asset))
    case UnlockFunds(who, asset) => Unlock(s, who, asset)
    case StartReferendum(period, asset, threshold, delay) => Start(s, period, asset, threshold, delay)
    case CancelReferendum(r) => Cancel(s, r)
    case NextBlock(launched) => if s.lowestUnbaked <= s.count then BeginBlock(s, launched) else s
    case MoveFunds(free, issuance) =>
      if SoundCurrency(free, issuance) && RespectsLocks(s, free)
      then s.(free := free, issuance := issuance)
      else s
  }

  ghost function Run(s: State, ops: seq<Op>): State {
    if ops == [] then s else Apply(Run(s, ops[..|ops| - 1]), ops[|ops| - 1])
  }

  /** Storage at genesis, with any sound distribution of funds. */
  ghost predicate Genesis(s: State) {
    && s.voting == map[] && s.referenda == map[] && s.locks == map[]
    && s.count == 0 && s.lowestUnbaked == 0
    && SoundCurrency(s.free, s.issuance)
  }

  // ---------- recomputation from scratch ----------

  datatype Part = Ayes | Nays | Turnout

  function Component(t: Tally, p: Part): int {
    match p
    case Ayes => t.ayes
    case Nays => t.nays
    case Turnout => t.turnout
  }

  /** The tally of a referendum, added up over all accounts and their recorded delegations. */
  ghost function Recount(voting: Accounts, r: nat, p: Part): int {
    Sum(voting.Keys, RecountWeight(voting, r, p))
  }

  ghost function RecountWeight(voting: Accounts, r: nat, p: Part): Key -> int {
    (k: Key) => Component(Weight(VotingAt(voting, k), r), p)
  }

  datatype DelegationPart = VotesPart | CapitalPart

  function Share(d: Delegations, p: DelegationPart): int {
    match p
    case VotesPart => d.votes
    case CapitalPart => d.capital
  }

  /** What the account state `v` of `giver` delegates to `k`. */
  function Given(giver: Key, v: AccountState, k: Key): Delegations {
    if v.Delegating? && v.target == k.0 && giver.1 == k.1
    then v.conviction.Votes(v.balance)
    else NO_DELEGATIONS
  }

  /** The delegations to `k`, added up over all accounts. */
  ghost function Received(voting: Accounts, k: Key, p: DelegationPart): int {
    Sum(voting.Keys, ReceivedWeight(voting, k, p))
  }

  ghost function ReceivedWeight(voting: Accounts, k: Key, p: DelegationPart): Key -> int {
    (giver: Key) => Share(Given(giver, VotingAt(voting, giver), k), p)
  }

  /** The weight one account places on a referendum with its own funds only: by its own
      vote, or through the standard vote of the account it delegates to. Nothing cached
      is consulted. */
  function OwnStake(voting: Accounts, k: Key, r: nat): Tally {
    match VotingAt(voting, k)
    case Direct(votes, _, _) => if r in votes then OwnWeight(votes[r]) else EMPTY_TALLY
    case Delegating(balance, target, conviction, _, _) =>
      var t := VotingAt(voting, (target, k.1));
      if t.Direct? && r in t.votes && t.votes[r].Standard?
      then Side(t.votes[r].aye, conviction.Votes(balance))
      else EMPTY_TALLY
  }

  ghost function FromScratch(voting: Accounts, r: nat, p: Part): int {
    Sum(voting.Keys, StakeWeight(voting, r, p))
  }

  ghost function StakeWeight(voting: Accounts, r: nat, p: Part): Key -> int {
    (k: Key) => Component(OwnStake(voting, k, r), p)
  }

  // ---------- the invariant ----------

  ghost predicate DelegationsAgree(voting: Accounts) {
    forall k: Key, p: DelegationPart {:trigger Received(voting, k, p)} ::
      Share(VotingAt(voting, k).delegations, p) == Received(voting, k, p)
  }

  ghost predicate TallyAgrees(voting: Accounts, r: nat, tally: Tally) {
    forall p: Part {:trigger Recount(voting, r, p)} :: Component(tally, p) == Recount(voting, r, p)
  }

  ghost predicate TalliesAgree(voting: Accounts, referenda: Referenda) {
    forall r: nat :: IsOngoing(referenda, r) ==> TallyAgrees(voting, r, referenda[r].status.tally)
  }

  /** What holds of one account: its votes name referenda that exist or existed, and of
      its own asset; it does not delegate to itself; and everything it has voted or
      delegated is locked and still there. */
  predicate AccountSound(v: AccountState, k: Key, referenda: Referenda, count: nat, lock: nat, free: nat) {
    match v
    case Direct(votes, _, _) =>
      forall r :: r in votes ==>
        && r < count
        && (IsOngoing(referenda, r) ==> referenda[r].status.asset == k.1)
        && votes[r].Balance() <= lock
        && votes[r].Balance() <= free
    case Delegating(balance, target, _, _, _) => target != k.0 && balance <= lock && balance <= free
  }

  ghost predicate SoundAt(s: State, k: Key) {
    AccountSound(VotingAt(s.voting, k), k, s.referenda, s.count, At(s.locks, k), At(s.free, k))
  }

  ghost predicate AccountsSound(s: State) {
    forall k: Key :: SoundAt(s, k)
  }

  /** Referenda are numbered below the count, and none below the scanning bound is ongoing. */
  ghost predicate IndicesInPlace(s: State) {
    && s.lowestUnbaked <= s.count
    && forall r :: r in s.referenda ==> r < s.count && (r < s.lowestUnbaked ==> s.referenda[r].Finished?)
  }

  ghost predicate Inv(s: State) {
    && DelegationsAgree(s.voting)
    && TalliesAgree(s.voting, s.referenda)
    && AccountsSound(s)
    && IndicesInPlace(s)
    && SoundCurrency(s.free, s.issuance)
  }
}
