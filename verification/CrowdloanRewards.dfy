/** Crowdloan rewards: a payment up front and the rest vested in steps, claimed at any time. */
module CrowdloanRewards {
  import opened Amounts
  import opened Arithmetic
  import opened FiniteSums

  const MAX_CONTRIBUTORS: nat := 0xFFFF_FFFF
  const BILLION: nat := 1_000_000_000

  type Perbill = n: nat | n <= BILLION
  type Step = n: nat | n > 0 witness 1
  type Remote = nat

  datatype Config = Config(initialPayment: Perbill, vestingStep: Step)
  datatype Reward = Reward(total: Balance, claimed: Balance, period: Block)
  datatype Entry = Entry(remote: Remote, total: Balance, period: Block)

  datatype State = State(
    config: Config,
    rewards: map<Remote, Reward>,
    totalRewards: Balance,
    claimedRewards: Balance,
    totalContributors: nat,
    start: Option<Block>,
    associations: map<Account, Remote>,
    minted: map<Account, nat>,
    now: Block)

  datatype Error =
    | NotInitialized | AlreadyInitialized | InvalidProof | NothingToClaim | NotAssociated
    | AlreadyAssociated | NotClaimableYet | Underflow

  datatype Outcome = Done(state: State, value: nat) | Failed(error: Error)

  // ---------- arithmetic of the balance type ----------

  function Capped(n: nat): Balance {
    if n > MAX_BALANCE then MAX_BALANCE else n
  }

  // ---------- the vesting schedule ----------

  function Upfront(config: Config, total: Balance): nat {
    config.initialPayment * total / BILLION
  }

  /** The blocks since the start, rounded down to whole steps. */
  function Window(point: nat, step: Step): nat {
    SaturatingSub(point, point % step)
  }

  /** The vested part of some amount after part of the period. */
  function Vested(amount: nat, window: nat, period: nat): nat
    requires period > 0
  {
    Capped(amount * window) / period
  }

  /** What an account should have claimed by a block. */
  function Due(config: Config, total: Balance, period: Block, start: Block, now: Block): Balance {
    var point := SaturatingSub(now, start);
    if point >= period then total
    else
      var upfront := Upfront(config, total);
      Capped(upfront + Vested(SaturatingSub(total, upfront), Window(point, config.vestingStep), period))
  }

  lemma UpfrontWithin(config: Config, total: Balance)
    ensures Upfront(config, total) <= total
  {
    MulLe(config.initialPayment, BILLION, total);
    DivMonotone(config.initialPayment * total, BILLION * total, BILLION);
    DivUnique(BILLION * total, BILLION, total);
  }

  lemma VestedWithin(amount: nat, window: nat, period: nat)
    requires 0 < period && window <= period
    ensures Vested(amount, window, period) <= amount
  {
    MulLe(window, period, amount);
    assert window * amount == amount * window && (amount + 1) * period == period * amount + period;
    DivIsMax(Capped(amount * window), period, amount + 1);
  }

  lemma VestedMonotone(amount: nat, w1: nat, w2: nat, period: nat)
    requires 0 < period && w1 <= w2
    ensures Vested(amount, w1, period) <= Vested(amount, w2, period)
  {
    MulLe(w1, w2, amount);
    assert w1 * amount == amount * w1 && w2 * amount == amount * w2;
    DivMonotone(Capped(amount * w1), Capped(amount * w2), period);
  }

  lemma WindowIs(point: nat, step: Step)
    ensures Window(point, step) == point / step * step <= point
  {
    DivBounds(point, step);
  }

  lemma WindowMonotone(p1: nat, p2: nat, step: Step)
    requires p1 <= p2
    ensures Window(p1, step) <= Window(p2, step) <= p2
  {
    WindowIs(p1, step);
    WindowIs(p2, step);
    DivMonotone(p1, p2, step);
    MulLe(p1 / step, p2 / step, step);
  }

  /** Nobody is ever due more than the total. */
  lemma DueWithin(config: Config, total: Balance, period: Block, start: Block, now: Block)
    ensures Due(config, total, period, start, now) <= total
  {
    var point := SaturatingSub(now, start);
    if point < period {
      var upfront := Upfront(config, total);
      UpfrontWithin(config, total);
      WindowMonotone(point, point, config.vestingStep);
      VestedWithin(total - upfront, Window(point, config.vestingStep), period);
    }
  }

  /** What is due never falls as blocks pass, saturation included. */
  lemma DueMonotone(config: Config, total: Balance, period: Block, start: Block, t1: Block, t2: Block)
    requires t1 <= t2
    ensures Due(config, total, period, start, t1) <= Due(config, total, period, start, t2)
  {
    var p1, p2 := SaturatingSub(t1, start), SaturatingSub(t2, start);
    DueWithin(config, total, period, start, t1);
    if p2 < period {
      WindowMonotone(p1, p2, config.vestingStep);
      VestedMonotone(SaturatingSub(total, Upfront(config, total)),
                     Window(p1, config.vestingStep), Window(p2, config.vestingStep), period);
    }
  }

  /** Between two step boundaries nothing more becomes due, until the period is over. */
  lemma DueMovesInSteps(config: Config, total: Balance, period: Block, start: Block, t1: Block, t2: Block)
    requires SaturatingSub(t1, start) / config.vestingStep == SaturatingSub(t2, start) / config.vestingStep
    requires SaturatingSub(t1, start) < period && SaturatingSub(t2, start) < period
    ensures Due(config, total, period, start, t1) == Due(config, total, period, start, t2)
  {
    WindowIs(SaturatingSub(t1, start), config.vestingStep);
    WindowIs(SaturatingSub(t2, start), config.vestingStep);
  }

  /** Everything is due once the period is over. Before, what is due is the payment up front,
      the configured parts of a billion, and the exact proportion of the rest for the whole
      steps passed, all rounded down, wherever the product fits the balance type. */
  lemma DueIsProportional(config: Config, total: Balance, period: Block, start: Block, now: Block)
    ensures
      var passed, upfront := Max(now - start, 0), config.initialPayment * total / 1_000_000_000;
      var vested := (total - upfront) * (passed / config.vestingStep * config.vestingStep);
      && 0 <= upfront <= total
      && Due(config, total, period, start, now) ==
           if passed >= period then total
           else if vested <= MAX_BALANCE then upfront + vested / period
           else upfront + MAX_BALANCE / period
  {
    var point, upfront := SaturatingSub(now, start), Upfront(config, total);
    UpfrontWithin(config, total);
    if point < period {
      WindowIs(point, config.vestingStep);
      VestedWithin(total - upfront, Window(point, config.vestingStep), period);
    }
  }

  /** Up to the first step, nothing but the payment up front is due. */
  lemma FirstPayment(config: Config, total: Balance, period: Block, start: Block, now: Block)
    requires now < start + config.vestingStep && now < start + period && 0 < period
    ensures
      var due := Due(config, total, period, start, now);
      due * 1_000_000_000 <= config.initialPayment * total < (due + 1) * 1_000_000_000
  {
    var passed := SaturatingSub(now, start);
    UpfrontWithin(config, total);
    WindowIs(passed, config.vestingStep);
    DivUnique(passed, config.vestingStep, 0);
    DivUnique(0, period, 0);
    DivBounds(config.initialPayment * total, BILLION);
    NothingVested(total - Upfront(config, total), period);
  }

  lemma NothingVested(amount: nat, period: nat)
    requires 0 < period
    ensures Vested(amount, 0, period) == 0
  {
    DivUnique(0, period, 0);
    assert amount * 0 == 0;
  }

  // ---------- calls ----------

  function DueTo(s: State, reward: Reward, start: Block): Balance {
    Due(s.config, reward.total, reward.period, start, s.now)
  }

  function InitializeAt(s: State, at: Block): (o: Outcome)
    ensures o.Done? ==> s.start.None? && o.state == s.(start := Some(at))
  {
    if s.start.Some? then Failed(AlreadyInitialized) else Done(s.(start := Some(at)), 0)
  }

  /** The rewards listed, the last entry of an account counting. */
  function Listed(entries: seq<Entry>): map<Remote, Reward> {
    if entries == [] then map[]
    else
      var e := entries[|entries| - 1];
      Listed(entries[..|entries| - 1])[e.remote := Reward(e.total, 0, e.period)]
  }

  /** Later entries overwrite earlier ones, and nothing is claimed yet. */
  lemma {:induction false} ListedIs(entries: seq<Entry>, i: nat)
    requires i < |entries| && forall j :: i < j < |entries| ==> entries[j].remote != entries[i].remote
    ensures entries[i].remote in Listed(entries)
    ensures Listed(entries)[entries[i].remote] == Reward(entries[i].total, 0, entries[i].period)
  {
    if i < |entries| - 1 {
      ListedIs(entries[..|entries| - 1], i);
    }
  }

  ghost function Totals(rewards: map<Remote, Reward>): int {
    Sum(rewards.Keys, r => if r in rewards then rewards[r].total else 0)
  }

  ghost function Claims(rewards: map<Remote, Reward>): int {
    Sum(rewards.Keys, r => if r in rewards then rewards[r].claimed else 0)
  }

  ghost function Minted(minted: map<Account, nat>): int {
    Sum(minted.Keys, a => if a in minted then minted[a] else 0)
  }

  /** Rewards are replaced and the totals recomputed, with capped arithmetic. */
  ghost function Populate(s: State, entries: seq<Entry>): Outcome {
    if s.start.Some? then Failed(AlreadyInitialized)
    else
      var rewards := Listed(entries);
      SumNonNegative(rewards.Keys, r => if r in rewards then rewards[r].total else 0);
      Done(s.(rewards := rewards,
              totalRewards := Capped(Totals(rewards)),
              totalContributors := if |rewards| > MAX_CONTRIBUTORS then MAX_CONTRIBUTORS else |rewards|), 0)
  }

  function Claim(s: State, remote: Remote, account: Account): (o: Outcome)
    ensures o.Done? ==>
      && remote in s.rewards && remote in o.state.rewards
      && o.state == s.(rewards := s.rewards[remote := o.state.rewards[remote]],
                       claimedRewards := o.state.claimedRewards, minted := o.state.minted)
  {
    if remote !in s.rewards then Failed(InvalidProof)
    else if s.start.None? then Failed(NotInitialized)
    else
      var reward := s.rewards[remote];
      var available := SaturatingSub(DueTo(s, reward, s.start.value), reward.claimed);
      if available == 0 then Failed(NothingToClaim)
      else
        var held := if account in s.minted then s.minted[account] else 0;
        Done(s.(rewards := s.rewards[remote := reward.(claimed := Capped(available + reward.claimed))],
                claimedRewards := Capped(s.claimedRewards + available),
                minted := s.minted[account := held + available]), available)
  }

  /** The remote account is what the proof recovers, if anything. */
  function Associate(s: State, account: Account, proof: Option<Remote>): (o: Outcome)
    ensures o.Done? ==>
      && proof.Some? && Claim(s, proof.value, account).Done?
      && o.state == Claim(s, proof.value, account).state.(associations := s.associations[account := proof.value])
  {
    if s.start.None? then Failed(NotInitialized)
    else if s.start.value > s.now then Failed(NotClaimableYet)
    else if proof.None? then Failed(InvalidProof)
    else if account in s.associations then Failed(AlreadyAssociated)
    else
      match Claim(s, proof.value, account)
      case Failed(error) => Failed(error)
      case Done(t, value) => Done(t.(associations := t.associations[account := proof.value]), value)
  }

  function ClaimAssociated(s: State, account: Account): Outcome {
    if account !in s.associations then Failed(NotAssociated) else Claim(s, s.associations[account], account)
  }

  /** `amount_available_to_claim_for` subtracts without saturating. */
  function AvailableFor(s: State, account: Account): Outcome {
    if account !in s.associations then Failed(NotAssociated)
    else if s.associations[account] !in s.rewards then Failed(NothingToClaim)
    else if s.start.None? then Failed(NotInitialized)
    else
      var reward := s.rewards[s.associations[account]];
      var due := DueTo(s, reward, s.start.value);
      if due < reward.claimed then Failed(Underflow) else Done(s, due - reward.claimed)
  }

  // ---------- runs ----------

  datatype Op =
    | OpPopulate(entries: seq<Entry>)
    | OpInitializeAt(at: Block)
    | OpAssociate(account: Account, proof: Option<Remote>)
    | OpClaim(account: Account)
    | OpBlocks(passed: nat)

  function Commit(s: State, o: Outcome): State {
    if o.Done? then o.state else s
  }

  ghost function Apply(s: State, op: Op): State {
    match op
    case OpPopulate(entries) => Commit(s, Populate(s, entries))
    case OpInitializeAt(at) => Commit(s, InitializeAt(s, at))
    case OpAssociate(account, proof) => Commit(s, Associate(s, account, proof))
    case OpClaim(account) => Commit(s, ClaimAssociated(s, account))
    case OpBlocks(passed) => s.(now := s.now + passed)
  }

  ghost function Run(s: State, ops: seq<Op>): State {
    if ops == [] then s else Apply(Run(s, ops[..|ops| - 1]), ops[|ops| - 1])
  }

  function Genesis(config: Config, now: Block): State {
    State(config, map[], 0, 0, 0, None, map[], map[], now)
  }

  // ---------- what every state keeps ----------

  /** The counters are the capped sums of what they count, and every claimed unit was minted once. */
  ghost predicate Counted(s: State) {
    && 0 <= Claims(s.rewards) <= Totals(s.rewards)
    && s.claimedRewards == Capped(Claims(s.rewards))
    && s.totalRewards == Capped(Totals(s.rewards))
    && Minted(s.minted) == Claims(s.rewards)
  }

  /** Nobody has claimed what was not due yet; nothing is claimed before the start is set. */
  ghost predicate ClaimsAreDue(s: State) {
    && (s.start.None? ==> s.associations == map[])
    && forall r :: r in s.rewards ==>
         s.rewards[r].claimed <= if s.start.Some? then DueTo(s, s.rewards[r], s.start.value) else 0
  }

  ghost predicate Inv(s: State) {
    Counted(s) && ClaimsAreDue(s)
  }
}
