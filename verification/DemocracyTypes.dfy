/** The values of the democracy pallet: convictions, votes, delegations, tallies,
    prior locks and referenda, with the bounded arithmetic the pallet performs on them. */
module DemocracyTypes {
  import opened Amounts

  /** `VotingOf` is keyed by an account and the asset it votes with. */
  type Key = (Account, Asset)

  datatype Conviction = Unlocked | Locked1x | Locked2x | Locked3x | Locked4x | Locked5x | Locked6x
  {
    /** Capital times the numeric value of the conviction. */
    function Multiply(capital: nat): nat {
      match this
      case Unlocked => 0
      case Locked1x => capital
      case Locked2x => 2 * capital
      case Locked3x => 3 * capital
      case Locked4x => 4 * capital
      case Locked5x => 5 * capital
      case Locked6x => 6 * capital
    }

    function LockPeriods(): nat {
      match this
      case Unlocked => 0
      case Locked1x => 1
      case Locked2x => 2
      case Locked3x => 4
      case Locked4x => 8
      case Locked5x => 16
      case Locked6x => 32
    }

    /** Post-conviction votes of some capital: a tenth without conviction, and
        otherwise a multiple that stops at the largest balance. */
    function Votes(capital: nat): (d: Delegations)
      ensures d.capital == capital && 0 <= d.votes <= 6 * capital
    {
      var votes :=
        if Unlocked? then capital / 10
        else if Multiply(capital) <= MAX_BALANCE then Multiply(capital)
        else MAX_BALANCE;
      Delegations(votes, capital)
    }
  }

  datatype Delegations = Delegations(votes: int, capital: int)
  {
    function Plus(o: Delegations): Delegations {
      Delegations(votes + o.votes, capital + o.capital)
    }

    function Negate(): Delegations {
      Delegations(-votes, -capital)
    }

    /** The component-wise `saturating_add` of the pallet. */
    function SatAdd(o: Delegations): Delegations {
      Delegations(SaturatingAdd(votes, o.votes), SaturatingAdd(capital, o.capital))
    }

    /** The component-wise `saturating_sub` of the pallet. */
    function SatSub(o: Delegations): Delegations {
      Delegations(SaturatingSub(votes, o.votes), SaturatingSub(capital, o.capital))
    }
  }

  const NO_DELEGATIONS := Delegations(0, 0)

  datatype AccountVote =
    | Standard(aye: bool, conviction: Conviction, amount: nat)
    | Split(ayes: nat, nays: nat)
  {
    /** The balance a vote puts at stake. */
    function Balance(): nat {
      match this
      case Standard(_, _, amount) => amount
      case Split(ayes, nays) => if ayes + nays <= MAX_BALANCE then ayes + nays else MAX_BALANCE
    }

    /** Lock periods and balance owed by the winning side. */
    function LockedIf(approved: bool): Option<(nat, nat)> {
      match this
      case Standard(aye, conviction, amount) =>
        if aye == approved then Some((conviction.LockPeriods(), amount)) else None
      case Split(_, _) => None
    }
  }

  /** The three running totals of a referendum. */
  datatype Tally = Tally(ayes: int, nays: int, turnout: int)
  {
    function Plus(o: Tally): Tally {
      Tally(ayes + o.ayes, nays + o.nays, turnout + o.turnout)
    }

    function Minus(o: Tally): Tally {
      Tally(ayes - o.ayes, nays - o.nays, turnout - o.turnout)
    }

    /** `Tally::add`: `None` as soon as one of the checked additions overflows. */
    function Add(vote: AccountVote): Option<Tally> {
      var w := OwnWeight(vote);
      if turnout + w.turnout > MAX_BALANCE then None
      else if ayes + w.ayes > MAX_BALANCE then None
      else if nays + w.nays > MAX_BALANCE then None
      else Some(Plus(w))
    }

    /** `Tally::remove`: `None` as soon as one of the checked subtractions underflows. */
    function Remove(vote: AccountVote): Option<Tally> {
      var w := OwnWeight(vote);
      if turnout < w.turnout then None
      else if ayes < w.ayes then None
      else if nays < w.nays then None
      else Some(Minus(w))
    }

    /** `Tally::increase`, which saturates. */
    function Increase(approve: bool, d: Delegations): Tally {
      if approve
      then Tally(SaturatingAdd(ayes, d.votes), nays, SaturatingAdd(turnout, d.capital))
      else Tally(ayes, SaturatingAdd(nays, d.votes), SaturatingAdd(turnout, d.capital))
    }

    /** `Tally::reduce`, which saturates at zero. */
    function Reduce(approve: bool, d: Delegations): Tally {
      if approve
      then Tally(SaturatingSub(ayes, d.votes), nays, SaturatingSub(turnout, d.capital))
      else Tally(ayes, SaturatingSub(nays, d.votes), SaturatingSub(turnout, d.capital))
    }
  }

  const EMPTY_TALLY := Tally(0, 0, 0)

  /** Delegated weight placed on one side of a referendum. */
  function Side(aye: bool, d: Delegations): Tally {
    if aye then Tally(d.votes, 0, d.capital) else Tally(0, d.votes, d.capital)
  }

  /** What a vote weighs by itself, without delegations. */
  function OwnWeight(vote: AccountVote): (w: Tally)
    ensures w.ayes >= 0 && w.nays >= 0 && w.turnout >= 0
    ensures w.ayes <= 6 * w.turnout && w.nays <= 6 * w.turnout
  {
    match vote
    case Standard(aye, conviction, amount) => Side(aye, conviction.Votes(amount))
    case Split(ayes, nays) =>
      Tally(Unlocked.Votes(ayes).votes, Unlocked.Votes(nays).votes, ayes + nays)
  }

  /** What a vote weighs together with the delegations its owner has received:
      delegations follow standard votes only. */
  function FullWeight(vote: AccountVote, received: Delegations): Tally {
    if vote.Standard? then OwnWeight(vote).Plus(Side(vote.aye, received)) else OwnWeight(vote)
  }

  datatype PriorLock = PriorLock(until: Block, amount: nat)
  {
    function Accumulate(until': Block, amount': nat): PriorLock {
      PriorLock(Max(until, until'), Max(amount, amount'))
    }

    function Rejig(now: Block): PriorLock {
      if now >= until then PriorLock(0, 0) else this
    }
  }

  const NO_PRIOR := PriorLock(0, 0)

  /** What an account is doing with one asset. `V` is the representation of its
      votes: a sorted list in the pallet, a finite map in the specification. */
  datatype Voting<V> =
    | Direct(votes: V, delegations: Delegations, prior: PriorLock)
    | Delegating(balance: nat, target: Account, conviction: Conviction,
                 delegations: Delegations, prior: PriorLock)

  datatype VoteThreshold = SuperMajorityApprove | SuperMajorityAgainst | SimpleMajority

  datatype Status = Status(end: Block, asset: Asset, threshold: VoteThreshold, delay: Block, tally: Tally)

  datatype ReferendumInfo =
    | Ongoing(status: Status)
    | Finished(approved: bool, finishedAt: Block)

  datatype UnvoteScope = AnyVote | OnlyExpired

  datatype Error =
    | ReferendumInvalid | InsufficientFunds | AlreadyDelegating | MaxVotesReached
    | NotVoter | NoPermission | Nonsense | VotesExist | NotDelegating
    | Underflow | Overflow

  // ---------- what convictions and tallies promise ----------

  /** The seven convictions in order. */
  function Level(c: Conviction): nat {
    match c
    case Unlocked => 0
    case Locked1x => 1
    case Locked2x => 2
    case Locked3x => 3
    case Locked4x => 4
    case Locked5x => 5
    case Locked6x => 6
  }

  /** A conviction multiplies capital by its level, or divides it by ten without a lock, up
      to the largest balance. */
  lemma VotesByLevel(c: Conviction, capital: nat)
    ensures c.Votes(capital).capital == capital
    ensures c.Votes(capital).votes == if Level(c) == 0 then capital / 10 else Min(Level(c) * capital, MAX_BALANCE)
  {
  }

  /** The convictions that lock, by their numbers. */
  const LADDER: seq<Conviction> := [Locked1x, Locked2x, Locked3x, Locked4x, Locked5x, Locked6x]

  /** Without a lock there are no lock periods and a tenth of a vote; the first level locks for
      one period and votes with the capital; each further level doubles the lock and adds the
      capital once more. */
  lemma NextLevel(i: nat, capital: nat)
    requires i < |LADDER| && |LADDER| * capital <= MAX_BALANCE
    ensures Unlocked.LockPeriods() == 0 && Unlocked.Votes(capital).votes == capital / 10
    ensures i == 0 ==> LADDER[i].LockPeriods() == 1 && LADDER[i].Votes(capital).votes == capital
    ensures i > 0 ==>
      && LADDER[i].LockPeriods() == 2 * LADDER[i - 1].LockPeriods()
      && LADDER[i].Votes(capital).votes == LADDER[i - 1].Votes(capital).votes + capital
  {
  }

  /** A split vote weighs what an aye and a nay without a lock weigh together. */
  lemma SplitIsTwoVotes(ayes: nat, nays: nat)
    ensures OwnWeight(Split(ayes, nays))
      == OwnWeight(Standard(true, Unlocked, ayes)).Plus(OwnWeight(Standard(false, Unlocked, nays)))
  {
  }

  predicate InRange(t: Tally) {
    0 <= t.ayes <= MAX_BALANCE && 0 <= t.nays <= MAX_BALANCE && 0 <= t.turnout <= MAX_BALANCE
  }

  /** A vote can be added exactly when the sums are balances, and removing it again gives
      the tally back. */
  lemma RemoveUndoesAdd(t: Tally, vote: AccountVote)
    requires InRange(t)
    ensures t.Add(vote).Some? <==> InRange(t.Plus(OwnWeight(vote)))
    ensures t.Add(vote).Some? ==> t.Add(vote).value.Remove(vote) == Some(t)
  {
  }

  /** Delegations can be taken off again exactly when adding them was not cut off. */
  lemma ReduceUndoesIncrease(t: Tally, approve: bool, d: Delegations)
    requires InRange(t) && 0 <= d.votes <= MAX_BALANCE && 0 <= d.capital <= MAX_BALANCE
    ensures t.Increase(approve, d).Reduce(approve, d) == t <==> InRange(t.Plus(Side(approve, d)))
  {
  }
}
