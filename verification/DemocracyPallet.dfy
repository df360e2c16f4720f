/** The pallet itself: storage maps updated in place, votes kept as lists sorted by
    referendum index, saturating and checked arithmetic, and loops that fan out from one
    account to its referenda. Every call is proved to do exactly what the state machine
    of `DemocracySpec` does in unbounded arithmetic, so that nothing ever saturates and
    none of the calls' arithmetic errors is ever returned. */
module DemocracyPallet {
  import opened Amounts
  import opened DemocracyTypes
  import opened DemocracySpec
  import opened DemocracyInvariant
  import opened DemocracyTheorems
  import VoteThresholds

  type VoteList = seq<(nat, AccountVote)>

  datatype CallResult = Ok | Err(error: Error)

  // ---------- sorted lists as maps ----------

  predicate StrictlySorted(votes: VoteList) {
    forall i, j :: 0 <= i < j < |votes| ==> votes[i].0 < votes[j].0
  }

  ghost function AsMap(votes: VoteList): Votes {
    if votes == [] then map[]
    else
      var last := votes[|votes| - 1];
      AsMap(votes[..|votes| - 1])[last.0 := last.1]
  }

  lemma {:induction false} AsMapConcat(a: VoteList, b: VoteList)
    ensures AsMap(a + b) == AsMap(a) + AsMap(b)
  {
    if b == [] {
      assert a + b == a;
    } else {
      var n := |b| - 1;
      AsMapConcat(a, b[..n]);
      assert (a + b)[..|a + b| - 1] == a + b[..n];
    }
  }

  lemma AsMapOne(r: nat, vote: AccountVote)
    ensures AsMap([(r, vote)]) == map[r := vote]
  {
    assert [(r, vote)][..0] == [];
  }

  /** Keys of the list, and only those, are keys of the map. */
  lemma {:induction false} AsMapBounds(votes: VoteList, lo: int, hi: int)
    requires forall i :: 0 <= i < |votes| ==> lo < votes[i].0 < hi
    ensures forall r :: r in AsMap(votes) ==> lo < r < hi
  {
    if votes != [] {
      AsMapBounds(votes[..|votes| - 1], lo, hi);
    }
  }

  lemma {:induction false} AsMapSize(votes: VoteList)
    requires StrictlySorted(votes)
    ensures |AsMap(votes)| == |votes|
  {
    if votes != [] {
      var n := |votes| - 1;
      AsMapSize(votes[..n]);
      AsMapBounds(votes[..n], -1, votes[n].0);
    }
  }

  /** Entries before and after a position of a sorted list have other keys. */
  predicate Around(before: VoteList, r: nat, after: VoteList) {
    && (forall j :: 0 <= j < |before| ==> before[j].0 < r)
    && (forall j :: 0 <= j < |after| ==> r < after[j].0)
  }

  lemma AsMapAround(before: VoteList, after: VoteList, r: nat)
    requires Around(before, r, after)
    ensures r !in AsMap(before) && r !in AsMap(after)
  {
    AsMapBounds(before, -1, r);
    AsMapAbove(after, r);
  }

  lemma {:induction false} AsMapAbove(votes: VoteList, lo: nat)
    requires forall i :: 0 <= i < |votes| ==> lo < votes[i].0
    ensures forall r :: r in AsMap(votes) ==> lo < r
  {
    if votes != [] {
      AsMapAbove(votes[..|votes| - 1], lo);
    }
  }

  lemma AsMapThree(before: VoteList, r: nat, vote: AccountVote, after: VoteList)
    ensures AsMap(before + [(r, vote)] + after) == AsMap(before) + map[r := vote] + AsMap(after)
  {
    AsMapConcat(before + [(r, vote)], after);
    AsMapConcat(before, [(r, vote)]);
    AsMapOne(r, vote);
  }

  lemma MapUpdate(a: Votes, b: Votes, r: nat, x: AccountVote, y: AccountVote)
    requires r !in a && r !in b
    ensures a + map[r := y] + b == (a + map[r := x] + b)[r := y]
    ensures a + map[r := y] + b == (a + b)[r := y]
    ensures a + b == (a + map[r := x] + b) - {r}
  {
  }

  /** Updating, inserting and removing at a position, as map operations. */
  lemma AsMapParts(before: VoteList, r: nat, x: AccountVote, y: AccountVote, after: VoteList)
    requires Around(before, r, after)
    ensures r in AsMap(before + [(r, x)] + after) && AsMap(before + [(r, x)] + after)[r] == x
    ensures AsMap(before + [(r, y)] + after) == AsMap(before + [(r, x)] + after)[r := y]
    ensures AsMap(before + [(r, y)] + after) == AsMap(before + after)[r := y]
    ensures AsMap(before + after) == AsMap(before + [(r, x)] + after) - {r}
    ensures r !in AsMap(before + after)
  {
    AsMapThree(before, r, x, after);
    AsMapThree(before, r, y, after);
    AsMapConcat(before, after);
    AsMapAround(before, after, r);
    MapUpdate(AsMap(before), AsMap(after), r, x, y);
  }

  lemma SplitList(votes: VoteList, i: nat)
    requires i < |votes|
    ensures votes == votes[..i] + [(votes[i].0, votes[i].1)] + votes[i + 1..]
    ensures StrictlySorted(votes) ==> Around(votes[..i], votes[i].0, votes[i + 1..])
  {
  }

  lemma AsMapUpdate(votes: VoteList, i: nat, vote: AccountVote)
    requires StrictlySorted(votes) && i < |votes|
    ensures votes[i].0 in AsMap(votes) && AsMap(votes)[votes[i].0] == votes[i].1
    ensures AsMap(votes[i := (votes[i].0, vote)]) == AsMap(votes)[votes[i].0 := vote]
  {
    SplitList(votes, i);
    AsMapParts(votes[..i], votes[i].0, votes[i].1, vote, votes[i + 1..]);
    assert votes[i := (votes[i].0, vote)] == votes[..i] + [(votes[i].0, vote)] + votes[i + 1..];
  }

  lemma AsMapInsert(votes: VoteList, i: nat, r: nat, vote: AccountVote)
    requires i <= |votes|
    requires Around(votes[..i], r, votes[i..])
    ensures r !in AsMap(votes)
    ensures AsMap(votes[..i] + [(r, vote)] + votes[i..]) == AsMap(votes)[r := vote]
  {
    AsMapParts(votes[..i], r, vote, vote, votes[i..]);
    assert votes == votes[..i] + votes[i..];
  }

  lemma AsMapRemove(votes: VoteList, i: nat)
    requires StrictlySorted(votes) && i < |votes|
    ensures AsMap(votes[..i] + votes[i + 1..]) == AsMap(votes) - {votes[i].0}
  {
    SplitList(votes, i);
    AsMapParts(votes[..i], votes[i].0, votes[i].1, votes[i].1, votes[i + 1..]);
  }

  lemma SortedInsert(votes: VoteList, i: nat, r: nat, vote: AccountVote)
    requires StrictlySorted(votes) && i <= |votes|
    requires Around(votes[..i], r, votes[i..])
    ensures StrictlySorted(votes[..i] + [(r, vote)] + votes[i..])
  {
  }

  /** The search of the standard library on a list sorted by key. */
  method BinarySearch(votes: VoteList, r: nat) returns (found: bool, i: nat)
    requires StrictlySorted(votes)
    ensures i <= |votes|
    ensures forall j :: 0 <= j < i ==> votes[j].0 < r
    ensures found ==> i < |votes| && votes[i].0 == r
    ensures !found ==> forall j :: i <= j < |votes| ==> r < votes[j].0
  {
    var lo: nat, hi: nat := 0, |votes|;
    while lo < hi
      invariant lo <= hi <= |votes|
      invariant forall j :: 0 <= j < lo ==> votes[j].0 < r
      invariant forall j :: hi <= j < |votes| ==> r <= votes[j].0
    {
      var mid := (lo + hi) / 2;
      if votes[mid].0 < r {
        lo := mid + 1;
      } else {
        hi := mid;
      }
    }
    i := lo;
    found := i < |votes| && votes[i].0 == r;
  }

  /** Looking a vote up in the list is looking it up in the map. */
  method FindVote(votes: VoteList, r: nat) returns (found: bool, i: nat)
    requires StrictlySorted(votes)
    ensures |AsMap(votes)| == |votes|
    ensures found <==> r in AsMap(votes)
    ensures found ==> i < |votes| && votes[i].0 == r && votes[i].1 == AsMap(votes)[r]
    ensures !found ==> i <= |votes| && Around(votes[..i], r, votes[i..])
  {
    AsMapSize(votes);
    found, i := BinarySearch(votes, r);
    if found {
      AsMapUpdate(votes, i, votes[i].1);
    } else {
      AsMapInsert(votes, i, r, Split(0, 0));
    }
  }

  /** Replace the vote on `r`, or insert it at its place if the list is not too long. */
  method PlaceVote(votes: VoteList, r: nat, vote: AccountVote, maxVotes: nat)
      returns (previous: Option<AccountVote>, placed: Option<VoteList>)
    requires StrictlySorted(votes)
    ensures previous == if r in AsMap(votes) then Some(AsMap(votes)[r]) else None
    ensures placed.None? <==> r !in AsMap(votes) && |AsMap(votes)| > maxVotes
    ensures placed.Some? ==> StrictlySorted(placed.value) && AsMap(placed.value) == AsMap(votes)[r := vote]
  {
    var found, i := FindVote(votes, r);
    if found {
      AsMapUpdate(votes, i, vote);
      return Some(votes[i].1), Some(votes[i := (r, vote)]);
    }
    if |votes| > maxVotes {
      return None, None;
    }
    AsMapInsert(votes, i, r, vote);
    SortedInsert(votes, i, r, vote);
    return None, Some(votes[..i] + [(r, vote)] + votes[i..]);
  }

  ghost function AsState(v: Voting<VoteList>): AccountState {
    match v
    case Direct(votes, delegations, prior) => Direct(AsMap(votes), delegations, prior)
    case Delegating(balance, target, conviction, delegations, prior) =>
      Delegating(balance, target, conviction, delegations, prior)
  }

  predicate SortedVotes(v: Voting<VoteList>) {
    v.Direct? ==> StrictlySorted(v.votes)
  }

  const NO_VOTES: Voting<VoteList> := Direct([], NO_DELEGATIONS, NO_PRIOR)

  // ---------- the bounded arithmetic is exact ----------

  predicate DelegationsInRange(d: Delegations) {
    0 <= d.votes <= MAX_BALANCE && 0 <= d.capital <= MAX_BALANCE
  }

  /** Taking a vote out, as the pallet does it. */
  function TakeOut(t: Tally, vote: AccountVote, d: Delegations): Option<Tally> {
    match t.Remove(vote)
    case None => None
    case Some(t1) => Some(if vote.Standard? then t1.Reduce(vote.aye, d) else t1)
  }

  /** Putting a vote in, as the pallet does it. */
  function PutIn(t: Tally, vote: AccountVote, d: Delegations): Option<Tally> {
    match t.Add(vote)
    case None => None
    case Some(t1) => Some(if vote.Standard? then t1.Increase(vote.aye, d) else t1)
  }

  lemma RemovalIsExact(t: Tally, vote: AccountVote, d: Delegations)
    requires d.votes >= 0 && d.capital >= 0
    requires
      var w := FullWeight(vote, d);
      w.ayes <= t.ayes && w.nays <= t.nays && w.turnout <= t.turnout
    ensures TakeOut(t, vote, d) == Some(t.Minus(FullWeight(vote, d)))
  {
  }

  lemma TakeOutIsExact(s: State, k: Key, r: nat)
    requires Inv(s) && IsOngoing(s.referenda, r)
    requires VotingAt(s.voting, k).Direct? && r in VotingAt(s.voting, k).votes
    ensures
      var v := VotingAt(s.voting, k);
      var t := s.referenda[r].status.tally;
      TakeOut(t, v.votes[r], v.delegations) == Some(t.Minus(Weight(v, r)))
  {
    var v := VotingAt(s.voting, k);
    DelegationsFit(s, k);
    WeightWithinTally(s, k, r);
    RemovalIsExact(s.referenda[r].status.tally, v.votes[r], v.delegations);
  }

  lemma PutInIsExact(t: Tally, vote: AccountVote, d: Delegations)
    requires t.ayes >= 0 && t.nays >= 0 && t.turnout >= 0 && d.votes >= 0 && d.capital >= 0
    requires InRange(t.Plus(FullWeight(vote, d)))
    ensures PutIn(t, vote, d) == Some(t.Plus(FullWeight(vote, d)))
  {
  }

  /** All that a call computes on the way to recording a vote. */
  lemma VoteIsExact(s: State, who: Account, r: nat, vote: AccountVote)
    requires Inv(s) && TryVote(s, who, r, vote).Done?
    ensures
      var k := (who, s.referenda[r].status.asset);
      var v := VotingAt(s.voting, k);
      var t := s.referenda[r].status.tally;
      var t1 := t.Minus(Weight(v, r));
      && (r in v.votes ==> TakeOut(t, v.votes[r], v.delegations) == Some(t1))
      && (r !in v.votes ==> t1 == t)
      && PutIn(t1, vote, v.delegations) == Some(t1.Plus(FullWeight(vote, v.delegations)))
  {
    var k := (who, s.referenda[r].status.asset);
    var v := VotingAt(s.voting, k);
    var s' := RecordVote(s, k, r, vote);
    TallyFits(s, r);
    WeightWithinTally(s, k, r);
    DelegationsFit(s, k);
    if r in v.votes {
      TakeOutIsExact(s, k, r);
    }
    VoteKeepsInv(s, who, r, vote);
    TallyFits(s', r);
    PutInIsExact(s.referenda[r].status.tally.Minus(Weight(v, r)), vote, v.delegations);
  }

  /** The tally after a vote, with the previous vote of the account taken out first. */
  method Retally(ghost s: State, ghost who: Account, ghost r: nat,
                 tally: Tally, previous: Option<AccountVote>, vote: AccountVote, d: Delegations)
      returns (result: CallResult, tally': Tally)
    requires Inv(s) && TryVote(s, who, r, vote).Done?
    requires tally == s.referenda[r].status.tally
    requires
      var v := VotingAt(s.voting, (who, s.referenda[r].status.asset));
      d == v.delegations && previous == if r in v.votes then Some(v.votes[r]) else None
    ensures result == Ok && tally' == TryVote(s, who, r, vote).state.referenda[r].status.tally
  {
    VoteIsExact(s, who, r, vote);
    tally' := tally;
    if previous.Some? {
      var removed := TakeOut(tally', previous.value, d);
      if removed.None? {
        return Err(Underflow), tally';
      }
      tally' := removed.value;
    }
    var added := PutIn(tally', vote, d);
    if added.None? {
      return Err(Overflow), tally';
    }
    return Ok, added.value;
  }

  /** The tally after a vote is withdrawn. */
  method Untally(ghost s: State, ghost k: Key, ghost r: nat, tally: Tally, vote: AccountVote, d: Delegations)
      returns (result: CallResult, tally': Tally)
    requires Inv(s) && IsOngoing(s.referenda, r) && tally == s.referenda[r].status.tally
    requires
      var v := VotingAt(s.voting, k);
      v.Direct? && r in v.votes && vote == v.votes[r] && d == v.delegations
    ensures result == Ok && tally' == tally.Minus(Weight(VotingAt(s.voting, k), r))
  {
    TakeOutIsExact(s, k, r);
    var removed := TakeOut(tally, vote, d);
    if removed.None? {
      return Err(Underflow), tally;
    }
    return Ok, removed.value;
  }

  /** Whether a vote on a finished referendum may be removed, and the prior lock it leaves. */
  method Release(config: Config, info: ReferendumInfo, vote: AccountVote, prior: PriorLock, now: Block, scope: UnvoteScope)
      returns (allowed: bool, prior': PriorLock)
    requires info.Finished?
    ensures
      match UnlockBlock(config, info, vote)
      case None => allowed && prior' == prior
      case Some((unlockAt, amount)) =>
        if now >= unlockAt then allowed && prior' == prior
        else allowed == scope.AnyVote? && (allowed ==> prior' == prior.Accumulate(unlockAt, amount))
  {
    var locked := vote.LockedIf(info.approved);
    if locked.Some? {
      var unlockAt := LockEnd(config, info.finishedAt, locked.value.0);
      if now < unlockAt {
        if scope.OnlyExpired? {
          return false, prior;
        }
        return true, prior.Accumulate(unlockAt, locked.value.1);
      }
    }
    return true, prior;
  }

  /** After the signed amount is added everywhere, every total is a balance. */
  ghost predicate BumpFits(s: State, k: Key, amount: Delegations) {
    var t := Bump(s, k, amount);
    && DelegationsInRange(VotingAt(t.voting, k).delegations)
    && forall r :: r in t.referenda && t.referenda[r].Ongoing? ==> InRange(t.referenda[r].status.tally)
  }

  /** Ending a delegation never takes out more than there is. */
  lemma DetachFits(s: State, k: Key)
    requires Inv(s) && VotingAt(s.voting, k).Delegating?
    ensures
      var v := VotingAt(s.voting, k);
      (v.target, k.1) != k && BumpFits(s, (v.target, k.1), v.conviction.Votes(v.balance).Negate())
  {
    var v := VotingAt(s.voting, k);
    var target := (v.target, k.1);
    var s' := Detach(s, k);
    assert SoundAt(s, k);
    DetachKeepsInv(s, k);
    DelegationsFit(s', target);
    forall r | IsOngoing(s'.referenda, r) ensures InRange(s'.referenda[r].status.tally) {
      TallyFits(s', r);
    }
  }

  lemma AttachFits(s: State, k: Key, to: Account, conviction: Conviction, balance: nat)
    requires Inv(s) && VotingAt(s.voting, k).Direct? && VotingAt(s.voting, k).votes == map[]
    requires to != k.0 && balance <= At(s.free, k)
    ensures BumpFits(s, (to, k.1), conviction.Votes(balance))
  {
    var s' := Attach(s, k, to, conviction, balance);
    AttachKeepsInv(s, k, to, conviction, balance);
    DelegationsFit(s', (to, k.1));
    forall r | IsOngoing(s'.referenda, r) ensures InRange(s'.referenda[r].status.tally) {
      TallyFits(s', r);
    }
  }

  // ---------- moving a delegation up or down ----------

  /** The change a call makes to a tally or to received delegations, as the pallet computes it. */
  function MovedTally(t: Tally, aye: bool, amount: Delegations, up: bool): Tally {
    if up then t.Increase(aye, amount) else t.Reduce(aye, amount)
  }

  function MovedDelegations(d: Delegations, amount: Delegations, up: bool): Delegations {
    if up then d.SatAdd(amount) else d.SatSub(amount)
  }

  function Signed(amount: Delegations, up: bool): Delegations {
    if up then amount else amount.Negate()
  }

  lemma MovesAreExact(t: Tally, aye: bool, d: Delegations, amount: Delegations, up: bool)
    ensures InRange(t.Plus(Side(aye, Signed(amount, up)))) ==>
            MovedTally(t, aye, amount, up) == t.Plus(Side(aye, Signed(amount, up)))
    ensures DelegationsInRange(d.Plus(Signed(amount, up))) ==>
            MovedDelegations(d, amount, up) == d.Plus(Signed(amount, up))
  {
  }

  /** The list up to one more entry. */
  lemma AsMapPrefix(votes: VoteList, i: nat)
    requires StrictlySorted(votes) && i < |votes|
    ensures AsMap(votes[..i + 1]) == AsMap(votes[..i])[votes[i].0 := votes[i].1]
    ensures votes[i].0 !in AsMap(votes[..i])
  {
    assert votes[..i + 1][..i] == votes[..i];
    AsMapBounds(votes[..i], -1, votes[i].0);
  }

  /** The referenda after the votes of an account have each been moved by an amount. */
  ghost predicate MovedBy(infos: Referenda, moved: Referenda, votes: Votes, amount: Delegations) {
    && moved.Keys == infos.Keys
    && forall r :: r in infos ==>
         moved[r] == Bumped(infos[r], Direct(votes, NO_DELEGATIONS, NO_PRIOR), r, amount)
  }

  /** Every moved tally is a balance. */
  ghost predicate MoveFits(infos: Referenda, votes: Votes, amount: Delegations) {
    forall r :: r in infos && infos[r].Ongoing? && r in votes && votes[r].Standard? ==>
      InRange(infos[r].status.tally.Plus(Side(votes[r].aye, amount)))
  }

  /** One more vote: an ongoing referendum it is a standard vote on moves, nothing else does. */
  lemma MoveOneMore(infos: Referenda, moved: Referenda, votes: Votes, r: nat, vote: AccountVote, amount: Delegations)
    requires MovedBy(infos, moved, votes, amount) && r !in votes
    ensures r in infos ==> moved[r] == infos[r]
    ensures
      var moved' := if r in infos && infos[r].Ongoing? && vote.Standard?
                    then moved[r := Ongoing(infos[r].status.(tally := infos[r].status.tally.Plus(Side(vote.aye, amount))))]
                    else moved;
      MovedBy(infos, moved', votes[r := vote], amount)
  {
  }

  /** Fan a change of received delegations out to the referenda an account votes on. */
  method MoveReferenda(infos: Referenda, votes: VoteList, amount: Delegations, up: bool) returns (moved: Referenda)
    requires StrictlySorted(votes)
    requires MoveFits(infos, AsMap(votes), Signed(amount, up))
    ensures MovedBy(infos, moved, AsMap(votes), Signed(amount, up))
  {
    moved := infos;
    for i := 0 to |votes|
      invariant MovedBy(infos, moved, AsMap(votes[..i]), Signed(amount, up))
    {
      var r, vote := votes[i].0, votes[i].1;
      AsMapPrefix(votes, i);
      AsMapUpdate(votes, i, vote);
      MoveOneMore(infos, moved, AsMap(votes[..i]), r, vote, Signed(amount, up));
      if vote.Standard? && r in moved && moved[r].Ongoing? {
        var status := moved[r].status;
        MovesAreExact(status.tally, vote.aye, NO_DELEGATIONS, amount, up);
        moved := moved[r := Ongoing(status.(tally := MovedTally(status.tally, vote.aye, amount, up)))];
      }
    }
    assert votes[..|votes|] == votes;
  }

  /** A bump by its two parts, each as the pallet computes it. */
  lemma BumpInParts(s: State, k: Key, v: AccountState, amount: Delegations, up: bool)
    requires BumpFits(s, k, Signed(amount, up)) && v == VotingAt(s.voting, k)
    ensures MovedDelegations(v.delegations, amount, up) == v.delegations.Plus(Signed(amount, up))
    ensures v.Direct? ==> MoveFits(s.referenda, v.votes, Signed(amount, up))
    ensures v.Direct? ==> forall moved {:trigger MovedBy(s.referenda, moved, v.votes, Signed(amount, up))} ::
      MovedBy(s.referenda, moved, v.votes, Signed(amount, up)) ==> moved == Bump(s, k, Signed(amount, up)).referenda
    ensures v.Delegating? ==> Bump(s, k, Signed(amount, up)).referenda == s.referenda
  {
    MovesAreExact(EMPTY_TALLY, true, v.delegations, amount, up);
    var t := Bump(s, k, Signed(amount, up));
    if v.Direct? {
      forall r | r in s.referenda && s.referenda[r].Ongoing? && r in v.votes && v.votes[r].Standard?
        ensures InRange(s.referenda[r].status.tally.Plus(Side(v.votes[r].aye, Signed(amount, up))))
      {
        assert r in t.referenda && t.referenda[r].Ongoing?;
      }
    }
  }

  /** Detaching and attaching with one write of the account at the end. */
  lemma DelegateInPlace(s: State, k: Key, to: Account, conviction: Conviction, balance: nat)
    requires to != k.0
    requires VotingAt(s.voting, k).Delegating? ==> VotingAt(s.voting, k).target != k.0
    ensures
      var v := VotingAt(s.voting, k);
      var s0 := if v.Delegating? then Detach(s, k) else s;
      var s1 := if v.Delegating? then Bump(s, (v.target, k.1), v.conviction.Votes(v.balance).Negate()) else s;
      var s2 := Bump(s1, (to, k.1), conviction.Votes(balance));
      Attach(s0, k, to, conviction, balance) ==
      s2.(voting := s2.voting[k := Delegating(balance, to, conviction, v.delegations, v.prior)],
          locks := s2.locks[k := Max(At(s2.locks, k), balance)])
  {
    var v := VotingAt(s.voting, k);
    if v.Delegating? {
      var s1 := Bump(s, (v.target, k.1), v.conviction.Votes(v.balance).Negate());
      var d := Detach(s, k);
      assert VotingAt(d.voting, (to, k.1)) == VotingAt(s1.voting, (to, k.1));
      assert d.referenda == s1.referenda;
    }
  }

  lemma DelegateDone(s: State, k: Key, to: Account, conviction: Conviction, balance: nat)
    requires Inv(s) && TryDelegate(s, k.0, to, k.1, conviction, balance).Done?
    ensures
      var v := VotingAt(s.voting, k);
      var s1 := if v.Delegating? then Bump(s, (v.target, k.1), v.conviction.Votes(v.balance).Negate()) else s;
      var s2 := Bump(s1, (to, k.1), conviction.Votes(balance));
      var t := s2.(voting := s2.voting[k := Delegating(balance, to, conviction, v.delegations, v.prior)],
                   locks := s2.locks[k := Max(At(s2.locks, k), balance)]);
      TryDelegate(s, k.0, to, k.1, conviction, balance) == Done(t) && Inv(t)
  {
    assert SoundAt(s, k);
    DelegateInPlace(s, k, to, conviction, balance);
    DelegateKeepsInv(s, k.0, to, k.1, conviction, balance);
  }

  lemma UndelegateInPlace(s: State, k: Key, prior: PriorLock)
    requires VotingAt(s.voting, k).Delegating?
    requires
      var v := VotingAt(s.voting, k);
      prior == v.prior.Accumulate(LockEnd(s.config, s.now, v.conviction.LockPeriods()), v.balance)
    ensures
      var v := VotingAt(s.voting, k);
      var s1 := Bump(s, (v.target, k.1), v.conviction.Votes(v.balance).Negate());
      TryUndelegate(s, k.0, k.1) == Done(s1.(voting := s1.voting[k := Direct(map[], v.delegations, prior)]))
  {
  }

  /** What `BumpFits` depends on. */
  lemma FitsElsewhere(s: State, t: State, k: Key, amount: Delegations)
    requires BumpFits(s, k, amount)
    requires t.referenda == s.referenda && VotingAt(t.voting, k) == VotingAt(s.voting, k)
    ensures BumpFits(t, k, amount)
  {
    assert Bump(t, k, amount).referenda == Bump(s, k, amount).referenda;
  }

  /** Redirecting a delegation fits at every moment, also between the two moves. */
  lemma RedirectFits(s: State, k: Key, to: Account, conviction: Conviction, balance: nat)
    requires Inv(s) && to != k.0 && balance <= At(s.free, k)
    requires VotingAt(s.voting, k).Direct? ==> VotingAt(s.voting, k).votes == map[]
    ensures
      var v := VotingAt(s.voting, k);
      if v.Direct? then BumpFits(s, (to, k.1), conviction.Votes(balance))
      else
        var out := v.conviction.Votes(v.balance).Negate();
        && BumpFits(s, (v.target, k.1), out)
        && BumpFits(Bump(s, (v.target, k.1), out), (to, k.1), conviction.Votes(balance))
  {
    var v := VotingAt(s.voting, k);
    if v.Direct? {
      AttachFits(s, k, to, conviction, balance);
    } else {
      DetachFits(s, k);
      DetachKeepsInv(s, k);
      AttachFits(Detach(s, k), k, to, conviction, balance);
      FitsElsewhere(Detach(s, k), Bump(s, (v.target, k.1), v.conviction.Votes(v.balance).Negate()),
                    (to, k.1), conviction.Votes(balance));
    }
  }

  // ---------- locks ----------

  lemma LargestVoteUnique(votes: Votes, floor: nat, x: nat)
    requires floor <= x
    requires forall r :: r in votes ==> votes[r].Balance() <= x
    requires x == floor || exists r :: r in votes && votes[r].Balance() == x
    ensures x == LargestVote(votes, floor)
  {
    LargestVoteIsMax(votes, floor);
  }

  lemma LargestVoteOneMore(votes: Votes, floor: nat, r: nat, vote: AccountVote)
    requires r !in votes
    ensures LargestVote(votes[r := vote], floor) == Max(LargestVote(votes, floor), vote.Balance())
  {
    LargestVoteIsMax(votes, floor);
    var x := Max(LargestVote(votes, floor), vote.Balance());
    var votes' := votes[r := vote];
    if x != floor {
      if vote.Balance() == x {
        assert r in votes' && votes'[r].Balance() == x;
      } else {
        var q :| q in votes && votes[q].Balance() == x;
        assert q in votes' && votes'[q].Balance() == x;
      }
    }
    LargestVoteUnique(votes', floor, x);
  }

  /** The fold over the votes of an account. */
  method LockedBalance(v: Voting<VoteList>) returns (needed: nat)
    requires SortedVotes(v)
    ensures needed == LockNeeded(AsState(v))
  {
    match v
    case Delegating(balance, _, _, _, _) =>
      needed := balance;
    case Direct(votes, _, prior) =>
      needed := prior.amount;
      for i := 0 to |votes|
        invariant needed == LargestVote(AsMap(votes[..i]), prior.amount)
      {
        AsMapPrefix(votes, i);
        LargestVoteOneMore(AsMap(votes[..i]), prior.amount, votes[i].0, votes[i].1);
        needed := Max(needed, votes[i].1.Balance());
      }
      assert votes[..|votes|] == votes;
  }

  // ---------- baking ----------

  predicate Listed(maturing: seq<(nat, Status)>, r: nat) {
    exists i :: 0 <= i < |maturing| && maturing[i].0 == r
  }

  /** The list of maturing referenda is complete and in order. */
  ghost predicate ListsMaturing(s: State, from: nat, to: nat, maturing: seq<(nat, Status)>) {
    && (forall i :: 0 <= i < |maturing| ==>
         Matures(s.referenda, maturing[i].0, from, to, s.now) && maturing[i].1 == s.referenda[maturing[i].0].status)
    && (forall r :: Matures(s.referenda, r, from, to, s.now) ==> Listed(maturing, r))
    && (forall i, j :: 0 <= i < j < |maturing| ==> maturing[i].0 < maturing[j].0)
  }

  lemma ListOneMore(s: State, from: nat, r: nat, maturing: seq<(nat, Status)>)
    requires ListsMaturing(s, from, r, maturing) && Matures(s.referenda, r, from, r + 1, s.now)
    ensures ListsMaturing(s, from, r + 1, maturing + [(r, s.referenda[r].status)])
  {
    var longer := maturing + [(r, s.referenda[r].status)];
    forall q: nat | Matures(s.referenda, q, from, r + 1, s.now)
      ensures Listed(longer, q)
    {
      if q == r {
        assert longer[|maturing|].0 == q;
      } else {
        assert Matures(s.referenda, q, from, r, s.now) && Listed(maturing, q);
        var i :| 0 <= i < |maturing| && maturing[i].0 == q;
        assert longer[i].0 == q;
      }
    }
  }

  lemma ListNoMore(s: State, from: nat, r: nat, maturing: seq<(nat, Status)>)
    requires ListsMaturing(s, from, r, maturing) && !Matures(s.referenda, r, from, r + 1, s.now) && from <= r
    ensures ListsMaturing(s, from, r + 1, maturing)
  {
    forall q: nat | Matures(s.referenda, q, from, r + 1, s.now)
      ensures Listed(maturing, q)
    {
      assert q != r;
      assert Matures(s.referenda, q, from, r, s.now);
    }
  }

  /** Decide every maturing referendum in turn. */
  method BakeReferenda(ghost s: State, ghost from: nat, ghost to: nat,
                       infos: Referenda, issuance: map<Asset, nat>, now: Block, maturing: seq<(nat, Status)>)
      returns (baked: Referenda)
    requires Inv(s) && ListsMaturing(s, from, to, maturing)
    requires infos == s.referenda && issuance == s.issuance && now == s.now
    ensures baked == Bake(s, from, to)
  {
    baked := infos;
    for i := 0 to |maturing|
      invariant baked.Keys == infos.Keys
      invariant forall j :: 0 <= j < i ==>
        baked[maturing[j].0] == Finished(Verdict(maturing[j].1, issuance), now)
      invariant forall r :: r in infos && (forall j :: 0 <= j < i ==> maturing[j].0 != r) ==> baked[r] == infos[r]
    {
      var r, status := maturing[i].0, maturing[i].1;
      TallyFits(s, r);
      var approved := VoteThresholds.Approved(status.threshold, status.tally, At(issuance, status.asset));
      baked := baked[r := Finished(approved, now)];
    }
    assert baked == Bake(s, from, to);
  }

  /** Move the scanning bound over everything that is no longer ongoing. */
  method AdvanceLowest(infos: Referenda, from: nat, to: nat) returns (next: nat)
    requires from <= to
    ensures next == SkipBaked(infos, from, to)
  {
    next := from;
    while next < to && (next !in infos || infos[next].Finished?)
      invariant next <= to && SkipBaked(infos, next, to) == SkipBaked(infos, from, to)
    {
      next := next + 1;
    }
  }

  // ---------- storage ----------

  class Pallet {
    const config: Config
    var votingOf: map<Key, Voting<VoteList>>
    var referendumInfoOf: map<nat, ReferendumInfo>
    var referendumCount: nat
    var lowestUnbaked: nat
    var now: Block
    // The currency this pallet is configured with.
    var locks: map<Key, nat>
    var free: map<Key, nat>
    var issuance: map<Asset, nat>

    ghost function Accounts(): map<Key, AccountState>
      reads this
    {
      map k | k in votingOf :: AsState(votingOf[k])
    }

    ghost function View(): State
      reads this
    {
      State(config, Accounts(), referendumInfoOf, referendumCount, lowestUnbaked, locks, free, issuance, now)
    }

    ghost predicate Sorted()
      reads this
    {
      forall k :: k in votingOf ==> SortedVotes(votingOf[k])
    }

    ghost predicate Valid()
      reads this
    {
      Sorted() && Inv(View())
    }

    constructor (config: Config, free: map<Key, nat>, issuance: map<Asset, nat>, now: Block)
      requires SoundCurrency(free, issuance)
      ensures Valid() && Genesis(View())
      ensures View() == State(config, map[], map[], 0, 0, map[], free, issuance, now)
    {
      this.config := config;
      votingOf, referendumInfoOf, locks := map[], map[], map[];
      referendumCount, lowestUnbaked := 0, 0;
      this.free, this.issuance, this.now := free, issuance, now;
      new;
      assert Accounts() == map[];
      GenesisHasInv(View());
    }

    function VotingOf(k: Key): Voting<VoteList>
      reads this
    {
      if k in votingOf then votingOf[k] else NO_VOTES
    }

    lemma ViewAt(k: Key)
      requires Sorted()
      ensures VotingAt(View().voting, k) == AsState(VotingOf(k))
      ensures SortedVotes(VotingOf(k))
    {
    }

    /** Writing one entry of the account map. */
    method PutVoting(k: Key, v: Voting<VoteList>)
      requires Sorted() && SortedVotes(v)
      modifies this`votingOf
      ensures Sorted()
      ensures votingOf == old(votingOf)[k := v]
      ensures View() == old(View()).(voting := old(View()).voting[k := AsState(v)])
    {
      votingOf := votingOf[k := v];
      assert Accounts() == old(Accounts())[k := AsState(v)];
    }

    // ---------- votes ----------

    method TryVote(who: Account, r: nat, vote: AccountVote) returns (result: CallResult)
      requires Valid()
      modifies this
      ensures Valid()
      ensures
        var outcome := DemocracySpec.TryVote(old(View()), who, r, vote);
        && View() == Commit(old(View()), outcome)
        && result == if outcome.Done? then Ok else Err(outcome.error)
    {
      if r !in referendumInfoOf || referendumInfoOf[r].Finished? {
        return Err(ReferendumInvalid);
      }
      var status := referendumInfoOf[r].status;
      var k := (who, status.asset);
      if vote.Balance() > At(free, k) {
        return Err(InsufficientFunds);
      }
      ViewAt(k);
      var v := VotingOf(k);
      if v.Delegating? {
        return Err(AlreadyDelegating);
      }
      var previous, votes := PlaceVote(v.votes, r, vote, config.maxVotes);
      if votes.None? {
        return Err(MaxVotesReached);
      }
      result := EnterVote(who, r, vote, status, v, previous, votes.value);
    }

    /** Count a vote that has passed every check, and write it. */
    method EnterVote(who: Account, r: nat, vote: AccountVote, status: Status, v: Voting<VoteList>,
                     previous: Option<AccountVote>, votes: VoteList) returns (result: CallResult)
      requires Valid() && DemocracySpec.TryVote(View(), who, r, vote).Done?
      requires status == View().referenda[r].status
      requires v == VotingOf((who, status.asset)) && v.Direct?
      requires previous == if r in AsMap(v.votes) then Some(AsMap(v.votes)[r]) else None
      requires StrictlySorted(votes) && AsMap(votes) == AsMap(v.votes)[r := vote]
      modifies this
      ensures Valid() && result == Ok
      ensures View() == DemocracySpec.TryVote(old(View()), who, r, vote).state
    {
      ghost var s := View();
      var k := (who, status.asset);
      ViewAt(k);
      var tally;
      result, tally := Retally(s, who, r, status.tally, previous, vote, v.delegations);
      if result.Err? {
        return result;
      }
      VoteKeepsInv(s, who, r, vote);
      StoreVote(k, Direct(votes, v.delegations, v.prior), vote.Balance(), r, status.(tally := tally));
    }

    /** The writes of a successful vote: the account, its lock, and the referendum. */
    method StoreVote(k: Key, v: Voting<VoteList>, balance: nat, r: nat, status: Status)
      requires Sorted() && SortedVotes(v)
      modifies this
      ensures Sorted()
      ensures
        var s := old(View());
        View() == s.(voting := s.voting[k := AsState(v)],
                     locks := s.locks[k := Max(At(s.locks, k), balance)],
                     referenda := s.referenda[r := Ongoing(status)])
    {
      PutVoting(k, v);
      locks := locks[k := Max(At(locks, k), balance)];
      referendumInfoOf := referendumInfoOf[r := Ongoing(status)];
    }

    method TryRemoveVote(who: Account, asset: Asset, r: nat, scope: UnvoteScope) returns (result: CallResult)
      requires Valid()
      modifies this
      ensures Valid()
      ensures
        var outcome := DemocracySpec.TryRemoveVote(old(View()), who, asset, r, scope);
        && View() == Commit(old(View()), outcome)
        && result == if outcome.Done? then Ok else Err(outcome.error)
    {
      ghost var s := View();
      var k := (who, asset);
      ViewAt(k);
      var v := VotingOf(k);
      if v.Delegating? {
        return Ok;
      }
      var found, i := FindVote(v.votes, r);
      if !found {
        return Err(NotVoter);
      }
      var vote := v.votes[i].1;
      var prior := v.prior;
      var tally := EMPTY_TALLY;
      if r in referendumInfoOf {
        if referendumInfoOf[r].Ongoing? {
          if scope.OnlyExpired? {
            return Err(NoPermission);
          }
          result, tally := Untally(s, k, r, referendumInfoOf[r].status.tally, vote, v.delegations);
          if result.Err? {
            return result;
          }
        } else {
          var allowed;
          allowed, prior := Release(config, referendumInfoOf[r], vote, prior, now, scope);
          if !allowed {
            return Err(NoPermission);
          }
        }
      }
      StoreRemoval(k, v, i, prior, tally);
      assert View() == ForgetVote(s, k, r, prior);
      ForgetVoteKeepsInv(s, k, r, prior);
      return Ok;
    }

    /** The writes of a successful removal: the account, and the referendum if it is ongoing. */
    method StoreRemoval(k: Key, v: Voting<VoteList>, i: nat, prior: PriorLock, tally: Tally)
      requires Sorted() && v.Direct? && SortedVotes(v) && i < |v.votes|
      modifies this
      ensures Sorted()
      ensures
        var s := old(View());
        var r := v.votes[i].0;
        View() == s.(voting := s.voting[k := Direct(AsMap(v.votes) - {r}, v.delegations, prior)],
                     referenda := if IsOngoing(s.referenda, r) then WithTally(s.referenda, r, tally) else s.referenda)
    {
      var r := v.votes[i].0;
      if r in referendumInfoOf && referendumInfoOf[r].Ongoing? {
        referendumInfoOf := referendumInfoOf[r := Ongoing(referendumInfoOf[r].status.(tally := tally))];
      }
      AsMapRemove(v.votes, i);
      PutVoting(k, Direct(v.votes[..i] + v.votes[i + 1..], v.delegations, prior));
    }

    // ---------- delegation ----------

    /** `increase_upstream_delegation` and `reduce_upstream_delegation`. */
    method MoveUpstream(k: Key, amount: Delegations, up: bool)
      requires Sorted() && BumpFits(View(), k, Signed(amount, up))
      modifies this`votingOf, this`referendumInfoOf
      ensures Sorted()
      ensures View() == Bump(old(View()), k, Signed(amount, up))
    {
      ViewAt(k);
      var v := VotingOf(k);
      BumpInParts(View(), k, AsState(v), amount, up);
      if v.Direct? {
        referendumInfoOf := MoveReferenda(referendumInfoOf, v.votes, amount, up);
      }
      PutVoting(k, v.(delegations := MovedDelegations(v.delegations, amount, up)));
    }

    /** Move a delegation from its present target, if there is one, to a new one. */
    method Redirect(k: Key, v: Voting<VoteList>, target: Account, conviction: Conviction, balance: nat)
      requires Valid() && v == VotingOf(k) && (v.Direct? ==> v.votes == [])
      requires target != k.0 && balance <= At(free, k)
      modifies this`votingOf, this`referendumInfoOf
      ensures Sorted()
      ensures
        var s := old(View());
        var s1 := if v.Delegating? then Bump(s, (v.target, k.1), v.conviction.Votes(v.balance).Negate()) else s;
        View() == Bump(s1, (target, k.1), conviction.Votes(balance))
    {
      ghost var s := View();
      ViewAt(k);
      RedirectFits(s, k, target, conviction, balance);
      if v.Delegating? {
        MoveUpstream((v.target, k.1), v.conviction.Votes(v.balance), false);
      }
      MoveUpstream((target, k.1), conviction.Votes(balance), true);
    }

    method TryDelegate(who: Account, target: Account, asset: Asset, conviction: Conviction, balance: nat)
        returns (result: CallResult)
      requires Valid()
      modifies this
      ensures Valid()
      ensures
        var outcome := DemocracySpec.TryDelegate(old(View()), who, target, asset, conviction, balance);
        && View() == Commit(old(View()), outcome)
        && result == if outcome.Done? then Ok else Err(outcome.error)
    {
      var k := (who, asset);
      ViewAt(k);
      if who == target {
        return Err(Nonsense);
      }
      if balance > At(free, k) {
        return Err(InsufficientFunds);
      }
      var v := VotingOf(k);
      if v.Direct? {
        AsMapSize(v.votes);
        if v.votes != [] {
          return Err(VotesExist);
        }
      }
      EnterDelegation(k, v, target, conviction, balance);
      return Ok;
    }

    /** The writes of a successful delegation, the account itself last. */
    method EnterDelegation(k: Key, v: Voting<VoteList>, target: Account, conviction: Conviction, balance: nat)
      requires Valid() && v == VotingOf(k) && (v.Direct? ==> v.votes == [])
      requires DemocracySpec.TryDelegate(View(), k.0, target, k.1, conviction, balance).Done?
      modifies this
      ensures Valid()
      ensures View() == DemocracySpec.TryDelegate(old(View()), k.0, target, k.1, conviction, balance).state
    {
      ghost var s := View();
      ViewAt(k);
      DelegateDone(s, k, target, conviction, balance);
      Redirect(k, v, target, conviction, balance);
      StoreDelegation(k, Delegating(balance, target, conviction, v.delegations, v.prior));
    }

    method StoreDelegation(k: Key, v: Voting<VoteList>)
      requires Sorted() && v.Delegating?
      modifies this`votingOf, this`locks
      ensures Sorted()
      ensures
        var s := old(View());
        View() == s.(voting := s.voting[k := AsState(v)],
                     locks := s.locks[k := Max(At(s.locks, k), v.balance)])
    {
      locks := locks[k := Max(At(locks, k), v.balance)];
      PutVoting(k, v);
    }

    method TryUndelegate(who: Account, asset: Asset) returns (result: CallResult)
      requires Valid()
      modifies this
      ensures Valid()
      ensures
        var outcome := DemocracySpec.TryUndelegate(old(View()), who, asset);
        && View() == Commit(old(View()), outcome)
        && result == if outcome.Done? then Ok else Err(outcome.error)
    {
      ghost var s := View();
      var k := (who, asset);
      ViewAt(k);
      var v := VotingOf(k);
      if v.Direct? {
        return Err(NotDelegating);
      }
      DetachFits(s, k);
      MoveUpstream((v.target, asset), v.conviction.Votes(v.balance), false);
      var prior := v.prior.Accumulate(LockEnd(config, now, v.conviction.LockPeriods()), v.balance);
      UndelegateInPlace(s, k, prior);
      PutVoting(k, Direct([], v.delegations, prior));
      UndelegateKeepsInv(s, who, asset);
      return Ok;
    }

    // ---------- locks ----------

    method UpdateLock(who: Account, asset: Asset)
      requires Valid()
      modifies this
      ensures Valid()
      ensures View() == Unlock(old(View()), who, asset)
    {
      ghost var s := View();
      var k := (who, asset);
      ViewAt(k);
      var v := VotingOf(k);
      v := v.(prior := v.prior.Rejig(now));
      var needed := LockedBalance(v);
      PutVoting(k, v);
      locks := locks[k := needed];
      UnlockKeepsInv(s, who, asset);
    }

    // ---------- referenda ----------

    method InjectReferendum(period: nat, asset: Asset, threshold: VoteThreshold, delay: Block) returns (r: nat)
      requires Valid()
      modifies this
      ensures Valid()
      ensures View() == Start(old(View()), period, asset, threshold, delay) && r == old(referendumCount)
    {
      StartKeepsInv(View(), period, asset, threshold, delay);
      r := referendumCount;
      referendumCount := r + 1;
      referendumInfoOf := referendumInfoOf[r := Ongoing(Status(now + period, asset, threshold, delay, EMPTY_TALLY))];
    }

    method CancelReferendum(r: nat)
      requires Valid()
      modifies this
      ensures Valid()
      ensures View() == Cancel(old(View()), r)
    {
      FewerOngoingKeepsInv(View(), Cancel(View(), r));
      referendumInfoOf := referendumInfoOf - {r};
    }

    /** The referenda of a range that end now, with the status they have reached. */
    method MaturingReferenda(from: nat, to: nat) returns (maturing: seq<(nat, Status)>)
      requires from <= to
      ensures ListsMaturing(View(), from, to, maturing)
    {
      maturing := [];
      for r := from to to
        invariant ListsMaturing(View(), from, r, maturing)
      {
        if r in referendumInfoOf && referendumInfoOf[r].Ongoing? && referendumInfoOf[r].status.end == now {
          ListOneMore(View(), from, r, maturing);
          maturing := maturing + [(r, referendumInfoOf[r].status)];
        } else {
          ListNoMore(View(), from, r, maturing);
        }
      }
    }

    /** The clock, and the launch queue. */
    method Open(launched: Option<Tabled>)
      requires Valid()
      modifies this
      ensures Valid()
      ensures View() == OpenBlock(old(View()), launched)
    {
      TickKeepsInv(View());
      now := now + 1;
      if launched.Some? {
        var _ := InjectReferendum(config.votingPeriod, launched.value.asset, launched.value.threshold, config.enactmentPeriod);
      }
    }

    /** The start of a block. `launched` is what the launch queue tables at this block, if anything. */
    method BeginBlock(launched: Option<Tabled>)
      requires Valid()
      modifies this
      ensures Valid()
      ensures View() == DemocracySpec.BeginBlock(old(View()), launched)
    {
      BeginBlockKeepsInv(View(), launched);
      var next, last := lowestUnbaked, referendumCount;
      Open(launched);
      var maturing := MaturingReferenda(next, last);
      var baked := BakeReferenda(View(), next, last, referendumInfoOf, issuance, now, maturing);
      var lowest := AdvanceLowest(baked, next, last);
      referendumInfoOf, lowestUnbaked := baked, lowest;
    }
  }
}
