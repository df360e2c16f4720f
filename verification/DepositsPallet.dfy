/** Proposals, seconds and preimages in storage, with their deposits held and released in
    place. Every call does what the state machine of `DepositsSpec` does. */
module DepositsPallet {
  import opened Amounts
  import DemocracyTypes
  import opened DepositsSpec
  import opened DepositsTheorems

  /** Every call keeps a valid pallet valid. */
  lemma StepStaysValid(s: State, op: Op)
    ensures Inv(s) ==> Inv(Apply(s, op))
  {
    if Inv(s) {
      StepKeepsInv(s, op);
    }
  }

  lemma ProposeStaysValid(s: State, who: Account, id: ProposalId, value: nat)
    ensures Inv(s) ==> Inv(Propose(s, who, id, value).state)
  {
    if Inv(s) {
      ProposeKeepsInv(s, who, id, value);
    }
  }

  lemma LaunchNextStaysValid(s: State)
    ensures Inv(s) ==> Inv(LaunchNext(s).state)
  {
    if Inv(s) {
      LaunchNextKeepsInv(s);
    }
  }

  lemma LaunchStaysValid(s: State)
    ensures Inv(s) ==> Inv(LaunchPublic(s).state)
  {
    if Inv(s) {
      LaunchKeepsInv(s);
    }
  }

  lemma BlacklistStaysValid(s: State, id: ProposalId)
    ensures Inv(s) ==> Inv(BlacklistProposal(s, id))
  {
    if Inv(s) {
      BlacklistKeepsInv(s, id);
    }
  }

  class Pallet {
    const config: Config
    var publicProps: seq<Proposal>
    var publicPropCount: PropIndex
    var depositOf: map<PropIndex, Deposit>
    var preimages: map<ProposalId, Preimage>
    var blacklist: map<ProposalId, Vetoed>
    var nextExternal: Option<External>
    var lastTabledWasExternal: bool
    var free: Balances
    var held: Balances
    ghost var others: Balances
    var now: Block

    ghost function Native(): Ledger
      reads this
    {
      Ledger(free, held)
    }

    ghost function View(): State
      reads this
    {
      State(config, publicProps, publicPropCount, depositOf, preimages, blacklist, nextExternal, lastTabledWasExternal,
            Native(), others, now)
    }

    /** Holds are exactly what the records say, and every queued proposal has its deposit entry. */
    ghost predicate Valid()
      reads this
    {
      Inv(View())
    }

    constructor (config: Config, free: Balances, held: Balances, now: Block)
      ensures Valid() && Genesis(View()) && this.config == config && this.free == free && this.held == held && this.now == now
    {
      this.config, this.free, this.held, this.now := config, free, held, now;
      publicProps, publicPropCount, depositOf, preimages, blacklist := [], 0, map[], map[], map[];
      nextExternal, lastTabledWasExternal := None, false;
      others := held;
      new;
      GenesisHasInv(View());
    }

    /** The next block. */
    method Tick()
      modifies this`now
      ensures View() == old(View()).(now := old(now) + 1)
      ensures old(Valid()) ==> Valid()
    {
      StepStaysValid(View(), OpBlocks(1));
      now := now + 1;
    }

    method HoldFunds(a: Account, amount: nat) returns (done: bool)
      modifies this`free, this`held
      ensures
        match Hold(old(Native()), a, amount)
        case Some(l) => done && Native() == l
        case None => !done && Native() == old(Native())
    {
      if At(free, a) < amount {
        return false;
      }
      free, held := free[a := At(free, a) - amount], held[a := At(held, a) + amount];
      return true;
    }

    /** Best effort. */
    method ReleaseFunds(a: Account, amount: nat)
      modifies this`free, this`held
      ensures Native() == Release(old(Native()), a, amount)
    {
      var actual := Min(amount, At(held, a));
      free, held := free[a := At(free, a) + actual], held[a := At(held, a) - actual];
    }

    /** Best effort. */
    method MoveHeld(from: Account, to: Account, amount: nat)
      modifies this`free, this`held
      ensures Native() == TransferHeld(old(Native()), from, to, amount)
    {
      var actual := Min(amount, At(held, from));
      free, held := free[to := At(free, to) + actual], held[from := At(held, from) - actual];
    }

    method ReleaseEach(who: seq<Account>, amount: nat)
      modifies this`free, this`held
      ensures Native() == ReleaseAll(old(Native()), who, amount)
    {
      for i := 0 to |who|
        invariant Native() == ReleaseAll(old(Native()), who[..i], amount)
      {
        assert who[..i + 1][..i] == who[..i];
        ReleaseFunds(who[i], amount);
      }
      assert who[..|who|] == who;
    }

    method SlashEach(who: seq<Account>, amount: nat)
      modifies this`free, this`held
      ensures Native() == SlashAll(old(Native()), who, config.treasury, amount)
    {
      for i := 0 to |who|
        invariant Native() == SlashAll(old(Native()), who[..i], config.treasury, amount)
      {
        assert who[..i + 1][..i] == who[..i];
        MoveHeld(who[i], config.treasury, amount);
      }
      assert who[..|who|] == who;
    }

    method DoPropose(who: Account, id: ProposalId, value: nat) returns (error: Option<Error>)
      modifies this
      ensures Outcome(View(), error) == Propose(old(View()), who, id, value)
      ensures old(Valid()) ==> Valid()
    {
      ProposeStaysValid(View(), who, id, value);
      error := EnterProposal(who, id, value);
    }

    /** The call, without what it keeps. */
    method EnterProposal(who: Account, id: ProposalId, value: nat) returns (error: Option<Error>)
      modifies this
      ensures Outcome(View(), error) == Propose(old(View()), who, id, value)
    {
      if value < config.minimumDeposit {
        return Some(ValueLow);
      }
      var index := publicPropCount;
      if |publicProps| >= config.maxProposals {
        return Some(TooManyProposals);
      }
      if id in blacklist && now < blacklist[id].until {
        return Some(ProposalBlacklisted);
      }
      var done := HoldFunds(who, value);
      if !done {
        return Some(BalanceLow);
      }
      publicPropCount := index + 1;
      depositOf := depositOf[index := Deposit([who], value)];
      publicProps := publicProps + [Proposal(index, id, who)];
      return None;
    }

    method DoSecond(who: Account, index: PropIndex, bound: nat) returns (error: Option<Error>)
      modifies this
      ensures Outcome(View(), error) == Second(old(View()), who, index, bound)
      ensures old(Valid()) ==> Valid()
    {
      StepStaysValid(View(), OpSecond(who, index, bound));
      if index !in depositOf {
        return Some(ProposalMissing);
      }
      var deposit := depositOf[index];
      if |deposit.who| > bound {
        return Some(WrongUpperBound);
      }
      var done := HoldFunds(who, deposit.amount);
      if !done {
        return Some(BalanceLow);
      }
      depositOf := depositOf[index := Deposit(deposit.who + [who], deposit.amount)];
      return None;
    }

    method DoClearPublicProposals()
      modifies this`publicProps
      ensures View() == ClearPublicProposals(old(View()))
      ensures old(Valid()) ==> Valid()
    {
      StepStaysValid(View(), OpClear);
      publicProps := [];
    }

    method TakeAndSlash(index: PropIndex)
      modifies this`depositOf, this`free, this`held
      ensures View() == SlashDeposit(old(View()), index)
    {
      if index in depositOf {
        var deposit := depositOf[index];
        depositOf := depositOf - {index};
        SlashEach(deposit.who, deposit.amount);
      }
    }

    method Retain(index: PropIndex)
      modifies this`publicProps
      ensures publicProps == Without(old(publicProps), index)
    {
      var props := publicProps;
      publicProps := [];
      for i := 0 to |props|
        invariant publicProps == Without(props[..i], index)
      {
        assert props[..i + 1][..i] == props[..i];
        if props[i].index != index {
          publicProps := publicProps + [props[i]];
        }
      }
      assert props[..|props|] == props;
    }

    method DoCancelProposal(index: PropIndex)
      modifies this
      ensures View() == CancelProposal(old(View()), index)
      ensures old(Valid()) ==> Valid()
    {
      StepStaysValid(View(), OpCancel(index));
      Retain(index);
      TakeAndSlash(index);
    }

    method DoBlacklist(id: ProposalId)
      modifies this
      ensures View() == BlacklistProposal(old(View()), id)
      ensures old(Valid()) ==> Valid()
    {
      BlacklistStaysValid(View(), id);
      EnterBlacklist(id);
    }

    /** The call, without what it keeps. */
    method EnterBlacklist(id: ProposalId)
      modifies this
      ensures View() == BlacklistProposal(old(View()), id)
    {
      blacklist := blacklist[id := Vetoed(MAX_BLOCK, {})];
      Unqueue(id);
      if nextExternal.Some? && nextExternal.value.id == id {
        nextExternal := None;
      }
    }

    method Unqueue(id: ProposalId)
      modifies this`publicProps, this`depositOf, this`free, this`held
      ensures View() == Unqueued(old(View()), id)
    {
      var n := FindProposal(publicProps, id);
      if n < |publicProps| {
        var index := publicProps[n].index;
        publicProps := publicProps[..n] + publicProps[n + 1..];
        TakeAndSlash(index);
      }
    }

    /** `max_by_key` keeps the last of several maxima. */
    method PickBest() returns (best: nat)
      requires publicProps != []
      ensures best == Best(publicProps, depositOf, |publicProps|)
    {
      best := 0;
      for i := 1 to |publicProps|
        invariant best == Best(publicProps, depositOf, i)
      {
        if Backing(depositOf, publicProps[i].index) >= Backing(depositOf, publicProps[best].index) {
          best := i;
        }
      }
    }

    method DoLaunchPublic() returns (error: Option<Error>)
      modifies this
      ensures Outcome(View(), error) == LaunchPublic(old(View()))
      ensures old(Valid()) ==> Valid()
    {
      LaunchStaysValid(View());
      if publicProps == [] {
        return Some(NoneWaiting);
      }
      var n := PickBest();
      var index := publicProps[n].index;
      publicProps := SwapRemove(publicProps, n);
      if index in depositOf {
        var deposit := depositOf[index];
        depositOf := depositOf - {index};
        ReleaseEach(deposit.who, deposit.amount);
      }
      return None;
    }

    // ---------- the external queue ----------

    method DoExternalPropose(id: ProposalId) returns (error: Option<Error>)
      modifies this
      ensures Outcome(View(), error) == ExternalPropose(old(View()), id)
      ensures old(Valid()) ==> Valid()
    {
      StepStaysValid(View(), OpExternalPropose(id));
      if nextExternal.Some? {
        return Some(DuplicateProposal);
      }
      if id in blacklist && now < blacklist[id].until {
        return Some(ProposalBlacklisted);
      }
      nextExternal := Some(External(id, DemocracyTypes.SuperMajorityApprove));
      return None;
    }

    method DoExternalReplace(id: ProposalId, threshold: DemocracyTypes.VoteThreshold)
      modifies this
      ensures View() == ExternalReplace(old(View()), id, threshold)
      ensures old(Valid()) ==> Valid()
    {
      StepStaysValid(View(), OpExternalReplace(id, threshold));
      nextExternal := Some(External(id, threshold));
    }

    method DoVetoExternal(who: Account, id: ProposalId) returns (error: Option<Error>)
      modifies this
      ensures Outcome(View(), error) == VetoExternal(old(View()), who, id)
      ensures old(Valid()) ==> Valid()
    {
      StepStaysValid(View(), OpVeto(who, id));
      if nextExternal.None? {
        return Some(NoProposal);
      }
      if nextExternal.value.id != id {
        return Some(ProposalMissing);
      }
      var vetoers := if id in blacklist then blacklist[id].vetoers else {};
      if who in vetoers {
        return Some(AlreadyVetoed);
      }
      blacklist := blacklist[id := Vetoed(now + config.cooloffPeriod, vetoers + {who})];
      nextExternal := None;
      return None;
    }

    method DoFastTrack(id: ProposalId) returns (error: Option<Error>)
      modifies this
      ensures Outcome(View(), error) == FastTrack(old(View()), id)
      ensures old(Valid()) ==> Valid()
    {
      StepStaysValid(View(), OpFastTrack(id));
      if nextExternal.None? {
        return Some(ProposalMissing);
      }
      if nextExternal.value.threshold == DemocracyTypes.SuperMajorityApprove {
        return Some(NotSimpleMajority);
      }
      if nextExternal.value.id.hash != id.hash {
        return Some(InvalidHash);
      }
      nextExternal := None;
      return None;
    }

    method TakeExternal() returns (error: Option<Error>, tabled: Option<External>)
      modifies this`nextExternal, this`lastTabledWasExternal
      ensures Outcome(View(), error) == LaunchExternal(old(View()))
      ensures tabled == old(nextExternal)
    {
      tabled := nextExternal;
      if nextExternal.None? {
        return Some(NoneWaiting), tabled;
      }
      nextExternal, lastTabledWasExternal := None, true;
      return None, tabled;
    }

    /** `tabled` is what goes to a referendum. */
    method DoLaunchNext() returns (error: Option<Error>, tabled: Option<External>)
      modifies this
      ensures Outcome(View(), error) == LaunchNext(old(View())) && tabled == NextTabled(old(View()))
      ensures old(Valid()) ==> Valid()
    {
      LaunchNextStaysValid(View());
      var external := lastTabledWasExternal;
      lastTabledWasExternal := false;
      if publicProps != [] && (external || nextExternal.None?) {
        var n := PickBest();
        var p := publicProps[n];
        tabled := if p.index in depositOf then Some(External(p.id, DemocracyTypes.SuperMajorityApprove)) else None;
        error := DoLaunchPublic();
      } else {
        error, tabled := TakeExternal();
      }
    }

    // ---------- preimages ----------

    method DoNotePreimage(who: Account, id: ProposalId, size: nat) returns (error: Option<Error>)
      modifies this
      ensures Outcome(View(), error) == NotePreimage(old(View()), who, id, size)
      ensures old(Valid()) ==> Valid()
    {
      StepStaysValid(View(), OpNote(who, id, size));
      if id in preimages {
        return Some(DuplicatePreimage);
      }
      var deposit := Min(size * config.byteDeposit, MAX_BALANCE);
      var done := HoldFunds(who, deposit);
      if !done {
        return Some(BalanceLow);
      }
      preimages := preimages[id := Available(size, who, deposit, now, None)];
      return None;
    }

    method DoNoteImminentPreimage(who: Account, id: ProposalId, size: nat) returns (error: Option<Error>)
      modifies this`preimages
      ensures Outcome(View(), error) == NoteImminentPreimage(old(View()), who, id, size)
      ensures old(Valid()) ==> Valid()
    {
      StepStaysValid(View(), OpNoteImminent(who, id, size));
      if id !in preimages {
        return Some(NotImminent);
      }
      match preimages[id] {
        case Available(_, _, _, _, _) =>
          return Some(DuplicatePreimage);
        case Missing(until) =>
          preimages := preimages[id := Available(size, who, 0, now, Some(until))];
          return None;
      }
    }

    method DoReapPreimage(who: Account, id: ProposalId, bound: nat) returns (error: Option<Error>)
      modifies this
      ensures Outcome(View(), error) == ReapPreimage(old(View()), who, id, bound)
      ensures old(Valid()) ==> Valid()
    {
      StepStaysValid(View(), OpReap(who, id, bound));
      error := TakePreimage(who, id, bound);
    }

    /** The call, without what it keeps. */
    method TakePreimage(who: Account, id: ProposalId, bound: nat) returns (error: Option<Error>)
      modifies this
      ensures Outcome(View(), error) == ReapPreimage(old(View()), who, id, bound)
    {
      if id !in preimages || preimages[id].Missing? {
        return Some(PreimageMissing);
      }
      var p := preimages[id];
      if p.size > bound {
        return Some(WrongUpperBound);
      }
      var additional := if who == p.provider then 0 else config.enactmentPeriod;
      if now < p.since + config.votingPeriod + additional {
        return Some(TooEarly);
      }
      if p.expiry.Some? && now <= p.expiry.value {
        return Some(Imminent);
      }
      if At(held, p.provider) >= p.deposit {
        MoveHeld(p.provider, who, p.deposit);
      }
      preimages := preimages - {id};
      return None;
    }

    method DoEnactProposal(id: ProposalId, decodes: bool, registered: bool) returns (error: Option<Error>)
      modifies this
      ensures Outcome(View(), error) == EnactProposal(old(View()), id, decodes, registered)
      ensures old(Valid()) ==> Valid()
    {
      StepStaysValid(View(), OpEnact(id, decodes, registered));
      error := UsePreimage(id, decodes, registered);
    }

    /** The call, without what it keeps. */
    method UsePreimage(id: ProposalId, decodes: bool, registered: bool) returns (error: Option<Error>)
      modifies this
      ensures Outcome(View(), error) == EnactProposal(old(View()), id, decodes, registered)
    {
      if id !in preimages {
        return Some(PreimageMissing);
      }
      var taken := preimages[id];
      preimages := preimages - {id};
      match taken {
        case Missing(_) =>
          return Some(PreimageMissing);
        case Available(_, provider, deposit, _, _) =>
          if decodes {
            ReleaseFunds(provider, deposit);
            if !registered {
              return Some(NoRegistry);
            }
            return None;
          }
          MoveHeld(provider, config.treasury, deposit);
          return Some(PreimageInvalid);
      }
    }

    method DoAwaitPreimage(id: ProposalId, when: Block)
      modifies this`preimages
      ensures View() == AwaitPreimage(old(View()), id, when)
      ensures old(Valid()) ==> Valid()
    {
      StepStaysValid(View(), OpAwait(id, when));
      if id in preimages && preimages[id].Available? {
        preimages := preimages[id := preimages[id].(expiry := Some(when))];
      } else {
        preimages := preimages[id := Missing(when)];
      }
    }
  }

  method FindProposal(props: seq<Proposal>, id: ProposalId) returns (n: nat)
    ensures n == Position(props, id)
  {
    n := 0;
    while n < |props| && props[n].id != id
      invariant n <= |props|
      invariant forall i :: 0 <= i < n ==> props[i].id != id
    {
      n := n + 1;
    }
  }
}
