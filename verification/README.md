# Verified models of the Composable parachain pallets

A Dafny model of the state machines and numeric kernels of a Substrate parachain, with
proofs of what they keep over every sequence of calls. `dafny verify dfyconfig.toml`
checks everything.

## How it is built

Each pallet comes in two forms. (The numeric kernels have only the second, proved against
specification functions; liquidity removal has both in one file.)

- A *state machine* on values: a `State`, one function for each call, and runs: `Op`,
  `Apply` and `Run`, or for auctions, where storage may yield orders in any order, `Step` and
  `IsRun`. Theorems are about every run from genesis, or from any state with the invariant.
  Steps taken by the world around a pallet (funds moved by others, blocks passing) are
  operations of the run as well.
- A *class* with the pallet's storage as fields, whose methods follow the code branch by
  branch and loop by loop. Each call is proved to leave the storage, and to return the
  result, that the state machine gives, and to keep the class `Valid()`; so every theorem
  about runs holds of the class. Two calls keep `Valid()` only under the condition in their
  contract, because the code does no better: `DoLiquidate` and `OnFinalize` of the auctions.
  The steps inside a call promise only what they do to the storage.

| files | pallet |
|---|---|
| `DemocracyTypes`, `DemocracySpec`, `DemocracyInvariant`, `DemocracyTheorems`, `DemocracyVotes`, `DemocracyRuns`, `DemocracyPallet` | delegated, conviction-weighted voting |
| `VoteThresholds` | thresholds, and the comparison of fractions without products |
| `DepositsSpec`, `DepositsTheorems`, `DepositsOutcomes`, `DepositsQueues`, `DepositsPallet` | the queues of proposals, and deposits for proposals, seconds and preimages |
| `DemocracyWhole`, `DemocracyBlocks`, `DemocracyRefunds`, `DemocracyWholePallet` | the two halves of democracy together |
| `CurveMaths`, `CurveInvariant`, `CurveConvergence` | the two Newton iterations of the stable swap |
| `MosaicSpec`, `MosaicTheorems`, `MosaicEscrow`, `MosaicPallet` | the bridge |
| `ProRata`, `BondedFinance`, `BondedFinanceTheorems`, `BondedFinancePayments`, `BondedFinancePallet`, `CurveLiquidity` | shares out of a shrinking pot: bond offers and liquidity |
| `CrowdloanRewards`, `CrowdloanTheorems`, `CrowdloanPallet` | vested crowdloan rewards |
| `DutchAuction`, `DutchAuctionBlock`, `DutchAuctionRuns`, `DutchAuctionFailures`, `DutchAuctionPallet` | auctions, settled at the end of every block |
| `Amounts`, `FiniteSums`, `Arithmetic` | amounts of the balance type, sums over finite sets, products and quotients |

## Main results

**Voting.** The pallet caches received delegations and running tallies and moves them
incrementally, with one call fanning out to many referenda. `TalliesAreExact` says that in
every reachable state the caches equal a recomputation that consults nothing cached. From
this follows that no addition saturates and no removal fails, so the bounded arithmetic of
the class equals exact arithmetic; the only assumptions are that six times the issuance is
a balance and that locked funds stay where they are. Votes count in the numbers stated
(`FirstVoteCounts`), and a delegation counts as the vote it follows (`DelegatingIsVotingAlike`).
Referenda are decided once, at their end block (`DecidedOnceAtEnd`), by the products of
`BlockDecides`, which for the biased thresholds are rules without roots up to one neighbouring
square (`BiasedRulesBetweenSquares`). Winning votes and delegated funds stay locked for their
lock periods (`WinnersStayLocked`, `UndelegatedStaysLocked`) and not longer
(`RemovedVoteIsFreed`, `UndelegatedIsFreed`).

**Deposits.** What is held for democracy is, in every reachable state, exactly what its
records say, with multiplicity (`HeldIsRecorded`). The queues take turns (`QueuesTakeTurns`),
a preimage that is needed cannot be reaped (`AwaitedUntilNeeded`), and a veto lasts exactly
its cooling-off period (`VetoLasts`, `VetoEnds`).

**Both together.** Every run of the whole pallet, with launches feeding referenda and
referenda using preimages, is a run of both machines at once, with exactly what is stated
passed between them (`RunIsBothRuns`). A deposit can be refunded exactly while its proposal
is queued, and then blocks alone refund it, within two launch periods for each queued
proposal (`RefundableInBlocksIff`, `QueuedIsRefundedInBlocks`).

**Stable swap.** `ComputeBase` returns, always and within its 255 iterations, a balance on the
curve of the pool up to what its three divisions lose, and in a balanced pool exactly the
other half. `ComputeD` never returns less than the invariant rounded down, and answers
for every pool whose first balance is at most `8 amp - 4` times the second, so for every
pool with its smaller balance first (`TractablePoolsAreSolved`).

**Bridge.** Escrow is always backed, and exactly so where nobody else pays into it
(`EscrowIsExact`); claims are never short and succeed exactly when their lock is over
(`TransferCanBeTakenBackIff`, `MintCanBeClaimedIff`); the mint rate is bounded by the token
bucket, supply is accounted for, and the remote index stays injective.

**Payouts.** Any series of purchases refines one abstract drain of a pot, whose payouts
are within one unit per purchase of the exact proportion (`SaleIsDrain`,
`SaleIsProportional`); the same drain serves liquidity removal. Crowdloan claims do not
depend on earlier claims (`ClaimingIsPathIndependent`) and bring every contributor to what it
was promised (`PromisedIsPaid`).

**Auctions.** Settling a block moves every balance by exactly the stated sums, in whatever
order storage yields the orders (`OnFinalize`): every taker pays its own limit for what it
gets, rounded down, also when filled in part (`ChargeBounds`, `OrderIsServed`). Runs without
part sales and failed deposit returns stay covered for ever (`SmoothRunsStayCovered`). For
every state, covered or not, a block can end if and only if the plain payments it makes can
be made, in some order of its orders, from what everybody holds (`BlockEndsIff`).

### Where the code does less than it says

- `update_lock` is documented never to make a lock more stringent. It does, exactly when a
  direct voter holds an unexpired prior lock above the present one, because a delegating
  account's lock leaves the prior lock out (`UnlockRaisesIff`, `UnlockCanRaise`). Accounts
  that never delegate are safe (`DirectVotersOnlyUnlock`).
- A referendum fast-tracked with a voting period of zero is never decided
  (`DecidableIffPeriodPositive`).
- Aye votes keep approval under every rule but super-majority-against, where after three
  votes one more aye defeats what it supports (`AyesKeepApprovalIff`).
- Clearing public proposals leaves their deposits held. A deposit can be paid back if and
  only if its proposal is queued (`RefundableIffQueued`, `RefundableInBlocksIff`,
  `ProposedThenCleared`).
- `compute_d` does not answer for every pool: with balances 584 and 1 its iterates go round
  in a circle, while the same balances exchanged are answered (`UnevenPoolIsNotSolved`).
- Two local assets can point at one remote asset; the local index is a bijection exactly
  as long as that does not happen (`MappingKeepsBijectionIff`, `TwoLocalsOneRemote`). Clearing
  the one then leaves the other without a way back (`ClearingForgetsTheOther`).
- Settlement of an auction does not store what is left of an order sold in part. The
  reservations then cover the stored orders exactly where a surplus covers what was sold of
  them (`CoverSurvivesIff`), so without a surplus only if there was no such sale
  (`ExactCoverSurvivesIff`), and a later block can have no end but a panic
  (`PartSaleStopsTheChain`). A block panics in
  every order of its orders exactly where its payments can be made in none (`BlockEndsIff`,
  and for a given order `BlockFailsIff`); with the takers' reservations in place and sellers
  that only sell, that is where some seller no longer holds, free or reserved, what its
  orders sell (`SellersDecideIff`, order by order `EachSellerDecidesIff`).
- A liquidation leaves funds of takers reserved for nothing if and only if some take of the
  order has reserved any (`LiquidationStrandsIff`, `LiquidationStrandsARun`): exactly that
  much (`LiquidationStrands`), for as long as no order is sold in part and no liquidation is
  left behind (`StrandedForGood`).
- A liquidation whose deposit the treasury cannot pay back keeps the order but not its
  reservation (`LiquidateKeepsCoveredIff`, `LiquidationLosesCover`), and a refused ask keeps
  the deposit whenever it is the reservation that failed (`RefusedAskCostsDepositIff`,
  `RefusedAskCostsADeposit`): neither call is transactional.
- An offer that is sold out cannot be cancelled, unless somebody sends a second stake to
  its account (`CancelSucceedsIff`, `SoldOutCannotBeCancelled`).

## Model

| member | source | states |
|---|---|---|
| `DemocracyTypes.VotesByLevel` | frame/democracy/src/conviction.rs:99-109 | a conviction multiplies capital by its level, or divides it by ten without a lock, up to the largest balance |
| `DemocracyTypes.NextLevel` | frame/democracy/src/conviction.rs:84-109 | without a lock a tenth votes; the first level locks for one period and votes with the capital; each further level doubles the lock and adds the capital once more |
| `DemocracyTypes.SplitIsTwoVotes` | frame/democracy/src/types.rs:108-127 | a split vote weighs what an aye and a nay without a lock weigh together |
| `DemocracyVotes.VoteSucceedsIff` | frame/democracy/src/lib.rs:1528-1575 | a vote succeeds if and only if the referendum is ongoing, what is put at stake is there, the account does not delegate and there is room for another vote |
| `DemocracyVotes.FirstVoteCounts` | frame/democracy/src/lib.rs:1528-1575 | a first vote moves the tally by these numbers: a split vote both sides by a tenth each, a standard vote its own side only, by capital times level up to the largest balance, and by what the account has received |
| `DemocracyVotes.VoteLocks` | frame/democracy/src/lib.rs:1562-1575 | it locks what is at stake where it was cast, and nothing anywhere else |
| `DemocracyVotes.RemovingUndoesVoting` | frame/democracy/src/lib.rs:1583-1627 | removing a first vote gives back the votes and every tally |
| `DemocracyVotes.RevotingIsRemovingFirst` | frame/democracy/src/lib.rs:1541-1560 | changing a vote is removing it and voting anew |
| `DemocracyVotes.RemovalSucceedsIff` | frame/democracy/src/lib.rs:1583-1627 | a vote can be removed by its owner if there is one, and by others exactly when it was split, or lost, or its voting lock periods after the end are over |
| `DemocracyVotes.RemovalLeavesLock` | frame/democracy/src/lib.rs:1600-1615 | a removal leaves a prior lock exactly of a winning vote that is locked still, until the same block, merged with the lock there was |
| `DemocracyVotes.DelegationSucceedsIff` | frame/democracy/src/lib.rs:1688-1740 | a delegation succeeds exactly to somebody else, with funds that are there and without votes, and locks the larger amount |
| `DemocracyVotes.DelegatingIsVotingAlike` | frame/democracy/src/lib.rs:1630-1683 | delegating moves every ongoing tally as a standard vote like the one followed would, with the conviction and balance delegated, and no other tally |
| `DemocracyVotes.UndelegatingUndoesDelegating` | frame/democracy/src/lib.rs:1745-1772 | undelegating gives every tally back |
| `DemocracyVotes.RedelegatingIsUndelegatingFirst` | frame/democracy/src/lib.rs:1688-1740 | delegating elsewhere is undelegating and delegating anew, but for the prior lock |
| `DemocracyTypes.RemoveUndoesAdd` | frame/democracy/src/types.rs:108-149 | a vote can be added exactly when the sums are balances, and removing it gives the tally back |
| `DemocracyTypes.ReduceUndoesIncrease` | frame/democracy/src/types.rs:152-169 | delegations can be taken off again exactly when adding them was not cut off |
| `DemocracyTheorems.TalliesAreExact` | frame/democracy/src/lib.rs:1528-1804 | from genesis and over every sequence of votes, removals, delegations, undelegations, unlocks, starts, cancellations, blocks and movements of unlocked funds, each ongoing tally equals the tally recomputed from each account's own stake with no cached value, turnout stays within the issuance, and received delegations equal the sum over exactly the accounts delegating to that account for that asset |
| `DemocracyTheorems.RecountIsFromScratch` | frame/democracy/src/lib.rs:1630-1683 | counting direct votes with the cached delegations equals counting every account's own stake, by exchange of summation over delegates and followers |
| `DemocracyTheorems.FollowersOf` | frame/democracy/src/lib.rs:1630-1683 | the accounts that delegate to a target hold together exactly what it has received |
| `DemocracyTheorems.TallyFits` | frame/democracy/src/types.rs:108-169 | in every state with the invariant the three totals are balances and turnout is within the electorate, so no checked or saturating addition of the tally is ever cut off |
| `DemocracyTheorems.DelegationsFit` | frame/democracy/src/types.rs:58-71 | received delegations are balances: capital within the issuance, votes within six times the issuance |
| `DemocracyTheorems.GivenWithinReceived` | frame/democracy/src/lib.rs:1658-1683 | what one account gives is never more than what its target has received, so the saturating subtraction is exact |
| `DemocracyTheorems.WeightWithinTally` | frame/democracy/src/lib.rs:1541-1560 | the weight of one account never exceeds the running tally, so the removals commented as impossible to fail do not fail |
| `DemocracyInvariant.VoteKeepsInv` | frame/democracy/src/lib.rs:1528-1575 | a vote or a changed vote keeps tallies, delegations, locks and indices in agreement |
| `DemocracyInvariant.RemoveVoteKeepsInv` | frame/democracy/src/lib.rs:1583-1627 | removing a vote keeps the invariant, for ongoing, finished and removed referenda |
| `DemocracyInvariant.DelegateKeepsInv` | frame/democracy/src/lib.rs:1688-1740 | delegating and re-delegating keep the invariant, although the change fans out to every referendum of both targets |
| `DemocracyInvariant.UndelegateKeepsInv` | frame/democracy/src/lib.rs:1745-1772 | undelegating keeps the invariant |
| `DemocracyInvariant.UnlockKeepsInv` | frame/democracy/src/lib.rs:1776-1787 | updating a lock never unlocks what a vote or a delegation still needs |
| `DemocracyInvariant.LargestVoteIsMax` | frame/democracy/src/vote.rs:182-188 | the fold over an account's votes is an upper bound of all their balances and of the prior lock, and is one of them |
| `DemocracyInvariant.BeginBlockKeepsInv` | frame/democracy/src/lib.rs:1950-1997 | the start of a block keeps the invariant, including that nothing below the scanning bound is ongoing |
| `DemocracyInvariant.StepKeepsInv` | frame/democracy/src/lib.rs:1528-1997 | every call, block and movement of unlocked funds keeps the invariant |
| `DemocracyInvariant.RunKeepsInv` | frame/democracy/src/lib.rs:1528-1997 | so does every sequence of them |
| `DemocracyRuns.ScanIsComplete` | frame/democracy/src/lib.rs:1467-1481 | scanning from the lowest unbaked index to the count finds exactly the ongoing referenda that end now |
| `DemocracyRuns.ReferendumStep` | frame/democracy/src/lib.rs:1898-1997 | one step leaves the terms of a referendum alone unless it is cancelled or it is the block at its end, which finishes it with the verdict on the tally reached |
| `DemocracyRuns.DecidedOnceAtEnd` | frame/democracy/src/lib.rs:1950-1997 | an uncancelled referendum is ongoing with unchanged terms before its end block, and from that block on is finished with the verdict of the tally and issuance of that block, whatever comes later |
| `DemocracyRuns.BlockDecides` | frame/democracy/src/lib.rs:1898-1936 | the verdict of the end block in products of the tally with the roots of turnout and issuance, for each of the three rules |
| `DemocracyRuns.NothingIsEverOverdue` | frame/democracy/src/lib.rs:1950-1997 | with positive voting periods no reachable state has an ongoing referendum whose end is past |
| `DemocracyRuns.OverdueIsNeverDecided` | frame/democracy/src/lib.rs:1467-1481 | a referendum whose end is not in the future is never decided by any later sequence of calls and blocks |
| `DemocracyRuns.DecidableIffPeriodPositive` | frame/democracy/src/lib.rs:928-965 | a newly started referendum can be decided without being cancelled if and only if its voting period is positive; a fast track with period zero never is |
| `DemocracyRuns.NewReferendum` | frame/democracy/src/lib.rs:1790-1804 | a referendum that appears takes the next index, is ongoing with nothing counted, ends a voting period after the block, and has the asset, threshold and delay given |
| `DemocracyRuns.WinnersStayLocked` | frame/democracy/src/vote.rs:81-131 | the balance of a standard vote on the winning side stays locked and in the account until the block at which the referendum finished plus the voting lock period times the lock periods of its conviction, over every sequence of other calls in which the account does not delegate and the finished record is not removed |
| `DemocracyRuns.UndelegatedStaysLocked` | frame/democracy/src/lib.rs:1745-1772 | what was delegated stays locked and in the account for the voting lock period times the lock periods after the undelegation, over every sequence of calls in which the account does not delegate again |
| `DemocracyRuns.UndelegatedIsFreed` | frame/democracy/src/lib.rs:1745-1787 | and no longer: if the account rests, everything can be unlocked from exactly the block at which the last of its prior locks ends |
| `DemocracyRuns.RemovedVoteIsFreed` | frame/democracy/src/lib.rs:1596-1615 | the same for the last vote of an account, removed after its referendum: a split or lost vote leaves no lock, a winning one exactly until its end |
| `DemocracyRuns.UnlockRaisesIff` | frame/democracy/src/lib.rs:1774-1787 | the promise that updating a lock never makes it more stringent fails exactly when a direct voter holds an unexpired prior lock larger than the present lock |
| `DemocracyRuns.UnlockCanRaise` | frame/democracy/src/vote.rs:182-188 | a concrete sequence of delegations from genesis that raises a lock from 10 to 100 by `unlock` |
| `DemocracyRuns.DirectVotersOnlyUnlock` | frame/democracy/src/lib.rs:1774-1787 | for an account that never delegates, `unlock` never raises the lock, in every reachable state |
| `VoteThresholds.CompareRationals` | frame/democracy/src/vote_threshold.rs:47-79 | for positive denominators the continued-fraction loop terminates and answers cross-multiplication, with every variable bounded by the inputs |
| `VoteThresholds.Approved` | frame/democracy/src/vote_threshold.rs:92-105 | the decision equals the three rules stated by cross-multiplication, including that nobody voting rejects |
| `VoteThresholds.PassesByRoots` | frame/democracy/src/vote_threshold.rs:92-105 | the three rules, with any numbers whose squares are the largest within turnout and electorate |
| `VoteThresholds.BiasedRulesAtSquares` | frame/democracy/src/vote_threshold.rs:92-105 | the biased rules without roots where turnout and electorate are squares: squared nays weighed by the electorate against squared ayes weighed by the turnout, or the other way round |
| `VoteThresholds.BiasedRulesBetweenSquares` | frame/democracy/src/vote_threshold.rs:92-105 | for any turnout and electorate they are within one neighbouring square of that |
| `VoteThresholds.RootsDecide` | frame/democracy/src/vote_threshold.rs:92-105 | a tally of two votes that is approved, and would not be without the roots |
| `VoteThresholds.QuotientStep` | frame/democracy/src/vote_threshold.rs:61-77 | one turn of the loop: different quotients decide, equal quotients leave the swapped reciprocals of the remainders to compare |
| `VoteThresholds.ThresholdsOrdered` | frame/democracy/src/vote_threshold.rs:92-105 | within the electorate, super-majority approval implies simple majority, which implies super-majority-against |
| `VoteThresholds.FullTurnoutIsSimpleMajority` | frame/democracy/src/vote_threshold.rs:92-105 | with the whole electorate voting the three rules agree |
| `VoteThresholds.AyeKeepsApproval` | frame/democracy/src/types.rs:108-127 | an aye vote added to an approved tally keeps it approved under super-majority approval and simple majority |
| `VoteThresholds.AyesKeepApprovalIff` | frame/democracy/src/vote_threshold.rs:92-105 | aye votes keep approval for all tallies, electorates and votes if and only if the rule is not super-majority-against |
| `VoteThresholds.AyeCanDefeatUnderSuperMajorityAgainst` | frame/democracy/src/vote_threshold.rs:92-105 | three votes after which, under super-majority-against, a low-conviction aye turns approval into rejection |
| `DemocracyPallet.BinarySearch` | frame/democracy/src/lib.rs:1541-1560 | on a strictly sorted list, finds the position of an index, or the place to insert it |
| `DemocracyPallet.PlaceVote` | frame/democracy/src/lib.rs:1541-1562 | replaces or inserts a vote in the sorted list: the list stays strictly sorted and as a map is the old one with that vote; refuses a new vote on a list longer than the limit |
| `DemocracyPallet.VoteIsExact` | frame/democracy/src/types.rs:108-169 | the checked and saturating arithmetic of a successful vote equals exact arithmetic |
| `DemocracyPallet.MoveReferenda` | frame/democracy/src/lib.rs:1630-1683 | the loop over an account's votes changes exactly the ongoing referenda with a standard vote, each by the delegated amount on its side |
| `DemocracyPallet.LockedBalance` | frame/democracy/src/vote.rs:182-188 | the fold equals the lock needed by the account |
| `DemocracyPallet.BakeReferenda` | frame/democracy/src/lib.rs:1971-1977 | deciding the maturing referenda one by one finishes exactly those, each with its verdict |
| `DemocracyPallet.AdvanceLowest` | frame/democracy/src/lib.rs:1987-1994 | the loop stops at the first ongoing index, or at the end of the range |
| `DemocracyPallet.Pallet.TryVote` | frame/democracy/src/lib.rs:1528-1575 | storage after the call and its result are those of the exact state machine, errors included, and votes stay sorted and the invariant holds |
| `DemocracyPallet.Pallet.TryRemoveVote` | frame/democracy/src/lib.rs:1583-1627 | the same for removing a vote in either scope |
| `DemocracyPallet.Pallet.MoveUpstream` | frame/democracy/src/lib.rs:1630-1683 | the same for increasing or reducing a target's received delegations |
| `DemocracyPallet.Pallet.TryDelegate` | frame/democracy/src/lib.rs:1688-1740 | the same for delegating and re-delegating |
| `DemocracyPallet.Pallet.TryUndelegate` | frame/democracy/src/lib.rs:1745-1772 | the same for undelegating |
| `DemocracyPallet.Pallet.UpdateLock` | frame/democracy/src/lib.rs:1776-1787 | the same for updating a lock |
| `DemocracyPallet.Pallet.InjectReferendum` | frame/democracy/src/lib.rs:1790-1804 | the same for starting a referendum |
| `DemocracyPallet.Pallet.CancelReferendum` | frame/democracy/src/lib.rs:1501-1504 | the same for cancelling one |
| `DemocracyPallet.Pallet.MaturingReferenda` | frame/democracy/src/lib.rs:1467-1481 | exactly the ongoing referenda of the range that end now, each once and with its status |
| `DemocracyPallet.Pallet.BeginBlock` | frame/democracy/src/lib.rs:1950-1997 | the same for the start of a block |
| `DepositsTheorems.HeldIsRecorded` | frame/democracy/src/lib.rs:730-786 | from genesis and over every sequence of proposals, seconds, clearings, cancellations, blacklistings, launches, preimage calls, enactments and holds by others, what democracy holds of an account is exactly its listed deposits plus the deposits of its available preimages |
| `DepositsTheorems.StakeIsMultiplicity` | frame/democracy/src/lib.rs:772-786 | an entry holds its amount once for each time the account is listed |
| `DepositsTheorems.ReleaseAllIs` | frame/democracy/src/lib.rs:1843-1847 | the refund loop returns to every account exactly what the entry holds of it, although each release is best effort |
| `DepositsTheorems.SlashAllIs` | frame/democracy/src/lib.rs:1429-1440 | the slashing loop moves exactly what the entry holds to the treasury |
| `DepositsTheorems.CancelKeepsInv` | frame/democracy/src/lib.rs:1423-1444 | cancelling a proposal keeps holds equal to records, and every queued proposal backed by its own entry |
| `DepositsTheorems.BlacklistKeepsInv` | frame/democracy/src/lib.rs:1363-1393 | the same for blacklisting a queued proposal |
| `DepositsTheorems.LaunchKeepsInv` | frame/democracy/src/lib.rs:1834-1860 | the same for tabling one |
| `DepositsTheorems.ReapKeepsInv` | frame/democracy/src/lib.rs:1209-1243 | the same for reaping a preimage |
| `DepositsTheorems.EnactKeepsInv` | frame/democracy/src/lib.rs:1862-1896 | the same for using up a preimage, also where the call reports an error |
| `DepositsTheorems.BestIsLastMaximum` | frame/democracy/src/lib.rs:1836-1839 | the tabled proposal has the greatest backing, and is the last in the queue that has it |
| `DepositsOutcomes.BackingIsTotal` | frame/democracy/src/lib.rs:1834-1839 | the backing compared is what all depositors of a proposal hold for it together |
| `DepositsOutcomes.LaunchReorders` | frame/democracy/src/lib.rs:1836-1843 | the last proposal takes the place of the one tabled, and the others keep theirs |
| `DepositsTheorems.LaunchRefunds` | frame/democracy/src/lib.rs:1834-1860 | tabling pays every depositor back exactly what was held for the proposal and changes nobody else's funds |
| `DepositsTheorems.RefundableIffQueued` | frame/democracy/src/lib.rs:1834-1860 | in the deposit machine a deposit can leave the records without being cancelled if and only if its proposal is queued, and then launches are enough |
| `DepositsTheorems.QueuedIsRefunded` | frame/democracy/src/lib.rs:1834-1860 | a queued proposal is tabled after some launches, on which everybody is paid back exactly the deposits taken off the records |
| `DepositsTheorems.DepositorsAreRefunded` | frame/democracy/src/lib.rs:1843-1847 | on the way every depositor of the proposal gets back at least its deposit for it |
| `DepositsTheorems.ClearStrands` | frame/democracy/src/lib.rs:1106-1110 | clearing pays nobody and leaves no deposit that anything but a cancellation of its index could ever take off the records |
| `DepositsTheorems.ProposedThenCleared` | frame/democracy/src/lib.rs:1106-1110 | from genesis, whoever proposes before a clearing has the deposit on hold after every sequence of calls without a cancellation |
| `DepositsTheorems.StrandedUntilCancelled` | frame/democracy/src/lib.rs:1106-1110 | a deposit whose proposal is not queued is never refunded: over every sequence without a cancellation of its index the entry stays, only ever extended by seconds |
| `DepositsOutcomes.ProposalSucceedsIff` | frame/democracy/src/lib.rs:730-759 | a proposal is taken if and only if it is worth the minimum, there is room, its id is not barred and the value is there |
| `DepositsOutcomes.ProposalIsQueued` | frame/democracy/src/lib.rs:730-759 | it takes the next index at the end of the queue, and holds the value of its proposer and of nobody else |
| `DepositsOutcomes.SecondSucceedsIff` | frame/democracy/src/lib.rs:772-786 | the same for a second |
| `DepositsOutcomes.SecondJoins` | frame/democracy/src/lib.rs:772-786 | which holds the same amount again of who seconds |
| `DepositsOutcomes.CancellationSlashes` | frame/democracy/src/lib.rs:1423-1444 | a cancellation takes this proposal off the queue and no other; every depositor loses its stake and the treasury gains the sum |
| `DepositsOutcomes.BlacklistingSlashes` | frame/democracy/src/lib.rs:1363-1393 | a blacklisting does so to the first proposal with that id, bars the id to the last block and takes it off the external queue |
| `DepositsOutcomes.NotingHolds` | frame/democracy/src/lib.rs:2075-2100 | noting a preimage holds the byte deposit times its size, up to the largest balance |
| `DepositsOutcomes.NotingImminentIsFree` | frame/democracy/src/lib.rs:2103-2128 | noting an imminent one costs nothing and keeps the date |
| `DepositsOutcomes.ReapingSucceedsIff` | frame/democracy/src/lib.rs:1209-1243 | a preimage can be reaped if and only if its size is named, it is a voting period old, for others than its provider an enactment period more, and its date is past |
| `DepositsOutcomes.ReapingPays` | frame/democracy/src/lib.rs:1209-1243 | whoever reaps gets the deposit of the provider |
| `DepositsOutcomes.EnactingPays` | frame/democracy/src/lib.rs:1862-1896 | using a preimage gives the deposit back to its provider if it decodes, and to the treasury if it does not |
| `DepositsOutcomes.ExternalSucceedsIff` | frame/democracy/src/lib.rs:845-862 | a simple external proposal is taken if and only if nothing waits and it is not barred, and waits for a super-majority |
| `DepositsOutcomes.ReplacementIsTabled` | frame/democracy/src/lib.rs:876-909 | the other external origins replace what waits, barred or not, and the next launch in turn tables it under their threshold |
| `DepositsOutcomes.FastTrackSucceedsIff` | frame/democracy/src/lib.rs:951-961 | a fast track takes what waits if and only if the hashes agree and it did not come from the simple origin, whatever the assets |
| `DepositsOutcomes.VetoSucceedsIff` | frame/democracy/src/lib.rs:978-1005 | a veto needs the id that waits and a new vetoer, and bars the id for the cooling-off period |
| `DepositsOutcomes.VetoLasts` | frame/democracy/src/lib.rs:978-1005 | over every run a vetoed proposal comes back neither externally nor publicly during the cooling-off period |
| `DepositsOutcomes.VetoEnds` | frame/democracy/src/lib.rs:978-1005 | and, unless barred again, is barred up to exactly its end |
| `DepositsQueues.LaunchTablesIff` | frame/democracy/src/lib.rs:1807-1860 | a launch tables something exactly when one of the queues has something, the public queue if it is its turn or the other is empty, and leaves the other queue alone |
| `DepositsQueues.QueuesTakeTurns` | frame/democracy/src/lib.rs:1807-1831 | whatever happens between two launches, an external proposal is followed by a public one if any waits then, and a public one by an external |
| `DepositsQueues.AwaitedUntilNeeded` | frame/democracy/src/lib.rs:1911-1916 | the preimage of a referendum that passed with a delay cannot be reaped before it is needed, over every sequence without its use, and noting a missing one keeps the date |
| `DepositsQueues.PassedPreimageIsKept` | frame/democracy/src/lib.rs:1911-1916 | from the block in which a referendum passes, then, nobody can reap its preimage up to the block that needs it, over every sequence without its use or an earlier date |
| `DemocracyWhole.RunIsBothRuns` | frame/democracy/src/lib.rs:1528-1997 | every run of the whole pallet is a run of the voting machine and a run of the deposit machine at once, on stated operations: the voting machine is told what the queues table, and the deposit machine which preimages the decided referenda use or await |
| `DemocracyWhole.WholeIsExact` | frame/democracy/src/lib.rs:1950-1997 | so through all of it tallies stay exact and holds stay recorded |
| `DemocracyWhole.RunKeepsLinked` | frame/democracy/src/lib.rs:1790-1804 | in every reachable state each referendum has its proposal, on the asset it is voted on with, and both halves have the same clock |
| `DemocracyBlocks.TabledIsStarted` | frame/democracy/src/lib.rs:1807-1860 | every launch period and in no other block, what the queues yield becomes the next referendum on its asset and threshold, with the configured periods |
| `DemocracyBlocks.FastTrackStarts` | frame/democracy/src/lib.rs:928-965 | a fast track starts a referendum on the asset of the call with the threshold that waited, for the period and the delay of the call |
| `DemocracyBlocks.BlacklistingCancels` | frame/democracy/src/lib.rs:1394-1413 | a blacklisting cancels the referendum named if and only if it is an ongoing one on that proposal, and no other |
| `DemocracyBlocks.PassedPreimageIsUsed` | frame/democracy/src/lib.rs:1898-1930 | a referendum that passes uses up its preimage in that block, or has it awaited at exactly its date, whatever else passes |
| `DemocracyBlocks.OnePasses` | frame/democracy/src/lib.rs:1898-1930 | where one alone passes, that is all the block does to preimages and deposits besides the launch |
| `DemocracyRefunds.RefundableInBlocksIff` | frame/democracy/src/lib.rs:1807-1860 | in every state of the whole pallet with its invariants, a deposit can leave the records without a cancellation if and only if its proposal is queued, and if and only if it is, blocks with no call at all pay every depositor back |
| `DemocracyRefunds.QueuedIsRefundedInBlocks` | frame/democracy/src/lib.rs:1807-1860 | they need at most two launch periods for each queued proposal, as public and external proposals take turns |
| `DemocracyRefunds.ReachableHasWholeInv` | frame/democracy/src/lib.rs:1950-1997 | every reachable state has those invariants |
| `DemocracyWholePallet.Democracy.DoBeginBlock` | frame/democracy/src/lib.rs:1950-1997 | a block tables what the queues yield, decides what matures, and uses or awaits the preimage of each referendum that passes |
| `DemocracyWholePallet.Democracy.DoBlacklist` | frame/democracy/src/lib.rs:1363-1413 | both queues, the depositors, the blacklist and the referendum named, if it is an ongoing one on this proposal |
| `DemocracyWholePallet.Democracy.DoFastTrack` | frame/democracy/src/lib.rs:928-965 | what waits externally becomes a referendum on the asset of the call, refused for the same reasons |
| `DepositsPallet.Pallet.DoExternalPropose` | frame/democracy/src/lib.rs:845-862 | storage and result are those of the deposit state machine |
| `DepositsPallet.Pallet.DoExternalReplace` | frame/democracy/src/lib.rs:876-909 | what waits is replaced, whatever it was |
| `DepositsPallet.Pallet.DoVetoExternal` | frame/democracy/src/lib.rs:978-1005 | the same for a veto, once for each vetoer |
| `DepositsPallet.Pallet.DoFastTrack` | frame/democracy/src/lib.rs:951-961 | the same for taking an external proposal off the queue |
| `DepositsPallet.Pallet.DoLaunchNext` | frame/democracy/src/lib.rs:1807-1860 | the same for a launch, and what is tabled is the specified proposal |
| `DepositsPallet.FindProposal` | frame/democracy/src/lib.rs:1379 | the first queued proposal with an identifier, or the length of the queue |
| `DepositsPallet.Pallet.DoPropose` | frame/democracy/src/lib.rs:730-759 | storage, holds and result are those of the deposit state machine |
| `DepositsPallet.Pallet.DoSecond` | frame/democracy/src/lib.rs:772-786 | the same for seconding |
| `DepositsPallet.Pallet.DoCancelProposal` | frame/democracy/src/lib.rs:1423-1444 | the same for cancelling a proposal, with its loops over the queue and the depositors |
| `DepositsPallet.Pallet.DoBlacklist` | frame/democracy/src/lib.rs:1363-1393 | the same for blacklisting, in both queues |
| `DepositsPallet.Pallet.PickBest` | frame/democracy/src/lib.rs:1836-1839 | the loop picks the last of the best-backed proposals |
| `DepositsPallet.Pallet.DoLaunchPublic` | frame/democracy/src/lib.rs:1834-1860 | the same for tabling, with the refund loop |
| `DepositsPallet.Pallet.DoNotePreimage` | frame/democracy/src/lib.rs:2075-2100 | the same for noting a preimage |
| `DepositsPallet.Pallet.DoNoteImminentPreimage` | frame/democracy/src/lib.rs:2103-2128 | the same for noting an imminent one |
| `DepositsPallet.Pallet.DoReapPreimage` | frame/democracy/src/lib.rs:1209-1243 | the same for reaping one |
| `DepositsPallet.Pallet.DoEnactProposal` | frame/democracy/src/lib.rs:1862-1896 | the same for using one up, released if it decodes and slashed otherwise |
| `DepositsPallet.Pallet.DoAwaitPreimage` | frame/democracy/src/lib.rs:1911-1916 | the same for marking one as needed |
| `CurveMaths.ComputeBase` | frame/curve-amm/src/maths.rs:94-135 | for all 128-bit inputs with positive quote and amplification the result lies on the curve of the pool up to the stated loss of the three floored divisions, is exactly the other half of a balanced pool, and is the one floor root of the code's quadratic or the next number, or does not fit the balance type; no divisor is zero or negative and the loop stops within 255 iterations |
| `CurveMaths.SolutionIsOnCurve` | frame/curve-amm/src/maths.rs:81-117 | the quadratic solved is the pool's equation 4 ann q y^2 + 4 q (ann q + d - ann d) y = d^3 but for the three divisions: neither above its root by more than one slack nor below by more than the other |
| `CurveMaths.BalancedRoot` | frame/curve-amm/src/maths.rs:94-117 | in a balanced pool the other half solves it exactly, whatever is lost in division |
| `CurveInvariant.SameCurve` | frame/curve-amm/src/maths.rs:28-93 | it is the equation of the invariant, solved for the other unknown |
| `CurveMaths.StepStaysAbove` | frame/curve-amm/src/maths.rs:118-126 | no iterate falls below the floor root |
| `CurveMaths.StepIsAccurate` | frame/curve-amm/src/maths.rs:127-133 | an iterate that meets the stopping test overshoots the equation by at most one |
| `CurveMaths.StepHalves` | frame/curve-amm/src/maths.rs:118-126 | each iterate more than halves the distance to the number after the floor root |
| `CurveMaths.FirstStepBound` | frame/curve-amm/src/maths.rs:106-126 | the first iterate is below 2^253 |
| `CurveMaths.FloorRootUnique` | frame/curve-amm/src/maths.rs:94-135 | the quadratic has one floor root, so the answer is one of two numbers |
| `CurveConvergence.ComputeD` | frame/curve-amm/src/maths.rs:28-78 | the result is that of the iteration from the sum: an answer is never below the invariant rounded down and exceeds the cubic equation by no more than a stated slack; a balanced pool gives exactly the sum, an empty one zero; a pool whose first balance is at most 8 amp - 4 times the second is always answered, unless the sum reaches the end of the balance type |
| `CurveConvergence.TractablePoolsAreSolved` | frame/curve-amm/src/maths.rs:47-78 | for those pools, of any 128-bit balances, the stopping test is met within the 255 iterations |
| `CurveConvergence.StepShrinks` | frame/curve-amm/src/maths.rs:47-70 | despite the two floored divisions a step that stays beyond the root takes a third off the distance, as long as the amplification outweighs what the divisions lose |
| `CurveConvergence.StepGoesDown` | frame/curve-amm/src/maths.rs:47-70 | a step that does not stop goes down and closer to the root |
| `CurveConvergence.SmallerBalanceFirst` | frame/curve-amm/src/maths.rs:47-78 | every pool qualifies with its smaller balance first |
| `CurveConvergence.UnevenPoolIsNotSolved` | frame/curve-amm/src/maths.rs:47-78 | with balances 584 and 1 and amplification 1 the iterates go round between 164 and 162, so that no number of iterations is enough; with the balances exchanged the same pool is answered |
| `CurveConvergence.SolutionsAreAccurate` | frame/curve-amm/src/maths.rs:28-78 | whatever number it starts from, an answer of the iteration brackets the invariant |
| `CurveInvariant.StepDStaysAbove` | frame/curve-amm/src/maths.rs:47-70 | despite two floored divisions no iterate falls below a number at which the equation is not reached |
| `CurveInvariant.DPBounds` | frame/curve-amm/src/maths.rs:50-58 | the two floored divisions lose a bounded part of the cube |
| `CurveInvariant.StepDAccurate` | frame/curve-amm/src/maths.rs:60-72 | an iterate that moves by at most one satisfies the equation up to the slack |
| `CurveInvariant.BalancedStep` | frame/curve-amm/src/maths.rs:40-72 | in a balanced pool the first iterate is already the fixed point |
| `CurveInvariant.CubicIdentity` | frame/curve-amm/src/maths.rs:47-70 | the identity that keeps Newton's iterates above the root of the cubic |
| `MosaicTheorems.RunKeepsBacked` | frame/mosaic/src/lib.rs:445-767 | over every interleaving of calls and outside transfers, each recorded outgoing and incoming amount is in its sub-account |
| `MosaicTheorems.ClaimsAreNeverShort` | frame/mosaic/src/lib.rs:734-767 | in every reachable state a claim succeeds if and only if something is recorded, the current block is past its unlock block and the receiver can hold it |
| `MosaicTheorems.StaleClaimsAreNeverShort` | frame/mosaic/src/lib.rs:571-614 | the same for claiming back outgoing funds |
| `MosaicEscrow.EscrowIsExact` | frame/mosaic/src/lib.rs:445-767 | where sub-accounts start empty and nobody else pays into them, they hold in every reachable state exactly what is recorded |
| `MosaicEscrow.TransferCanBeTakenBackIff` | frame/mosaic/src/lib.rs:445-614 | over every run in which nobody touches it, a transfer out can be taken back if and only if its lock period is over, and then all of it |
| `MosaicEscrow.MintCanBeClaimedIff` | frame/mosaic/src/lib.rs:619-767 | the same for a mint and its lock time |
| `MosaicEscrow.LockPeriodIsLongEnough` | frame/mosaic/src/lib.rs:679-688 | over every run the lock period of transfers is the configured minimum or longer |
| `MosaicEscrow.TransferSucceedsIff` | frame/mosaic/src/lib.rs:445-499 | funds leave if and only if asset, mapping, network and size allow it and they are there |
| `MosaicEscrow.MintSucceedsIff` | frame/mosaic/src/lib.rs:619-677 | funds are minted if and only if they are within the budget less the penalty that is left after one factor for every block since the last mint |
| `MosaicEscrow.AcceptingSucceedsIff` | frame/mosaic/src/lib.rs:514-560 | a transfer is accepted up to what is recorded |
| `MosaicEscrow.RescissionSucceedsIff` | frame/mosaic/src/lib.rs:694-727 | a rescission needs a record and is limited by the sub-account |
| `MosaicEscrow.TransferEscrows` | frame/mosaic/src/lib.rs:445-499 | the caller loses the amount, escrow and record gain it, locked for the lock period |
| `MosaicEscrow.AcceptingBurns` | frame/mosaic/src/lib.rs:514-560 | escrow and record lose the amount, what is left keeps its date |
| `MosaicEscrow.StaleClaimPays` | frame/mosaic/src/lib.rs:571-614 | all that is recorded goes to whom the caller names |
| `MosaicEscrow.MintEscrows` | frame/mosaic/src/lib.rs:619-677 | escrow and record of the receiver gain the amount, locked for the time given |
| `MosaicEscrow.RescindingBurns` | frame/mosaic/src/lib.rs:694-727 | escrow loses the amount, the record as far as it goes |
| `MosaicEscrow.ClaimPays` | frame/mosaic/src/lib.rs:734-767 | all that is recorded goes to whom the caller names |
| `MosaicEscrow.SettingBudgetKeepsPenalty` | frame/mosaic/src/lib.rs:402-431 | a new budget leaves what was minted before counted, and a new asset has minted nothing |
| `MosaicEscrow.MappingLeads` | frame/mosaic/src/lib.rs:778-840 | what leads where after a mapping is set or cleared, for every local and remote asset of the network |
| `MosaicTheorems.SupplyIsConserved` | frame/mosaic/src/lib.rs:445-767 | over every sequence of bridge calls the supply of an asset changes by exactly what is minted less what accepted transfers and rescinded mints burn |
| `MosaicTheorems.MintRateIsBounded` | frame/mosaic/src/lib.rs:631-663 | with a fixed budget and linear factor, what is minted in any period is at most the budget plus what decays in that period, whatever the starting penalty |
| `MosaicTheorems.FallbackIsExact` | frame/mosaic/src/lib.rs:635-639 | falling back to a zero penalty on overflow is what exact arithmetic gives |
| `MosaicTheorems.DecayComposes` | frame/mosaic/src/decay.rs:69-78 | letting time pass in two parts decays a penalty like letting it pass at once |
| `MosaicTheorems.FullRecovery` | frame/mosaic/src/decay.rs:80-85 | after the recovery period nothing is left of a penalty, and one block earlier at most what one block takes away |
| `MosaicTheorems.MintStep` | frame/mosaic/src/lib.rs:631-677 | a mint raises the penalty by exactly what it mints and only within the budget |
| `MosaicTheorems.RunKeepsReversed` | frame/mosaic/src/lib.rs:778-840 | over every sequence of calls each remote asset leads to a local asset that leads back |
| `MosaicTheorems.RemoteIndexIsInjective` | frame/mosaic/src/lib.rs:778-840 | in every reachable state no two remote assets of a network lead to the same local asset |
| `MosaicTheorems.MappingKeepsBijectionIff` | frame/mosaic/src/lib.rs:778-840 | the opposite direction is kept if and only if the remote asset is not already mapped to another local asset |
| `MosaicTheorems.TwoLocalsOneRemote` | frame/mosaic/src/lib.rs:778-840 | two calls from genesis after which it is not kept |
| `MosaicTheorems.ClearingForgetsTheOther` | frame/mosaic/src/lib.rs:778-840 | clearing the first of them then takes away the way back to the second |
| `MosaicPallet.Pallet.SetBudget` | frame/mosaic/src/lib.rs:402-431 | setting a budget keeps the last mint block and the penalty of a known asset |
| `MosaicPallet.Pallet.TransferTo` | frame/mosaic/src/lib.rs:445-499 | storage, balances and result are those of the bridge state machine, with a rollback when a later check fails |
| `MosaicPallet.Pallet.AcceptTransfer` | frame/mosaic/src/lib.rs:514-565 | the same for accepting a transfer |
| `MosaicPallet.Pallet.ClaimStaleTo` | frame/mosaic/src/lib.rs:571-614 | the same for claiming back |
| `MosaicPallet.Pallet.TimelockedMint` | frame/mosaic/src/lib.rs:619-677 | the same for minting |
| `MosaicPallet.Pallet.RescindTimelockedMint` | frame/mosaic/src/lib.rs:694-730 | the same for rescinding a mint, with its saturating subtraction |
| `MosaicPallet.Pallet.ClaimTo` | frame/mosaic/src/lib.rs:734-767 | the same for claiming |
| `MosaicPallet.Pallet.UpdateAssetMapping` | frame/mosaic/src/lib.rs:778-840 | the same for mapping an asset |
| `ProRata.DrainBounds` | frame/bonded-finance/src/lib.rs:359-366 | however units are taken, the amount per remaining unit never falls below the first rate and exceeds it by less than one per share taken |
| `ProRata.PayoutBounds` | frame/bonded-finance/src/lib.rs:359-410 | the payout of k shares lies in the exact proportion less k, exclusive, up to the exact proportion |
| `ProRata.SplittingNeverPaysMore` | frame/bonded-finance/src/lib.rs:359-410 | any split of a purchase pays at most what one purchase pays, and less than one per part less |
| `ProRata.LastUnitEmptiesPot` | frame/bonded-finance/src/lib.rs:406-418 | when the last unit is taken nothing is left and everything was paid out |
| `ProRata.MinimumShare` | frame/composable-traits/src/bonded_finance.rs:80-99 | a pot that covers a minimum per unit pays at least that per unit on every share and still covers it |
| `BondedFinanceTheorems.BondSucceedsIff` | frame/bonded-finance/src/lib.rs:336-435 | with the invariant a purchase succeeds if and only if the offer exists, the number of bonds is positive and available, and the buyer can pay: overflow, vesting minimum, reward and stake never refuse it |
| `BondedFinanceTheorems.RunKeepsFunded` | frame/bonded-finance/src/lib.rs:270-435 | over every sequence of offers, purchases, cancellations and outside transfers each offer account holds the unsold reward, and the stake until the last bond is sold, also where assets coincide or a beneficiary is an offer account |
| `BondedFinanceTheorems.CancelSucceedsIff` | frame/bonded-finance/src/lib.rs:270-295 | an authorised cancellation succeeds if and only if bonds are left or the account holds another stake |
| `BondedFinanceTheorems.SoldOutCannotBeCancelled` | frame/bonded-finance/src/lib.rs:270-295 | an offer from genesis that is sold out, and that its issuer cannot cancel |
| `BondedFinanceTheorems.SaleIsDrain` | frame/bonded-finance/src/lib.rs:343-434 | over every run an offer still stored is its first self with the successful purchases drained as shares in order, and the purchases were told exactly those shares |
| `BondedFinanceTheorems.SaleIsProportional` | frame/bonded-finance/src/lib.rs:343-434 | so paid and sold add up, payouts are within one per purchase of the exact proportion, one purchase would not pay less, the reward per remaining bond has not fallen, and the last bond leaves zero |
| `BondedFinanceTheorems.EveryBondEarnsTheMinimum` | frame/composable-traits/src/bonded_finance.rs:80-99 | every successful purchase of a reachable state is rewarded with at least the minimum vested transfer per bond |
| `BondedFinancePayments.OfferSucceedsIff` | frame/bonded-finance/src/lib.rs:306-334 | an offer is taken if and only if its numbers are as promised of a valid one and its issuer can pay stake and reward, also in one asset |
| `BondedFinancePayments.OfferMovesFunds` | frame/bonded-finance/src/lib.rs:306-334 | stake and reward move from the issuer to the offer's account, and nothing else does |
| `BondedFinancePayments.BondMovesFunds` | frame/bonded-finance/src/lib.rs:359-430 | purse by purse and also where assets or accounts coincide: the price goes to the beneficiary and of finite bonds back to the buyer, vested for the time of the offer; the buyer gets its reward, vested for its time; the last bond returns the stake to the issuer |
| `BondedFinancePayments.BondTakesShare` | frame/bonded-finance/src/lib.rs:359-418 | the reward is the floored share of what is left on offer, which both bonds and reward leave |
| `BondedFinancePayments.CancelMovesFunds` | frame/bonded-finance/src/lib.rs:270-295 | stake and unsold reward go to the issuer, whoever cancels |
| `BondedFinancePallet.Pallet.DoOffer` | frame/bonded-finance/src/lib.rs:306-334 | storage, balances and result are those of the offer state machine |
| `BondedFinancePallet.Pallet.DoBond` | frame/bonded-finance/src/lib.rs:336-435 | the same for a purchase, rolled back when a payment is refused |
| `BondedFinancePallet.Pallet.CancelOffer` | frame/bonded-finance/src/lib.rs:270-295 | the same for a cancellation |
| `CurveLiquidity.RemovalsAreDrains` | frame/curve-amm/src/lib.rs:455-498 | any accounts' removals drain both sides of a pool as shares of the first pool |
| `CurveLiquidity.RemovalsAreProportional` | frame/curve-amm/src/lib.rs:455-498 | each side pays the exact proportion short by less than one per removal, what backs a liquidity token never falls, and the last token leaves an empty pool |
| `CurveLiquidity.SplittingNeverWithdrawsMore` | frame/curve-amm/src/lib.rs:455-498 | an account that splits a removal never ends with more of either asset than with one removal of the same tokens, which succeeds whenever the parts did |
| `CurveLiquidity.RemoveConserves` | frame/curve-amm/src/lib.rs:455-498 | what the pool loses the account gains, and the tokens burnt are its own |
| `CurveLiquidity.RemoveSucceedsIff` | frame/curve-amm/src/lib.rs:455-498 | a removal succeeds if and only if both floored shares are as large as asked for and the tokens are there |
| `CurveLiquidity.Pool.RemoveLiquidity` | frame/curve-amm/src/lib.rs:455-498 | balances and result are those of the specification, every error leaving the pool as it was |
| `CrowdloanRewards.DueWithin` | frame/crowdloan-rewards/src/lib.rs:365-390 | nobody is ever due more than the total |
| `CrowdloanRewards.DueMonotone` | frame/crowdloan-rewards/src/lib.rs:365-390 | what is due never falls as blocks pass, saturation included |
| `CrowdloanRewards.DueMovesInSteps` | frame/crowdloan-rewards/src/lib.rs:379-388 | within one vesting step what is due does not change |
| `CrowdloanRewards.DueIsProportional` | frame/crowdloan-rewards/src/lib.rs:365-390 | everything is due when the period is over; before, the configured parts of a billion up front plus the exact floored proportion of the rest for whole steps where the product fits, and the capped product's share where it does not |
| `CrowdloanRewards.FirstPayment` | frame/crowdloan-rewards/src/lib.rs:365-390 | before the first step exactly the floored payment up front is due |
| `CrowdloanTheorems.ClaimIsExact` | frame/crowdloan-rewards/src/lib.rs:341-362 | a claim succeeds if and only if more is due than claimed, mints the difference to the claimer and to nobody else, and leaves exactly what is due claimed |
| `CrowdloanTheorems.PromisedIsPaid` | frame/crowdloan-rewards/src/lib.rs:305-362 | from a list of rewards and a start on, after any calls, a claim brings a contributor to what the last entry for it promises by that block, and to the whole when the period of that entry is over |
| `CrowdloanTheorems.AssociationSucceedsIff` | frame/crowdloan-rewards/src/lib.rs:281-303 | an account is associated if and only if the start is past, it is new, the proof is that of a contributor and something is left to claim, which is minted to it |
| `CrowdloanTheorems.RunKeepsInv` | frame/crowdloan-rewards/src/lib.rs:305-401 | in every reachable state the counters are the capped sums of claimed and total rewards, every claimed unit was minted once, and nobody has claimed more than is due |
| `CrowdloanTheorems.AvailabilityNeverUnderflows` | frame/crowdloan-rewards/src/lib.rs:393-401 | the plain subtraction of the query never underflows in any reachable state |
| `CrowdloanTheorems.AvailabilityIsPaid` | frame/crowdloan-rewards/src/lib.rs:393-401 | what the query says is available is what a claim pays, and a claim fails where it says nothing |
| `CrowdloanTheorems.PaidWithinPromises` | frame/crowdloan-rewards/src/lib.rs:305-362 | never more is minted than promised, and the counters are exact unless the promises exceed the balance type |
| `CrowdloanTheorems.EverythingIsPaidInTheEnd` | frame/crowdloan-rewards/src/lib.rs:374-377 | a claim once the period is over leaves exactly the total claimed, whatever was claimed before |
| `CrowdloanTheorems.ClaimsFollowTheSchedule` | frame/crowdloan-rewards/src/lib.rs:341-362 | over every run what is claimed is what was due at some block on the way, or what was claimed at its beginning |
| `CrowdloanTheorems.ClaimingIsPathIndependent` | frame/crowdloan-rewards/src/lib.rs:341-362 | two histories that end with a claim at the same block leave the same claimed |
| `CrowdloanPallet.Recount` | frame/crowdloan-rewards/src/lib.rs:324-332 | the fold over stored rewards in any order gives the capped sum and the capped number of contributors |
| `CrowdloanPallet.Pallet.DoPopulate` | frame/crowdloan-rewards/src/lib.rs:305-336 | rewards are replaced, later entries overwriting earlier ones, and totals recomputed; refused once a start is set |
| `CrowdloanPallet.Pallet.DoClaim` | frame/crowdloan-rewards/src/lib.rs:341-362 | storage, mints and result are those of the specification |
| `CrowdloanPallet.Pallet.DoAssociate` | frame/crowdloan-rewards/src/lib.rs:281-303 | the same for associating an account, every check in order |
| `CrowdloanPallet.Pallet.ClaimReward` | frame/crowdloan-rewards/src/lib.rs:265-272 | the same for claiming from an associated account |
| `DutchAuction.SettlementIsExact` | frame/dutch-auction/src/lib.rs:356-434 | with reservations in place no transfer of a settlement fails, and every free and reserved balance moves by exactly the stated gains and losses, also where seller and taker or base and quote coincide |
| `DutchAuction.FillsAddUp` | frame/dutch-auction/src/lib.rs:369-385 | exactly the smaller of the order amount and the sum of the takes is sold |
| `DutchAuction.HigherLimitsFirst` | frame/dutch-auction/src/lib.rs:367-385 | a take gets anything only after all takes of strictly higher limits are full |
| `DutchAuction.ChargeBounds` | frame/dutch-auction/src/lib.rs:383-403 | a taker pays its own limit price for what it gets, rounded down, also when filled in part; so at most its reservation, all of it when full, nothing when empty, and at least the order's limit price |
| `DutchAuction.SellerGetsItsPrice` | frame/dutch-auction/src/lib.rs:369-403 | the seller gets its limit price for everything sold, short by less than one unit of quote per take |
| `DutchAuction.RevenueIsWorth` | frame/dutch-auction/src/lib.rs:369-403 | the revenue is the sum of what was sold at each taker's own limit, short by less than one unit of quote per take |
| `DutchAuction.TakersAreServed` | frame/dutch-auction/src/lib.rs:383-434 | each taker's account gains what its takes bought, and back what they reserved and were not charged |
| `DutchAuction.QuoteBounds` | frame/composable-traits/src/defi.rs:34-42 | a quote is the exact price less what is rounded away, and a limit of one is a price of one |
| `DutchAuction.RevenueReachesSeller` | frame/dutch-auction/src/lib.rs:421-434 | the seller's free quote balance grows by exactly the sum of the charges and what it gets back of takes of its own |
| `DutchAuction.SettlementConserves` | frame/dutch-auction/src/lib.rs:356-434 | settling an order creates and destroys nothing of any asset, free and reserved together |
| `DutchAuction.ByLimitSorts` | frame/dutch-auction/src/lib.rs:367 | the order of settlement is descending by limit, a permutation of the takes, and in order of arrival within one limit |
| `DutchAuction.StableSortIsUnique` | frame/dutch-auction/src/lib.rs:367 | any stable sort by limit gives that same order |
| `DutchAuctionBlock.AskKeepsCovered` | frame/dutch-auction/src/lib.rs:294-324 | an ask keeps reservations covering all orders and takes, also one that fails after storage was written |
| `DutchAuctionBlock.TakeKeepsCovered` | frame/dutch-auction/src/lib.rs:326-349 | so does a take |
| `DutchAuctionBlock.LiquidateKeepsCoveredIff` | frame/dutch-auction/src/lib.rs:267-289 | a liquidation keeps orders and takes covered if and only if it is refused at once, or the treasury can pay the deposit back, or the reservation it releases was not needed |
| `DutchAuctionRuns.LiquidationLosesCover` | frame/dutch-auction/src/lib.rs:267-289 | a run from genesis in which the treasury cannot pay the deposit back and stay alive, and the cover is lost |
| `DutchAuctionRuns.RefusedAskCostsDepositIff` | frame/dutch-auction/src/lib.rs:299-321 | a refused ask costs the seller its deposit if and only if its parameters are valid and the deposit could be paid |
| `DutchAuctionRuns.RefusedAskCostsADeposit` | frame/dutch-auction/src/lib.rs:299-321 | an ask from genesis that is refused and costs the deposit |
| `DutchAuctionRuns.SettleAllIsExact` | frame/dutch-auction/src/lib.rs:356-413 | on covered reservations no settlement of a block fails, and in whatever order the orders come every balance moves by the sums of all gains and losses |
| `DutchAuctionRuns.SmoothRunsStayCovered` | frame/dutch-auction/src/lib.rs:232-413 | over every run in which no order is sold in part and no liquidation is left behind, reservations stay covered, every block can end and no surplus falls |
| `DutchAuctionRuns.SmoothRunsFromGenesis` | frame/dutch-auction/src/lib.rs:232-413 | from genesis every block of such a run can end |
| `DutchAuctionRuns.PartSaleStopsTheChain` | frame/dutch-auction/src/lib.rs:382-411 | a run from genesis in which an order is sold in part and the end of a later block must panic |
| `DutchAuctionFailures.SettlementFailsIff` | frame/dutch-auction/src/lib.rs:356-434 | for any ledger, takers and assets, a settlement succeeds if and only if its plain payments can be made in order from what everybody holds, free and reserved together, and then moves the holdings by exactly those payments |
| `DutchAuctionFailures.BlockFailsIff` | frame/dutch-auction/src/lib.rs:356-413 | the same for the orders of a block in the order in which storage yields them |
| `DutchAuctionFailures.BlockEndsIff` | frame/dutch-auction/src/lib.rs:356-413 | a block can end if and only if its payments can be made in some order of its orders |
| `DutchAuctionFailures.OneWayBlockEndsIff` | frame/dutch-auction/src/lib.rs:356-413 | where no purse both pays and is paid, the order does not matter, and the block can end if and only if everybody holds all that the block takes from it |
| `DutchAuctionFailures.SellersDecideIff` | frame/dutch-auction/src/lib.rs:356-413 | with the takers' reservations in place and sellers that only sell, if and only if every seller holds what its orders sell together |
| `DutchAuctionFailures.EachSellerDecidesIff` | frame/dutch-auction/src/lib.rs:356-413 | and with one order for each seller and asset, if and only if what each order sells is held, free or reserved, by its seller |
| `DutchAuctionRuns.LiquidationStrands` | frame/dutch-auction/src/lib.rs:267-289 | the end of the block after a liquidation leaves exactly what the takers of the order had reserved beyond what anybody is owed, less what is kept of orders sold in part |
| `DutchAuctionRuns.LiquidationStrandsIff` | frame/dutch-auction/src/lib.rs:267-289 | a liquidation leaves funds reserved for nothing if and only if some take of the order has reserved any |
| `DutchAuctionRuns.LiquidationStrandsARun` | frame/dutch-auction/src/lib.rs:267-289 | a run from genesis that ends with no order, four units of a taker still reserved and more reserved than anybody is owed |
| `DutchAuctionRuns.StrandedForGood` | frame/dutch-auction/src/lib.rs:357-412 | no smooth run after it releases any of that |
| `DutchAuctionBlock.OrderIsServed` | frame/dutch-auction/src/lib.rs:356-411 | in a reachable block every order sells the smaller of offer and demand, each part at its own taker's limit and all of it at the order's limit, up to rounding |
| `DutchAuctionBlock.AskSucceedsIff` | frame/dutch-auction/src/lib.rs:294-324 | an ask is taken if and only if it sells something for something, and its seller can pay the deposit, stay alive and reserve what it sells, also where that is the native asset |
| `DutchAuctionBlock.AskIsStored` | frame/dutch-auction/src/lib.rs:294-324 | the order stored is the one asked for, what it sells is reserved, and the deposit is the treasury's |
| `DutchAuctionBlock.TakeSucceedsIff` | frame/dutch-auction/src/lib.rs:326-349 | a take is taken if and only if it meets the limit of the order, the asking price can be computed and the taker has what it may have to pay |
| `DutchAuctionBlock.TakeReserves` | frame/dutch-auction/src/lib.rs:326-349 | that is reserved: the amount at its own limit, rounded down |
| `DutchAuctionBlock.LiquidationReturns` | frame/dutch-auction/src/lib.rs:267-289 | a liquidation gives the seller back what the order has reserved, and its deposit |
| `DutchAuctionBlock.FinalizeSurplus` | frame/dutch-auction/src/lib.rs:356-413 | the end of a block takes from the surplus of each reservation exactly what was sold of orders that are kept, because their stored amount is not reduced |
| `DutchAuctionBlock.CoverSurvivesIff` | frame/dutch-auction/src/lib.rs:382-411 | reservations cover the orders after a block if and only if, purse by purse, the surplus before it covers what was sold of orders that are kept |
| `DutchAuctionBlock.ExactCoverSurvivesIff` | frame/dutch-auction/src/lib.rs:382-411 | where there is no surplus, if and only if no order was sold in part |
| `DutchAuctionBlock.FinalizeKeepsCovered` | frame/dutch-auction/src/lib.rs:356-413 | blocks that sell no order in part keep every reservation covered |
| `DutchAuctionPallet.Pallet.DoAsk` | frame/dutch-auction/src/lib.rs:294-324 | storage, deposit, reservations and result are those of the specification, with what a refusal leaves behind, and a valid pallet stays valid |
| `DutchAuctionPallet.Pallet.DoTake` | frame/dutch-auction/src/lib.rs:326-349 | the same for a take, refused also where the price cannot be computed |
| `DutchAuctionPallet.Pallet.DoLiquidate` | frame/dutch-auction/src/lib.rs:267-289 | the same for a liquidation, after which a valid pallet is valid exactly under the condition for the cover |
| `DutchAuctionPallet.Pallet.ExchangeReserved` | frame/dutch-auction/src/lib.rs:421-434 | two releases and two transfers, failing exactly where a transfer does |
| `DutchAuctionPallet.Pallet.SettleOrder` | frame/dutch-auction/src/lib.rs:369-404 | the loop over sorted takes gives the specified ledger and the amount left, or fails exactly where the specification does |
| `DutchAuctionPallet.Pallet.OnFinalize` | frame/dutch-auction/src/lib.rs:356-413 | the orders are settled one by one as storage yields them, failing only where a settlement fails; on covered reservations it never fails, and whatever the order balances move by the sums of all gains and losses, sold-out orders and all takes are gone, and other orders are unchanged |

## Left out

Assumptions about what the pallets call:

- Currency calls do what they say: `extend_lock`, `set_lock`, `hold`, `release`, `reserve`,
  `mint_into` and transfers succeed when the balances allow it; existential deposits, dust
  and `keep_alive` are modelled only for the native deposits of auction orders.
- `safe_div` is exact floored division, and `multiply_by_rational` rounds down. Both are
  library code that is not part of this model. The results on shares, liquidity and
  auction quotes therefore speak of products that the library divides rounding down, as it
  does where they fit 128 bits; how it rounds wider products is not modelled.
- Sub-accounts of the bridge and of offers are derived injectively, and nobody signs for them.
- Proposals dispatched by democracy do not themselves call democracy.
- The vesting pallet accepts every schedule with a positive period and at least the
  minimum amount; its limit on the number of schedules is not modelled. A schedule is its
  amount and its period; it starts with the purchase. Released vested funds appear as
  movements by others.
- Block numbers and counters (referenda, proposals, offers, orders) are unbounded; the
  width of their integer types and the wrapping of ids are not modelled.

What the model does not capture:

- Origins and permissions, except where a call compares accounts; events, weights and the
  vote counts returned for weights.
- DemocracyPallet.Pallet.BeginBlock: what is tabled is a parameter and enactment is not part
  of it; `DemocracyWholePallet.Democracy.DoBeginBlock` supplies the one from the queues and does
  the other.
- DepositsPallet.Pallet.DoBlacklist: does not cancel the referendum named, which
  `DemocracyWholePallet.Democracy.DoBlacklist` does.
- DepositsPallet.Pallet.DoFastTrack: does not start the referendum, which
  `DemocracyWholePallet.Democracy.DoFastTrack` does.
- DepositsPallet.Pallet.DoLaunchPublic: does not start the referendum, which
  `DemocracyWholePallet.Democracy.DoBeginBlock` does for what `DoLaunchNext` tables.
- `emergency_cancel` and its record of cancelled proposals; the permanence of a blacklisting
  is not claimed.
- Hashing, signature recovery, storage encodings and the scheduler: a proof is the remote
  account it recovers, a preimage is its identifier, size and whether it decodes.
- Locks of accounts that delegate while holding a prior lock, beyond `UnlockRaisesIff`.
- CurveConvergence.ComputeD: beyond `base <= (8 amp - 4) quote` some pools are answered and some are
  not, depending on how the roundings fall, and no condition for that is given; a pool with
  exactly one empty side is outside its domain, because the code divides by each balance.
- CurveMaths.ComputeBase: a zero quote or amplification is outside its domain for the same reason.
- The swap of the stable pool, its fees, and adding liquidity.
- CrowdloanPallet.Pallet.DoClaim: minting is taken to succeed, so a claim that would
  overflow the native issuance is not modelled.
- Relayer rotation of the bridge, and network management beyond setting a network.
- Lending, routing, liquidations, oracles, vesting itself, governance registry, currency
  factory, asset registry, vaults and the node: they would add easy members, or rest on
  code that is not part of this model.
