# Terra Core, modelled and verified in Dafny

Terra Core is the state machine of a blockchain for stable currencies. Validators vote on prices in a commit-reveal
protocol, traders swap Luna against the Terra currencies at those prices, a treasury steers tax and reward rates,
programs are funded by vote, and vesting accounts release their coins over time. This project models that logic and
proves what the modules promise, over all inputs and, where the promise is about the chain, over all runs.

`dafny verify dfyconfig.toml` checks everything.

## How the project is laid out

| file | what it holds |
|---|---|
| `Wrappers`, `Dec`, `Sums`, `Coins`, `Epoch`, `Text` | options and results, `sdk.Dec` arithmetic from its rounding rule, stores that add up, coins and account books, heights and periods, decimal text and byte order |
| `Ballot`, `OracleTally`, `OracleSettlement`, `OracleWinners` | the weighted median, the tally of a period, the payout of the swap-fee pool, and who wins and earns what |
| `OracleProtocol`, `OracleAcceptance`, `OracleRuns`, `OracleKeeper` | the commit-reveal protocol as a state machine, which messages a run accepts, its runs up to the stored prices, and the keeper that implements it |
| `Mint`, `Seigniorages`, `Market`, `MarketKeeper` | the lazily filled issuance table and its keeper, what seigniorage adds up to, swaps, and the swap handler |
| `Quotes`, `RoundTrip`, `SwapPanics` | quotes by the stored prices, spreads and fees, what a swap pays exactly and when swapping back gains, which parameters let a swap panic |
| `Ledger`, `DailyCap`, `CapBreach` | the money of all three modules together: conservation, which swaps are accepted, the daily cap over runs, and a run that exceeds it |
| `BudgetKeys`, `Budget`, `BudgetVotes`, `BudgetPayout`, `BudgetKeeper`, `BudgetPanic` | byte keys and scans, the life of a program, what its votes decide, the payout, the handlers and end-blocker loops, and a run whose payout panics |
| `Vesting`, `VestingAccount`, `Migration`, `Releases` | both kinds of vesting schedule, accounts over time, the conversion at height 230000, and how much is released when |
| `Treasury`, `TreasuryTargets`, `TreasuryKeeper`, `TreasuryIndicators` | rates by epoch, the clamped controller, where it heads, the keeper with its windowed indicators, and what these measure |

Each module has a specification as pure functions over values (a state, an event, a run). Code that works by updating
stores or by looping is modelled as classes and methods that are proved equal to those functions, in whatever order a
store or a Go map yields its entries. The theorems are about the functions, and so hold of the methods.

## What the model takes from the Cosmos SDK

* A `Dec` is an integer scaled by 10^18. `Mul` and `RoundInt` round half to even; `Quo` first truncates to 36 digits and
  then rounds half to even; `QuoInt` and `TruncateInt` truncate; `MulInt` is exact.
* A message that fails, or panics, leaves the state as it was.
* The bank refuses to add or subtract a coin whose amount is not positive.
* The validator set is a map that may differ from block to block. Parameters are fixed during a run; every block runs the
  end blocker.
* A hash is an ideal one: different texts have different hashes. The text that is hashed is modelled as it is built, and
  it is proved that its colons leave no ambiguity.

## What came out

The following are results about the code as it is.

* **Migration.** Converting cliffs to linear release takes vested coins back. An account that has spent most of them and
  still holds a coin then owes more than it has, and `spendableCoins` panics on a negative coin. No account ever runs into
  that, whatever it holds and does before and after, exactly when no cliff lies in the thirty days before the conversion
  (`MigrationSafeExactly`, `MigrationCanBreakCover`, `SpendAfterMigration`).
* **Daily cap.** Swaps alone never leave the cap. A settlement puts withheld Luna fees back into the issuance without
  looking at the cap. Over a day the cap holds at every moment exactly when at every settlement the fees withheld until
  then fit under it (`DailyCapExactly`), and a run from genesis exceeds it (`SettlementCanExceedCap`).
* **Swaps that panic.** Under parameters that pass `validateParams` (x/market/params.go:34-46) some swap panics exactly when
  the cap is zero, which is divided by, or the maximal spread is more than one, so that the fee exceeds what was asked for
  (`SwapPanicsExactly`).
* **Round trips.** Swapping between two Terra currencies and back gains nothing while the offered rate is less than
  (2·10^18 − 1) times the asked one, and gains for some amount from 2·10^18 times on. In between it depends on the common
  divisor of the two rates, in a way that is decided exactly (`RoundTripGainsExactly`).
* **Reward weight.** `GetRewardWeight` falls back to the default only when asked for epoch zero; asked for a later epoch of
  an empty store it yields an unset decimal, which is stored as zero. It is always right exactly when a weight is stored
  for epoch zero by the time it is over (`WeightLookupIsLastSet`).
* **Policy constraints.** `Clamp` keeps its bounds exactly when `ChangeRateMax` is not negative, which nothing validates:
  with a negative one a rate at its maximum is pushed beyond it (`ClampKeepsBounds`).
* **Tax policy.** The tax rate follows revenue, up while the raised long average is at least the short one and down while it
  is at most that, exactly as long as the rounding of the first product is too small to show against the short average.
  With very small revenue it shows: one micro-SDR a week on 10^15 bonded micro-Luna lowers a rate of 0.14% that should rise
  (`FollowsRevenueExactly`, `DustLowersTheTax`). A difference worth the last digit always decides (`DifferenceDecides`).
* **Reward policy.** The update divides by the seigniorage burden after rounding, and panics exactly when that rounds to
  zero (`RewardUpdatePanics`, `RewardUpdateCanPanic`).
* **Budget payout.** A claim worth less than one coin makes `Mint` refuse a zero coin, and claims that are all zero are
  divided by; either way the end blocker panics (`PayableExactly`). With the default thresholds a run from genesis gets
  there: a program is accepted, and its voter stops being a validator before the epoch ends (`PayoutCanPanic`).
* **Prevote expiry** is one block short of exact (`ExpirySoundAndTight`).

Where text and code disagree, the model follows the code:

* docs/specifications/budget.md:33 and :47 promise the deposit back when an active program is withdrawn; the handler
  refunds candidates only (x/budget/handler.go:75-84).
* x/budget/end_blocker.go:41 says a program clears the threshold above it; the code also accepts equality.
* The comment at x/treasury/policy.go:9 adds the increment to the long average; the code multiplies.
* docs/specifications/market.md:15 and the comment at x/market/params.go:30 give a maximal spread of 10%; the value there
  is 1.0.
* The doc comment of `GetSwapCoin` (x/market/keeper.go:54) says that it rejects a swap of a coin for itself; only the
  handler does.

## Model

| member | source | states |
|---|---|---|
| Dec.ChopNearest | x/market/keeper.go:70 | the rounding of `Mul`, `Quo` and `RoundInt` gives the nearest integer, the even one of two equally near, for numbers of either sign |
| Dec.NearestEvenUnique | x/market/keeper.go:70 | that rule determines the result |
| Epoch.LastBlockOpensNextPeriod | types/util/epoch.go:26-28 | a block is the last of its period exactly when the next height belongs to the next period |
| Ballot.MedianExists | x/oracle/ballot.go:26-47 | every ballot has a price that is the least validator price whose cumulative power reaches half of the total, rounded down (zero without validators) |
| Ballot.MedianUnique | x/oracle/ballot.go:26-47 | it has only one, which is a matter of the multiset of votes, not of their order |
| Ballot.MedianHalves | x/oracle/ballot.go:26-47 | what is voted at or below the median falls at most half a token short of half of the power, and what is voted below it, if anything, at least a whole one |
| Ballot.OutsidersDoNotCount | x/oracle/ballot.go:34-39 | a vote from outside the validator set does not move the median |
| Ballot.MedianMonotone | x/oracle/ballot.go:26-58 | raising the price of one vote never lowers the median |
| Ballot.MedianRobust | x/oracle/ballot.go:26-47 | votes outside [lo, hi] with less than half of the power cannot take the median out of [lo, hi] |
| Ballot.IsSorted | x/oracle/ballot.go:50-58 | the check passes only for sorted ballots, with an ordering that calls ties less both ways |
| Ballot.Sort | x/oracle/ballot.go:50-63 | sorts in place by price and keeps the multiset of votes |
| Ballot.ComputePower | x/oracle/ballot.go:14-23 | the bonded tokens of the voters that are validators, whatever the order of votes |
| Ballot.WeightedMedian | x/oracle/ballot.go:26-47 | sorts in place if needed and returns the median of the votes given, keeping them all |
| OracleTally.CollectVotes | x/oracle/keeper.go:78-87 | each denomination's ballot lists exactly its votes, each once, in some order |
| OracleTally.AddClaimPool | x/oracle/keeper.go:319-335 | each claim is added to what its recipient already has |
| OracleTally.ClaimsOfWinners | x/oracle/end_blocker.go:87-101 | appending and adding claims one by one gives every in-band validator its bonded tokens once, and nobody else anything |
| OracleTally.Tally | x/oracle/end_blocker.go:78-104 | returns the median and grows the claims by exactly the bonded tokens of the validators within half of the reward band |
| OracleTally.TallyDenom | x/oracle/end_blocker.go:107-154 | a ballot sets a price exactly when its power reaches the rounded threshold, and only then rewards anybody |
| OracleTally.TallyAll | x/oracle/end_blocker.go:131-155 | prices exist for exactly the denominations whose ballot passed and equal their medians; each winner's claim grows by its stake for every ballot it won; nothing depends on the order of the votes map |
| OracleTally.SomebodyWins | x/oracle/end_blocker.go:85-99 | a ballot that passes with a validator among its voters rewards at least whoever voted the median |
| OracleTally.PriceIsPositive | x/oracle/end_blocker.go:78-104 | with positive votes a price is zero exactly when none of its voters is a validator, and positive otherwise |
| OracleTally.PricesArePositive | x/oracle/end_blocker.go:107-140 | so no zero price is stored while the rounded vote threshold is positive |
| OracleWinners.WinnersExactly | x/oracle/end_blocker.go:85-99 | a validator wins if and only if the ballot passed and its vote lies at most half of the reward band from the median |
| OracleWinners.PassesExactly | x/oracle/end_blocker.go:107-110 | a ballot passes if and only if the tokens bonded by all validators that voted on it reach the threshold's part of all bonded tokens, rounded half to even |
| OracleWinners.ClaimsGrowByWins | x/oracle/end_blocker.go:91-103 | a claim grows by the validator's bonded tokens times the number of denominations it won, and nobody else gets one |
| OracleSettlement.SettlementExact | x/oracle/end_blocker.go:32-51 | what is paid of a fee lies between zero and the fee, and less is left over than one unit a claim plus weightSum / 10^18, despite dividing before multiplying |
| OracleSettlement.SettleConserves | x/oracle/end_blocker.go:26-56 | validator rewards and collected fees together grow by exactly the pool, in every denomination |
| OracleSettlement.SettleNeverOverpays | x/oracle/end_blocker.go:52-56 | collected fees never shrink and grow by no more than the pool, so the leftover is a valid coin |
| OracleWinners.ShareIsProportional | x/oracle/end_blocker.go:32-37 | a share is the part of the fee that its weight has in all weights, never more, and less by under one coin and weight / 10^18 |
| OracleWinners.EachIsPaidItsShare | x/oracle/end_blocker.go:28-50 | every claimant that is a validator is credited its own share in each denomination, nobody else anything |
| OracleSettlement.SumWeights | x/oracle/end_blocker.go:17-21 | the total of all claim weights |
| OracleSettlement.ComputeShares | x/oracle/end_blocker.go:32-37 | one share per fee coin |
| OracleSettlement.Distribute | x/oracle/end_blocker.go:28-50 | the pass over the claims pays validators, collects the shares of absent recipients, and adds up both, in any order |
| OracleSettlement.PayOut | x/oracle/end_blocker.go:26-56 | the whole payout equals the order-free settlement the laws above are about |
| OracleProtocol.CommitmentBinds | x/oracle/vote.go:50-55 | a hash for one denomination and voter opens to one salt and one price, although the hashed fields are only joined by colons |
| OracleProtocol.CommitmentNames | x/oracle/vote.go:50-55 | nor for another denomination or voter, as long as their names have no colon |
| OracleProtocol.CommitReveal | x/oracle/handler.go:31-116 | in every run every reveal opens a commitment of the same validator and denomination made in the period before, there is at most one reveal per validator, denomination and period, and the votes in the store are exactly the reveals of the current period with their prices |
| OracleProtocol.TalliedVotesWereCommitted | x/oracle/end_blocker.go:113-172 | for every vote a tally can see, the commitment it opens, and that no other price could have been revealed for it |
| OracleProtocol.OnlyFeedersFeed | x/oracle/handler.go:34-39 | in every run a prevote or vote is refused for lack of permission if and only if it comes neither from the validator nor from the feeder the validator last named |
| OracleAcceptance.RevealAcceptedExactly | x/oracle/handler.go:60-104 | in every run a reveal is accepted if and only if it comes for a validator from itself or the feeder it last named, and the last thing on record for that validator and denomination is a commitment of the period before to this salt and price |
| OracleAcceptance.OthersAcceptedExactly | x/oracle/handler.go:31-57 | in every run a commitment is accepted if and only if it comes for a validator from itself or the feeder it last named, and a feeder is named by validators only |
| OracleRuns.PricesAreMediansOfReveals | x/oracle/end_blocker.go:113-172 | at every moment of every run a price is stored for exactly the denominations whose reveals of the period before passed the threshold, and it is the weighted median of those reveals |
| OracleRuns.CountedVotesWereCommitted | x/oracle/handler.go:60-103 | every vote that counted towards a stored price opens a commitment accepted one period before its reveal, to a price that could not have been revealed differently |
| OracleProtocol.ExpirySoundAndTight | x/oracle/end_blocker.go:157-164 | no prevote that can still be revealed is dropped, and of those kept only the ones of the last block before the period are dead |
| OracleProtocol.SurvivorsAreRecent | x/oracle/end_blocker.go:157-164 | after the end of period q exactly the prevotes from block q * VotePeriod - 1 on survive |
| OracleProtocol.StillRevealable | x/oracle/handler.go:84-87 | after the end of a period exactly the prevotes of that period can ever be revealed |
| OracleKeeper.Keeper.Deliver | x/oracle/handler.go:14-28 | each message does to the stores what the protocol step does, or nothing if it fails |
| OracleKeeper.Keeper.HandlePricePrevote | x/oracle/handler.go:31-57 | the prevote step: permission, validator, store |
| OracleKeeper.Keeper.HandlePriceVote | x/oracle/handler.go:60-116 | the reveal step: permission, validator, prevote, period, hash, then the prevote becomes a vote |
| OracleKeeper.Keeper.HandleDelegateFeederPermission | x/oracle/handler.go:119-138 | the delegation step |
| OracleKeeper.Keeper.AddSwapFeePool | x/oracle/keeper.go:283-290 | the pool grows by the fee |
| OracleKeeper.Keeper.IssueFees | x/oracle/end_blocker.go:58-66 | every fee coin is added to its issuance once, and the change never fails |
| OracleKeeper.Keeper.RewardPrevBallotWinners | x/oracle/end_blocker.go:15-74 | the whole settlement: rewards, collected fees, issuance, and which pools are cleared when |
| OracleKeeper.Keeper.DropExpiredPrevotes | x/oracle/end_blocker.go:157-164 | exactly the expired prevotes are deleted |
| OracleKeeper.Keeper.EndBlocker | x/oracle/end_blocker.go:113-173 | settle, replace all prices by those of passing ballots, enter the new claims, drop expired prevotes and all votes; nothing on other blocks |
| OracleKeeper.ClosingConserves | x/oracle/end_blocker.go:113-173 | the end of a period is a settlement and a tally of the ledger, and conserves the supply |
| Mint.TableRefinesHistory | x/mint/keeper.go:73-127 | in every run the snapshots of a denomination are those of days 0 to m, each equal to the balance total at first touch plus all successful changes up to that day |
| Mint.LookupAfterRun | x/mint/keeper.go:100-127 | in every run a lookup of any day up to today returns that sum, whether or not it is stored |
| Mint.PastIsFixed | x/mint/keeper.go:73-127 | once a denomination is tracked, `GetIssuance` answers the same for a past day after every continuation of the run |
| Seigniorages.CompleteEpoch | x/mint/keeper.go:132-152 | the seigniorage of a complete epoch is what the issuance grew by since the end of the epoch before, never below zero |
| Seigniorages.RunningEpoch | x/mint/keeper.go:134-141 | that of the running epoch is the growth over the last seven days, which reach back into the epoch before |
| Seigniorages.SeigniorageTelescopes | x/mint/keeper.go:130-155 | over any number of complete epochs seigniorage, less what the issuance lost in epochs in which it shrank, adds up to the growth of the issuance since day zero |
| Seigniorages.PoolFollowsIssuance | x/mint/keeper.go:40-95 | what minting and burning move in the staking pool is what they move of the recorded Luna issuance |
| Mint.ReadsAreInvisible | x/mint/keeper.go:100-127 | what a read fills in changes no later answer |
| Mint.Keeper.GetIssuance | x/mint/keeper.go:100-127 | the recursive read returns the lookup and fills every missing day |
| Mint.Keeper.ChangeIssuance | x/mint/keeper.go:73-95 | today's issuance moves by the change, fails below zero, and on first touch only counts |
| Mint.Keeper.Mint | x/mint/keeper.go:40-54 | credits the recipient, the issuance and, for Luna, the staking pool, or fails |
| Mint.Keeper.Burn | x/mint/keeper.go:57-70 | debits the payer, the issuance and, for Luna, the staking pool, or fails |
| Mint.Keeper.PeekEpochSeigniorage | x/mint/keeper.go:130-155 | growth of the Luna issuance over the last seven days of the epoch so far, never below zero, and exactly the snapshots it fills, unseen by the second read |
| Market.SpreadGrows | x/market/keeper.go:90-97 | up to the cap every change is quoted; the spread is the minimum without change, the maximum at the cap, and never falls in between |
| Market.FeeCovered | x/market/handler.go:38-48 | every quoted fee is covered by the asked amount if and only if the maximal spread is at most one |
| Quotes.QuotePaysPrices | x/market/keeper.go:60-73 | every quote pays what the offer is worth at the stored prices of the two denominations, Luna at one, to within half of 10^-18, rounded down to a whole coin |
| Quotes.WorthIsUnique | x/market/keeper.go:70 | only one amount is that |
| Quotes.FreeOfSpread | x/market/keeper.go:75-78 | internal swaps and those between Terra currencies carry neither spread nor fee |
| Quotes.SpreadIsLinear | x/market/keeper.go:96-97 | up to rounding the spread exceeds its minimum by the change's part of the cap times the range of spreads |
| Quotes.LunaSwapSpread | x/market/keeper.go:80-99 | a swap that burns or mints Luna is quoted if and only if the day's change including it is within the cap, and its spread is then in proportion to that change |
| Quotes.FeeIsSpread | x/market/handler.go:38-44 | the fee is the spread's part of the quoted amount, rounded down |
| Quotes.DecSwapPaysPrices | x/market/keeper.go:106-123 | a decimal swap pays what the offer is worth at the stored prices, to within one in the last digit of each rounding |
| Quotes.SwapPays | x/market/handler.go:34-60 | an accepted swap takes the offer from the trader and gives it the quoted amount less the fee; no other balance moves |
| SwapPanics.SwapPanicsExactly | x/market/handler.go:25-73 | under validated parameters some swap of a positive amount at positive prices panics if and only if the cap is zero or the maximal spread is more than one |
| RoundTrip.SwapReaches | x/market/keeper.go:70 | a swap pays at least k if and only if what is missing for k is at most half of 10^-18 of the offered rate |
| RoundTrip.SwapAmountBounds | x/market/keeper.go:70 | a swap pays at most half of 10^-18 more than the exact quotient |
| RoundTrip.RoundTripGainsExactly | x/market/keeper.go:60-79 | swapping there and back gains for some amount if and only if the least multiple of the rates' common divisor that is worth a unit on the way back goes unnoticed on the way there |
| RoundTrip.RoundTripNeverGains | x/market/keeper.go:60-79 | swapping there and back returns at most the offer for rates less than 2 * 10^18 - 1 apart |
| RoundTrip.RoundTripGains | x/market/keeper.go:60-79 | from 2 * 10^18 apart on there is an amount that gains a unit |
| MarketKeeper.Keeper.ComputeLunaDelta | x/market/keeper.go:33-50 | the relative change against yesterday, and which snapshots the reads fill |
| MarketKeeper.Keeper.GetSwapCoin | x/market/keeper.go:57-100 | the quote with its errors and panics in order, given the issuance before the call |
| MarketKeeper.Keeper.HandleMsgSwap | x/market/handler.go:25-73 | a swap takes the offer, the fee and the rest exactly as the ledger's step does, and moves the staking pool by the Luna burnt and minted, or changes nothing |
| Ledger.SupplyConservation | x/market/handler.go:38-60 | over every run of swaps, mints, burns, transfers, tallies and settlements, recorded issuance less balances, rewards and collected fees stays what it was in every denomination, and all fees ever charged are in the pool or paid out |
| Ledger.SupplyIsHeld | x/mint/keeper.go:40-127 | on every run from genesis the issuance recorded for today is exactly what accounts, validators and the fee collector hold |
| Ledger.SwapAcceptedExactly | x/market/handler.go:25-60 | on every run from genesis a swap is accepted if and only if its coins differ, it is quoted, the fee leaves something to mint and the trader has the offer; none fails for lack of issuance |
| Ledger.FeeAlwaysFits | x/oracle/end_blocker.go:58-66 | adding a fee to the issuance never fails in a reachable state |
| DailyCap.SwapsKeepCap | x/market/keeper.go:80-92 | over every run of swaps, transfers and tallies within a day the truncated relative change stays within the cap, although it is checked before the fee and minted after it |
| DailyCap.DailyCapExactly | x/market/keeper.go:33-100 | over every run within a day that starts within the cap, the supply is within it at every moment if and only if at every settlement the Luna fees withheld until then fit under it |
| DailyCap.SettleKeepsCapExactly | x/oracle/end_blocker.go:15-74 | one settlement keeps an allowed supply allowed if and only if the fees fit or there is nothing to settle |
| DailyCap.DailyCapHolds | x/market/keeper.go:33-100 | in any case the change stays within the cap but for at most the Luna fees that settlements put back |
| DailyCap.FreshDayIsAllowed | x/market/keeper.go:33-50 | a day on which nothing touched Luna yet starts within every cap |
| CapBreach.SettlementCanExceedCap | x/oracle/end_blocker.go:58-66 | a run from a genesis with nothing but balances: a quiet day, two accepted purchases, a tally and a settlement that takes the supply beyond the cap |
| BudgetKeys.ExpiredScan | x/budget/keeper.go:231-243 | the range over zero-padded keys visits exactly the candidates whose voting ends at the height or before |
| BudgetKeys.CandidateInScan | x/budget/keeper_keys.go:31-37 | byte order of the padded keys is the order of end blocks, for every 64-bit height |
| BudgetKeys.OtherKeysNotInScan | x/budget/keeper_keys.go:12-41 | no key of another kind falls into that range |
| BudgetKeys.KeyCandidateInjective | x/budget/keeper_keys.go:35-37 | different queue entries have different keys |
| BudgetKeys.VotePrefixMatches | x/budget/keeper_keys.go:27-29 | the vote prefix of a program matches its votes and never those of an id that extends its digits |
| BudgetKeys.VoteScan | x/budget/keeper.go:88-113 | a prefix scan visits exactly the votes of the program |
| BudgetKeys.KeyVoteInjective | x/budget/keeper_keys.go:27-29 | different votes have different keys |
| Budget.BudgetSafety | x/budget/keeper.go:119-263 | in every run from an empty genesis queue entries name stored programs with the matching end block, which has not passed, votes name stored programs, and ids are numbers handed out |
| Budget.Lifecycle | x/budget/end_blocker.go:47-110 | every step of every program is an allowed transition: a candidate leaves the queue exactly at the block SubmitBlock + VotePeriod, neither before nor after, unless its submitter withdraws it first |
| Budget.GoneForever | x/budget/keeper.go:151-163 | a program once gone stays gone: ids are never reused |
| Budget.DepositConservation | x/budget/handler.go:32-93 | over every run the deposits burnt, net of refunds, are the deposit times submissions less withdrawals of candidates, whatever else moves coins in between |
| Budget.ClaimsStayNonNegative | x/budget/end_blocker.go:80-111 | in every run from genesis no claim is ever negative, as long as the legacy threshold is not |
| BudgetVotes.VotesAreLastOptions | x/budget/handler.go:96-121 | in every run a program that is stored has a vote of somebody if and only if one was accepted after it was last tallied without that voter in the validator set, and it is the option of the last one accepted |
| BudgetVotes.PowerIsSupport | x/budget/end_blocker.go:16-39 | the power of a program is what validators that voted yes have bonded less what those that voted no have |
| BudgetVotes.KeptExactly | x/budget/end_blocker.go:42-111 | the end of a block drops a program if and only if it is due, or active at the end of a period, and yes less no is below the rounded threshold of that decision |
| BudgetVotes.CandidateUntil | x/budget/end_blocker.go:47-77 | in every run a stored program is a candidate if and only if the block is at most SubmitBlock + VotePeriod |
| BudgetVotes.ClaimsGrowBySupport | x/budget/end_blocker.go:80-106 | at the end of a period each claim grows by yes less no of the active programs its owner executes among those kept, at other blocks by nothing |
| BudgetVotes.ProgramsAreAsSubmitted | x/budget/handler.go:32-59 | in every run programs are numbered in the order of submission, and each stored one has the title, description, submitter and executor it was submitted with and the height of its submission |
| BudgetVotes.DepositsMove | x/budget/handler.go:32-93 | a deposit is taken from the submitter and returned to the submitter, and no other balance moves |
| BudgetKeeper.Tally | x/budget/end_blocker.go:16-39 | yes less no by bonded tokens, and exactly the votes of former validators are deleted, in any order |
| BudgetKeeper.EndVotingPass | x/budget/end_blocker.go:51-77 | the pass over expired candidates equals deciding all of them at once |
| BudgetKeeper.ReweighPass | x/budget/end_blocker.go:80-111 | the pass over active programs equals deciding all of them at once, and every program kept adds its power to its executor's claim |
| BudgetKeeper.Keeper.Deliver | x/budget/handler.go:14-29 | each message does what the state machine's step does, or nothing if it fails |
| BudgetKeeper.Keeper.SubmitProgram | x/budget/handler.go:32-59 | the deposit is burnt, the next id handed out, the program stored and queued |
| BudgetKeeper.Keeper.WithdrawProgram | x/budget/handler.go:62-93 | only by the submitter; a candidate leaves the queue and gets its deposit back; votes and program go |
| BudgetKeeper.Keeper.VoteProgram | x/budget/handler.go:96-121 | only by a validator on a stored program; the last vote counts |
| BudgetKeeper.Keeper.EndBlocker | x/budget/end_blocker.go:47-148 | decide, re-weigh, pay and clear; the reward pool from reward weight, seigniorage and rate; when the payout panics, what every account and the staking pool then have, and the weight the lookup stores |
| BudgetPayout.PayoutExact | x/budget/end_blocker.go:132-133 | the programs together receive no more than the pool and less than one coin a claim less than it |
| BudgetPayout.GrantRounded | x/budget/end_blocker.go:132 | each grant is the part of the pool that its claim has in all claims, rounded down |
| TreasuryIndicators.SeigniorageIsDivided | x/budget/end_blocker.go:114-123 | what miners are counted and programs are paid divides an epoch's seigniorage by the reward weight without remainder, both at the price of SDR, the programs' part in Luna where it cannot be swapped |
| BudgetPayout.PayableExactly | x/budget/end_blocker.go:132-139 | the payout goes through if and only if every claim is positive and worth at least one coin |
| BudgetKeeper.EveryPayout | x/budget/end_blocker.go:112-145 | so at every end of an epoch of every run the payout goes through if and only if every claim is positive and worth a coin, and then pays no more than the pool and less than one coin a claim less |
| BudgetPanic.PayoutCanPanic | x/budget/end_blocker.go:80-142 | a run from genesis under the default thresholds to the end of an epoch whose payout panics, whatever the prices |
| BudgetPayout.PayClaims | x/budget/end_blocker.go:126-142 | each recipient gains its grant, no other balance moves, recorded issuance moves with it, in any order |
| Vesting.GetVestedRatio | types/lazy_graded_account.go:83-102 | the loop computes the vested ratio, for cliffs and for linear pieces |
| Vesting.IsValid | types/graded_account.go:93-105 | a schedule is valid if every piece is and the ratios add up to one |
| Vesting.RatioOverTime | types/lazy_graded_account.go:83-122 | the vested ratio never decreases, lies between zero and the sum of ratios, and reaches it when everything is over |
| Vesting.VestedOverTime | types/graded_account.go:74-189 | for valid schedules of either kind the vested amount never decreases, lies between zero and the original, and reaches the original after the last cliff or end time |
| Releases.LinearRelease | types/lazy_graded_account.go:83-102 | a linear piece has vested nothing before its start, from its end on all of its ratio, and in between the part of the time that has passed, rounded down |
| Releases.RatiosAdd | types/lazy_graded_account.go:83-102 | the pieces of a schedule vest independently of each other and add up |
| Releases.VestedIsNearest | types/graded_account.go:167-183 | the vested amount is the ratio's part of the amount, to the nearest coin, half to even |
| Releases.FirstScheduleCounts | types/graded_account.go:155-163 | the schedule of a denomination is the first that names it |
| Releases.SpentExactly | types/graded_account.go:242-262 | exactly those amounts can be spent that leave the account covered |
| Releases.DelegationSplit | types/graded_account.go:270-303 | a delegation takes its whole amount out of the account, as vesting coins first, and as free ones only once all that is still vesting is delegated |
| Releases.DelegationAccepted | types/graded_account.go:280-284 | a delegation goes through if and only if each coin is positive and the account holds all of them together |
| Vesting.VestingSafety | types/graded_account.go:242-304 | over every run of receiving, spending at most what is spendable, delegating and waiting, what is spendable is never negative in any denomination, and what was spent or delegated as free never exceeds what has vested or was received |
| VestingAccounts.SpendableFrom | types/lazy_graded_account.go:259-279 | the spendable part of each coin the account holds, and that the loop fails exactly where such a coin would be negative |
| VestingAccounts.VestingAccount.GetVestingSchedule | types/graded_account.go:155-163 | the first schedule of the denomination |
| VestingAccounts.VestingAccount.VestedCoin | types/graded_account.go:167-183 | the rounded vested part of one original coin, all of it without a schedule |
| VestingAccounts.VestingAccount.GetVestingCoins | types/graded_account.go:187-189 | original less vested for each coin, failing exactly where that is negative |
| VestingAccounts.VestingAccount.SpendableCoins | types/graded_account.go:193-262 | the spendable coins of the account at a time |
| VestingAccounts.VestingAccount.TrackDelegation | types/graded_account.go:200-304 | each coin is taken from vesting coins first, then from free ones; one refused coin undoes the whole delegation |
| VestingAccounts.TrackCoins | types/lazy_graded_account.go:287-321 | the loop over the coins of a delegation, from vesting first, equals tracking them one by one, and stops exactly where that is refused |
| Migration.RatioSandwich | update/plan/update_230000.go:85-98 | the lazy ratio lies between the graded one of thirty days earlier and the graded one, and equals the latter exactly when no cliff lies in the last thirty days |
| Migration.AmountSandwich | update/plan/update_230000.go:85-98 | the same for rounded amounts |
| Migration.VestedSandwich | update/plan/update_230000.go:85-98 | the same for an account with several schedules and any denomination |
| Releases.ConvertedRatio | update/plan/update_230000.go:85-98 | the ratio a converted schedule has vested is, at any time, the seconds accrued of the thirty days after each cliff, less under 10^-18 a cliff |
| Releases.ConvertedRelease | types/lazy_graded_account.go:83-206 | the same for the amount an account with converted schedules has vested of any denomination |
| Releases.HalfOfTen | types/lazy_graded_account.go:94-96 | fifteen days after its cliff, five coins of ten |
| Migration.MigratedIsValid | update/plan/update_230000.go:100-104 | a valid graded schedule becomes a valid lazy one |
| Migration.MigrationKeepsCover | update/plan/update_230000.go:85-98 | the conversion leaves every covered account that holds a coin covered, whatever its amount, if and only if no cliff lies in the thirty days before it |
| Migration.MigrationSafeExactly | update/plan/update_230000.go:85-130 | no account converted at a time ever runs into a negative coin, whatever it held and does before and after, if and only if for every denomination that vests no cliff lies in the thirty days before |
| Migration.MigrationCanBreakCover | update/plan/update_230000.go:106-130 | a new account of ten coins that waits for the cliff and then spends nine of them: no negative coin before the conversion, a coin of minus nine after it |
| Migration.SpendAfterMigration | types/lazy_graded_account.go:210-279 | `SpendableCoins` fails for that account |
| Migration.MigrateSchedules | update/plan/update_230000.go:85-104 | the nested loops build the converted schedules, and the validity check never panics for valid ones |
| Treasury.TaxLookupIsLastSet | x/treasury/keeper.go:94-119 | over every run of reads, sets of any rate and epoch ends, from an empty table and under any parameters, `GetTaxRate` answers with the rate last set at or before the epoch, or else the default |
| Treasury.WeightLookupIsLastSet | x/treasury/keeper.go:42-73 | over every such run `GetRewardWeight` always answers with the weight last set at or before the epoch, or else the default, if and only if a weight is stored for epoch zero by the time it is over |
| Treasury.RewardWeightExact | x/treasury/keeper.go:49-73 | the looping lookup returns the last weight or the default if and only if some weight is stored up to the epoch or the epoch is zero |
| Treasury.RewardWeightOfNothing | x/treasury/keeper.go:57-70 | a lookup that answers with an unset decimal and stores zero, which is then the weight of every later epoch |
| Treasury.ClampKeepsBounds | x/treasury/constraint.go:28-46 | the clamp keeps rates within bounds for all rates and targets if and only if the step is not negative |
| Treasury.ClampStep | x/treasury/constraint.go:28-46 | and then moves them by at most the step |
| Treasury.GapAfter | x/treasury/constraint.go:28-46 | n clamps towards a fixed target close the gap by n steps, or entirely |
| Treasury.ReachesTarget | x/treasury/constraint.go:28-46 | the bounded target is reached after exactly the updates that cover the gap, and kept |
| TreasuryTargets.ClampIsNearest | x/treasury/constraint.go:28-46 | a clamped rate is the nearest to the target within the bounds and the step |
| TreasuryTargets.TaxTargetIsRatio | x/treasury/policy.go:22 | the target is the rate times the raised long average over the short one, with the bound on what rounding does to it |
| TreasuryTargets.GrowsWithLongAverage | x/treasury/policy.go:18-23 | the target never falls as the long average grows |
| TreasuryTargets.FallsWithShortAverage | x/treasury/policy.go:18-23 | the target never rises as the short average grows |
| TreasuryTargets.FollowsRevenueExactly | x/treasury/policy.go:22 | for all long averages and increments the tax rate heads up where the raised long average is at least the short one and down where it is at most that, if and only if what the first product loses to rounding is too small, against the short average, to show |
| TreasuryTargets.LossVanishesFromTwo | x/treasury/policy.go:22 | it never shows from a short average of two micro-SDR for a bonded micro-Luna on |
| TreasuryTargets.LossVanishesIfExact | x/treasury/policy.go:22 | nor where the product has no more than 18 digits |
| TreasuryTargets.DustLowersTheTax | x/treasury/policy.go:22 | an input under the default policy where it shows: revenue below its raised average, and the tax rate falls |
| TreasuryTargets.DifferenceDecides | x/treasury/policy.go:22 | whatever is lost, a difference of the two averages worth a unit in the last digit decides the way |
| TreasuryTargets.TaxFollowsRevenue | x/treasury/policy.go:10-30 | the same of the rate that the end of an epoch leaves for the next one; without revenue it takes a step to the maximum |
| TreasuryTargets.WeightFollowsBurden | x/treasury/policy.go:43-50 | the reward weight heads up where the seigniorage burden is at most the targeted one, down where it is at least that, and to the maximum where there is none |
| TreasuryTargets.StoredWeightFollowsBurden | x/treasury/policy.go:33-57 | the same of the weight that is stored |
| Treasury.RewardUpdatePanics | x/treasury/policy.go:45-50 | the reward update panics exactly when the rounded seigniorage burden is zero, in terms of the two sums |
| Treasury.RewardUpdateCanPanic | x/treasury/policy.go:45-50 | concrete sums for which it does |
| Treasury.PolicySafety | x/treasury/policy.go:10-57 | over every run from genesis values within bounds both rates stay within bounds in every epoch and move at most ChangeRateMax from one epoch to the next, whatever the indicators say |
| TreasuryKeeper.Keeper.Evaluate | x/treasury/indicator.go:22-85 | tax, seigniorage and mining rewards of an epoch in SDR, from proceeds, reward weight, seigniorage and rates, with the entries the reads fill, and where it panics |
| TreasuryKeeper.Keeper.SumIndicator | x/treasury/indicator.go:89-100 | the sum over the window of epochs that have begun, of values as they were before the loop began to fill tables |
| TreasuryKeeper.EvaluatedSame | x/treasury/indicator.go:42-53 | evaluating an indicator backwards from the current epoch changes no value of any indicator |
| TreasuryKeeper.Keeper.RollingAverageIndicator | x/treasury/indicator.go:104-120 | the truncated mean over the same window, zero for an empty one |
| TreasuryKeeper.MeanWithinRange | x/treasury/indicator.go:104-120 | the mean of non-negative indicators lies between the least and the greatest of the window |
| TreasuryIndicators.WindowIsTotal | x/treasury/indicator.go:89-120 | sum and average of a window are over the last epochs that have begun, as many as asked for, each once |
| TreasuryIndicators.TaxForEachLuna | x/treasury/indicator.go:22-39 | the tax indicator is the worth in SDR of the coins collected in the epoch, at their prices, for each bonded token, truncated |
| TreasuryIndicators.SeigniorageOfMiners | x/treasury/indicator.go:42-53 | the seigniorage indicator is the worth in SDR of the weight's part of the epoch's seigniorage |
| TreasuryIndicators.RewardsOfMiners | x/treasury/indicator.go:56-61 | mining rewards are the worth of the taxes and the seigniorage indicator together |
| TreasuryKeeper.Keeper.GetTaxRate | x/treasury/keeper.go:101-119 | the recursive lookup and the epochs it fills |
| TreasuryKeeper.Keeper.GetRewardWeight | x/treasury/keeper.go:49-73 | the looping lookup, an unset decimal where it finds nothing, and the one epoch it fills |
| TreasuryKeeper.Keeper.SetTaxRate | x/treasury/keeper.go:94-98 | sets the rate of the current epoch only |
| TreasuryKeeper.Keeper.SetRewardWeight | x/treasury/keeper.go:42-46 | sets the weight of the current epoch only |
| TreasuryKeeper.Keeper.RecordTaxProceeds | x/treasury/keeper.go:153-161 | adds to the proceeds of the current epoch only |
| TreasuryKeeper.Keeper.UpdateTaxPolicy | x/treasury/policy.go:10-30 | the tax step of the controller with the two averages it computes, and when it panics |
| TreasuryKeeper.Keeper.UpdateRewardPolicy | x/treasury/policy.go:33-57 | the reward step of the controller with the two sums it computes, every answer up to the current epoch, the issuance lookups kept, and when it panics |
| TreasuryKeeper.Keeper.EndBlocker | x/treasury/end_blocker.go:11-39 | both steps at the last block of an epoch after the probation period, nothing otherwise, and every issuance lookup kept |

## Left out

- DailyCap.DailyCapExactly: stated for a positive issuance of yesterday; with none the code computes no change and checks no cap.
- OracleKeeper.Keeper.EndBlocker: validator rewards and collected fees are books of their own; what the distribution module does with them later is not modelled.
- Ballot.Sort: an insertion sort stands for `sort.Sort`; only the sorted permutation matters.
- Migration: the hard-coded seed and preseed schedules, and the parameter changes made at the same height.
- Undelegation from vesting accounts, and start and end time accessors.
- Tax caps (`setTaxCap`, `GetTaxCap`).
- Delegations and undelegations in the staking pool; prices, validator sets and bonded tokens are parameters of the keepers that read them from other modules.
- Wrap-around of 64-bit program ids.
- Stateless message checks (`ValidateBasic`), codecs, bech32 addresses, real hashing.
- x/pay, genesis import and export, queriers, tags, logs, the command line and the application wiring.
