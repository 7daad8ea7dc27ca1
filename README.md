# BOXMEOUT market contracts — a verified model

This project models three Soroban contracts of the BOXMEOUT prediction
market in Dafny and proves properties of them:

- **AMM** (`amm.dfy`, module `Amm`). This is the constant-product pool engine.
  - One pool per market holds a YES and a NO reserve, the product `k` and an LP supply.
  - Liquidity providers hold LP balances.
  - Traders buy outcome shares, paying a basis-point fee.
  - Providers add liquidity in the current YES:NO ratio and remove it proportionally.
- **Oracle** (`oracle.dfy`, module `Oracle`). This is the attestation and consensus engine.
  - The admin registers up to ten oracles and a resolution time per market.
  - Once that time has passed, each oracle casts one binary vote per market.
  - `check_consensus` tallies the votes. A side wins when it meets the threshold and has strictly more votes. A tie is never consensus.
- **Treasury** (`treasury.dfy`, module `Treasury`). This is the fee ledger.
  - Each deposit is split into platform, leaderboard and creator pools by percentages that sum to 100. The creator pool also takes the rounding dust.
  - A running total is kept.
  - The admin pays the leaderboard pool out by percentage shares, and the creator pool by explicit amounts.
  - The admin can withdraw funds in an emergency.

Two shared modules sit beside them:

- `wrappers.dfy` holds the `Option`, `Result` and `Outcome` wrapper types.
- `token.dfy` (module `Token`) models the custodied USDC token as a balance map. A transfer aborts when the amount is negative or the sender's balance does not cover it.

Each contract is a `class`:

- Its fields hold the contract's persistent storage, grouped into one record per market where the source keys several entries by market id.
- A `bank` field holds the token balances, including the contract's own.

Each entry point is a `method`:

- Its `ensures` gives the error returned in the source's own order of checks.
- A failed call leaves the object unchanged. This models a Soroban abort, which rolls back every write made by the call.
- On success, the `ensures` gives the whole new state as a named transition function of the old state.
- The properties the contracts promise are proved about those functions as lemmas. Each class also has a `Valid()` invariant that every method preserves.

Loops in the source become `while` loops proved against recursive specification functions:

- the vote count of `check_consensus`;
- the share and amount sums of the two treasury payouts;
- the transfer loop of the payouts.

Inputs that the source takes from its environment are parameters:

- The caller whose `require_auth` succeeded is an address parameter. An authorisation failure is the `Unauthorized` error.
- Ledger time is a `now` parameter.

## Model

| member | source | states |
|---|---|---|
| Amm.SeedSplit | contracts/contracts/boxmeout/src/amm.rs:122-124 | the seed is split without loss; NO gets the odd unit, so the sides differ by at most one |
| Amm.SeedPool | contracts/contracts/boxmeout/src/amm.rs:122-147 | a seeded pool holds exactly the seed in its two reserves; `k` is their product; the LP supply equals the seed |
| Amm.SeedOfOneExample | contracts/contracts/boxmeout/src/amm.rs:122-127 | a seed of 1 opens a pool whose YES reserve and product are both 0 |
| Amm.SharesOut | contracts/contracts/boxmeout/src/amm.rs:177-178 | the payout is exactly floor(net × y / (x + net)), the constant-product price of `net` paid into the other side `x`; it never exceeds the reserve being bought, and never empties it when both reserves are funded |
| Amm.SharesOutKeepsProduct | contracts/contracts/boxmeout/src/amm.rs:177-178 | after paying shares out and taking the net amount in, the product of the reserves is at least the old product |
| Amm.QuoteBuy | contracts/contracts/boxmeout/src/amm.rs:207-238 | the fee is the floor of amount × fee bps / 10000, and fee plus net equals the amount; the shares are `SharesOut` of the other reserve, the bought reserve and the net amount; the bought side loses exactly the shares and the other side gains exactly the net; funded reserves stay funded |
| Amm.QuoteBuyKeepsProduct | contracts/contracts/boxmeout/src/amm.rs:230-238 | a buy never lowers the product of the reserves |
| Amm.QuoteBuyLiquidity | contracts/contracts/boxmeout/src/amm.rs:230-238 | a buy raises total liquidity by the net amount minus the shares paid out |
| Amm.NoDefaultFeeBelow500 | contracts/contracts/boxmeout/src/amm.rs:208-213 | with the default 20 bps, any buy below 500 units pays a fee of 0 |
| Amm.BuyAfterSeedExample | contracts/contracts/boxmeout/src/amm.rs:207-238 | a seed of 1000 gives reserves 500/500; a 100-unit YES buy then pays fee 0, buys 83 shares and leaves reserves 417/600 |
| Amm.QuoteAdd | contracts/contracts/boxmeout/src/amm.rs:374-387 | a deposit is accepted iff liquidity is positive and the proportional mint is at least one token; the mint is the floor of the proportional share; the two parts sum to the deposit, and YES gets exactly the floor of its proportional part (NO takes the rest) |
| Amm.QuoteAddNoSide | contracts/contracts/boxmeout/src/amm.rs:385-387 | the NO part is at least its proportional share, because the YES rounding remainder goes to NO |
| Amm.PoolAfterAdd | contracts/contracts/boxmeout/src/amm.rs:389-415 | the YES reserve grows by exactly the YES part and the NO reserve by exactly the NO part, so the pool grows by the deposit; `k` is recomputed as the product; the supply grows by the mint |
| Amm.RedeemBelowReserve | contracts/contracts/boxmeout/src/amm.rs:513-527 | a redemption that pays out less than a whole reserve redeems less than the whole supply |
| Amm.QuoteRemove | contracts/contracts/boxmeout/src/amm.rs:493-527 | a zero supply is an arithmetic error; otherwise, with each payout the floor of its proportional share, the withdrawal is accepted iff both payouts are positive and strictly below their reserves, and then pays exactly those floors; a zero payout is `WithdrawalTooSmall`, a payout above its reserve an arithmetic error, a payout equal to its reserve `DrainForbidden`, in that order; an accepted withdrawal burns less than the whole supply |
| Amm.PoolAfterRemove | contracts/contracts/boxmeout/src/amm.rs:530-547 | the YES reserve loses exactly the YES payout and the NO reserve exactly the NO payout; `k` is recomputed; the supply shrinks by the burn |
| Amm.AddThenRemoveReturnsAtMostDeposit | contracts/contracts/boxmeout/src/amm.rs:379-527 | depositing and at once redeeming the minted LP tokens never pays back more than the deposit |
| Amm.RemoveKeepsBothSidesFunded | contracts/contracts/boxmeout/src/amm.rs:493-547 | an accepted withdrawal by a provider holding the burned tokens leaves the pool valid with both reserves positive, so the no-drain guard holds of the stored pool |
| Amm.LpBalanceAtMostSupply | contracts/contracts/boxmeout/src/amm.rs:481-490 | in a valid pool no provider holds more LP tokens than the supply |
| Amm.SetLpBalance | contracts/contracts/boxmeout/src/amm.rs:536-543 | the provider's balance becomes exactly the new value and nobody else's changes; a zero balance removes the entry, so a map without zero entries stays without them |
| Amm.AfterBuy | contracts/contracts/boxmeout/src/amm.rs:230-256 | the reserves become the quoted ones; a buy credits the buyer's shares of that outcome and no other balance; it appends exactly one trade record; it changes neither LP data nor `k` |
| Amm.AfterAdd | contracts/contracts/boxmeout/src/amm.rs:409-424 | a deposit credits the mint to the provider only, and leaves shares and trades alone |
| Amm.AfterRemove | contracts/contracts/boxmeout/src/amm.rs:530-547 | a withdrawal debits the burn from the provider only, and deletes the provider's entry when it reaches zero |
| Amm.PoolValidAfterBuy | contracts/contracts/boxmeout/src/amm.rs:230-256 | a buy keeps the pool invariant: positive liquidity, and a supply equal to the sum of the LP balances |
| Amm.PoolValidAfterAdd | contracts/contracts/boxmeout/src/amm.rs:409-424 | a deposit keeps the supply equal to the sum of the LP balances |
| Amm.PoolValidAfterRemove | contracts/contracts/boxmeout/src/amm.rs:530-547 | a withdrawal that burns less than the supply and leaves the YES side funded keeps the supply equal to the sum of the LP balances, with no zero entries; positive liquidity needs only one funded side |
| Amm.AmmContract.Initialize | contracts/contracts/boxmeout/src/amm.rs:36-88 | stores the configuration with the defaults: 200 bps slippage, 20 bps fee, CPMM; it has no guard, so it overwrites; pools are untouched |
| Amm.AmmContract.FeeBps | contracts/contracts/boxmeout/src/amm.rs:208-212 | the stored trading fee, or 20 bps when none is stored; read by `BuyShares` |
| Amm.AmmContract.CreatePool | contracts/contracts/boxmeout/src/amm.rs:94-168 | errors in the source's order (zero seed, duplicate pool, not initialised, refused transfer); on success the seeded pool is added, the whole seed goes to the creator as LP, and the seed moves into custody |
| Amm.AmmContract.BuyShares | contracts/contracts/boxmeout/src/amm.rs:186-271 | errors in order (outcome, amount, pool, slippage, transfer); on success returns the quoted shares, moves the full amount into custody, and applies `AfterBuy` to that market only |
| Amm.AmmContract.AddLiquidity | contracts/contracts/boxmeout/src/amm.rs:328-447 | errors in order (zero, pool, quote, cap on the new liquidity, transfer); on success returns the mint, applies `AfterAdd` and takes the deposit into custody |
| Amm.AmmContract.RemoveLiquidity | contracts/contracts/boxmeout/src/amm.rs:453-572 | errors in order (zero, pool, LP balance, quote, custody transfer); on success returns both amounts, applies `AfterRemove` and pays their sum to the provider |
| Token.CanTransfer | contracts/contracts/boxmeout/src/amm.rs:228 | a token transfer succeeds iff the amount is non-negative and at most the sender's balance |
| Token.Transfer | contracts/contracts/boxmeout/src/amm.rs:228 | the sender is debited and the receiver credited by the amount, a self-transfer changes nothing, and every other balance is unchanged |
| Token.TransferAllNonNegative | contracts/contracts/boxmeout/src/treasury.rs:327-330 | a payout loop that completes paid only non-negative amounts, so its total is non-negative |
| Token.TransferAllDebitsPayer | contracts/contracts/boxmeout/src/treasury.rs:327-330 | a completed payout loop whose recipients exclude the payer debits the payer by exactly the list total |
| Token.TransferAll | contracts/contracts/boxmeout/src/treasury.rs:327-330 | an empty list changes nothing; a completed loop leaves unchanged every account other than the payer and the listed recipients |
| Oracle.TalliesCoverVoters | contracts/contracts/boxmeout/src/oracle.rs:313-325 | every voter is counted exactly once, as YES or as NO |
| Oracle.TallyAppend | contracts/contracts/boxmeout/src/oracle.rs:317-324 | appending a voter adds that voter's vote to exactly one tally |
| Oracle.TallyIgnoresOutsider | contracts/contracts/boxmeout/src/oracle.rs:317-324 | recording the vote of an oracle outside the list changes neither tally |
| Oracle.Decide | contracts/contracts/boxmeout/src/oracle.rs:331-340 | YES wins iff it meets the threshold with strictly more votes, and NO likewise; consensus holds iff one of the two does; without consensus the outcome is 0; a tie is never consensus |
| Oracle.ConsensusIsDecide | contracts/contracts/boxmeout/src/oracle.rs:309-311 | the early return below the threshold agrees with the full comparison |
| Oracle.ConsensusNeedsMajority | contracts/contracts/boxmeout/src/oracle.rs:309-340 | under consensus, the outcome is 1 iff YES has a strict majority of all voters; the winning side's tally meets the threshold and is itself a strict majority of all voters |
| Oracle.TwoOfThreeExample | contracts/contracts/boxmeout/src/oracle.rs:331-333 | three voters with threshold 2 and votes YES, YES, NO resolve YES |
| Oracle.TieExample | contracts/contracts/boxmeout/src/oracle.rs:336-338 | a 2:2 split with threshold 2 is no consensus |
| Oracle.CountVotes | contracts/contracts/boxmeout/src/oracle.rs:313-325 | the counting loop returns the YES and NO tallies of the voter list; a missing vote reads as 0, so it counts as NO |
| Oracle.VoteOf | contracts/contracts/boxmeout/src/oracle.rs:318-319 | the read the tallies count: a voter without a stored vote reads as 0 (NO); it carries no contract of its own, and its meaning is stated by `Oracle.TalliesCoverVoters` and `Oracle.ConsensusNeedsMajority` |
| Oracle.YesTally | contracts/contracts/boxmeout/src/oracle.rs:316-325 | the number of voters, in list order, whose vote reads as 1 |
| Oracle.NoTally | contracts/contracts/boxmeout/src/oracle.rs:316-325 | the number of voters whose vote reads as anything but 1, including a missing vote |
| Oracle.Consensus | contracts/contracts/boxmeout/src/oracle.rs:309-340 | below the threshold in voter count the answer is (false, 0); the outcome is 0 or 1, and 0 without consensus; consensus needs at least as many voters as the threshold |
| Oracle.AfterAttestation | contracts/contracts/boxmeout/src/oracle.rs:239-283 | an attestation appends the oracle to the voters and records its vote and attestation; it bumps exactly the counter of its side and keeps the resolution time |
| Oracle.AfterRegistration | contracts/contracts/boxmeout/src/oracle.rs:145-155 | registration sets the time and zeroes both counters; a fresh market starts empty, and a re-registered market keeps its voters, votes and attestations |
| Oracle.AppendKeepsNoDuplicates | contracts/contracts/boxmeout/src/oracle.rs:260-268 | appending an oracle not yet in the list keeps the voter list free of repetition |
| Oracle.AttestationTallies | contracts/contracts/boxmeout/src/oracle.rs:260-283 | a new voter's vote extends the tallies since registration by that vote alone |
| Oracle.AttestationKeepsVotesWellFormed | contracts/contracts/boxmeout/src/oracle.rs:233-268 | a first attestation keeps voters unrepeated, keeps voters and vote keys equal, and keeps every vote binary |
| Oracle.AttestationKeepsAttestationsAgree | contracts/contracts/boxmeout/src/oracle.rs:239-257 | every stored attestation still names its own oracle and that oracle's vote |
| Oracle.AttestationKeepsCountersAgree | contracts/contracts/boxmeout/src/oracle.rs:271-283 | the counters still equal the tallies of the votes cast since registration |
| Oracle.AttestationKeepsRecordValid | contracts/contracts/boxmeout/src/oracle.rs:233-283 | a first attestation with a binary outcome keeps the whole market record invariant |
| Oracle.RegistrationKeepsRecordValid | contracts/contracts/boxmeout/src/oracle.rs:145-155 | (re-)registration keeps the record invariant, with the counters' epoch moved to the current end of the voter list |
| Oracle.OracleManager.Initialize | contracts/contracts/boxmeout/src/oracle.rs:30-55 | stores the admin and the threshold and resets the oracle counter to 0; the registry and markets are untouched |
| Oracle.OracleManager.RegisterOracle | contracts/contracts/boxmeout/src/oracle.rs:58-118 | errors in order (not initialised, not admin, counter at 10, duplicate); on success records the oracle with accuracy 100 and time `now`, and adds exactly 1 to the counter |
| Oracle.OracleManager.RegisterMarket | contracts/contracts/boxmeout/src/oracle.rs:136-162 | errors in order (not initialised, not admin); on success that market's record becomes `AfterRegistration` of its previous record, and no other market changes |
| Oracle.OracleManager.GetMarketResolutionTime | contracts/contracts/boxmeout/src/oracle.rs:165-168 | a time is reported iff the market is registered, and it is the stored resolution time |
| Oracle.OracleManager.GetAttestationCounts | contracts/contracts/boxmeout/src/oracle.rs:171-179 | an unregistered market reads (0, 0) |
| Oracle.OracleManager.GetAttestation | contracts/contracts/boxmeout/src/oracle.rs:182-189 | an attestation is found only on a registered market |
| Oracle.OracleManager.AttestationMatchesVote | contracts/contracts/boxmeout/src/oracle.rs:239-268 | an oracle has an attestation on a market iff it is among the voters, and the attestation names that oracle and its vote |
| Oracle.OracleManager.OneVotePerOracle | contracts/contracts/boxmeout/src/oracle.rs:233-268 | on every registered market each oracle appears at most once among the voters, exactly the voters have a vote, and every vote is 0 or 1 |
| Oracle.OracleManager.CountersMatchTallies | contracts/contracts/boxmeout/src/oracle.rs:171-179 | the stored counters are the YES/NO tallies of the votes cast since the last registration, summing to their number; for a market never re-registered they equal `check_consensus`'s tallies |
| Oracle.OracleManager.SubmitAttestation | contracts/contracts/boxmeout/src/oracle.rs:198-290 | errors in order (unregistered oracle, unregistered market, before the resolution time, outcome > 1, repeat vote); on success that market's record becomes `AfterAttestation`, and nothing else changes |
| Oracle.OracleManager.Threshold | contracts/contracts/boxmeout/src/oracle.rs:303-307 | the stored consensus threshold, or 0 when none is stored; read by `CheckConsensus` |
| Oracle.OracleManager.VotersOf | contracts/contracts/boxmeout/src/oracle.rs:295-300 | the stored voter list of a market, or the empty list when none is stored; read by `CheckConsensus` |
| Oracle.OracleManager.CheckConsensus | contracts/contracts/boxmeout/src/oracle.rs:293-341 | returns `Consensus` of the stored voters, votes and threshold (0 when unset) |
| Treasury.UpdatePoolBalance | contracts/contracts/boxmeout/src/treasury.rs:381-390 | the named counter moves by exactly `delta`, and the other three are unchanged |
| Treasury.SplitWithin | contracts/contracts/boxmeout/src/treasury.rs:167-169 | two floor percentages of a non-negative amount, whose percentages sum to at most 100, never exceed the amount |
| Treasury.FeeSplit | contracts/contracts/boxmeout/src/treasury.rs:167-169 | the three shares are non-negative and sum to the deposit; platform and leaderboard get the floors of their percentages |
| Treasury.DepositAccounting | contracts/contracts/boxmeout/src/treasury.rs:167-175 | a deposit raises the three pools together, and the total, by exactly the deposit, and keeps the counters valid |
| Treasury.AfterDeposit | contracts/contracts/boxmeout/src/treasury.rs:171-175 | each pool rises by its share of the split and the total by the whole deposit |
| Treasury.DepositExamples | contracts/contracts/boxmeout/src/treasury.rs:440-479 | 1000 at 50/30/20 splits 500/300/200; 1000 at 40/40/20 splits 400/400/200; 10,000,000 at 50/30/20 splits 5M/3M/2M |
| Treasury.SumShares | contracts/contracts/boxmeout/src/treasury.rs:238-241 | the accumulator loop returns the share total of the list |
| Treasury.SumAmounts | contracts/contracts/boxmeout/src/treasury.rs:309-312 | the accumulator loop returns the amount total of the list |
| Treasury.PayAll | contracts/contracts/boxmeout/src/treasury.rs:327-330 | the transfer loop aborts iff some transfer in order is refused; otherwise it yields the balances after all of them |
| Treasury.LeaderboardPayouts | contracts/contracts/boxmeout/src/treasury.rs:266-271 | one payment per entry, in list order, of the floor of pool × share / 100 |
| Treasury.FloorPercent | contracts/contracts/boxmeout/src/treasury.rs:269 | one floor percentage loses less than one unit |
| Treasury.LeaderboardPayoutsBound | contracts/contracts/boxmeout/src/treasury.rs:266-271 | the payouts total at most pool × share total / 100, and fall short of it by under one unit per recipient |
| Treasury.LeaderboardPayoutsWithinPool | contracts/contracts/boxmeout/src/treasury.rs:238-276 | with shares summing to 100 the payouts never exceed the pool; the dust left after the reset is under one unit per recipient |
| Treasury.LeaderboardExample | contracts/contracts/boxmeout/src/treasury.rs:535-559 | a pool of 300 split 50/30/20 pays 150, 90 and 60 |
| Treasury.TreasuryContract.GettersBounded | contracts/contracts/boxmeout/src/treasury.rs:189-218 | the getters never report a negative pool; the pools together never exceed the total; all read 0 before initialisation |
| Treasury.TreasuryContract.GetPlatformFees | contracts/contracts/boxmeout/src/treasury.rs:189-195 | with valid counters, the platform pool is non-negative and at most the total |
| Treasury.TreasuryContract.GetLeaderboardFees | contracts/contracts/boxmeout/src/treasury.rs:197-203 | with valid counters, the leaderboard pool is non-negative and at most the total |
| Treasury.TreasuryContract.GetCreatorFees | contracts/contracts/boxmeout/src/treasury.rs:205-211 | with valid counters, the creator pool is non-negative and at most the total |
| Treasury.TreasuryContract.GetTotalFees | contracts/contracts/boxmeout/src/treasury.rs:213-218 | with valid counters, the total is at least the sum of the three pools |
| Treasury.TreasuryContract.Initialize | contracts/contracts/boxmeout/src/treasury.rs:32-92 | refused when already initialised; otherwise stores the configuration with the 50/30/20 split and zeroes the counters |
| Treasury.TreasuryContract.SetFeeDistribution | contracts/contracts/boxmeout/src/treasury.rs:95-134 | errors in order (not initialised, not admin, sum ≠ 100); on success only the ratios change |
| Treasury.TreasuryContract.DepositFees | contracts/contracts/boxmeout/src/treasury.rs:137-186 | errors in order (amount ≤ 0, not initialised, refused transfer); on success the deposit moves into custody and the counters become `AfterDeposit` under the current ratios |
| Treasury.TreasuryContract.DistributeLeaderboardRewards | contracts/contracts/boxmeout/src/treasury.rs:221-283 | errors in order (not initialised, not admin, shares ≠ 100, empty pool, refused payout); on success the payouts are made from custody and the leaderboard pool is reset to 0; when no payee is the treasury itself, custody drops by at most the pool |
| Treasury.TreasuryContract.DistributeCreatorRewards | contracts/contracts/boxmeout/src/treasury.rs:286-341 | errors in order (not initialised, not admin, total above the creator pool, refused payout); on success the listed amounts are paid and the creator pool drops by their total, staying non-negative; when no payee is the treasury itself, custody drops by exactly that total |
| Treasury.TreasuryContract.EmergencyWithdraw | contracts/contracts/boxmeout/src/treasury.rs:355-378 | errors in order (not initialised, not admin, refused transfer); on success the amount moves from custody to the recipient, so custody drops by exactly the amount unless the recipient is the treasury; the counters are untouched |

## Left out

- The `todo!()` entry points are not modelled, since they have no behaviour to model:
  - in amm.rs: `sell_shares`, `get_odds`, `get_pool_state`, `get_lp_position`, `claim_lp_fees`, `rebalance_pool`, `get_user_shares`, `get_trade_history`, `calculate_spot_price`, `set_slippage_tolerance`, `drain_pool` and `get_amm_analytics`;
  - in oracle.rs: `deregister_oracle` and everything after `get_consensus_result`.
- `get_consensus_result` (oracle.rs:344-350) is a plain storage read of a key nothing writes, and is not modelled.
- `get_treasury_balance` (treasury.rs:344-352) is not modelled as an operation. It loads the USDC address, aborting with "USDC not set" before `initialize`, and asks the token contract for the treasury's balance. In the model that balance is `BalanceOf(bank, treasuryAddress)`.
- The factory contract is not part of this model. Event publication is left out.
- Integer widths are not modelled. The source uses `u128` (AMM), `i128` (treasury) and `u32`/`u64` (oracle), and the contracts are assumed to be built with overflow checks enabled, so that an overflow aborts the call; here integers are unbounded. Without overflow checks the arithmetic would wrap instead: for example, the `u32` ratio sum of (4294967295, 101, 0) would wrap to 100 and pass the check in `set_fee_distribution`. In particular:
  - the AMM's products `x * y`;
  - the `u32` share sum in `distribute_leaderboard_rewards`;
  - the `u32` ratio sum in `set_fee_distribution`.
- The helpers module of amm.rs is not part of this model. `Amm.SharesOut` is taken as the payout formula documented at amm.rs:177-178.
  - `set_pool_reserves` is taken not to refresh `k`, so `Amm.AmmContract.BuyShares` leaves `k` as it was.
  - `increment_trade_count` is taken to number trades from 1.
- Storage is grouped, not laid out key by key:
  - AMM: one record per market.
  - Oracle: one record per market holding its counters, voter list, votes and attestations.
  - Treasury: one `FeeBook` for the four counters.
- The `data_hash` argument of `submit_attestation` is not stored by the source and is left out. The stored slippage setting and pricing model of the AMM are recorded but never read, as in the source.
- Writes the source makes before a failing transfer are modelled as rolled back, as the host does on abort, so a refused transfer changes nothing.
- Some `expect` calls on configuration values cannot fail once `initialize` has run: "USDC token not configured", "Ratios not set", "USDC not set". They are not separate errors. They fold into `NotInitialized`, or cannot happen.
- `Oracle.OracleManager.Valid`: the bound of ten oracles holds for the counter only. `initialize` has no already-initialised guard and resets the counter to 0 while leaving the registry in place, so after a second `initialize` the registry can hold more than ten oracles. The model keeps this behaviour. `Amm.AmmContract.Initialize` likewise overwrites the AMM configuration.
- `Amm.AmmContract.Initialize`: the model pins a single settlement token, one `bank` balance map, and never reads the stored `usdc` address. The source re-reads the USDC address from storage on every transfer (amm.rs:150-156, 221-228, 427-433, 551-557). So after a second `initialize` with another `usdc`, later transfers in the source move the new token, while the model keeps moving the old one. In that case the model can accept a withdrawal or a payout that the source would abort for lack of balance in the new token.
- `Oracle.OracleManager.CountersMatchTallies`: re-registering a market zeroes its counters but keeps its voters and votes. From then on the counters tally only later votes, while `check_consensus` tallies all of them. The model states exactly this with a ghost epoch per market.
- `Amm.BuyAfterSeedExample`: after a 1000-unit seed, a 100-unit YES buy pays a fee of 0, because 20 bps of 100 rounds down, and receives 83 shares.
- `Amm.SeedPool`: a seed of 1 unit leaves the YES reserve at 0 (amm.rs:122-124), so `PoolValid` demands positive total liquidity, yes + no > 0, rather than two positive reserves.
- The test at tests/oracle_test.rs:100 expects the panic message "oracle already registered" in lower case, while oracle.rs:86 says "Oracle already registered". Error messages are modelled only as the `AlreadyRegistered` constructor.
