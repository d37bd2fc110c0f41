# Ryvo settlement layer: a verified model

The Ryvo program keeps token balances of participants and directed payment lanes between them. A payer
signs cumulative commitments off chain; three routes settle them: one at a time, a bundle to one payee, or
a clearing round over an arbitrary graph that is applied by net position only. Around them stand deposits,
timelocked withdrawals, and collateral that is locked in lanes and released again. Yield-bearing tokens are
shares of a strategy whose value sits in a lending reserve of a second program.

This project models both programs as one state machine and proves what every run keeps.

| file | content |
|---|---|
| `Machine`, `Rounding`, `Sums` | machine integers, results and errors; floors; sums over maps |
| `Ledgers`, `Buckets` | balances and lanes as values, and the bucket accounts as they are changed in place |
| `SettleIndividual`, `Transfers`, `BalanceDeltas` | one settlement; sets of lane advances; gathered deltas |
| `DebitOrder`, `SettledTargets` | which part of a balance a settlement takes, and which lanes it brings where |
| `SettleCommitmentBundle`, `BundleEquivalence` | the bundle, and that it equals a sequence |
| `ClearingRound`, `RoundRefinement`, `RoundExamples` | the round, that it refines a sequence, and where it is more permissive |
| `SettlementHandlers`, `RoundHandler`, `SettlementMessages`, `SortedVectors`, `AccountBindings` | the handlers as they run, from the signed bytes and the supplied accounts on: loops over blocks, entries, vectors, words and account tables |
| `MockYield`, `ReservePrice` | the lending reserve and its share price |
| `YieldStrategies`, `YieldBearing`, `YieldMarkets`, `Redemption` | the index, the yield handlers, and what their floors cost |
| `Solvency`, `HandlerSuccess`, `SolvencyRuns`, `Slippage` | solvency per handler, when handlers succeed, and runs: of a sole holder, and among others with the bound on what can slip |
| `Fees`, `Instructions`, `Handlers`, `Guards`, `Effects`, `Transactions` | fees; all 22 instructions as steps of one world; the handlers as they run; what each needs and does and what undoes what; rollback of failed transactions |
| `Measures`, `Conservation`, `Backing`, `LaneRuns`, `WithdrawalRuns`, `Accounting` | what all runs of all instructions keep |
| `Varint`, `CommitmentMessages`, `ClearingRoundMessages`, `Ed25519Table` | printers and parsers |
| `ScalarReduction`, `LaneLookup` | byte arithmetic modulo the scalar order; where a pair keeps its lanes |

T is the reserve's `total_underlying`, P its share supply, V the real value of the share vault, L
`last_settled_underlying`, and owed the sum of what users and the protocol are owed.

Each handler appears twice: as a function on values, about which the lemmas are stated, and as a method that
changes fields, maps, vectors and buffers in the order of the source. The method's contract ties its result,
its error and its new state to the function. A failed handler leaves its writes behind; `Transactions.Transact`
is the transaction that discards them.

## Where code and comments disagree

The model follows the code.

- `yield_bearing.rs:80-81` bounds the loss of a redemption by one lamport. The loss is below T/P + 1;
  `Redemption.UnderpaidByAtMostOneExactlyWhen` and `Redemption.UnderpaidAtMovedRateExactlyWhen` say when one
  lamport is right, `SolvencyRuns.OptOutLosesTwo` is a run in which it is not.
- `errors.rs:178-180` calls an insolvency error a protocol bug that never fires in production, and
  `yield_bearing.rs:641-643` derives the real invariant from the tracked one. With other holders in the
  reserve a deposit can put V below owed (`SolvencyRuns.DepositCanSlip`), exactly when it does not fit
  (`Solvency.DepositIsSafe`), and always by less than T/P + 1 (`Slippage.SlipIsBounded`); for a sole holder
  both claims hold.
- `settle_clearing_round.rs` reads the total of every participant, `settle_individual.rs` only the payer's.
  A payee whose two parts overflow 64 bits together stops a round that single settlements would get through.
  `Accounting.RoundRefinesSequenceInEveryRun` shows that no run reaches such a state.
- `ed25519.rs:80` speaks of four header bytes; code and layout table use two.
- `clearing_round_message.rs:7` has version 0x04, the handler asks for 0x05 (`bls.rs:64`). The version is a
  parameter here.

## Model

| member | source | states |
|---|---|---|
| `SettleIndividual.SettlementOutcome` | programs/ryvo-protocol/src/instructions/settle_individual.rs:164-258 | a settlement succeeds exactly when every check on lane, signer, submitter and cover passes and the payee's entry can take the amount; it then advances that one lane, debits only the part the collateral does not cover, and credits the whole |
| `DebitOrder.DeltaTakesAvailableFirst` | programs/ryvo-protocol/src/state/bucket_state.rs:1001-1074 | a debit of x leaves the withdrawing part alone and lowers the available part by x where that covers it, and otherwise empties the available part and takes the rest from the withdrawing part; a credit is available at once; time and destination of a pending withdrawal stay |
| `DebitOrder.SettlementTakesAvailableFirst` | programs/ryvo-protocol/src/instructions/settle_individual.rs:215-258 | a settlement uses up the lane's collateral, then the payer's available part, then what the payer has set aside; the payee gets the whole amount as available |
| `DebitOrder.BundleTakesAvailableFirst` | programs/ryvo-protocol/src/instructions/settle_commitment_bundle.rs:139-261 | each payer of a bundle loses its own uncovered amount, in that order |
| `DebitOrder.RoundTakesAvailableFirst` | programs/ryvo-protocol/src/instructions/settle_clearing_round.rs:289-304 | each net payer of a round loses its net position in that order, each net receiver gets it as available |
| `SettledTargets.RoundSettlesNamedLanes` | programs/ryvo-protocol/src/instructions/settle_clearing_round.rs:157-262 | for every entry of every block the lane from the block's participant to the one referred to ends settled up to the entry's amount, and was below it |
| `SettledTargets.BundleSettlesNamedLanes` | programs/ryvo-protocol/src/instructions/settle_commitment_bundle.rs:139-243 | the lane of every commitment of a bundle ends settled up to it, was below it, was signed by its signer and submitted by somebody entitled |
| `SettleIndividual.LaneAdvancesCompose` | programs/ryvo-protocol/src/state/bucket_state.rs:1752-1832 | a lane does not remember in how many steps it advanced: amounts and consumed collateral add up, and the capped pending release ends the same |
| `SettleIndividual.PathIndependence` | programs/ryvo-protocol/src/instructions/settle_individual.rs:192-258 | settling c1 and then c2 > c1 succeeds exactly when settling c2 alone does, and leaves the identical ledger |
| `RoundRefinement.RoundSucceedsExactlyWhen` | programs/ryvo-protocol/src/instructions/settle_clearing_round.rs:54-311 | for given blocks a round succeeds exactly when the roster is loadable, no reference repeats or leaves the roster, every lane advances, the gross sum fits 64 bits and each participant can land its own net position; lanes, totals and both reported sums follow |
| `RoundRefinement.RoundRefinesSequence` | programs/ryvo-protocol/src/instructions/settle_clearing_round.rs:157-298 | where settling the entries one by one succeeds in some order and the gross sum fits, the round leaves the same lanes and the same total of every participant; it succeeds exactly when the roster's totals fit 64 bits |
| `RoundRefinement.OverfullStopsRound` | programs/ryvo-protocol/src/state/bucket_state.rs:662-708 | the snapshot of one participant whose available and withdrawing parts overflow together stops any round it is in, a pure payee's included |
| `RoundRefinement.NettedRoundSucceeds` | programs/ryvo-protocol/src/instructions/settle_clearing_round.rs:157-298 | a round of a loadable roster whose positions all cancel succeeds without anybody having to hold a balance: the only demand on balances is that each total fits 64 bits |
| `RoundRefinement.EmptyPayersCannotSettle` | programs/ryvo-protocol/src/instructions/settle_individual.rs:192-221 | payers without balance or collateral cannot settle any entry one by one, in any order |
| `RoundExamples.CycleClearsOnlyAsRound` | programs/ryvo-protocol/src/instructions/settle_clearing_round.rs:157-298 | a cycle of participants with zero balances clears as a round although every sequential order fails at its first step |
| `RoundExamples.OverfullPayeeStopsOnlyTheRound` | programs/ryvo-protocol/src/instructions/settle_clearing_round.rs:106-115 | a state in which a single settlement succeeds and the same entry as a round does not: the reason the refinement needs fitting totals |
| `Accounting.RoundRefinesSequenceInEveryRun` | programs/ryvo-protocol/src/instructions/settle_clearing_round.rs:157-298 | in every state that any run reaches from a backed one the fitting of totals is implied, so there the refinement holds without it |
| `BundleEquivalence.NestedLoopAppliesEachOnce` | programs/ryvo-protocol/src/instructions/settle_commitment_bundle.rs:249-261 | the loop over buckets and deltas applies every gathered delta exactly once |
| `BundleEquivalence.BundleVerdict` | programs/ryvo-protocol/src/instructions/settle_commitment_bundle.rs:46-273 | a bundle succeeds exactly when each commitment is acceptable as things stand and the payee can take the sum |
| `BundleEquivalence.BundleEqualsSequence` | programs/ryvo-protocol/src/instructions/settle_commitment_bundle.rs:139-263 | for one payee, one token and distinct lanes a bundle succeeds exactly when settling its commitments one by one does, in any order, and ends in the identical ledger |
| `BundleEquivalence.AcceptedBundleHasOnePayee` | programs/ryvo-protocol/src/instructions/settle_commitment_bundle.rs:88-150 | whatever bundle is accepted has one payee, one token and each lane once |
| `BalanceDeltas.AddingOneDelta` | programs/ryvo-protocol/src/balance_deltas.rs:10-35 | adding a delta changes the sum of one participant, of no other, and keeps one entry per participant |
| `BalanceDeltas.PositionsOutcome` | programs/ryvo-protocol/src/instructions/settle_clearing_round.rs:279-298 | a list of net positions applies exactly when each of them would apply alone; nobody else's accounts change |
| `SettlementHandlers.SettleIndividually` | programs/ryvo-protocol/src/instructions/settle_individual.rs:133-270 | with exactly the accounts of payer, payee and channel the handler with its writes in order computes the specified settlement, result and error alike; with any other account list it fails |
| `SettlementHandlers.BindIndividual` | programs/ryvo-protocol/src/instructions/settle_individual.rs:139-163 | the account list is accepted exactly when it is the payer's bucket, the payee's if it is another, and the channel's |
| `SettlementHandlers.VerifyParticipants` | programs/ryvo-protocol/src/instructions/settle_commitment_bundle.rs:116-133 | the first accounts are accepted exactly when they are the listed participant buckets in order |
| `SettlementHandlers.AddBalanceDelta` | programs/ryvo-protocol/src/balance_deltas.rs:10-35 | the in-place search and update is the specified addition, overflow included |
| `SettlementHandlers.CollectBuckets` | programs/ryvo-protocol/src/instructions/settle_commitment_bundle.rs:85-115 | the first pass accepts only one token and one payee and lists each bucket once, in order of first appearance |
| `SettlementHandlers.SettleItems` | programs/ryvo-protocol/src/instructions/settle_commitment_bundle.rs:139-243 | the second pass resolves each channel bucket, advances the lanes and gathers exactly the specified deltas and total, with the lane keys in a sorted vector; it fails otherwise only for a channel account out of order |
| `SettlementHandlers.ApplyBuckets` | programs/ryvo-protocol/src/instructions/settle_commitment_bundle.rs:250-263 | the nested loop applies the deltas in the specified order |
| `SettlementHandlers.SettleCommitmentsTogether` | programs/ryvo-protocol/src/instructions/settle_commitment_bundle.rs:78-273 | with exactly the accounts of the bundle the passes together compute the specified bundle, result and error alike; with any other account list the handler fails |
| `SettlementMessages.SettleCommitmentMessage` | programs/ryvo-protocol/src/instructions/settle_individual.rs:117-270 | from the verified bytes on: one row, its commitment parsed, then the settlement of that commitment by its signer, errors alike |
| `SettlementMessages.SettleBundleMessage` | programs/ryvo-protocol/src/instructions/settle_commitment_bundle.rs:46-273 | from the verified bytes on: the count, every row and its commitment, then the bundle of exactly these signed commitments, errors alike |
| `SettlementMessages.KeysAreBytes` | programs/ryvo-protocol/src/instructions/settle_individual.rs:181-186 | keys compared as numbers are keys compared as bytes |
| `SettlementMessages.BuiltBundleIsRead` | scripts/ryvo-protocol-demo.ts:1308-1392 | a table that a client builds over printed commitments is read as exactly these signers and commitments |
| `SettlementMessages.BuiltFieldsComeBack` | programs/ryvo-protocol/src/instructions/settle_commitment_bundle.rs:72-115 | field by field: signer, payer, payee, token, amount and settler of each item are those that were signed |
| `RoundHandler.LoadParticipants` | programs/ryvo-protocol/src/instructions/settle_clearing_round.rs:87-146 | the first pass refuses repeats through a sorted vector, resolves every participant bucket, reads every total and notices whether anybody signs; it fails otherwise only for a participant account out of order |
| `RoundHandler.NoteReference` | programs/ryvo-protocol/src/instructions/settle_clearing_round.rs:166-174 | a bit of the four words is set exactly for the references the payer has used |
| `RoundHandler.SettleEntry` | programs/ryvo-protocol/src/instructions/settle_clearing_round.rs:162-260 | one entry resolves its channel bucket, reads its lane, books the two positions and writes the lane as specified |
| `RoundHandler.SettleBlocks` | programs/ryvo-protocol/src/instructions/settle_clearing_round.rs:157-263 | the nested loops over blocks and entries compute the specified state, error alike, and resolve every channel bucket at its first appearance; they fail otherwise only for a channel account out of order |
| `RoundHandler.NegativePositionAbsToU64` | programs/ryvo-protocol/src/instructions/settle_clearing_round.rs:47-52 | the absolute value is returned exactly when it fits 64 bits |
| `RoundHandler.CheckPositions` | programs/ryvo-protocol/src/instructions/settle_clearing_round.rs:266-288 | every net payer can pay and the net credits sum to the reported amount, or the specified error |
| `RoundHandler.ApplyPositions` | programs/ryvo-protocol/src/instructions/settle_clearing_round.rs:290-304 | every position that is not zero reaches its account, in roster order |
| `RoundHandler.SettleClearingRound` | programs/ryvo-protocol/src/instructions/settle_clearing_round.rs:66-311 | with exactly the accounts of the round the passes together compute the specified round, result and error alike; with any other account list the handler fails |
| `RoundHandler.SettleRoundMessage` | programs/ryvo-protocol/src/instructions/settle_clearing_round.rs:54-311 | from the signed bytes on: the layout, the second reading, then the round of exactly these blocks, errors alike |
| `RoundHandler.PrintedRoundIsSettled` | programs/ryvo-protocol/src/instructions/clearing_round_message.rs:219-239 | for a printed message those are exactly the token and the blocks that were printed |
| `SortedVectors.BinarySearch` | programs/ryvo-protocol/src/instructions/settle_clearing_round.rs:37-45 | the search returns the position of the value, or the one where it belongs |
| `SortedVectors.InsertUnique` | programs/ryvo-protocol/src/instructions/settle_commitment_bundle.rs:25-33 | a present value is refused; otherwise the vector stays sorted and gains just that value |
| `SortedVectors.SettingABit` | programs/ryvo-protocol/src/instructions/settle_clearing_round.rs:166-174 | setting a clear bit of a word changes no other bit and stays in the word |
| `Buckets.BucketAccounts.ApplyTokenDelta` | programs/ryvo-protocol/src/state/bucket_state.rs:1001-1074 | the in-place debit and credit compute the specified delta, whose order is that of `DebitOrder.DeltaTakesAvailableFirst`, result and error alike |
| `Buckets.BucketAccounts.CapPendingUnlock` | programs/ryvo-protocol/src/state/bucket_state.rs:1752-1790 | a pending release is cut to the collateral, and its request time is dropped with it |
| `Buckets.BucketAccounts.ApplyLaneSettlement` | programs/ryvo-protocol/src/state/bucket_state.rs:1792-1832 | consumes collateral, caps the pending release and sets the settled amount, on one lane |
| `Effects.CappedIsInOrder` | programs/ryvo-protocol/src/state/bucket_state.rs:1752-1790 | after a settlement or unlock a pending release is the smaller of itself and the collateral left, and keeps its time exactly while something is pending |
| `Effects.DepositReaches` | programs/ryvo-protocol/src/instructions/deposit.rs:8-80 | a deposit raises one available balance and one vault by the amount the source loses, and no other participant's entry or lane changes |
| `Effects.DepositForReaches` | programs/ryvo-protocol/src/instructions/deposit_for.rs:51-69 | a deposit for others takes exactly the sum from its source into the vault, for 1 to 16 recipients and positive amounts only |
| `Effects.YieldDepositReaches` | programs/ryvo-protocol/src/instructions/yield_bearing.rs:296-393 | a yield deposit takes exactly the amount from a source that holds it, and from no other account, and gives one participant the most shares it pays for, which is what the strategy counts in addition |
| `Effects.OptInMoves` | programs/ryvo-protocol/src/instructions/yield_bearing.rs:748-884 | an opt-in takes the amount from the available part and from the vault and gives the participant the most shares it pays for |
| `Effects.OptOutMoves` | programs/ryvo-protocol/src/instructions/yield_bearing.rs:896-1044 | an opt-out takes the shares from the available part and gives the participant, and the vault, what leaves the reserve |
| `Effects.ClaimReaches` | programs/ryvo-protocol/src/instructions/yield_bearing.rs:664-726 | a claim reaches the account it names with all that leaves the reserve, lowers the protocol's claim by its amount and touches no balance |
| `Guards.OnlyAllowedSucceeds` | programs/ryvo-protocol/src/instructions/deposit.rs:9-32 | whatever instruction succeeds had a positive amount, a token of the right kind, accounts of the right mint, two different parties, the consent and the recipient that it needs |
| `Guards.LaneIsBornEmpty` | programs/ryvo-protocol/src/state/bucket_state.rs:1885-1974 | a lane is born with nothing settled, locked or pending and with the signer it names, and no other lane changes |
| `Guards.AtMostSixteenTokens` | programs/ryvo-protocol/src/state/bucket_state.rs:596-633 | a credit in a new token succeeds exactly below sixteen entries |
| `Guards.ChannelTimelocks` | programs/ryvo-protocol/src/state/config.rs:80-95 | a positive stored timelock counts; otherwise three days on the three public chains, two seconds on localnet, and no other chain is known |
| `Effects.RequestMovesAside` | programs/ryvo-protocol/src/instructions/request_withdrawal.rs:60-76 | a withdrawal request succeeds exactly when none is open and the available part covers it; it moves the amount aside with the time it is given and changes no total and no other entry |
| `Effects.CancellationUndoesRequest` | programs/ryvo-protocol/src/instructions/cancel_withdrawal.rs:6-38 | cancelling restores the ledger that the request found |
| `Effects.OneRequestAtATime` | programs/ryvo-protocol/src/state/bucket_state.rs:873-933 | a second request is refused while one is open |
| `WithdrawalRuns.WithdrawalWaitsForTimelock` | programs/ryvo-protocol/src/instructions/request_withdrawal.rs:60-76 | over any run, plain tokens and shares alike: an executed withdrawal comes at least the withdrawal timelock after the latest successful request of that participant and token, goes where that request said, and pays out of no more than was asked |
| `WithdrawalRuns.EarlyWithdrawalIsLocked` | programs/ryvo-protocol/src/instructions/execute_withdrawal_timelocked.rs:47-65 | before that the open withdrawal is refused as locked |
| `WithdrawalRuns.OthersKeepWithdrawals` | programs/ryvo-protocol/src/state/bucket_state.rs:1001-1074 | no instruction but a request, a cancellation or an execution touches the time or destination of a pending withdrawal or sets more aside |
| `Accounting.DueWithdrawalIsPaid` | programs/ryvo-protocol/src/instructions/execute_withdrawal_timelocked.rs:37-166 | in a backed world a due withdrawal is paid, from the very second in which its timelock ends |
| `Effects.LockMoves` | programs/ryvo-protocol/src/instructions/lock_channel_funds.rs:7-71 | a lock moves exactly the amount from the payer's available part into one lane and changes nothing else |
| `Effects.ConsentUndoesLock` | programs/ryvo-protocol/src/instructions/cooperative_unlock_channel_funds.rs:7-91 | with the payee's consent the same amount can be unlocked at once, and the ledger is the one before the lock |
| `Effects.NoUnlockWithoutConsent` | programs/ryvo-protocol/src/instructions/cooperative_unlock_channel_funds.rs:39-51 | a cooperative unlock happens only with the payee owner's consent and within the collateral |
| `Effects.RequestThenRelease` | programs/ryvo-protocol/src/instructions/request_unlock_channel_funds.rs:7-62 | a request left alone for the effective timelock gives the payer exactly what it asked for and is then gone |
| `Effects.NoEarlyRelease` | programs/ryvo-protocol/src/instructions/execute_unlock_channel_funds.rs:43-54 | before the effective timelock is over the request gives nothing |
| `Handlers.Program.DepositFor` | programs/ryvo-protocol/src/instructions/deposit_for.rs:10-119 | with exactly the accounts of the recipients' buckets: one transfer of the checked sum and one credit per recipient, result and error alike; with any other account list it fails |
| `Handlers.Program.ExecuteWithdrawal` | programs/ryvo-protocol/src/instructions/execute_withdrawal_timelocked.rs:8-177 | net and fee leave the vault for their accounts and the withdrawing part is cleared; a drained request is just cleared |
| `Handlers.Program.ExecuteUnlockChannelFunds` | programs/ryvo-protocol/src/instructions/execute_unlock_channel_funds.rs:7-94 | after the effective timelock, the chain's own for old configurations, the capped request becomes available balance of the payer |
| `Handlers.Program.DepositYieldBearing` | programs/ryvo-protocol/src/instructions/yield_bearing.rs:296-393 | accrual, reserve deposit, shares, credit and solvency check in the handler's order, result and error alike |
| `Handlers.Program.OptInYield` | programs/ryvo-protocol/src/instructions/yield_bearing.rs:748-884 | plain balance and vault tokens become shares, in the handler's order |
| `Handlers.Program.OptOutYield` | programs/ryvo-protocol/src/instructions/yield_bearing.rs:896-1044 | shares become plain balance and vault tokens, in the handler's order |
| `Handlers.Program.ExecuteWithdrawalYieldBearing` | programs/ryvo-protocol/src/instructions/yield_bearing.rs:480-658 | the two redemptions at one snapshot, the payments and the clearing, in the handler's order |
| `Handlers.Program.ClaimProtocolYieldFee` | programs/ryvo-protocol/src/instructions/yield_bearing.rs:664-726 | only to the configured fee recipient: the protocol's claim is redeemed and paid, result and error alike |
| `Transactions.Transact` | programs/ryvo-protocol/src/instructions/settle_clearing_round.rs:244-304 | one transaction ends in the state of the completed handler, or in exactly the old state although the handler had written before it failed |
| `Fees.FeeAlwaysExists` | programs/ryvo-protocol/src/instructions/execute_withdrawal_timelocked.rs:91-117 | for every registrable token the fee exists, is positive for a positive amount and never exceeds it |
| `Fees.FeeIs` | programs/ryvo-protocol/src/instructions/execute_withdrawal_timelocked.rs:91-117 | with q the percentage rounded down and f the token's fee floor, the fee is the larger of q and f where the amount covers both, and else the whole amount |
| `Fees.FeeFloorIs` | programs/ryvo-protocol/src/instructions/execute_withdrawal_timelocked.rs:91-108 | the floor is 50_000 scaled up by ten for each decimal above six, and down, rounding down but never below one, for each below |
| `Fees.FeeIsFee` | programs/ryvo-protocol/src/instructions/yield_bearing.rs:574-601 | for every registrable token the fee computed is the one these two say |
| `Fees.FeeExamples` | programs/ryvo-protocol/src/instructions/execute_withdrawal_timelocked.rs:91-117 | a floor, a percentage, a whole amount and a coarse token in numbers |
| `Conservation.InstructionMeasured` | programs/ryvo-protocol/src/state/bucket_state.rs:846-1074 | each of the 22 instructions changes what is owed in a token, and anyone's stake in it, by exactly its deposit or withdrawal |
| `Conservation.RunsConserve` | programs/ryvo-protocol/src/instructions/yield_bearing.rs:818-869 | over any run of all instructions both measures change only by the deposits and withdrawals of the run |
| `Accounting.EveryBalanceIsExplained` | programs/ryvo-protocol/src/instructions/settle_individual.rs:192-258 | no double pay: over any run a participant's balance is what it brought in plus exactly the settled amounts of the lanes into it, less those of the lanes out of it and the collateral in them |
| `LaneRuns.EveryRouteAdvancesNamedLanes` | programs/ryvo-protocol/src/instructions/settle_clearing_round.rs:157-263 | each route advances exactly the lanes its commitments name, each once |
| `LaneRuns.LaneStep` | programs/ryvo-protocol/src/state/bucket_state.rs:1885-2159 | no instruction but a settlement, a lock and the three unlocks changes an existing lane, and those change it as stated; none re-initialises it |
| `LaneRuns.SettledIsSomeCommitment` | programs/ryvo-protocol/src/instructions/settle_individual.rs:192-258 | over any interleaving of the three routes the settled amount never falls and is an amount some commitment of the run named for this lane |
| `LaneRuns.CollateralIsAccountedFor` | programs/ryvo-protocol/src/instructions/lock_channel_funds.rs:41-60 | per lane, over any run: all that was locked in is consumed, released or still locked |
| `LaneRuns.PendingStaysInOrder` | programs/ryvo-protocol/src/state/bucket_state.rs:1752-1832 | over any run a pending release stays within its lane's collateral: whatever consumes collateral, settlement by any route included, cuts it |
| `LaneRuns.ReleaseWaitsForTimelock` | programs/ryvo-protocol/src/instructions/execute_unlock_channel_funds.rs:37-83 | over any run a unilateral release comes at least the timelock after the latest request on its lane, and is at most that request and at most the collateral of that moment |
| `Backing.WithdrawalPays` | programs/ryvo-protocol/src/instructions/execute_withdrawal_timelocked.rs:37-166 | a due withdrawal goes to the recorded destination after its time: the vault loses exactly the amount, the fee is the larger of floor and percentage, net and fee reach their accounts, and nothing else moves |
| `Backing.YieldWithdrawalPays` | programs/ryvo-protocol/src/instructions/yield_bearing.rs:521-635 | a due withdrawal of shares is priced at the index rounded down, with a fee as in `Fees.FeeIs`; what its two redemptions yield reaches the two accounts, and the request is cleared |
| `Backing.InstructionBacked` | programs/ryvo-protocol/src/instructions/yield_bearing.rs:818-869 | each instruction moves a plain token's vault with what is owed in it, plus what it sends to the vault as to any other account |
| `Backing.VaultBacksLedger` | programs/ryvo-protocol/src/instructions/execute_withdrawal_timelocked.rs:119-166 | over any run a plain token's vault holds what the ledger owes in it plus exactly the transfers and withdrawals directed at the vault |
| `Backing.CounterIsSumOfShares` | programs/ryvo-protocol/src/instructions/yield_bearing.rs:818-869 | over any run total_user_shares of a yield-bearing token is the sum of the shares in balances and lanes, opt-in and opt-out included |
| `Backing.OptOutPaysCredit` | programs/ryvo-protocol/src/instructions/yield_bearing.rs:980-1020 | the credit that an opt-out computes in advance is what the reserve then pays |
| `Accounting.EveryHoldingIsJointlyPayable` | programs/ryvo-protocol/src/state/yield_strategy.rs:107-129 | after any run, all balances and lanes of a yield-bearing token converted one by one are payable together out of what is recorded as owed |
| `Accounting.MarketFollows` | programs/ryvo-protocol/src/instructions/yield_bearing.rs:279-1044 | each successful instruction does to the market of its token what that handler does alone, and nothing to other markets |
| `Accounting.WorldStaysSolvent` | programs/ryvo-protocol/src/instructions/yield_bearing.rs:113-159 | while nobody else deposits into the reserves, whatever interest accrues in them and however their rates are set, every state of every run has T >= L >= owed in all markets and no instruction is refused for insolvency |
| `MockYield.Reserve.Accrue` | programs/mock-yield/src/lib.rs:289-317 | the in-place accrual computes the specified interest, result and error alike |
| `MockYield.Reserve.UpdateApyBps` | programs/mock-yield/src/lib.rs:96-118 | only the authority, only up to the cap, and after an accrual at the old rate |
| `ReservePrice.InterestIsLinear` | programs/mock-yield/src/lib.rs:289-317 | interest is total times rate times seconds over 315_360_000_000, rounded down once, and only when time passes |
| `ReservePrice.DepositMints` | programs/mock-yield/src/lib.rs:140-163 | a deposit mints a share a unit into an empty reserve, and otherwise the most shares the price allows |
| `ReservePrice.RedemptionPays` | programs/mock-yield/src/lib.rs:222-241 | a redemption pays the most units that the burnt shares are worth |
| `ReservePrice.RateIsSetByAuthority` | programs/mock-yield/src/lib.rs:96-118 | the rate changes exactly for the authority and up to one half, after interest at the old rate |
| `ReservePrice.SharePriceNeverFalls` | programs/mock-yield/src/lib.rs:140-241 | over any run T = 0 exactly when P = 0, T >= P, and while shares stay outstanding T'·P >= T·P' |
| `ReservePrice.RedemptionKeepsBacking` | programs/mock-yield/src/lib.rs:225-241 | a redemption pays at least a unit a share, leaves at least a unit for each remaining share, and empties the reserve only with the last share |
| `ReservePrice.DepositThenRedeemNeverProfits` | programs/mock-yield/src/lib.rs:122-284 | redeeming at once what a deposit minted never returns more than was put in |
| `ReservePrice.RepeatedAccrualChangesNothing` | programs/mock-yield/src/lib.rs:289-293 | a second accrual at the same timestamp changes nothing |
| `ReservePrice.SplitAccrualCost` | programs/mock-yield/src/lib.rs:289-317 | at constant APY k accruals end at most k - 1 base units below a single one |
| `YieldStrategies.YieldStrategy.ApplyYieldDelta` | programs/ryvo-protocol/src/state/yield_strategy.rs:135-176 | the in-place update is the specified one, whose split is that of `YieldStrategies.YieldIsSplit`, with the same overflow errors |
| `YieldStrategies.YieldAttributionIsTight` | programs/ryvo-protocol/src/state/yield_strategy.rs:135-176 | a delta d > 0 raises what is owed by d or by d - 1, and never lowers the index |
| `YieldStrategies.YieldIsSplit` | programs/ryvo-protocol/src/state/yield_strategy.rs:135-176 | with shares outstanding the protocol's claim rises by the floor of its registered share of the delta and the users' shares gain the rest, up to one unit; without shares the protocol gets it all |
| `Solvency.AccrualSplitsYield` | programs/ryvo-protocol/src/instructions/yield_bearing.rs:113-159 | that split applies to what an accrual finds beyond the tracked value; a loss is attributed to nobody |
| `YieldStrategies.DepositBuysMostShares` | programs/ryvo-protocol/src/state/yield_strategy.rs:115-121 | an amount buys as many shares as it can pay for at the index, and not one fewer |
| `YieldStrategies.SharesFetchMost` | programs/ryvo-protocol/src/state/yield_strategy.rs:124-129 | shares convert to as much as they are worth at the index, and not one unit less |
| `YieldStrategies.ClaimsAreJointlyPayable` | programs/ryvo-protocol/src/state/yield_strategy.rs:107-129 | the floor conversions of any holdings sum to at most the conversion of their sum |
| `YieldStrategies.DepositNeverConvertsBackToMore` | programs/ryvo-protocol/src/state/yield_strategy.rs:115-129 | the shares of a deposit never convert back to more than the deposit |
| `YieldStrategies.SolvencyVerdict` | programs/ryvo-protocol/src/state/yield_strategy.rs:182-192 | the check passes only on enough value and reports insolvency only for too little |
| `Redemption.PayoutBounds` | programs/ryvo-protocol/src/instructions/yield_bearing.rs:82-93 | a payout is at most the request and short of it by less than T/P + 1, also for the second redemption at the stale snapshot |
| `Redemption.UnderpaidByAtMostOneExactlyWhen` | programs/ryvo-protocol/src/instructions/yield_bearing.rs:77-81 | the shortfall is decided by the remainder the first floor drops: it is at most one unit exactly when request·P mod T <= P |
| `Redemption.UnderpaidAtMovedRateExactlyWhen` | programs/ryvo-protocol/src/instructions/yield_bearing.rs:567-606 | the same at the rate that an earlier redemption of the handler has left: at most one unit is lost exactly when request·P1 - burnt·T1 <= P1 |
| `SolvencyRuns.OptOutLosesTwo` | programs/ryvo-protocol/src/instructions/yield_bearing.rs:77-81 | a run from registration in which an opt-out of shares worth four units is paid two |
| `Redemption.DepositBuysEnough` | programs/ryvo-protocol/src/instructions/yield_bearing.rs:594-646 | a deposit adds to the vault's value at least the deposit less T/P + 1 |
| `YieldMarkets.YieldMarket.AccrueStrategy` | programs/ryvo-protocol/src/instructions/yield_bearing.rs:113-159 | reserve, index and tracked value after accrual are the specified ones, and the returned rate is the reserve's |
| `YieldMarkets.YieldMarket.PayWithdrawal` | programs/ryvo-protocol/src/instructions/yield_bearing.rs:552-637 | two redemptions at one snapshot and the counters after them are the specified ones |
| `YieldMarkets.YieldMarket.RedeemShares` | programs/ryvo-protocol/src/instructions/yield_bearing.rs:980-1022 | the credit computed in advance, the redemption and the counters are the specified ones |
| `Solvency.AccrualOutcome` | programs/ryvo-protocol/src/instructions/yield_bearing.rs:113-159 | after accrual L is the vault's real value, the index has not fallen and at most the new value is newly owed |
| `Solvency.AccrualRefusedExactlyWhen` | programs/ryvo-protocol/src/instructions/yield_bearing.rs:279-290 | an accrual is refused for insolvency exactly when the real value is below what was owed before it |
| `Solvency.DepositIsSafe` | programs/ryvo-protocol/src/instructions/yield_bearing.rs:296-393 | from min(L, V) >= owed a deposit is never refused for insolvency, keeps L >= owed and leaves L - V < T/P + 1; it keeps V >= owed exactly when owed'·(P + minted) <= (c + minted)·(T + amount), all known before the call |
| `Solvency.DepositCoversExactlyWhen` | programs/ryvo-protocol/src/instructions/yield_bearing.rs:332-364 | the same condition for a deposit into any market after accrual |
| `Solvency.WithdrawalEffect` | programs/ryvo-protocol/src/instructions/yield_bearing.rs:552-637 | a withdrawal from any market, covered or not, loses the vault at most the gross amount and bounds both shortfalls |
| `Slippage.SlipIsBounded` | programs/ryvo-protocol/src/instructions/yield_bearing.rs:594-646 | with anybody in the reserve, over every run from registration, deposits and opt-ins included: L >= owed, and V misses owed by less than T/P + 1 |
| `Accounting.WorldSlipIsBounded` | programs/ryvo-protocol/src/instructions/yield_bearing.rs:279-1044 | the same bound in all markets over every run of all 22 instructions, other holders' steps included |
| `Slippage.CallKeepsSlight` | programs/ryvo-protocol/src/instructions/yield_bearing.rs:279-1044 | each call of each handler and of other holders keeps that bound, and a successful accrual, withdrawal or claim restores V >= owed |
| `Slippage.AccrualEndsCovered` | programs/ryvo-protocol/src/instructions/yield_bearing.rs:279-290 | whatever the market was, a successful accrual leaves min(L, V) >= owed |
| `Slippage.WithdrawalEndsCovered` | programs/ryvo-protocol/src/instructions/yield_bearing.rs:634-646 | whatever the market was, a successful withdrawal leaves min(L, V) >= owed; its subtraction saturates exactly when the shares are worth more than the vault, and then nothing stays owed |
| `Slippage.ClaimEndsCovered` | programs/ryvo-protocol/src/instructions/yield_bearing.rs:708-716 | the same for a protocol claim |
| `Slippage.DepositEndsSlight` | programs/ryvo-protocol/src/instructions/yield_bearing.rs:332-386 | a deposit into any market leaves L >= owed and V short of it by less than T/P + 1 |
| `Slippage.OptOutEndsSlight` | programs/ryvo-protocol/src/instructions/yield_bearing.rs:980-1034 | an opt-out from any market is credited what is paid and leaves V short of owed by at most one unit |
| `HandlerSuccess.ClaimSucceedsExactlyWhen` | programs/ryvo-protocol/src/instructions/yield_bearing.rs:664-726 | from min(L, V) >= owed a claim succeeds exactly when it is within what the protocol is owed and worth at least one share: amount·P >= T |
| `HandlerSuccess.OptOutSucceedsExactlyWhen` | programs/ryvo-protocol/src/instructions/yield_bearing.rs:896-1044 | an opt-out succeeds exactly for counted shares that are worth at least one unit and at least one share of the reserve |
| `HandlerSuccess.WithdrawalSucceedsExactlyWhen` | programs/ryvo-protocol/src/instructions/yield_bearing.rs:480-658 | a withdrawal succeeds exactly for counted shares, however little they are worth |
| `Solvency.WithdrawalOutcome` | programs/ryvo-protocol/src/instructions/yield_bearing.rs:594-646 | from min(L, V) >= owed a withdrawal keeps it, does not saturate, and each of its two payouts is at most its request and short by less than T/P + 1 |
| `Solvency.WithdrawalIsSafe` | programs/ryvo-protocol/src/instructions/yield_bearing.rs:480-658 | no withdrawal from such a state is refused for insolvency |
| `Solvency.ClaimOutcome` | programs/ryvo-protocol/src/instructions/yield_bearing.rs:690-716 | a protocol claim takes exactly its amount off what is owed and off L, without saturating, and keeps min(L, V) >= owed |
| `Solvency.ClaimIsSafe` | programs/ryvo-protocol/src/instructions/yield_bearing.rs:664-726 | no claim from such a state is refused for insolvency |
| `Solvency.OptOutOutcome` | programs/ryvo-protocol/src/instructions/yield_bearing.rs:980-1022 | an opt-out is credited exactly what is paid, at most its shares' worth, without saturating, and keeps min(L, V) >= owed |
| `Solvency.OptOutIsSafe` | programs/ryvo-protocol/src/instructions/yield_bearing.rs:896-1044 | no opt-out from such a state is refused for insolvency |
| `SolvencyRuns.CoveredUntilDeposit` | programs/ryvo-protocol/src/instructions/yield_bearing.rs:113-159 | with other holders acting on the reserve, min(L, V) >= owed can be lost to a deposit only: a run without one keeps it and nothing in it is refused for insolvency |
| `SolvencyRuns.SoleHolderIsAlwaysSolvent` | programs/ryvo-protocol/src/instructions/yield_bearing.rs:113-159 | from registration on, while the share vault holds the whole supply, every state of every run has T >= L >= owed and no call is refused for insolvency |
| `SolvencyRuns.DepositCanSlip` | programs/ryvo-protocol/src/instructions/yield_bearing.rs:386-390 | after two units of somebody else and a year of interest, a deposit with the default protocol share succeeds and the next accrual in the same second is refused; a full withdrawal then succeeds only because its subtraction saturates |
| `SolvencyRuns.UntouchedClaimNeverFalls` | programs/ryvo-protocol/src/state/yield_strategy.rs:124-176 | no run lowers what shares that it leaves alone convert to |
| `Varint.Encode` | scripts/ryvo-protocol-demo.ts:1088-1103 | prints any natural number as unsigned LEB128 |
| `Varint.ReadVarint` | programs/ryvo-protocol/src/instructions/clearing_round_message.rs:30-56 | the loop over bytes, shift and value computes the specified reading, error alike |
| `Varint.ReadPrinted` | programs/ryvo-protocol/src/instructions/clearing_round_message.rs:30-56 | the reader returns a printed value with anything behind it, and accepts it exactly when it is below 2^64 |
| `Varint.PrintedSpells` | scripts/ryvo-protocol-demo.ts:1088-1103 | the printed groups of seven bits, low group first, spell the value; every byte but the last announces another, and the last of several is not empty |
| `Varint.TailIsIgnored` | programs/ryvo-protocol/src/instructions/clearing_round_message.rs:30-65 | what is accepted is read the same whatever follows |
| `CommitmentMessages.CreateCommitmentMessage` | scripts/ryvo-protocol-demo.ts:1369-1392 | prints a commitment; with a settler it follows the program's own test encoder |
| `CommitmentMessages.ParseCommitmentMessage` | programs/ryvo-protocol/src/instructions/settle_individual.rs:59-115 | the parser with its moving offset computes the specified fields, error alike |
| `CommitmentMessages.CommitmentRoundTrip` | programs/ryvo-protocol/src/instructions/settle_individual.rs:337-363 | every printed commitment parses back to its fields |
| `CommitmentMessages.AcceptedCommitment` | programs/ryvo-protocol/src/instructions/settle_individual.rs:59-83 | an accepted message has kind 1, version 5, the program's domain and no unknown flag, and a settler exactly when the flag says so |
| `CommitmentMessages.OtherDomainIsRefused` | programs/ryvo-protocol/src/instructions/settle_individual.rs:71-74 | a commitment printed for another domain is refused as such |
| `CommitmentMessages.NothingMayFollow` | programs/ryvo-protocol/src/instructions/settle_individual.rs:106-114 | accepted messages are prefix-free: nothing may follow one, and none can be cut short |
| `ClearingRoundMessages.CreateClearingRoundMessage` | scripts/ryvo-protocol-demo.ts:1394-1417 | prints a block list, counts cut to one byte |
| `ClearingRoundMessages.ParseClearingRoundLayout` | programs/ryvo-protocol/src/instructions/clearing_round_message.rs:111-146 | the nested loops compute the specified layout, error alike |
| `ClearingRoundMessages.ClearingRoundRoundTrip` | programs/ryvo-protocol/src/instructions/clearing_round_message.rs:219-239 | for 1 to 255 blocks of up to 255 entries the parser consumes exactly the whole message and the second pass recovers every block |
| `ClearingRoundMessages.AcceptedRound` | programs/ryvo-protocol/src/instructions/clearing_round_message.rs:67-97 | an accepted message has kind 2, the version and domain it is read for, its token as a little-endian word, and as many blocks as it announces |
| `ClearingRoundMessages.RoundOfOtherDomainIsRefused` | programs/ryvo-protocol/src/instructions/clearing_round_message.rs:79-82 | a round printed for another domain is refused as such |
| `ClearingRoundMessages.KindsNeverMix` | programs/ryvo-protocol/src/instructions/clearing_round_message.rs:74-82 | no message is both a commitment and a round |
| `ClearingRoundMessages.NothingMayFollowRound` | programs/ryvo-protocol/src/instructions/clearing_round_message.rs:140-145 | accepted rounds are prefix-free |
| `ClearingRoundMessages.SecondPassNeverFails` | programs/ryvo-protocol/src/instructions/settle_clearing_round.rs:157-161 | on any message that the layout accepts, printed or not, the second pass never fails |
| `ClearingRoundMessages.FullCountIsRefused` | scripts/ryvo-protocol-demo.ts:1410-1415 | a multiple of 256 blocks prints a count of zero and is refused |
| `Ed25519Table.CreateTable` | scripts/ryvo-protocol-demo.ts:1308-1367 | the buffer is a table exactly when every offset fits 16 bits; otherwise nothing is built |
| `Ed25519Table.TableRoundTrip` | programs/ryvo-protocol/src/ed25519.rs:81-131 | parsing entry i of a built table is accepted and points at exactly signer i, signature i and message i |
| `Ed25519Table.AcceptedRow` | programs/ryvo-protocol/src/ed25519.rs:81-111 | an accepted row is within the announced count, refers to nothing outside the instruction, and holds little-endian words at fixed places |
| `Ed25519Table.SignedCommitmentsComeBack` | programs/ryvo-protocol/src/instructions/settle_commitment_bundle.rs:72-79 | each commitment in a built table comes back as the fields that were printed |
| `Ed25519Table.ExtractAllSigners` | programs/ryvo-protocol/src/ed25519.rs:169-206 | succeeds exactly when every row parses over the same message bytes, and returns each signer in order |
| `ScalarReduction.Compare` | programs/ryvo-protocol/src/bls.rs:105-116 | the bytewise comparison orders by big-endian value |
| `ScalarReduction.SubtractModulus` | programs/ryvo-protocol/src/bls.rs:118-131 | the borrow loop subtracts exactly the order |
| `ScalarReduction.ReduceToScalar` | programs/ryvo-protocol/src/bls.rs:133-137 | the result is the value modulo the order, after at most two subtractions |
| `ScalarReduction.HashMessageToScalar` | programs/ryvo-protocol/src/bls.rs:139-159 | for any 32-byte hash function the scalar is the specified one, not zero and below the order |
| `ScalarReduction.ScalarComesFromDigests` | programs/ryvo-protocol/src/bls.rs:139-159 | the scalar is the digest of tag and message less at most twice the order, that of the retry where the first is a multiple of it, and 1 where both are |
| `ScalarReduction.TagSpells` | programs/ryvo-protocol/src/bls.rs:74-75 | the tag is the ASCII text of the source |
| `ScalarReduction.OrderIs` | programs/ryvo-protocol/src/bls.rs:76-77 | the order is the order of the scalar field of BLS12-381 written as one number |
| `ScalarReduction.BigEndian` | programs/ryvo-protocol/src/bls.rs:105-131 | values are read high byte first |
| `LaneLookup.OrdinalIsInjective` | scripts/ryvo-protocol-demo.ts:975-981 | different pairs have different ordinals |
| `LaneLookup.OrdinalIsSurjective` | scripts/ryvo-protocol-demo.ts:975-981 | every natural number is the ordinal of a pair |
| `LaneLookup.OrdinalFits` | programs/ryvo-protocol/src/state/bucket_state.rs:2299-2315 | the checked 64-bit arithmetic of the ordinal never overflows |
| `LaneLookup.LaneLookupNeverAliases` | scripts/ryvo-protocol-demo.ts:983-1002 | bucket, slot and selector by division and remainder by 46 name one directed lane |
| `LaneLookup.PlaceIsOrdinal` | programs/ryvo-protocol/src/state/bucket_state.rs:2290-2335 | 46 times the bucket plus the slot is h(h-1)/2 + l, the slot is below 46, and the selector tells the direction |
| `AccountBindings.PairBucketHoldsLane` | programs/ryvo-protocol/src/instructions/settle_clearing_round.rs:181-183 | the channel account of a pair is the bucket in which its two lanes are placed |
| `SettleCommitmentBundle.NineToABucket` | programs/ryvo-protocol/src/state/bucket_state.rs:1142-1144 | nine consecutive participants share a bucket |
| `LaneLookup.EverySlotHasAPair` | programs/ryvo-protocol/src/state/bucket_state.rs:2317-2335 | every bucket and slot number belongs to some pair |
| `AccountBindings.BindingTable.Resolve` | programs/ryvo-protocol/src/instructions/settle_clearing_round.rs:89-113 | a bucket resolves to its bound account or to the next supplied one, which must be its own |
| `AccountBindings.BindInOrder` | programs/ryvo-protocol/src/instructions/settle_commitment_bundle.rs:151-184 | a list of buckets binds exactly when the accounts are theirs, each once, in order of first appearance; every bucket then resolves to its first-appearance position |
| `SettledTargets.FirstAppearancesInOrder` | programs/ryvo-protocol/src/instructions/settle_commitment_bundle.rs:85-115 | that list holds members only, in the order in which they first stand |

## Left out

- Signature checks (Ed25519 precompile, BLS pairing and point decompression) and SHA-256: a verified signer, a validity flag and an arbitrary 32-byte hash function stand for them.
- Account plumbing: PDA derivation, rent, discriminators, events, the CPI guard, and the owner index; instructions name the participant that the owner index would return, and an account carries only what its verification can tell.
- Bytes of the bucket accounts: buckets are maps from participant, token and lane to their fields; the limit of 16 token entries per participant is kept.
- RoundHandler.SettleClearingRound: with a wrong account list it promises failure, not which of several errors is reported; so do RoundHandler.LoadParticipants, SettleEntry and SettleBlocks, SettlementHandlers.SettleIndividually and SettleCommitmentsTogether, and Handlers.Program.DepositFor. With the right list the error is exact.
- RoundHandler.SettleRoundMessage: reads the entries again before the second pass and not within it, since `ClearingRoundMessages.SecondPassNeverFails` shows that this reading cannot fail.
- SettlementMessages.SettleBundleMessage: parses all rows before it compares tokens and payees, so of a bundle with a bad row and a foreign payee it reports the bad row.
- RoundRefinement.RoundSucceedsExactlyWhen: is about blocks and a ledger; message and accounts are joined to it by `RoundHandler.SettleRoundMessage`.
- BundleEquivalence.BundleVerdict: is about commitments and a ledger; message and accounts are joined to it by `SettlementMessages.SettleBundleMessage`.
- SettleIndividual.SettlementOutcome: is about a commitment and a ledger; message and accounts are joined to it by `SettlementMessages.SettleCommitmentMessage`.
- Tokens in the reserve's liquidity vault, and burns of reserve shares outside the reserve program: interest is virtual, and supply changes only by deposit and redemption.
- Two yield-bearing tokens on one reserve: each market has its own reserve state; what others do to a reserve is a `ReserveStep` of the world and an `Outside` call of `SolvencyRuns`.
- Authority handoff, configuration and registry updates, inbound policy, BLS key registration and signer rotation: single checks. Participants exist from the start of a run; lanes are created within it.
- Injectivity of the varint reader: it accepts encodings that are not minimal, so only parse-after-print is claimed.
- The split between available and withdrawing after a round: netting changes it; totals agree.
- SortedVectors.SettingABit: a bitwise or on clear bits is modelled as an addition, here and in the varint reader, with the proof that the bits are disjoint.
- Handlers.Program: holds the accounts of one yield-bearing token, as an instruction does; runs over many tokens are stated on the value form.
- The formal_verification pilot and all other TypeScript.
