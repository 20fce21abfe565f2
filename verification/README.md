# Verified model of arb-revm's fee, retryable and trie logic

arb-revm runs Arbitrum transactions on top of revm. This project models the parts of it
where many steps have to add up, and proves what they add up to:

* **Retryable tickets.** Submitting one, redeeming it from a contract, scheduling its retry
  from a log, running the retry and settling its fees (`SubmitCalldata`, `SubmitRetryable`,
  `RetryGas`, `RetryTx`, `RetryFate`, `RetryMoney`, `EscrowRuns`, `FeeAccountSender`,
  `ScheduledRetries`, `Redeem`, `L2Pricing`, `Frames`, `RedeemOnce`, `UnderfundedRetries`).
* **The message queue** that runs a message's transactions and the retries they schedule
  (`MessageQueue`), and the messages it drops (`RefusedRetries`, `DroppedMessages`).
* **Fees of ordinary transactions**: prepayment, poster gas, the compute cap, refunds and the
  split of the rest (`FeeSettlement`).
* **Partial Merkle-Patricia tries**: collecting a path map from proof nodes, looking up a key,
  rebuilding and recomputing a root after updates (`PartialTrie`, `TrieLookup`, `TrieBuild`,
  `TrieAgreement`, `TrieUpdate`).
* **Smaller state machines**: the storage-backed address set, the open-span counters, the two
  scheduled owner features, the RLP writers and the EIP-2935 ring (`AddressSets`,
  `FrameSpans`, `FeatureSchedule`, `Rlp`, `HistoryRing`).

`Words`, `Bytes`, `Ledger`, `Journaled` and `Retryables` hold what these share.
`dafny verify dfyconfig.toml` checks everything.

## Main results

* Every message ends. A redeem charges its caller more gas than it donates
  (`Redeem.RedeemChargesMoreThanItDonates`), whatever call tree it sits in
  (`Frames.FramePaysForItsLogs`), so the queue's gas weight falls at every pop
  (`MessageQueue.ExecuteMessage`).
* A submission never aborts on a transfer and mints exactly its deposit
  (`SubmitRetryable.ApplySubmitRetryable`). Together with its redeem it never adds more than the
  deposit to the refund address's balance (`RetryMoney.RefundsNeverExceedDeposit`) and leaves each
  fee account exactly the price of the gas used (`RetryMoney.FeeAccountsNet`).
* In every run each live ticket's escrow holds its callvalue (`EscrowRuns.RunsKeepTicketsBacked`),
  so the callvalue transfers of a live ticket's retry never fail
  (`EscrowRuns.LiveTicketTransfersNeverFail`).
* A retry drops its message for exactly six reasons: too little gas for its kind and calldata, a ticket
  that is gone or expired, an escrow short of the callvalue, a nonce that cannot grow, the multi-gas
  pricing model, or a failure after which the sender cannot put the callvalue back
  (`RetryFate.WhenARetryIsFatal`). After any run of ordinary senders the third and the last never
  happen (`RetryFate.WhenAQueuedRetryIsFatal`).
* Scheduling asks for 21,000 gas, which starts only a call without calldata. A submission with less than
  its redeem needs drops its own message (`DroppedMessages.RunUnderfundedSubmission`,
  `UnderfundedRetries.AutoRedeemIsRefused`), and so may a redeem
  (`UnderfundedRetries.RedeemedRetryLacksGas`).
* Two transactions that redeem one ticket drop their message once the first retry succeeds, in every block
  executed by the modelled hooks (`DroppedMessages.RunTwoRedeems`), and such a block exists
  (`DroppedMessages.TwoRedeemsGoThrough`).
* For every sender, fee accounts and escrows included, a failed retry can put the callvalue back exactly
  when the fee refunds leave it alone (`EscrowRuns.CallvalueReturns`).
* One transaction schedules at most one retry of a ticket (`RedeemOnce.AtMostOneRetryPerTicket`),
  and the retry rebuilt from a log is the one that was announced
  (`ScheduledRetries.AnnouncementRoundTrip`).
* Fee settlement conserves wei for every admitted transaction except exactly the unsigned ones that
  offer less than the base fee while tips are collected (`FeeSettlement.SettlementConservesWei`).
* Recomputing a root with no updates returns it; with updates it returns the root of the
  updated key-value map exactly when no opaque leaf or extension loses its branch
  (`TrieUpdate.RecomputeRoot`). The two trie walkers agree (`TrieLookup.WalkersAgree`).

## How things are modelled

* Machine integers are naturals with their bounds and saturation written out (`Words`).
* Hashes are symbolic: the hash of a value is that value under a constructor, so hashing is
  injective. Escrow addresses are a function of the ticket id; a run assumes it distinct on the
  run's own tickets.
* State the hooks update in place is a class field; each method is proved against a function of
  the old state, and the properties are proved about those functions.
* A retry's intrinsic and floor gas are revm's rules for the hardforks that ArbOS versions map to: EIP-2028
  calldata, EIP-3860 initcode from version 11, and the EIP-7623 floor from version 40 where the ArbOS feature
  enables it.
* EVM execution is a tree of frames that burn gas, call, log, cancel, keep alive and redeem, and
  the list of payments a transaction makes. Those are the contracts assumed of revm.
* `HashBuilder` is the trie construction of Appendix D of the Ethereum Yellow Paper, with an
  opaque entry standing for its hash.

Where the code differs from what its comments say, the code is followed:

* The price a caller paid is stored and then erased by `reset_poster_state` before the later
  hooks read it (`crates/arb-revm/src/handler.rs:470-472`), so refunds and tips use the base fee.
* With on-chain tips enabled the effective price is still clamped to the base fee
  (`crates/arb-revm/src/transaction.rs:295-305`). Standard and contract transactions below the base
  fee are rejected (`crates/arb-revm/src/handler.rs:337-342`), unsigned ones are not, and such a
  transaction is credited more than it prepaid (`FeeSettlement.UnderpricedUnsignedPrintsWei`).
* A retry whose ticket is gone, or whose gas limit is below its intrinsic or floor gas, is an error, and an
  error drops the whole message (`crates/arb-revm/src/retry_tx.rs:42-47`,
  `crates/arb-revm/src/handler.rs:312-326`, `crates/arb-revm/src/executor/run.rs:385`).
* With multi-gas constraints configured every ordinary transaction and every retry fails at its end,
  when the backlog cannot be grown (`crates/arb-revm/src/storage/l2_pricing.rs:338-346`).
* The submit decoder reads a call to the zero address as a creation
  (`SubmitCalldata.ExactRoundTrip`).
* Before ArbOS 5 the submit hook pays the infra account but the retry hook does not take the
  unused part back (`RetryMoney.FeeAccountsNet` states the difference).
* Removing a key can leave an opaque leaf or extension alone under its branch, and the rebuilt
  root is then wrong (`TrieUpdate.RemovalCanCollapse`); the repository notes this limit at
  `crates/arb-revm/src/bin/replay_block.rs:474-478`.

## Model

| member | source | states |
|---|---|---|
| `Ledger.PayConserves` | crates/arb-revm/src/submit_retryable_tx.rs:241-244 | a journal transfer, funded or not, to oneself or not, leaves the sum of all balances unchanged |
| `Ledger.SettleBalance` | crates/arb-revm/src/submit_retryable_tx.rs:241-416 | after a list of affordable payments an account has what it had plus what it received minus what it sent |
| `Journaled.OnlyFundsMatter` | crates/arb-revm/src/submit_retryable_tx.rs:657-668 | with all wei fitting 256 bits a transfer fails only for lack of funds, never by overflow |
| `Journaled.Journal.Transfer` | crates/arb-revm/src/submit_retryable_tx.rs:252-258 | the transfer moves exactly the amount if funded, changes nothing otherwise, and says which |
| `Retryables.ToRoundTrip` | crates/arb-revm/src/storage/retryables.rs:164-191 | a stored destination reads back as itself and a creation is never confused with a call |
| `SubmitCalldata.CalldataRoundTrip` | crates/arb-revm/src/submit_retryable_tx.rs:72-159 | decoding encoded calldata gives back the call, a call to the zero address as a creation |
| `SubmitCalldata.ExactRoundTrip` | crates/arb-revm/src/submit_retryable_tx.rs:103-159 | the round trip is exact if and only if the call does not go to the zero address |
| `SubmitCalldata.ApplyCalldata` | crates/arb-revm/src/submit_retryable_tx.rs:167-497 | undecodable calldata or a missing chain id changes nothing, and otherwise outcome, balances, tickets, queue and logs are those of the decoded submission |
| `SubmitRetryable.TakeFunds` | crates/arb-revm/src/submit_retryable_tx.rs:670-674 | a capped take yields exactly the part of its range that lies inside the budget |
| `SubmitRetryable.SlicesPartition` | crates/arb-revm/src/submit_retryable_tx.rs:239-427 | all takes of a submission partition the refundable deposit, and infra and network cost add up to the gas cost |
| `SubmitRetryable.RefundsWithinDeposit` | crates/arb-revm/src/submit_retryable_tx.rs:239-427 | in every outcome refunds stay within deposit less callvalue, and when scheduled refunds plus max refund equal it |
| `SubmitRetryable.SubmitNeverLacksFunds` | crates/arb-revm/src/submit_retryable_tx.rs:231-427 | for any aliasing of addresses every transfer but the escrow one is funded when its turn comes |
| `SubmitRetryable.FundedIsScheduled` | crates/arb-revm/src/submit_retryable_tx.rs:336-374 | a submission whose deposit covers fee cap, callvalue and gas schedules its redeem exactly when it offers 21,000 gas at the base fee |
| `SubmitRetryable.ChargeSubmissionFee` | crates/arb-revm/src/submit_retryable_tx.rs:239-259 | fee charged, overestimate refunded, and what remains of the refund budget |
| `SubmitRetryable.UndoSubmissionFee` | crates/arb-revm/src/submit_retryable_tx.rs:261-300 | a failed escrow gives the fee back to the sender and its withheld part to the refund address |
| `SubmitRetryable.PayGasCost` | crates/arb-revm/src/submit_retryable_tx.rs:376-403 | gas cost paid in full, the infra account's share first |
| `SubmitRetryable.TakeGasFunds` | crates/arb-revm/src/submit_retryable_tx.rs:405-427 | the refunded price overestimate and the redeem's max refund, without saturation |
| `SubmitRetryable.RefundGasDeposit` | crates/arb-revm/src/submit_retryable_tx.rs:358-374 | when no redeem can be scheduled the gas deposit goes back, capped by the budget |
| `SubmitRetryable.AnnounceRedeem` | crates/arb-revm/src/submit_retryable_tx.rs:425-492 | first try marked, the auto-redeem announced with its max refund, and the escrow remembered that it may revive |
| `SubmitRetryable.CreateTicket` | crates/arb-revm/src/submit_retryable_tx.rs:302-497 | the ticket, queue entry, logs, payments, revivable escrows and outcome of every stage after the escrow |
| `SubmitRetryable.ApplySubmitRetryable` | crates/arb-revm/src/submit_retryable_tx.rs:171-497 | never aborts on a transfer, total wei unchanged when the fee cap is too low and grown by the deposit otherwise, and the exact balances, tickets, queue and logs of each stage |
| `RetryTx.FeeRefundConserves` | crates/arb-revm/src/handler.rs:1244-1284 | a fee refund moves wei without creating any |
| `RetryTx.FeeRefundOther` | crates/arb-revm/src/handler.rs:1244-1284 | what every account but the payer gains from one refund, for any aliasing |
| `RetryTx.FeeRefundOwn` | crates/arb-revm/src/handler.rs:1244-1284 | what the paying account loses, for any aliasing |
| `RetryTx.RetryFeeRefund` | crates/arb-revm/src/handler.rs:1244-1273 | what the budget grants goes to the refund address and the rest to the sender, each capped by the account |
| `RetryTx.RolePaidIsGained` | crates/arb-revm/src/handler.rs:1164-1214 | the balance of a refund address that is neither asked nor the sender grows by exactly what it is paid in that role |
| `RetryTx.HookWithinBudget` | crates/arb-revm/src/handler.rs:1164-1214 | all refunds of the end hook to the refund address together stay within max refund |
| `RetryTx.SolventPaysAll` | crates/arb-revm/src/handler.rs:1164-1214 | a solvent fee account pays exactly the sum of what it is asked |
| `RetryTx.RefundsSpare` | crates/arb-revm/src/handler.rs:1164-1214 | an account that is asked for nothing never loses |
| `RetryTx.SettleFees` | crates/arb-revm/src/handler.rs:1138-1214 | the three refunds in order, each from its own range of the budget, conserving wei |
| `RetryGas.OnlyBareCallsAreCheap` | crates/arb-revm/src/handler.rs:312-326 | every retry needs at least 21,000 gas, exactly 21,000 if and only if it is a call without calldata, and a creation at least 53,000 |
| `RetryGas.FloorDecides` | crates/arb-revm/src/executor/run.rs:99-102 | with the calldata price increase enabled, exactly when the floor is what a retry needs |
| `RetryTx.ValidateRetry` | crates/arb-revm/src/handler.rs:312-326 | which gas error a retry meets before its hooks, and that it meets one exactly below what its kind and calldata need |
| `RetryTx.RetryPreExecution` | crates/arb-revm/src/retry_tx.rs:16-70 | which error the hook raises when, and on success the callvalue taken out of escrow and the nonce bumped for calls only |
| `RetryTx.DeleteRetryable` | crates/arb-revm/src/storage/retryables.rs:57-82 | empties the escrow into the beneficiary's account and erases the record, if there was one |
| `RetryTx.RetryPostExecution` | crates/arb-revm/src/retry_tx.rs:75-141 | success deletes the ticket and may revive its escrow account, failure returns the callvalue, and when that fails |
| `RetryTx.RetryEndTxHook` | crates/arb-revm/src/handler.rs:1097-1234 | fee refunds, backlog growth and the ticket's fate as one function of the state, conserving wei; the multi-gas model is an error |
| `RetryMoney.RoleRefundsAreReceived` | crates/arb-revm/src/submit_retryable_tx.rs:239-416 | in every stage the payments to a refund address that plays no other part are its refunds, and it pays nothing |
| `RetryMoney.SubmitRefundsBalance` | crates/arb-revm/src/submit_retryable_tx.rs:239-416 | the balance of a refund address that plays no other part grows by exactly those refunds over a submission |
| `RetryMoney.HookRefundsBalance` | crates/arb-revm/src/handler.rs:1164-1214 | and by exactly what the end hook pays it in that role |
| `RetryMoney.RolePaymentsWithinDeposit` | crates/arb-revm/src/handler.rs:1164-1214 | payments in that role over a submission and its redeem stay within deposit less callvalue, for any aliasing |
| `RetryMoney.RefundsNeverExceedDeposit` | crates/arb-revm/src/handler.rs:1164-1214 | on the ledger, both together add at most deposit less callvalue to the balance of a refund address that plays no other part |
| `RetryMoney.SubmitIncomeIsKept` | crates/arb-revm/src/submit_retryable_tx.rs:376-403 | what a scheduled submission brings each fee account |
| `RetryMoney.HookOutflow` | crates/arb-revm/src/handler.rs:1164-1214 | a solvent fee account gives back exactly what the hook asks of it |
| `RetryMoney.FeeAccountsNet` | crates/arb-revm/src/handler.rs:1138-1214 | over both, each fee account nets its share of the price of the gas used, the network account the submission fee exactly when the redeem failed, and the pre-ArbOS-5 difference |
| `EscrowRuns.SubmitFillsEscrow` | crates/arb-revm/src/submit_retryable_tx.rs:261-334 | the escrow of a created ticket holds its callvalue at the end of the submission |
| `EscrowRuns.SubmitKeepsBacked` | crates/arb-revm/src/submit_retryable_tx.rs:261-334 | a submission with a fresh id keeps every live ticket backed by its escrow |
| `EscrowRuns.FeesSpare` | crates/arb-revm/src/handler.rs:1164-1214 | fee refunds come out of fee accounts only |
| `EscrowRuns.RetryTransfersSucceed` | crates/arb-revm/src/retry_tx.rs:38-69 | both transfers of a live ticket's callvalue succeed and a failed retry restores the escrow exactly |
| `EscrowRuns.FailedRetryKeepsBacked` | crates/arb-revm/src/retry_tx.rs:94-135 | a failed retry keeps every live ticket backed |
| `EscrowRuns.SuccessfulRetryKeepsBacked` | crates/arb-revm/src/retry_tx.rs:94-135 | a successful retry deletes its ticket and keeps every other one backed |
| `EscrowRuns.RunsKeepTicketsBacked` | crates/arb-revm/src/retry_tx.rs:38-135 | in every run of submissions, retries and other execution each live ticket stays backed |
| `EscrowRuns.LiveTicketTransfersNeverFail` | crates/arb-revm/src/retry_tx.rs:49-59 | after any run from no tickets the callvalue transfers of a live ticket's retry succeed |
| `EscrowRuns.StepKeepsTicket` | crates/arb-revm/src/retry_tx.rs:102-107 | a ticket leaves only through its own success or a step that drops it |
| `EscrowRuns.LostExactlyWhenDropped` | crates/arb-revm/src/retry_tx.rs:38-107 | over a run a live ticket is gone if and only if some step dropped it |
| `EscrowRuns.QueuedRetryIsRefused` | crates/arb-revm/src/retry_tx.rs:38-69 | a queued retry is refused exactly when its gas limit is below what it needs, its ticket was dropped or expired by its turn, or the nonce is at its maximum, and with which error |
| `EscrowRuns.CallvalueReturns` | crates/arb-revm/src/retry_tx.rs:129-135 | for every sender and callvalue the return transfer succeeds if and only if the callvalue is zero or a condition on the holdings and refund ranges before the hook holds, which is true of all but fee accounts |
| `FeeAccountSender.DrainedFeeAccountAborts` | crates/arb-revm/src/retry_tx.rs:129-135 | after a fully funded submission of the network fee account and a transaction that empties it, the callvalue of its failed redeem cannot be put back if and only if gas was left unused at a positive price |
| `FeeAccountSender.FeeAccountSenderCanAbort` | crates/arb-revm/src/retry_tx.rs:129-135 | such a submission: one wei of callvalue, 100,000 gas of which 40,000 used |
| `RetryFate.StartRetry` | crates/arb-revm/src/handler.rs:305-326 | gas check and hook together: the exact refusal, or the released callvalue |
| `RetryFate.TransactRetry` | crates/arb-revm/src/handler.rs:1097-1234 | a retry from its gas check to its end hook: the exact error, or the exact balances, tickets, backlog and nonce |
| `RetryFate.WhenARetryIsFatal` | crates/arb-revm/src/executor/run.rs:385 | the six reasons for which a retry is an error, if and only if, for every state, sender and ending |
| `RetryFate.WhenAQueuedRetryIsFatal` | crates/arb-revm/src/executor/run.rs:385 | over any run of ordinary senders, the reasons that are left |
| `UnderfundedRetries.AutoRedeemIsRefused` | crates/arb-revm/src/submit_retryable_tx.rs:336-374 | a scheduled auto-redeem is queued, and refused for gas if and only if the submitted gas limit is below what its destination and calldata need |
| `UnderfundedRetries.LeastGasIsNotEnough` | crates/arb-revm/src/submit_retryable_tx.rs:336-374 | at exactly 21,000 gas a fully funded submission is scheduled, and its redeem refused if and only if it creates or carries calldata |
| `UnderfundedRetries.RedeemedRetryLacksGas` | crates/arb-revm/src/precompiles/arb_retryable_tx.rs:226-275 | the retry of a redeem is refused for gas if and only if the redeem was given less than it reserves and its retry needs |
| `UnderfundedRetries.LeastDonationIsNotEnough` | crates/arb-revm/src/precompiles/arb_retryable_tx.rs:226-275 | the least donation suffices if and only if the ticket is a call without calldata |
| `ScheduledRetries.ScheduledRetriesFromRedeemLogs` | crates/arb-revm/src/executor/run.rs:129-220 | the log scan returns exactly the retries of the logs that pass every filter, in order |
| `ScheduledRetries.LogDataRoundTrip` | crates/arb-revm/src/submit_retryable_tx.rs:507-530 | the four ABI words of the announcement decode to what was encoded |
| `ScheduledRetries.AnnouncementRoundTrip` | crates/arb-revm/src/executor/run.rs:145-217 | the scan rebuilds the announced retry exactly when it is the ticket's latest try and donates gas |
| `ScheduledRetries.RebuildFunds` | crates/arb-revm/src/submit_retryable_tx.rs:550-565 | the second walk through the deposit takes the same ranges as the first |
| `ScheduledRetries.BuildScheduledRetryFromSubmit` | crates/arb-revm/src/submit_retryable_tx.rs:544-592 | rebuilding from the submission gives the retry that the hook hashed |
| `ScheduledRetries.AutoRedeemSurvivesItsLog` | crates/arb-revm/src/submit_retryable_tx.rs:425-485 | the retry hashed into the log and the retry rebuilt from log and record are the same |
| `ScheduledRetries.ScheduledSubmitYieldsItsRedeem` | crates/arb-revm/src/executor/run.rs:145-217 | a scheduled submission's logs yield exactly its auto-redeem |
| `L2Pricing.TraversalCostBound` | crates/arb-revm/src/storage/l2_pricing.rs:390-402 | walking the constraints costs at most a read and a write each |
| `L2Pricing.ReservationFallsShort` | crates/arb-revm/src/storage/l2_pricing.rs:358-441 | the reserved cost is too small exactly at ArbOS 50 with a dear enough traversal |
| `L2Pricing.ShrinkConstraints` | crates/arb-revm/src/storage/l2_pricing.rs:387-402 | every backlog shrunk with saturation and the saturating metered cost of doing so |
| `L2Pricing.ShrinkMultiConstraints` | crates/arb-revm/src/storage/l2_pricing.rs:404-421 | every multi-gas backlog shrunk by the gas times its own weight, weights untouched |
| `L2Pricing.GrowBacklog` | crates/arb-revm/src/storage/l2_pricing.rs:313-347 | the grown backlogs, and that growing fails exactly under the multi-gas model |
| `L2Pricing.GrowthUndoesShrinking` | crates/arb-revm/src/storage/l2_pricing.rs:313-402 | outside the multi-gas model, growing by the gas that was donated restores the backlogs if and only if each held that much |
| `Redeem.RedeemChargesMoreThanItDonates` | crates/arb-revm/src/precompiles/arb_retryable_tx.rs:257-376 | a redeem is charged its whole donation, 31,255 and the backlog update, and never more than its limit |
| `Redeem.OrdinaryRedeemCharge` | crates/arb-revm/src/precompiles/arb_retryable_tx.rs:355-376 | with an input of ordinary length the charge is the gas limit less what was reserved for the backlog update beyond its cost |
| `Redeem.ShrinkBacklog` | crates/arb-revm/src/storage/l2_pricing.rs:358-421 | the new backlogs and the cost under each pricing model |
| `Redeem.ReserveGas` | crates/arb-revm/src/precompiles/arb_retryable_tx.rs:226-275 | how much gas is donated, and when the redeem refuses |
| `Redeem.FinishRedeem` | crates/arb-revm/src/precompiles/arb_retryable_tx.rs:316-376 | the gas charged by body and dispatch together, or the refusal |
| `Redeem.RunRedeem` | crates/arb-revm/src/precompiles/arb_retryable_tx.rs:173-378 | the whole call: try counter, announcement, backlog and charge, all rolled back on refusal |
| `Frames.FramePaysForItsLogs` | crates/arb-revm/src/precompiles/mod.rs:227-234 | at any call depth the gas donated in a frame's surviving logs was charged to the frame |
| `Frames.ScheduledWithinLogs` | crates/arb-revm/src/executor/run.rs:145-217 | the retries scheduled weigh no more than the gas their logs donate |
| `RedeemOnce.FrameKeepsCount` | crates/arb-revm/src/precompiles/arb_retryable_tx.rs:199-208 | announced sequence numbers climb and a live ticket's counter is one past the last |
| `RedeemOnce.ScheduledAreLatest` | crates/arb-revm/src/executor/run.rs:166-181 | only announcements of the latest try are scheduled |
| `RedeemOnce.LatestAreScheduled` | crates/arb-revm/src/executor/run.rs:166-181 | and every announcement of the latest try is |
| `RedeemOnce.AtMostOneRetryPerTicket` | crates/arb-revm/src/executor/run.rs:166-181 | over any execution at most one retry per ticket is scheduled |
| `RedeemOnce.RedeemedTicketIsRetriedOnce` | crates/arb-revm/src/executor/run.rs:166-181 | a redeemed ticket that is still there gets exactly one |
| `RefusedRetries.BothRetriesAreQueued` | crates/arb-revm/src/executor/run.rs:401-412 | two redeems of one ticket in a message queue two retries, with consecutive sequence numbers |
| `RefusedRetries.SecondRetryIsRefused` | crates/arb-revm/src/retry_tx.rs:42-47 | once the first has succeeded the second is refused, whatever runs in between, and with which error |
| `RefusedRetries.MessageCannotFinish` | crates/arb-revm/src/executor/run.rs:376-420 | for any execution in which two transactions each queue a retry and the second is an error, no run empties the queue |
| `RefusedRetries.AloneCannotFinish` | crates/arb-revm/src/executor/run.rs:376-420 | the same for one transaction and its retry |
| `MessageQueue.SubmitHookLogs` | crates/arb-revm/src/submit_retryable_tx.rs:345-485 | whenever the submit hook reports a created ticket its logs are the ones the queue relies on |
| `MessageQueue.ScheduleWeighsLess` | crates/arb-revm/src/executor/run.rs:401-412 | what a transaction schedules weighs strictly less than the transaction |
| `MessageQueue.RunOne` | crates/arb-revm/src/executor/run.rs:375-412 | one popped transaction: skipped, fatal, or executed with its schedule |
| `MessageQueue.ExecuteMessage` | crates/arb-revm/src/executor/run.rs:362-420 | terminates; user transactions run in order before any retry, retries in schedule order, none lost or repeated, executed plus skipped equals attempted plus scheduled; and when it fails, what had run and which transaction at the front of the queue was fatal |
| `DroppedMessages.HooksArePlausible` | crates/arb-revm/src/executor/run.rs:376-412 | execution by the modelled hooks and frames meets the queue's contract in every state, for every transaction |
| `DroppedMessages.SucceededTicketIsGone` | crates/arb-revm/src/retry_tx.rs:42-47 | after a successful retry every other retry of its ticket is an error |
| `DroppedMessages.RunTwoRedeems` | crates/arb-revm/src/executor/run.rs:362-420 | a message of two transactions that redeem one ticket, the first of whose retries succeeds, is dropped |
| `DroppedMessages.TwoRedeemsGoThrough` | crates/arb-revm/src/precompiles/arb_retryable_tx.rs:173-378 | a block, a ticket and two transactions of 1,100,000 gas for which that happens |
| `DroppedMessages.WhenAnAutoRedeemIsFatal` | crates/arb-revm/src/executor/run.rs:376-420 | executing the redeem of a submission is an error if and only if gas, nonce or the multi-gas model makes it one |
| `DroppedMessages.RunUnderfundedSubmission` | crates/arb-revm/src/executor/run.rs:362-420 | a message that is one submission with too little gas for its redeem is dropped |
| `DroppedMessages.LeastGasIsUnderfunded` | crates/arb-revm/src/submit_retryable_tx.rs:336-374 | every fully funded submission with 21,000 gas that creates or carries calldata is such a message |
| `DroppedMessages.OneByteIsUnderfunded` | crates/arb-revm/src/submit_retryable_tx.rs:336-374 | one with a single byte of calldata |
| `FeeSettlement.FirstFrameIsCapped` | crates/arb-revm/src/handler.rs:526-564 | when a transaction is admitted, and that its first frame gets the rest of its gas capped by the compute limit |
| `FeeSettlement.HeldGasIsNotBilled` | crates/arb-revm/src/handler.rs:652-680 | before refunds the bill is intrinsic, poster and compute gas on success, revert and halt |
| `FeeSettlement.RefundCap` | crates/arb-revm/src/handler.rs:874-895 | a capped refund never exceeds the refundable gas |
| `FeeSettlement.PosterGasIsBilled` | crates/arb-revm/src/handler.rs:874-895 | gas used is at least poster gas and at most the limit, so computeGas never saturates |
| `FeeSettlement.CreditsTotal` | crates/arb-revm/src/handler.rs:937-1062 | all credits together, as one price for poster gas and one for the rest |
| `FeeSettlement.SettlementBalances` | crates/arb-revm/src/handler.rs:730-858 | credits equal the prepayment exactly when it was not made below the base fee, and are never less |
| `FeeSettlement.Context.ResetPosterState` | crates/arb-revm/src/chain.rs:96-106 | whatever was paid, everything after the reset is settled at the base fee and tips nothing |
| `FeeSettlement.Context.ValidateEnv` | crates/arb-revm/src/handler.rs:305-347 | which transactions are rejected before any state is read, and that only unsigned ones may offer less than the base fee |
| `FeeSettlement.Context.ValidateAndDeduct` | crates/arb-revm/src/handler.rs:730-785 | which senders are rejected, and that an admitted one loses exactly the price of the whole gas limit and, below the largest balance, can still pay the value |
| `FeeSettlement.Context.ChargeGas` | crates/arb-revm/src/handler.rs:452-564 | poster gas, poster fee, calldata units and held gas, with the paid price gone afterwards |
| `FeeSettlement.Context.Execute` | crates/arb-revm/src/handler.rs:592-680 | rejection, or the frame's payments and its gas record with the held gas handed back |
| `FeeSettlement.Context.Refund` | crates/arb-revm/src/handler.rs:862-896 | the record afterwards bills exactly the capped and floored gas |
| `FeeSettlement.Context.ReimburseCaller` | crates/arb-revm/src/handler.rs:844-858 | the caller gets the returned gas at the settlement price |
| `FeeSettlement.Context.RewardBeneficiary` | crates/arb-revm/src/handler.rs:937-1072 | the credits of the end hook and the backlog growth as functions of gas used |
| `FeeSettlement.SplitCompute` | crates/arb-revm/src/handler.rs:1000-1022 | infra and network shares of the compute cost, without saturation |
| `FeeSettlement.Context.Settled` | crates/arb-revm/src/handler.rs:305-1072 | which transactions are rejected, and the exact balances and backlogs after a settled one |
| `FeeSettlement.LedgerAfterSettlement` | crates/arb-revm/src/handler.rs:937-1062 | the sum of all wei after a settled transaction |
| `FeeSettlement.SettlementConservesWei` | crates/arb-revm/src/handler.rs:730-858 | with a network account set, total wei is unchanged for every admitted transaction except exactly the unsigned ones priced below the base fee while tips are collected that have gas to settle |
| `FeeSettlement.CreditsFit` | crates/arb-revm/src/handler.rs:1009-1062 | no credit overflows a balance when all wei and what the settlement adds fit 256 bits |
| `FeeSettlement.UnderpricedUnsignedPrintsWei` | crates/arb-revm/src/transaction.rs:295-305 | such a transaction that is admitted and whose settlement raises total wei by 50,000 |
| `PartialTrie.Collector.Collect` | crates/arb-revm/src/state_trie.rs:86-116 | the map gains exactly the node's leaves and opaque boundaries below the path |
| `PartialTrie.Collector.ResolveChild` | crates/arb-revm/src/state_trie.rs:118-137 | a revealed child is walked, a hidden one recorded as opaque |
| `TrieLookup.EntriesPrefixFree` | crates/arb-revm/src/state_trie.rs:86-137 | no collected entry lies above another |
| `TrieLookup.RightAnswerUnique` | crates/arb-revm-test-vectors/src/witness.rs:148-189 | the specification of lookup has one answer per key |
| `TrieLookup.TrieValue` | crates/arb-revm-test-vectors/src/witness.rs:148-205 | lookup gives that answer, after visiting at most one node per nibble and one more when no extension is empty |
| `TrieLookup.WalkersAgree` | crates/arb-revm-test-vectors/src/witness.rs:148-205 | lookup finds a value, misses a node or finds nothing exactly when the collected map says so |
| `TrieBuild.RebuildNode` | crates/arb-revm/src/state_trie.rs:72-82 | rebuilding a canonical node's collected entries gives the node, whichever subtrees are opaque |
| `TrieAgreement.PartialAgrees` | crates/arb-revm/src/state_trie.rs:72-82 | a path map and the full map it stands for build the same reference exactly when every opaque leaf or extension hangs off a branch |
| `TrieAgreement.RootAgrees` | crates/arb-revm/src/state_trie.rs:72-82 | the same for the root node |
| `TrieUpdate.CollectedStands` | crates/arb-revm/src/state_trie.rs:86-137 | what was collected is prefix-free, stands for the trie's whole content and hangs off branches |
| `TrieUpdate.FullMapExists` | crates/arb-revm/src/state_trie.rs:86-137 | every trie has a full key-value map, the one collected when all its nodes are revealed |
| `TrieUpdate.UpdatedStands` | crates/arb-revm/src/state_trie.rs:60-71 | after updates in the revealed region the path map is prefix-free and stands for the overridden key-value map, removals included |
| `TrieUpdate.InsertionsKeepSteady` | crates/arb-revm/src/state_trie.rs:60-71 | updates that remove nothing leave every opaque subtree on its branch |
| `TrieUpdate.RecomputedRoot` | crates/arb-revm/src/state_trie.rs:38-82 | the rebuilt root is the root of the updated map exactly when nothing collapses |
| `TrieUpdate.RemovalCanCollapse` | crates/arb-revm/src/bin/replay_block.rs:474-478 | a trie, its proof nodes and a removal for which the rebuilt root and the true root differ |
| `TrieUpdate.NothingToUpdate` | crates/arb-revm/src/state_trie.rs:38-82 | with no updates the root comes back |
| `TrieUpdate.CanonicalIsConsuming` | crates/arb-revm-test-vectors/src/witness.rs:148-189 | a canonical trie has no empty extension, so lookup's bound on visited nodes applies |
| `TrieUpdate.IndexNodes` | crates/arb-revm/src/state_trie.rs:46-49 | every proof node under its hash and nothing else |
| `TrieUpdate.ApplyUpdates` | crates/arb-revm/src/state_trie.rs:60-71 | the entries overridden by the updates, in any order of keys |
| `TrieUpdate.RecomputeRoot` | crates/arb-revm/src/state_trie.rs:41-83 | when the root is missing; identity without updates; the true root if and only if nothing collapses |
| `AddressSets.AddRefines` | crates/arb-revm/src/storage/address_set.rs:31-53 | adding keeps list and index mutually inverse and adds the member |
| `AddressSets.AddToFullBreaks` | crates/arb-revm/src/storage/address_set.rs:31-53 | adding to a list of 2^64 - 1 members breaks the index |
| `AddressSets.RemoveRefines` | crates/arb-revm/src/storage/address_set.rs:87-127 | removing moves the last member into the gap, zeroes its slot and removes the member |
| `AddressSets.SizeIsCardinality` | crates/arb-revm/src/storage/address_set.rs:26-65 | the size field is the number of members |
| `AddressSets.RunsRefine` | crates/arb-revm/src/storage/address_set.rs:26-127 | every run from empty refines a mathematical set, as long as that set fits the size field |
| `AddressSets.AddressSet.IsMember` | crates/arb-revm/src/storage/address_set.rs:26-29 | membership |
| `AddressSets.AddressSet.Add` | crates/arb-revm/src/storage/address_set.rs:31-53 | the member is added and order kept if and only if it was there or there was room |
| `AddressSets.AddressSet.Remove` | crates/arb-revm/src/storage/address_set.rs:87-127 | the member is removed and order kept |
| `AddressSets.AddressSet.AllMembers` | crates/arb-revm/src/storage/address_set.rs:56-65 | every member once, in index order |
| `FrameSpans.InitKeepsExact` | crates/arb-revm/src/evm.rs:193-220 | pushing a frame keeps every counter exact and inside 32 bits |
| `FrameSpans.ReturnKeepsExact` | crates/arb-revm/src/evm.rs:253-284 | popping keeps them exact and the decrement never saturates |
| `FrameSpans.RunsCountOpenFrames` | crates/arb-revm/src/evm.rs:193-298 | in every run each counter is the number of open non-delegate call frames, all zero at the end |
| `FrameSpans.Evm.FrameInit` | crates/arb-revm/src/evm.rs:193-220 | opens a span only for a frame that is really pushed |
| `FrameSpans.Evm.FrameReturnResult` | crates/arb-revm/src/evm.rs:253-284 | closes the span of a finished top frame only |
| `FrameSpans.Evm.Reentrant` | crates/arb-revm/src/stylus/dispatch.rs:168-177 | the reentrant flag is set exactly when another frame acts as the address |
| `FeatureSchedule.ArbOwner.ScheduleFrom` | crates/arb-revm/src/precompiles/arb_owner.rs:162-231 | an enable time is accepted exactly from the earliest time allowed on |
| `FeatureSchedule.ArbOwner.AddMember` | crates/arb-revm/src/precompiles/arb_owner.rs:119-143 | a member is added only once a full notice has passed since every moment the feature was distant, and the other feature is untouched |
| `FeatureSchedule.ArbOwner.Run` | crates/arb-revm/src/precompiles/arb_owner.rs:27-253 | which calls are accepted and what each changes |
| `FeatureSchedule.SevenDaysNotice` | crates/arb-revm/src/precompiles/arb_owner.rs:119-253 | over every run in time order no member is added through a feature before its notice ends |
| `FeatureSchedule.NoticeIsTight` | crates/arb-revm/src/precompiles/arb_owner.rs:162-193 | a member can be added the moment the notice ends |
| `Rlp.StripKeepsValue` | crates/arb-revm/src/l1_cost.rs:185-188 | stripping keeps the number and leaves no leading zero |
| `Rlp.WriteLength` | crates/arb-revm/src/l1_cost.rs:174-183 | appends the header, whose first byte never overflows |
| `Rlp.RlpEncodeBytes` | crates/arb-revm/src/l1_cost.rs:161-172 | the encoding of one byte string |
| `Rlp.RlpEncodeList` | crates/arb-revm/src/l1_cost.rs:149-158 | appends the encoding of the list |
| `Rlp.ListRoundTrip` | crates/arb-revm/src/l1_cost.rs:149-188 | a strict decoder recovers exactly the items with nothing left over |
| `Rlp.ListConverse` | crates/arb-revm/src/l1_cost.rs:149-188 | that decoder accepts nothing but what the encoder writes |
| `HistoryRing.HistoryStorage.StartBlock` | crates/arb-revm/src/internal_tx.rs:97-135 | one slot is touched, and from version 40 on the window stays served: every recorded block of the last window has its hash in its slot |
| `HistoryRing.WindowIsKept` | crates/arb-revm/src/internal_tx.rs:123-135 | so it is after every run of consecutive blocks, whatever the ring held before |
| `HistoryRing.WindowIsExact` | crates/arb-revm/src/internal_tx.rs:123-135 | one block later the slot belongs to the block a window on |

## Left out

- SubmitRetryable.ApplySubmitRetryable: assumes that all wei together, deposit included, fit 256 bits; the journal's own overflow errors are then unreachable.
- SubmitCalldata.ApplyCalldata: an offset so close to 2^64 that the bounds check overflows aborts the program; here it is an error like any other.
- EscrowRuns.RunsKeepTicketsBacked: senders are neither fee accounts nor escrows, and other execution is assumed to leave the escrows of surviving tickets alone; `EscrowRuns.CallvalueReturns` covers fee accounts.
- EscrowRuns.QueuedRetryIsRefused: assumes that the run does not submit the same ticket id again; ids are transaction hashes.
- Frames.FramePaysForItsLogs: the gas rules of revm (every step had its gas, a callee gets at most what its caller can pay) are assumed, and only the precompile logs under its own address.
- MessageQueue.ExecuteMessage: executing one transaction is a parameter with the contract `Plausible`, which `DroppedMessages.HooksArePlausible` discharges for the modelled hooks; the start-block prelude is left out.
- DroppedMessages.HooksArePlausible: the fees and the validation of ordinary transactions are those of `FeeSettlement` and not part of this execution, gas refunds are left out, and frames and payments of a transaction are given.
- RetryGas.OnlyBareCallsAreCheap: gas is a natural number; calldata so long that its price overflows 64 bits is not modelled.
- FeeSettlement.SettlementConservesWei: balances are unbounded; the code ignores a credit that overflows 256 bits, and `FeeSettlement.CreditsFit` says when none does.
- L2Pricing.ReservationFallsShort: the plain sum around the reserved cost overflows 64 bits only for more than 10^14 constraints, which is not modelled.
- FeeSettlement.Context.Settled: filtered transactions, protocol transactions and the gas reservoir (zero on this path) are left out, and so are revm's checks of chain id, block gas limit, blobs and init code.
- TrieBuild.RebuildNode: HashBuilder's internals are replaced by the construction; `small` says which encodings are shorter than a hash and is left open.
- TrieUpdate.RecomputeRoot: decoding errors of malformed proof nodes are left out; proof nodes are given as nodes.
- TrieUpdate.RecomputedRoot: the correctness of the root is stated for updates at full-length keys outside opaque subtrees.
- FrameSpans.Evm.FrameInit: why revm answers a call without a frame is a parameter, except for the call depth.
- Rlp.RlpEncodeList: byte strings and payload have lengths that fit 64 bits, as every vector has.
- AddressSet.clear_list, which leaves the index stale on purpose.
- Start-block calldata: field-by-field reads.
- Retryable reaping and keepalive as operations of their own; they appear only as steps other execution may take.
- Stylus, brotli, keccak, revm's interpreter and journal internals.
- RPC clients, capture tools, metrics, tracing and scripts.
- Read-only precompiles, the version upgrade cascade and genesis constants: fixed reads and writes.
