# Verified model of arb-revm's ArbOS execution logic

arb-revm executes Arbitrum blocks on top of revm. This project models the parts of it that keep books
across several files, and proves what they keep:

- **Retryable tickets** (`Words`, `Ledger`, `Journals`, `Deposit`, `Submit`, `SubmitMeaning`,
  `RetrySettlement`, `Retryables`,
  `Lifecycle`, `TicketRights`, `StrandedRetry`, `LostRetry`, `Timekeeping`, `ClockBound`, `Scheduling`). A journal of balances, ticket records, the timeout queue and
  logs is updated in place by deposits and submissions, by the precompile calls redeem, keepalive and cancel, by the hooks around a
  retry and by reaping. `Lifecycle` turns them into a state machine whose runs are arbitrary sequences of
  these steps with arbitrary frames in between.
- **Gas of redeem and the transaction loop** (`RedeemGas`, `Executor`).
- **Charging and settlement of an ordinary transaction** (`NormalTx`).
- **Partial Merkle-Patricia tries** (`Trie`, `TrieReaders`, `TrieRebuild`, `TrieRoot`, `TrieUpdate`, `TrieInsert`): the two
  readers of a witness, flattening and rebuilding, and the recomputation of a root after updates.
- **Smaller state machines** (`FrameTracker`, `RecentWasms`, `Upgrade`).

Every operation that the source performs step by step is a method proved against a specification function or
predicate; the results are lemmas about those, over all inputs or all runs. `dafny verify dfyconfig.toml`
checks the project.

Modelling decisions that hold throughout:

- Balances are unbounded naturals whose total is at most 2^256 - 1, so that a transfer cannot overflow; 64-,
  128- and 256-bit saturation and wrap-around are written out where the source has them. The submission fee is
  a wrapping product, as in the source.
- Keccak is injective: an escrow address is a constructor of its own, and the hash of a retry is the
  retry. Trie hashing is a parameter; injectivity is assumed only where a lemma names it.
- A frame is an arbitrary step, which may mint and burn, but cannot debit an escrow account and restores its
  entry state on failure.
- `paid_gas_price` is zeroed by `reset_poster_state` during pre-execution, after it has been read; settlement therefore
  uses its base-fee fallback. Prepayment agrees with it because the effective price is clamped to the base fee. The field's own comment
  says that it stays stable for the settlement hooks; the model follows the code.

Properties that turn out to hold only under a condition are stated as equivalences, each with an input or a
run on which they fail:

- a fee account that sends a retryable: `Lifecycle.FailedRetryEndsExactly`, `StrandedRetry.StrandedRun`;
- a queued retry whose ticket is gone: `Lifecycle.RetryStartsExactly`, `LostRetry.LostRun`;
- block times close to 2^64: `ClockBound.TestsAgreeExactly` with `ClockBound.DisagreeingRun`,
  `ClockBound.TwoLifetimesExactly` with `ClockBound.LongLivedRun`;
- the backlog reservation at ArbOS 50: `RedeemGas.ReserveCoversExactly`, `RedeemGas.ReserveTooSmall`;
- redeem calls with very long inputs: `RedeemGas.ChargeExceedsDonation`, `RedeemGas.LongInputSaturates`;
- an unset network fee account: `NormalTx.CreditsExact`, `NormalTx.ShareUnclaimed`;
- merges beside hidden trie subtrees: `TrieUpdate.RecomputedRootExact`, `TrieInsert.MissedMerge`;
- upgrades across versions that genesis treats specially: `Upgrade.UpgradeMatchesGenesis`,
  `Upgrade.UpgradeDiffersFromGenesis`.

## Model

| member | source | states |
|---|---|---|
| Submit.TakeFunds | crates/arb-revm/src/submit_retryable_tx.rs:677-681 | takes the smaller of request and budget; what is taken and what is left add up to the budget |
| Submit.Amounts.MaxRefund | crates/arb-revm/src/submit_retryable_tx.rs:412-434 | deposit identity: remaining refund budget + submission-fee refund + gas-price refund + min(deposit, call value) = deposit |
| Submit.AmountsOf | crates/arb-revm/src/submit_retryable_tx.rs:362-397 | the infra share never exceeds the gas cost, and the gas cost never exceeds the bound the sender's balance is checked against |
| Submit.MustTransfer | crates/arb-revm/src/submit_retryable_tx.rs:664-675 | a mandatory transfer is fatal exactly when the payer is short; otherwise it moves exactly the amount, also between equal accounts |
| Submit.ChargeSubmissionFee | crates/arb-revm/src/submit_retryable_tx.rs:245-265 | neither fee transfer can fail, the network account then holds the fee, and the budget left is the closed-form one |
| Submit.EscrowCallvalue | crates/arb-revm/src/submit_retryable_tx.rs:267-307 | the escrow is funded exactly when the sender has the call value; the unwinding transfers cannot fail and give back the fee |
| Submit.FundTicket | crates/arb-revm/src/submit_retryable_tx.rs:196-307 | the stage at which funding ends is decided by the initial balances alone, and the net movement on every account is that of the stage; the sender still holds the refund budget |
| Submit.PrepayGas | crates/arb-revm/src/submit_retryable_tx.rs:382-423 | no gas transfer and no gas-price refund can fail, whichever accounts coincide; net movement on every account |
| Submit.SettleTicketGas | crates/arb-revm/src/submit_retryable_tx.rs:353-423 | the redeem is prepaid exactly when the gas terms are acceptable and the sender can pay the maximal cost; otherwise the gas money goes to the refund address |
| Submit.CreateTicket | crates/arb-revm/src/submit_retryable_tx.rs:309-499 | what a funded submission stores, announces and moves, and its receipt; a prepaid unfiltered one counts its first try, logs the automatic redeem and, before Stylus and without call value, marks the escrow |
| Submit.ApplySubmit | crates/arb-revm/src/submit_retryable_tx.rs:168-504 | solvency: no mandatory transfer fails for any input and any aliasing of sender, refund, fee and escrow accounts; complete effect on balances, tickets, queue, logs and receipt, including filtered submissions; the stored ticket holds what the submission names, for the named beneficiary or, filtered, the recipient |
| SubmitMeaning.FeeInNumbers | crates/arb-revm/src/submit_retryable_tx.rs:658-662 | the fee is the L1 base fee times 1400 plus six times the calldata length, whenever that fits |
| SubmitMeaning.AmountsInNumbers | crates/arb-revm/src/submit_retryable_tx.rs:362-417 | gas cost, price slack and infra share without saturation; cost and slack add up to the bound |
| SubmitMeaning.RefundsInNumbers | crates/arb-revm/src/submit_retryable_tx.rs:245-434 | a deposit that covers everything refunds all that is not needed, one within the call value nothing, and in between the fee comes first |
| SubmitMeaning.StageInNumbers | crates/arb-revm/src/submit_retryable_tx.rs:196-380 | how far a submission gets, as bounds on the sender's funds in turn |
| SubmitMeaning.GainsAtStage | crates/arb-revm/src/submit_retryable_tx.rs:217-423 | what each of the five accounts gains at each stage |
| SubmitMeaning.PartiesNamed | crates/arb-revm/src/submit_retryable_tx.rs:187-195 | a filtered submission pays its refunds to the recipient and changes nothing else |
| SubmitMeaning.StoredTicket | crates/arb-revm/src/submit_retryable_tx.rs:309-351 | the stored ticket, queue, logs and receipt in terms of the submission; without a ticket nothing but balances changes |
| SubmitMeaning.Receipts | crates/arb-revm/src/submit_retryable_tx.rs:372-430 | the receipt succeeds exactly for unfiltered submissions that create a ticket, and uses gas exactly when the redeem is prepaid |
| SubmitMeaning.AutoRedeemNamed | crates/arb-revm/src/submit_retryable_tx.rs:467-484 | sender, price, gas, refund address, budget and fee of the automatic redeem in terms of the submission |
| Deposit.ApplyDeposit | crates/arb-revm/src/deposit_tx.rs:28-79 | a deposit never fails for lack of funds; only the recipient gains, filtered deposits are redirected, creations are refused |
| SubmitMeaning.MarkedBeforeStylus | crates/arb-revm/src/submit_retryable_tx.rs:457-499 | a scheduled ticket without call value is marked exactly before ArbOS 30 |
| RetrySettlement.RetryFeeRefund | crates/arb-revm/src/handler.rs:1325-1356 | two legs, each paid in full or not at all; the budget is spent either way; the total is conserved |
| RetrySettlement.RetryGasRefund | crates/arb-revm/src/handler.rs:1260-1289 | unused gas comes back from the infra and network accounts under one running budget |
| RetrySettlement.RetryEndFees | crates/arb-revm/src/handler.rs:1201-1306 | the refunding part of the end hook equals the settlement function and conserves the total |
| RetrySettlement.LegsCovered | crates/arb-revm/src/handler.rs:1325-1348 | a fee account that can cover a refund pays exactly it, split at the budget between refund address and sender |
| RetrySettlement.LegsPay | crates/arb-revm/src/handler.rs:1325-1356 | one refund, account by account, whichever accounts coincide: what the budgeted leg and the excess leg really pay |
| RetrySettlement.SettlePays | crates/arb-revm/src/handler.rs:1238-1289 | the whole settlement, account by account, for all balances, outcomes and aliasing; the budgeted legs together pay at most the budget of the retry |
| RetrySettlement.LifecycleBudget | crates/arb-revm/src/submit_retryable_tx.rs:245-434 | submission refunds and the budgeted legs of the redeem together pay at most deposit - min(deposit, call value), for all balances, accounts and outcomes, also when fee accounts change in between |
| RetrySettlement.RefundWithinBudget | crates/arb-revm/src/handler.rs:1238-1289 | in balances: a refund address other than the sender gains at most the budget of the retry |
| RetrySettlement.LifecycleRefundBound | crates/arb-revm/src/handler.rs:1238-1289 | the lifecycle budget in balances, for a refund address that plays no other part |
| RetrySettlement.GasAmounts | crates/arb-revm/src/handler.rs:1260-1289 | what submit charges less what the redeem refunds is exactly price times gas used, for the infra and the network share |
| RetrySettlement.ExactShares | crates/arb-revm/src/handler.rs:1201-1306 | submit then redeem: each fee account, also one account playing both parts, ends richer by exactly its share of base fee times gas used, and the network account by the submission fee when the redeem fails |
| RetrySettlement.ExactSettlement | crates/arb-revm/src/handler.rs:1201-1306 | the same in numbers from the gas counters of the redeem: limit less what is left, refunded and in the reservoir, split at min(minimum base fee, base fee) from ArbOS 11 on |
| RetrySettlement.GasResult.Used | crates/arb-revm/src/handler.rs:1201-1216 | gas used, left, refunded and in the reservoir add up to the limit |
| RetrySettlement.RefundsExact | crates/arb-revm/src/handler.rs:1238-1289 | when the fee accounts can pay, exactly what the refund address and the sender receive |
| Retryables.DeleteRetryable | crates/arb-revm/src/storage/retryables.rs:57-82 | deletes exactly the stored tickets; on every account, the whole escrow goes to the beneficiary and nothing else moves |
| Retryables.TryToReapOne | crates/arb-revm/src/storage/retryables.rs:88-125 | the head of the timeout queue is kept, dropped, deleted, or trades a window for a lifetime; only an expired ticket without windows is removed, and pays its beneficiary |
| Retryables.StartBlockRetryables | crates/arb-revm/src/internal_tx.rs:169-214 | a block start attempts to reap twice and drops the escrow marks of earlier blocks |
| Retryables.KeepaliveCall | crates/arb-revm/src/precompiles/arb_retryable_tx.rs:163-352 | exactly when each of its four outcomes happens, the gas it charges, and its effect: one window, one queue entry and the log, or nothing |
| Retryables.CancelCall | crates/arb-revm/src/precompiles/arb_retryable_tx.rs:353-397 | exactly when each outcome happens, the gas it charges, and its effect: the ticket is gone and its whole escrow has moved to the caller, or nothing has changed |
| Retryables.ClearCalldata | crates/arb-revm/src/storage/bytes.rs:53-71 | the loop over stored words costs one read and one clearing write more than there are words |
| Retryables.RedeemTicket | crates/arb-revm/src/precompiles/arb_retryable_tx.rs:397-567 | allowed exactly for a live ticket that is not running; counts the try and announces the retry |
| Retryables.RetryPreExecution | crates/arb-revm/src/retry_tx.rs:16-77 | exact error conditions, nonce overflow included; the call value leaves escrow for the sender, and a call bumps the sender's nonce |
| Retryables.RetryPostExecution | crates/arb-revm/src/retry_tx.rs:79-145 | success deletes the ticket and revives the empty escrow of a marked one; failure returns the call value, or errs exactly when the sender no longer has it |
| Retryables.ScheduledRetriesFromLogs | crates/arb-revm/src/executor/run.rs:129-221 | the retries queued are those of the logs that carry their ticket's latest count, in order |
| Retryables.LivenessInNumbers | crates/arb-revm/src/storage/retryables.rs:159-201 | keepalive windows extend the life of a ticket by 604800 seconds each, from ArbOS 60 on |
| Retryables.KeepaliveWindow | crates/arb-revm/src/precompiles/arb_retryable_tx.rs:288-295 | keepalive is allowed from 604800 seconds before the end of a live ticket on |
| Retryables.CallGasInNumbers | crates/arb-revm/src/precompiles/arb_retryable_tx.rs:296-306 | the gas of keepalive and cancel, by calldata words and lateness |
| Lifecycle.OnePerTicket | crates/arb-revm/src/executor/run.rs:166-181 | one committed transaction queues at most one retry per ticket |
| Lifecycle.SubmitKeeps | crates/arb-revm/src/submit_retryable_tx.rs:168-504 | a submission with a fresh id keeps the invariant over tickets, escrows, logs and queued retries |
| Lifecycle.DepositKeeps | crates/arb-revm/src/deposit_tx.rs:28-79 | a deposit between transactions keeps the invariant |
| Lifecycle.EndRetryKeeps | crates/arb-revm/src/retry_tx.rs:79-145 | settling and ending a retry, successful or not, keeps the invariant |
| Lifecycle.CancelKeeps | crates/arb-revm/src/precompiles/arb_retryable_tx.rs:353-397 | a cancel inside a transaction keeps the invariant, thanks to the guard against cancelling the running ticket |
| Lifecycle.StartBlockKeeps | crates/arb-revm/src/internal_tx.rs:169-175 | the two reaping attempts of a block start keep the invariant |
| Lifecycle.RunKeeps | crates/arb-revm/src/executor/run.rs:364-417 | the invariant holds in every state of every run |
| Lifecycle.EscrowBacking | crates/arb-revm/src/retry_tx.rs:53-63 | between transactions of any run every stored ticket's escrow holds at least its call value |
| Lifecycle.RetryStartFunded | crates/arb-revm/src/retry_tx.rs:53-63 | in any run a queued retry of a live ticket can always take its call value from escrow |
| Lifecycle.RetryStartsExactly | crates/arb-revm/src/retry_tx.rs:42-63 | in any run a queued retry can start if and only if its ticket is alive |
| LostRetry.LostRun | crates/arb-revm/src/retry_tx.rs:42-50 | a complete run with an automatic and a manual redeem of one ticket in one block: once the first succeeds the second cannot start |
| Lifecycle.FailedRetryReturnsCallvalue | crates/arb-revm/src/retry_tx.rs:106-139 | in any run a failed retry can return its call value when its sender is not a fee account |
| Lifecycle.FailedReturnExact | crates/arb-revm/src/retry_tx.rs:106-139 | exactly when a failed retry can return its call value, for every sender, with and without the infra split: a closed form of the initial balances |
| Lifecycle.FailedRetryEndsExactly | crates/arb-revm/src/retry_tx.rs:106-139 | in any run a failed retry can end if and only if that condition holds of the balances it started from |
| StrandedRetry.StrandedRun | crates/arb-revm/src/retry_tx.rs:106-139 | a complete run of two submissions by the network account, after which a failed retry with 30000 gas of which 21004 are used cannot return the call value |
| Lifecycle.RetriesDistinct | crates/arb-revm/src/precompiles/arb_retryable_tx.rs:439-448 | no two retries queued in a run share ticket and nonce |
| Lifecycle.RetriesMatchTickets | crates/arb-revm/src/executor/run.rs:166-217 | a queued retry carries the sender and call value of its stored ticket, and a nonce below its count |
| TicketRights.TermsOfSubmission | crates/arb-revm/src/submit_retryable_tx.rs:309-340 | in any run a stored ticket has the sender, target, call value, calldata and beneficiary of its submission |
| TicketRights.OnlyBeneficiaryCancels | crates/arb-revm/src/precompiles/arb_retryable_tx.rs:366-382 | in any run an open ticket that is not running can be cancelled by a caller if and only if it is the beneficiary named in the submission |
| TicketRights.CancelPays | crates/arb-revm/src/storage/retryables.rs:64-70 | in any run a cancel pays at least the call value of the submission to the beneficiary it named |
| TicketRights.ExpiryPays | crates/arb-revm/src/storage/retryables.rs:113-116 | in any run a ticket reaped at a block start pays at least its call value to the beneficiary named in its submission |
| TicketRights.LiveSurvivesStart | crates/arb-revm/src/storage/retryables.rs:105-124 | no block start removes a ticket that is alive, at any version |
| TicketRights.SuccessReleases | crates/arb-revm/src/retry_tx.rs:106-112 | a retry that succeeds removes its ticket and releases what is left in escrow to the beneficiary |
| Timekeeping.ReapKeepsTime | crates/arb-revm/src/storage/retryables.rs:88-125 | reaping keeps queue occurrences and effective timeouts in step |
| Timekeeping.KeepaliveKeepsTime | crates/arb-revm/src/precompiles/arb_retryable_tx.rs:187-352 | keepalive keeps them in step |
| Timekeeping.KeepaliveLogsTruth | crates/arb-revm/src/precompiles/arb_retryable_tx.rs:334-341 | within the safe time the logged timeout is the true new one |
| Timekeeping.StepKeepsTime | crates/arb-revm/src/internal_tx.rs:169-175 | every step of a run keeps them in step |
| Timekeeping.WindowsMatchQueue | crates/arb-revm/src/precompiles/arb_retryable_tx.rs:314-326 | in every state of every run, reaping included, a ticket is queued windows left + 1 times: under any clock until the count could saturate, for ever under a bounded clock |
| Timekeeping.EndsWithinTwoLifetimes | crates/arb-revm/src/precompiles/arb_retryable_tx.rs:286-294 | in every state of every run under a bounded clock every ticket ends within two lifetimes |
| Timekeeping.SafeTimeTestsAgree | crates/arb-revm/src/precompiles/arb_retryable_tx.rs:631-652 | the saturating and the wrapping liveness test agree on every reachable state with a safe clock |
| ClockBound.DisagreeingRun | crates/arb-revm/src/precompiles/arb_retryable_tx.rs:631-652 | a complete run, one second past the safe clock, after which the two tests disagree |
| ClockBound.TestsAgreeExactly | crates/arb-revm/src/storage/retryables.rs:159-201 | the two tests agree on all reachable states if and only if block time stays at most 2^64 - 1 - two lifetimes |
| ClockBound.LongLivedRun | crates/arb-revm/src/precompiles/arb_retryable_tx.rs:286-294 | a complete run, one second past the bounded clock, in which a ticket outlives two lifetimes |
| ClockBound.TwoLifetimesExactly | crates/arb-revm/src/precompiles/arb_retryable_tx.rs:286-294 | every reachable ticket ends within two lifetimes if and only if block time stays below 2^64 - 1 - one lifetime |
| Scheduling.BuildScheduledRetry | crates/arb-revm/src/submit_retryable_tx.rs:551-599 | the redeem rebuilt from the submission equals the one that the submission hashes |
| Scheduling.ThreeConstructionsAgree | crates/arb-revm/src/executor/run.rs:145-217 | an unfiltered prepaid submission queues exactly one retry, and it is the one whose hash its log announced |
| Scheduling.QueuedExactly | crates/arb-revm/src/executor/run.rs:129-221 | exactly which log queues a retry, and all of its fields |
| Scheduling.ManualRedeemAgrees | crates/arb-revm/src/executor/run.rs:145-217 | the retry that a manual redeem announces is the retry that its log queues |
| Scheduling.ManualRetryNamed | crates/arb-revm/src/precompiles/arb_retryable_tx.rs:439-567 | count, log and budget of a manual redeem in terms of the ticket and the caller |
| Scheduling.DonorGetsUnusedGas | crates/arb-revm/src/handler.rs:1260-1289 | whoever redeems by hand gets the unused gas back, and the sender nothing, when the fee accounts can pay |
| RedeemGas.ShrinkBacklog | crates/arb-revm/src/storage/l2_pricing.rs:372-434 | every backlog of the active model shrinks by the donated gas, weighted for multi-gas, and the rest is unchanged; cost of the traversal |
| RedeemGas.ShrunkInNumbers | crates/arb-revm/src/storage/l2_pricing.rs:372-476 | which backlogs a donation shrinks, by version and configured constraints |
| RedeemGas.ReserveCoversExactly | crates/arb-revm/src/storage/l2_pricing.rs:657-676 | the reserved backlog cost covers the actual one except at ArbOS 50 with constraints that the donation does not empty or more than three of them |
| RedeemGas.ReserveTooSmall | crates/arb-revm/src/precompiles/arb_retryable_tx.rs:587-606 | a funded redeem at ArbOS 50 whose backlog update costs more than was reserved |
| RedeemGas.ReserveInNumbers | crates/arb-revm/src/storage/l2_pricing.rs:718-730 | the reservation at every version boundary |
| RedeemGas.ShrinkCostInNumbers | crates/arb-revm/src/storage/l2_pricing.rs:372-434 | the cost of the update at every version, by how many backlogs are emptied |
| RedeemGas.RedeemCall | crates/arb-revm/src/precompiles/arb_retryable_tx.rs:485-616 | exactly when a redeem is refused, reverts, runs out of gas or succeeds; donation, charge and shrunken backlogs of one that succeeds |
| RedeemGas.ChargeExceedsDonation | crates/arb-revm/src/precompiles/arb_retryable_tx.rs:497-616 | a redeem that succeeds donates at least 21000 and less than it is charged, and the charge is donation + read burns + event + copy + actual backlog cost exactly when no subtraction saturates |
| RedeemGas.DonationInNumbers | crates/arb-revm/src/precompiles/arb_retryable_tx.rs:497-509 | the donation is the gas limit less 31255, the reservation, 50 gas for the first calldata word and 850 for each further one, and 800 at ArbOS 51 to 59; at least 21000 |
| RedeemGas.OverheadInNumbers | crates/arb-revm/src/precompiles/arb_retryable_tx.rs:607-612 | the dispatcher's overhead by input length |
| RedeemGas.OverheadFits | crates/arb-revm/src/precompiles/arb_retryable_tx.rs:607-616 | no subtraction saturates for any input of up to half a megabyte |
| RedeemGas.LongInputSaturates | crates/arb-revm/src/precompiles/arb_retryable_tx.rs:607-616 | a padded input of 640004 bytes on which a subtraction saturates and the charge is larger |
| Executor.DonationsWithinSpent | crates/arb-revm/src/executor/run.rs:129-221 | the retries that a transaction queues by redeem calls carry no more gas than it spent, by the gas arithmetic of redeem |
| Executor.PopMeasure | crates/arb-revm/src/executor/run.rs:364-376 | popping the queue takes one user transaction or one retry's gas off the measure |
| Executor.PushRetries | crates/arb-revm/src/executor/run.rs:405-414 | queued retries add exactly their gas and no user transaction |
| Executor.ExecuteMessage | crates/arb-revm/src/executor/run.rs:364-419 | the loop terminates for every message; a complete block has executed exactly the supported user transactions in order and then exactly the retries queued by the successful committed runs, in the order queued, and skipped exactly the unsupported ones; an aborted one the beginning of that sequence |
| NormalTx.PosterRounding | crates/arb-revm/src/l1_cost.rs:226-285 | the poster fee is a whole number of gas units and falls short of the L1 cost by less than one, unless the gas is capped at 64 bits |
| NormalTx.DeductCaller | crates/arb-revm/src/handler.rs:752-861 | accepted exactly when the caller could pay the fee cap; the base fee times the gas limit is deducted |
| NormalTx.AcceptedExactly | crates/arb-revm/src/handler.rs:752-861 | accepted if and only if the fee cap reaches the base fee and the balance covers cap times limit plus value |
| NormalTx.ChargeGas | crates/arb-revm/src/handler.rs:515-611 | poster gas is priced at the base fee although the paid price is reset; held gas is what exceeds the compute cap |
| NormalTx.RunFrame | crates/arb-revm/src/handler.rs:713-750 | rejected exactly when intrinsic and poster gas exceed the limit; the frame gets min(limit - intrinsic - poster, cap) and held gas is not billed |
| NormalTx.CapInNumbers | crates/arb-revm/src/handler.rs:584-605 | the compute cap is the block's limit before ArbOS 50, the transaction's less intrinsic gas from then on, and none if unset |
| NormalTx.NetGas | crates/arb-revm/src/handler.rs:935-970 | the refund is the largest within the counter and a fifth of what is not poster gas; net gas is never below poster gas |
| NormalTx.CapRefund | crates/arb-revm/src/handler.rs:935-970 | the gas billed after the refund is the net gas, so poster gas is never refunded |
| NormalTx.ReimburseCaller | crates/arb-revm/src/handler.rs:896-933 | unused gas goes back at the base fee, through the fallback for the reset price |
| NormalTx.RewardBeneficiary | crates/arb-revm/src/handler.rs:1012-1128 | the credits of all fee accounts, whichever coincide, and their total |
| NormalTx.CreditsByAccount | crates/arb-revm/src/handler.rs:1051-1128 | what the infra, network and poster accounts are credited with, when they are different ones |
| NormalTx.EarlyCredits | crates/arb-revm/src/handler.rs:1051-1128 | no infra share before ArbOS 5, and the poster fee to the coinbase before ArbOS 2 |
| NormalTx.RunNormalTx | crates/arb-revm/src/handler.rs:515-1128 | the whole transaction: when it is accepted, the gas it is billed, the caller's net debit and every fee credit |
| NormalTx.CreditsExact | crates/arb-revm/src/handler.rs:1051-1128 | the credits add up to base fee times gas used if and only if the network account is set or has nothing to receive |
| NormalTx.ShareUnclaimed | crates/arb-revm/src/handler.rs:1051-1128 | a chain without fee accounts on which nothing of a transfer's fee is credited |
| NormalTx.SupplyConservedExactly | crates/arb-revm/src/handler.rs:752-1128 | with a frame that conserves the supply the whole transaction does, if and only if no network share goes unclaimed; it never creates money |
| TrieReaders.LookupAgrees | crates/arb-revm-test-vectors/src/witness.rs:148-190 | a walk finds a value exactly where a leaf is, and misses a node exactly where a hidden subtree covers the key |
| TrieReaders.TrieValue | crates/arb-revm-test-vectors/src/witness.rs:148-205 | the loop over nodes computes the walk of the tree that the witness stands for, and terminates |
| TrieReaders.Collector.Collect | crates/arb-revm/src/state_trie.rs:85-115 | flattening records exactly the leaves and hidden subtrees of the tree below the node's path, and changes no other entry |
| TrieReaders.Collector.CollectRef | crates/arb-revm/src/state_trie.rs:117-137 | the same for a child reference: absent, revealed, hidden or inline |
| TrieReaders.ReadBoth | crates/arb-revm/src/state_trie.rs:86-137 | the two readers agree on every key: value, absence and missing node, each in both directions |
| TrieRebuild.ComposesUnique | crates/arb-revm/src/state_trie.rs:74-83 | the recursive definition of Appendix D of the Yellow Paper builds at most one trie from given entries |
| TrieRebuild.RebuildIdentity | crates/arb-revm/src/state_trie.rs:38-40 | rebuilding what a canonical partial trie flattens to gives back that trie |
| TrieRebuild.FlattenIdentity | crates/arb-revm/src/state_trie.rs:74-83 | prefix-free entries are rebuilt into a canonical trie with exactly those entries |
| TrieRoot.EncodeResolve | crates/arb-revm/src/state_trie.rs:117-137 | reading a node of a real trie and encoding the tree it stands for gives back the node |
| TrieRoot.ApplyUpdates | crates/arb-revm/src/state_trie.rs:61-72 | the loop sets and removes exactly the updated keys |
| TrieRoot.ByHashExactly | crates/arb-revm/src/state_trie.rs:46-49 | the witness knows exactly the hashes of the proof nodes, each leading to a node with that hash |
| TrieRoot.RecomputeRoot | crates/arb-revm/src/state_trie.rs:41-84 | fails exactly when the root node is missing; otherwise the root of the trie with the revealed entries, updated; with no updates and an anchored witness it returns the root itself |
| TrieRoot.NoUpdatesReproduceRoot | crates/arb-revm/src/state_trie.rs:38-40 | without updates the recomputed root is the root that the witness is anchored to |
| TrieUpdate.UpdateReads | crates/arb-revm/src/state_trie.rs:59-72 | updating the revealed entries updates the full trie at every key |
| TrieUpdate.RecomputedRootExact | crates/arb-revm/src/state_trie.rs:31-84 | the recomputed root is the root of the updated full trie if and only if no extension is left above a hidden leaf or extension |
| TrieInsert.GrowthUnmerged | crates/arb-revm/src/state_trie.rs:59-72 | entries that are only added to leave nothing to merge where there was nothing to merge |
| TrieInsert.InsertionsExact | crates/arb-revm/src/state_trie.rs:31-84 | without deletions the root recomputed from a witness of a canonical trie is the root of the updated full trie |
| TrieInsert.VisiblyExact | crates/arb-revm/src/state_trie.rs:31-84 | deletions included, the recomputed root is right when no extension has come to lie above a hidden subtree that had none before, which the revealed tries show |
| TrieInsert.RecomputeUpdatedRoot | crates/arb-revm/src/state_trie.rs:41-84 | all three theorems about what the recomputation returns: right without deletions, right when nothing new is extended, and in general right exactly when nothing is left to merge |
| TrieInsert.MissedMerge | crates/arb-revm/src/bin/replay_block.rs:478-483 | for keys of any length a witness of a two-leaf trie and a deletion on which the recomputed root is wrong |
| FrameTracker.Tracker.FrameInit | crates/arb-revm/src/evm.rs:193-228 | opening a frame keeps callers and span counts equal to those of the frame stack; fast-path results change nothing |
| FrameTracker.Tracker.FrameReturnResult | crates/arb-revm/src/evm.rs:255-288 | closing a frame keeps them equal; the closed span was open, so its count never saturates |
| FrameTracker.Tracker.Run | crates/arb-revm/src/evm.rs:193-288 | they stay equal over every run of the interpreter, and both are empty once the outermost frame has returned |
| FrameTracker.Tracker.Reentrant | crates/arb-revm/src/stylus/dispatch.rs:239-248 | the reentrant flag is set exactly when two different open frames were entered by plain or static calls to the address |
| FrameTracker.Tracker.CallingFrameCaller | crates/arb-revm/src/arb_journal.rs:652-654 | the caller of the innermost open frame |
| FrameTracker.SpanReopened | crates/arb-revm/src/chain.rs:63-71 | a span count above one means two different open frames |
| FrameTracker.CallersListed | crates/arb-revm/src/chain.rs:72-76 | one caller per open frame, outermost first: the account that made the call or creation |
| RecentWasms.RecencyMeaning | crates/arb-revm/src/chain.rs:53-56 | the recency list holds each used hash once, ordered by last use |
| RecentWasms.UsedPrefix | crates/arb-revm/src/chain.rs:129-143 | one cache update on a bounded prefix of the recency list gives the bounded prefix of the new one |
| RecentWasms.UsedInNumbers | crates/arb-revm/src/chain.rs:129-143 | a hit moves to the front; a miss is put there, and evicts the last entry exactly when the capacity is reached; capacity 0 holds one entry |
| RecentWasms.Cache.InsertRecentWasm | crates/arb-revm/src/chain.rs:129-143 | the search and update loop computes the cache update and reports membership |
| RecentWasms.Cache.UseAll | crates/arb-revm/src/chain.rs:129-143 | with a constant capacity the cache is the most recently used distinct hashes, and hits are exactly those among them |
| RecentWasms.Cache.UseVarying | crates/arb-revm/src/chain.rs:129-143 | for varying capacities no duplicates, and never more entries than the largest capacity |
| Upgrade.Store.InstallPrecompilesIntroducedAt | crates/arb-revm/src/arbos_init.rs:478-494 | adds exactly the precompiles introduced at the version |
| Upgrade.Store.UpgradeArbosVersion | crates/arb-revm/src/internal_tx.rs:225-497 | the loop computes the cascade; an unknown version stops it with the earlier steps in place |
| Upgrade.Store.UpgradeIfNecessary | crates/arb-revm/src/internal_tx.rs:182-204 | an upgrade runs exactly when a later version is scheduled and due |
| Upgrade.CascadeComposes | crates/arb-revm/src/internal_tx.rs:235-496 | upgrading from a to b and then to c is upgrading from a to c, failures included |
| Upgrade.CascadeReaches | crates/arb-revm/src/internal_tx.rs:235-496 | an upgrade fails exactly when it goes past version 61, and stores the last version reached |
| Upgrade.CodeGrows | crates/arb-revm/src/arbos_init.rs:380-494 | the precompiles of a version are those of the version before and those introduced |
| Upgrade.PrecompilesByVersion | crates/arb-revm/src/arbos_init.rs:380-467 | which addresses there are from the start, and which versions 30, 41 and 60 add |
| Upgrade.InitializeArbosState | crates/arb-revm/src/arbos_init.rs:524-703 | genesis succeeds exactly for versions 1 to 61, with a closed form for every field that depends on the version |
| Upgrade.GenesisInNumbers | crates/arb-revm/src/arbos_init.rs:664-703 | the version-dependent fields of chains founded at versions 5, 9, 10, 40 and 61 |
| Upgrade.UpgradedGenesis | crates/arb-revm/src/internal_tx.rs:235-496 | closed form of a chain founded at a and upgraded to c |
| Upgrade.UpgradeMatchesGenesis | crates/arb-revm/src/arbos_init.rs:554-565 | such a chain has the precompile code of genesis at c, namely all entries with minimum version at most c; its whole state is that of genesis at c if and only if none of the versions 2, 6, 11 lies between |
| Upgrade.UpgradeDiffersFromGenesis | crates/arb-revm/src/arbos_init.rs:664-703 | at versions 2, 6 and 11, a field in which an upgraded chain differs from a founded one |

## Left out

- The EVM interpreter, revm's journal, Stylus execution, Brotli, Keccak and RLP are parameters or arbitrary steps.
- Filtered ordinary transactions: they return before the check that intrinsic, poster and held gas fit the limit.
- Tip-collecting chains above the base fee: the effective price is clamped to the base fee in the source as well.
- Simulation modes: disabled balance checks, the separate block base fee for simulated calls, the EIP-7702 and EIP-7623 parts of gas accounting, the state-gas reservoir.
- Account-existence effects of zero-value transfers, `grow_backlog` and the price-update formulas.
- Payments that would overflow a balance: excluded by the bound on the total supply.
- Storage read errors, and trie nodes that fail to decode.
- The submit calldata codec, transaction encodings and hashes as bytes.
- That every scheduled retry executes, and the order in which Nitro would execute it.
- Submit.ApplySubmit: a deposit that would lift the total supply past 2^256 - 1 is excluded; what the journal does on such an overflow is library code.
- Deposit.ApplyDeposit: the same exclusion.
- Executor.ExecuteMessage: the interpreter's result is a function of the transaction and its position, constrained for retries as its row says.
- RetrySettlement.RefundWithinBudget: a refund address that is also the sender additionally receives the excess legs, which the budget does not limit; `SettlePays` and `LifecycleBudget` cover it.
- RetrySettlement.LifecycleRefundBound: as a sender or fee account the refund address also pays or receives fees; `LifecycleBudget` has no such restriction.
- RetrySettlement.ExactShares: fee accounts equal to the sender, the refund address or the escrow are excluded, because there the movements cancel.
- RetrySettlement.ExactSettlement: the same exclusion, and one account that plays both fee parts is left to `ExactShares`.
- Upgrade.InitializeArbosState: fields that do not depend on the version (chain id, chain config, batch poster table, timeout queue) are omitted.
- ArbOwner, ArbGasInfo and the other precompiles, RPC clients, replay binaries, fixtures and metrics.
