/**
 The automatic redeem is constructed three times: hashed into the log by the submission, rebuilt from
 the submission alone, and rebuilt from the log together with the stored ticket.  All three agree.
 */
module Scheduling {
  import opened Words
  import opened Ledger
  import opened Journals
  import opened Submit
  import opened Retryables
  import opened RetrySettlement

  /** Rebuilds the automatic redeem from the submission, replaying the refund budget. */
  method BuildScheduledRetry(call: SubmitCall, env: Env, from: Address, ticket: TicketId) returns (tx: TxRetry)
    ensures tx == AutoRedeem(call, env, from, ticket, AmountsOf(call, env))
  {
    var fee := SubmissionFee(|call.retryData|, call.l1BaseFee);
    var gasCost := SatMul(MAX_U256, env.baseFee, call.gasLimit);
    var slack := SatMul(MAX_U256, Monus(call.gasFeeCap, env.baseFee), call.gasLimit);
    var maxRefund := ReplayBudget(AmountsOf(call, env), fee, gasCost, slack);
    tx := TxRetry(env.chainId, 0, from, env.baseFee, call.gasLimit, call.retryTo, call.retryValue, call.retryData,
                  ticket, call.feeRefundAddress, maxRefund, fee);
  }

  method ReplayBudget(x: Amounts, fee: nat, gasCost: nat, slack: nat) returns (maxRefund: U256)
    requires fee == x.fee && gasCost == x.gasCost && slack == x.priceSlack
    ensures maxRefund == x.MaxRefund()
  {
    var _, available := TakeFunds(x.deposit, x.retryValue);
    var withheldFee, withheldGas, dropped;
    withheldFee, available := TakeFunds(available, fee);
    dropped, available := TakeFunds(available, Monus(x.maxFee, fee));
    withheldGas, available := TakeFunds(available, gasCost);
    dropped, available := TakeFunds(available, slack);
    available := SatAdd(MAX_U256, available, withheldGas);
    maxRefund := SatAdd(MAX_U256, available, withheldFee);
  }

  /**
   A submission that succeeds with an automatic redeem queues exactly one retry, which is the very
   transaction whose hash its log announced.
   */
  lemma {:induction false} ThreeConstructionsAgree(w: World, call: SubmitCall, env: Env, from: Address, ticket: TicketId,
                                                   outcome: Outcome, w': World)
    requires SubmitSpec(w, call, env, from, ticket, None, outcome, w') && w.logs == []
    requires SubmitStage(w.balances, AmountsOf(call, env), PartiesOf(call, env, from, ticket), GasAcceptable(call, env))
          == GasPrepaid
    ensures var tx := AutoRedeem(call, env, from, ticket, AmountsOf(call, env));
            && outcome == Created(call.gasLimit)
            && Schedule(w'.logs, w'.tickets, env.chainId, env.baseFee) == [tx]
            && |w'.logs| == 2 && w'.logs[1].RedeemScheduled? && w'.logs[1].retryTxHash == tx
  {
    var x := AmountsOf(call, env);
    assert TicketStored(w, call, env, from, ticket, x, GasPrepaid, false, w');
    StoredSchedules(w, call, env, from, ticket, x, w');
  }

  lemma {:induction false} StoredSchedules(w: World, call: SubmitCall, env: Env, from: Address, ticket: TicketId, x: Amounts, w': World)
    requires TicketStored(w, call, env, from, ticket, x, GasPrepaid, false, w') && w.logs == []
    requires GasAcceptable(call, env)
    ensures |w'.logs| == 2 && w'.logs[1] == AutoRedeemLog(call, env, from, ticket, x)
    ensures Schedule(w'.logs, w'.tickets, env.chainId, env.baseFee) == [AutoRedeem(call, env, from, ticket, x)]
  {
    var created, redeem := TicketCreated(ticket), AutoRedeemLog(call, env, from, ticket, x);
    assert w'.logs == [created, redeem];
    assert w'.logs[..1] == [created] && [created][..0] == [];
    assert Schedule([created], w'.tickets, env.chainId, env.baseFee) == [];
    assert ScheduleOne(redeem, w'.tickets, env.chainId, env.baseFee) == Some(AutoRedeem(call, env, from, ticket, x));
  }

  /**
   A log queues a retry exactly when it announces a redeem with gas, of a stored ticket whose latest try it
   counts; the retry has the terms of the stored ticket and the gas, donor and budget of the log.
   */
  lemma {:induction false} QueuedExactly(log: Log, tickets: map<TicketId, Ticket>, chainId: nat, baseFee: U64)
    ensures var s := Schedule([log], tickets, chainId, baseFee);
            && |s| <= 1
            && (|s| == 1 <==> && log.RedeemScheduled? && log.donatedGas > 0 && log.ticket in tickets
                              && tickets[log.ticket].numTries == log.sequence + 1)
            && (|s| == 1 ==>
                  var t := tickets[log.ticket];
                  && s[0].gasLimit == log.donatedGas && s[0].gasFeeCap == baseFee && s[0].nonce == log.sequence
                  && s[0].from == t.from && s[0].to == t.to && s[0].value == t.callvalue && s[0].input == t.calldata
                  && s[0].ticket == log.ticket && s[0].refundTo == log.gasDonor && s[0].maxRefund == log.maxRefund
                  && s[0].submissionFeeRefund == log.submissionFeeRefund && s[0].chainId == chainId)
  {
    assert [log][..0] == [];
  }

  /** The same for a manual redeem: the retry it announces is the retry that its log queues. */
  lemma {:induction false} ManualRedeemAgrees(w: World, env: Env, caller: Address, id: TicketId, donatedGas: U64)
    requires id in w.tickets && w.tickets[id].numTries < MAX_U64 && donatedGas > 0
    ensures var r := Redeem(w, env, caller, id, donatedGas);
            ScheduleOne(r.logs[|r.logs| - 1], r.tickets, env.chainId, env.baseFee)
            == Some(r.logs[|r.logs| - 1].retryTxHash)
  {
  }

  /** A manual redeem carries the terms of the ticket, the gas donated at the base fee, and an unlimited budget for the donor. */
  lemma {:induction false} ManualRetryNamed(w: World, env: Env, caller: Address, id: TicketId, donatedGas: U64)
    requires id in w.tickets
    ensures var r, t := Redeem(w, env, caller, id, donatedGas), w.tickets[id];
            && r == w.(tickets := w.tickets[id := t.(numTries := if t.numTries == MAX_U64 then MAX_U64 else t.numTries + 1)],
                    logs := r.logs)
            && |r.logs| == |w.logs| + 1 && r.logs[..|w.logs|] == w.logs && r.logs[|w.logs|].RedeemScheduled?
            && r.logs[|w.logs|].ticket == id && r.logs[|w.logs|].sequence == t.numTries
            && r.logs[|w.logs|].donatedGas == donatedGas && r.logs[|w.logs|].gasDonor == caller
            && r.logs[|w.logs|].maxRefund == MAX_U256 && r.logs[|w.logs|].submissionFeeRefund == 0
  {
  }

  /** Whoever redeems by hand gets the unused gas back, when the fee accounts can pay; the sender gets nothing. */
  lemma {:induction false} DonorGetsUnusedGas(b: Balances, t: Ticket, env: Env, caller: Address, id: TicketId, donatedGas: U64,
                                              env': Env, success: bool, gasUsed: nat)
    requires gasUsed <= donatedGas && caller != t.from
    requires var tx := ManualRetry(t, env, caller, id, donatedGas);
             Covered(b, tx, env', GasRefundOf(tx, env', gasUsed), 0)
    ensures var b' := Settle(b, ManualRetry(t, env, caller, id, donatedGas), env', success, gasUsed);
            && Get(b', caller) == Get(b, caller) + env.baseFee * (donatedGas - gasUsed)
            && Get(b', t.from) == Get(b, t.from)
  {
    var tx := ManualRetry(t, env, caller, id, donatedGas);
    GasPriced(env.baseFee, donatedGas, gasUsed);
    UnlimitedBudget(tx, env.baseFee * (donatedGas - gasUsed), env.baseFee * gasUsed);
    RefundsExact(b, tx, env', success, gasUsed);
  }

  lemma {:induction false} GasPriced(price: U64, limit: U64, used: nat)
    requires used <= limit
    ensures SatMul(MAX_U256, price, used) == price * used && SatMul(MAX_U256, price, limit - used) == price * (limit - used)
    ensures price * (limit - used) + price * used <= MAX_U256
  {
    PriceTimesGasFits(price, used);
    PriceTimesGasFits(price, limit - used);
    PriceTimesGasFits(price, limit);
    MulSplit(limit - used, used, price);
  }

  lemma {:induction false} UnlimitedBudget(tx: TxRetry, unused: nat, spent: nat)
    requires tx.maxRefund == MAX_U256 && tx.submissionFeeRefund == 0 && unused + spent <= MAX_U256
    ensures BudgetedRefund(tx, 0, unused, spent) == unused
  {
  }
}
