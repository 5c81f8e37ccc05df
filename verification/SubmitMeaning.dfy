/**
 What a submission means in plain amounts: its fee, its refunds, what each account gains or loses, and what is
 stored and announced.
 */
module SubmitMeaning {
  import opened Words
  import opened Ledger
  import opened Journals
  import opened Submit

  /** The submission fee is the L1 base fee for 1400 bytes and six times the calldata. */
  lemma {:induction false} FeeInNumbers(len: nat, l1BaseFee: U256)
    requires len <= MAX_U64 && l1BaseFee * (1400 + 6 * len) <= MAX_U256
    ensures SubmissionFee(len, l1BaseFee) == l1BaseFee * (1400 + 6 * len)
  {
    assert SatAdd(MAX_U128, 1400, SatMul(MAX_U128, 6, len)) == 1400 + 6 * len;
    Unwrapped(l1BaseFee * (1400 + 6 * len));
  }

  lemma {:induction false} Unwrapped(x: nat)
    requires x <= MAX_U256
    ensures x % (MAX_U256 + 1) == x
  {
  }

  /** A redeem is offered gas from 21000 on, at a price that reaches the base fee. */
  lemma {:induction false} GasTerms(call: SubmitCall, env: Env)
    ensures GasAcceptable(call, env) <==> 21_000 <= call.gasLimit && env.baseFee <= call.gasFeeCap
  {
  }

  /** Without saturation, the amounts of a submission. */
  lemma {:induction false} AmountsInNumbers(call: SubmitCall, env: Env)
    requires env.baseFee <= call.gasFeeCap && call.gasFeeCap <= MAX_U128
    ensures var x := AmountsOf(call, env);
            && x.deposit == call.deposit && x.retryValue == call.retryValue && x.maxFee == call.maxSubmissionFee
            && x.fee == SubmissionFee(|call.retryData|, call.l1BaseFee)
            && x.maxGasCost == call.gasFeeCap * call.gasLimit
            && x.gasCost == env.baseFee * call.gasLimit
            && x.gasCost + x.priceSlack == x.maxGasCost
            && x.infraCost == if env.arbosVersion < 11 || env.infraFeeAccount == ZERO_ADDRESS then 0
                              else (if env.minBaseFee <= env.baseFee then env.minBaseFee else env.baseFee) * call.gasLimit
  {
    PriceTimesGasFits(call.gasFeeCap, call.gasLimit);
    PriceTimesGasFits(env.baseFee, call.gasLimit);
    PriceTimesGasFits(call.gasFeeCap - env.baseFee, call.gasLimit);
    MulSplit(env.baseFee, call.gasFeeCap - env.baseFee, call.gasLimit);
    InfraShare(env, call.gasLimit);
  }

  lemma {:induction false} InfraShare(env: Env, gasLimit: U64)
    ensures Min(SatMul(MAX_U256, env.baseFee, gasLimit), SatMul(MAX_U256, env.InfraFee(), gasLimit)) == env.InfraFee() * gasLimit
  {
    PriceTimesGasFits(env.baseFee, gasLimit);
    PriceTimesGasFits(env.InfraFee(), gasLimit);
    MulMono(env.InfraFee(), env.baseFee, gasLimit);
  }

  // ------------------------------------------------------------------ refunds

  /**
   A deposit that covers the call value, the fee bound and the gas bound refunds all that is not needed; a
   deposit within the call value refunds nothing; in between the fee comes first.
   */
  lemma {:induction false} RefundsInNumbers(x: Amounts)
    requires x.fee <= x.maxFee && x.gasCost + x.priceSlack == x.maxGasCost
    ensures x.deposit <= x.retryValue ==>
              x.FeeRefund() == 0 && x.GasCostRefund() == 0 && x.GasPriceRefund() == 0 && x.MaxRefund() == 0
    ensures x.retryValue + x.maxFee + x.maxGasCost <= x.deposit ==>
              && x.FeeRefund() == x.maxFee - x.fee && x.GasCostRefund() == x.maxGasCost
              && x.GasPriceRefund() == x.priceSlack
              && x.MaxRefund() == x.deposit - x.retryValue - x.maxFee + x.fee - x.priceSlack
    ensures x.retryValue <= x.deposit ==>
              && x.FeeRefund() + x.WithheldFee() == Min(x.deposit - x.retryValue, x.maxFee)
              && x.WithheldFee() == Min(x.deposit - x.retryValue, x.fee)
              && x.FeeRefund() + x.WithheldFee() + x.GasCostRefund() == Min(x.deposit - x.retryValue, x.maxFee + x.maxGasCost)
              && x.GasPriceRefund() == Min(Monus(x.deposit, x.retryValue + x.maxFee + x.gasCost), x.priceSlack)
  {
  }

  // ------------------------------------------------------------------ who gains and who loses

  ghost predicate AllApart(p: Parties) {
    && p.from !in {p.network, p.infra, p.refund, p.escrow} && p.network !in {p.infra, p.refund, p.escrow}
    && p.infra !in {p.refund, p.escrow} && p.refund != p.escrow
  }

  /** What the five accounts gain. */
  ghost predicate Gains(b: Balances, b': Balances, p: Parties, from: int, network: int, infra: int, refund: int, escrow: int) {
    && Get(b', p.from) - Get(b, p.from) == from && Get(b', p.network) - Get(b, p.network) == network
    && Get(b', p.infra) - Get(b, p.infra) == infra && Get(b', p.refund) - Get(b, p.refund) == refund
    && Get(b', p.escrow) - Get(b, p.escrow) == escrow
  }

  /** When all accounts are different ones: the gains at each stage, and what the sender needs to reach it. */
  lemma {:induction false} GainsAtStage(b: Balances, x: Amounts, p: Parties, stage: Stage, b': Balances)
    requires AllApart(p) && x.infraCost <= x.gasCost && FundsMoved(b, x, p, stage, b')
    ensures match stage
            case FeeBoundTooLow => Gains(b, b', p, 0, 0, 0, 0, 0)
            case MintUncovered => Gains(b, b', p, x.deposit, 0, 0, 0, 0)
            case EscrowUnfunded =>
              var back := x.FeeRefund() + x.WithheldFee();
              Gains(b, b', p, x.deposit - back, 0, 0, back, 0)
            case TicketOnly =>
              var back := x.FeeRefund() + x.GasCostRefund();
              Gains(b, b', p, x.deposit - x.fee - x.retryValue - back, x.fee, 0, back, x.retryValue)
            case GasPrepaid =>
              var back := x.FeeRefund() + x.GasPriceRefund();
              Gains(b, b', p, x.deposit - x.fee - x.retryValue - x.gasCost - back, x.fee + x.gasCost - x.infraCost, x.infraCost,
                    back, x.retryValue)
  {
    assert forall a :: Get(b', a) == Get(b, a) + SubmitNet(stage, x, p, a);
  }

  /** The stage that is reached, for a sender apart from the other accounts: each bound in turn. */
  lemma {:induction false} StageInNumbers(b: Balances, x: Amounts, p: Parties, acceptable: bool)
    requires p.from !in {p.network, p.refund, p.escrow}
    ensures var funds := Get(b, p.from) + x.deposit;
            var spent := x.fee + x.FeeRefund();
            SubmitStage(b, x, p, acceptable) ==
            if x.fee > x.maxFee then FeeBoundTooLow
            else if x.maxFee > funds then MintUncovered
            else if spent + x.retryValue > funds then EscrowUnfunded
            else if acceptable && spent + x.retryValue + x.maxGasCost <= funds then GasPrepaid
            else TicketOnly
  {
  }

  // ------------------------------------------------------------------ what is stored and announced

  /** The addresses that a submission pays from and to, filtered or not. */
  lemma {:induction false} PartiesNamed(raw: SubmitCall, env: Env, from: Address, ticket: TicketId, filter: Option<Address>)
    ensures var p := PartiesOf(Redirect(raw, filter), env, from, ticket);
            && p.from == from && p.network == env.networkFeeAccount && p.infra == env.infraFeeAccount
            && p.escrow == Escrow(ticket) && p.refund == if filter.Some? then filter.value else raw.feeRefundAddress
    ensures var call := Redirect(raw, filter);
            call == raw.(feeRefundAddress := call.feeRefundAddress, beneficiary := call.beneficiary)
  {
  }

  /** Receipt, ticket and logs of a submission that creates a ticket; one that does not leaves no trace of it. */
  lemma {:induction false} StoredTicket(w: World, raw: SubmitCall, env: Env, from: Address, ticket: TicketId,
                                        filter: Option<Address>, outcome: Outcome, w': World)
    requires SubmitSpec(w, raw, env, from, ticket, filter, outcome, w') && ticket !in w.tickets
    ensures ticket !in w'.tickets ==> w' == w.(balances := w'.balances) && outcome == Failed(0)
    ensures ticket in w'.tickets ==>
              && StoredAs(w'.tickets[ticket], raw, env, from, if filter.Some? then filter.value else raw.beneficiary)
              && w'.tickets - {ticket} == w.tickets && w'.queue == w.queue + [ticket]
              && (outcome.Created? <==> filter.None?)
              && (w'.tickets[ticket].numTries == 1 <==> |w'.logs| == |w.logs| + 2)
              && (w'.tickets[ticket].numTries == 0 <==> w'.logs == w.logs + [TicketCreated(ticket)])
              && (filter.Some? ==> w'.tickets[ticket].numTries == 0)
              && (filter.None? ==> outcome == Created(if w'.tickets[ticket].numTries == 1 then raw.gasLimit else 0))
              && outcome.gasUsed in {0, raw.gasLimit}
  {
    if ticket in w'.tickets {
      assert w.tickets[ticket := w'.tickets[ticket]] - {ticket} == w.tickets;
    }
  }

  /** The receipt: success only without a filter, and gas exactly when the redeem is prepaid, filtered or not. */
  lemma {:induction false} Receipts(w: World, raw: SubmitCall, env: Env, from: Address, ticket: TicketId,
                                    filter: Option<Address>, outcome: Outcome, w': World)
    requires SubmitSpec(w, raw, env, from, ticket, filter, outcome, w')
    ensures var call := Redirect(raw, filter);
            var stage := SubmitStage(w.balances, AmountsOf(call, env), PartiesOf(call, env, from, ticket), GasAcceptable(call, env));
            && outcome.gasUsed == (if stage == GasPrepaid then raw.gasLimit else 0)
            && (outcome.Created? <==> filter.None? && stage in {TicketOnly, GasPrepaid})
  {
  }

  /** Before ArbOS 30 a scheduled ticket without call value is marked; from then on none is. */
  lemma {:induction false} MarkedBeforeStylus(x: Amounts, env: Env, filtered: bool, ticket: TicketId)
    ensures env.arbosVersion >= 30 || filtered || x.retryValue > 0 ==> Zombies(GasPrepaid, x, env, filtered, ticket) == []
    ensures env.arbosVersion < 30 && !filtered && x.retryValue == 0 ==> Zombies(GasPrepaid, x, env, filtered, ticket) == [ticket]
    ensures Zombies(TicketOnly, x, env, filtered, ticket) == []
  {
  }

  /** The automatic redeem: who sends it, what it may spend and who is refunded. */
  lemma {:induction false} AutoRedeemNamed(call: SubmitCall, env: Env, from: Address, ticket: TicketId)
    ensures var x := AmountsOf(call, env);
            AutoRedeem(call, env, from, ticket, x) ==
            TxRetry(env.chainId, 0, from, env.baseFee, call.gasLimit, call.retryTo, call.retryValue, call.retryData, ticket,
                    call.feeRefundAddress, call.deposit - Min(call.deposit, call.retryValue) - x.FeeRefund() - x.GasPriceRefund(),
                    SubmissionFee(|call.retryData|, call.l1BaseFee))
  {
    var x := AmountsOf(call, env);
    assert x.MaxRefund() + x.FeeRefund() + x.GasPriceRefund() + Min(call.deposit, call.retryValue) == call.deposit;
  }
}
