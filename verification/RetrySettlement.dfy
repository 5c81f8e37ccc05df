/**
 Fee settlement at the end of a retry transaction, and what it adds up to together with the
 submission that prepaid the gas.
 */
module RetrySettlement {
  import opened Words
  import opened Ledger
  import opened Journals
  import opened Submit

  /** Gas counters of the outermost frame when a transaction ends. */
  datatype GasResult = GasResult(limit: U64, remaining: U64, refunded: U64, reservoir: U64)
  {
    /** What is neither left, nor refunded, nor set aside in the reservoir. */
    function Used(): (used: U64)
      ensures used <= limit
      ensures remaining + refunded + reservoir <= limit ==> used + remaining + refunded + reservoir == limit
      ensures remaining + refunded + reservoir >= limit ==> used == 0
    {
      Monus(Monus(Monus(limit, remaining), refunded), reservoir)
    }
  }

  /** Balances together with what is left of the refund budget. */
  datatype Purse = Purse(balances: Balances, budget: nat)

  /** A leg is paid in full or not at all. */
  function PayLeg(b: Balances, src: Address, dst: Address, amount: nat): Balances {
    if 0 < amount <= Get(b, src) then Move(b, src, dst, amount) else b
  }

  /**
   Refunds `amount` out of a fee account: what the budget allows to `refundTo`, the excess to `from`.
   The budget is spent whether or not the fee account can pay.
   */
  function RefundLegs(p: Purse, src: Address, amount: nat, refundTo: Address, from: Address): Purse {
    var budgeted := Min(amount, p.budget);
    Purse(if src == ZERO_ADDRESS then p.balances
          else PayLeg(PayLeg(p.balances, src, refundTo, budgeted), src, from, amount - budgeted),
          p.budget - budgeted)
  }

  /** Amounts a retry gives back for its unused gas, from the infra and the network account. */
  datatype GasRefund = GasRefund(infra: nat, network: nat)

  function GasRefundOf(tx: TxRetry, env: Env, gasUsed: nat): GasRefund
    requires gasUsed <= tx.gasLimit
  {
    var total := SatMul(MAX_U256, tx.gasFeeCap, tx.gasLimit - gasUsed);
    var infraFee := if env.SplitsInfra() then Min(env.minBaseFee, tx.gasFeeCap) else 0;
    var infra := Min(SatMul(MAX_U256, infraFee, tx.gasLimit - gasUsed), total);
    GasRefund(infra, total - infra)
  }

  /** The submission fee is refunded on success; on failure it only leaves the budget. */
  function SettleFee(p: Purse, tx: TxRetry, env: Env, success: bool): Purse {
    if success then RefundLegs(p, env.networkFeeAccount, tx.submissionFeeRefund, tx.refundTo, tx.from)
    else p.(budget := Monus(p.budget, tx.submissionFeeRefund))
  }

  function SettleGas(p: Purse, tx: TxRetry, env: Env, refund: GasRefund): Purse {
    var p1 := if env.SplitsInfra()
              then RefundLegs(p, env.infraFeeAccount, refund.infra, tx.refundTo, tx.from) else p;
    RefundLegs(p1, env.networkFeeAccount, refund.network, tx.refundTo, tx.from)
  }

  /** Balances after the fee settlement of a retry. */
  function Settle(b: Balances, tx: TxRetry, env: Env, success: bool, gasUsed: nat): Balances
    requires gasUsed <= tx.gasLimit
  {
    var p1 := SettleFee(Purse(b, tx.maxRefund), tx, env, success);
    var p2 := p1.(budget := Monus(p1.budget, SatMul(MAX_U256, tx.gasFeeCap, gasUsed)));
    SettleGas(p2, tx, env, GasRefundOf(tx, env, gasUsed)).balances
  }

  // ------------------------------------------------------------------ the hook

  method RetryFeeRefund(j: Journal, src: Address, amount: nat, refundTo: Address, from: Address, budget: nat)
    returns (left: nat)
    requires j.Valid()
    modifies j`balances
    ensures j.Valid() && Total(j.balances) == old(Total(j.balances))
    ensures Purse(j.balances, left) == RefundLegs(Purse(old(j.balances), budget), src, amount, refundTo, from)
  {
    left := budget;
    if amount == 0 {
      return;
    }
    var budgeted := Min(amount, budget);
    left := budget - budgeted;
    if src == ZERO_ADDRESS {
      return;
    }
    if 0 < budgeted <= Get(j.balances, src) {
      var _ := j.Transfer(src, refundTo, budgeted);
    }
    var excess := amount - budgeted;
    if 0 < excess <= Get(j.balances, src) {
      var _ := j.Transfer(src, from, excess);
    }
  }

  method RetryGasRefund(j: Journal, tx: TxRetry, env: Env, refund: GasRefund, budget: nat) returns (left: nat)
    requires j.Valid()
    modifies j`balances
    ensures j.Valid() && Total(j.balances) == old(Total(j.balances))
    ensures Purse(j.balances, left) == SettleGas(Purse(old(j.balances), budget), tx, env, refund)
  {
    left := budget;
    if env.arbosVersion >= 11 && env.infraFeeAccount != ZERO_ADDRESS {
      left := RetryFeeRefund(j, env.infraFeeAccount, refund.infra, tx.refundTo, tx.from, left);
    }
    left := RetryFeeRefund(j, env.networkFeeAccount, refund.network, tx.refundTo, tx.from, left);
  }

  /** The refunding part of the end-of-transaction hook of a retry. */
  method RetryEndFees(j: Journal, tx: TxRetry, env: Env, success: bool, gas: GasResult)
    requires j.Valid() && gas.limit == tx.gasLimit
    modifies j`balances
    ensures j.Valid() && Total(j.balances) == old(Total(j.balances))
    ensures j.balances == Settle(old(j.balances), tx, env, success, gas.Used())
  {
    var gasUsed := gas.Used();
    var budget: nat := tx.maxRefund;
    if success {
      budget := RetryFeeRefund(j, env.networkFeeAccount, tx.submissionFeeRefund, tx.refundTo, tx.from, budget);
    } else {
      budget := Monus(budget, tx.submissionFeeRefund);
    }
    budget := Monus(budget, SatMul(MAX_U256, tx.gasFeeCap, gasUsed));
    var _ := RetryGasRefund(j, tx, env, GasRefundOf(tx, env, gasUsed), budget);
  }

  // ------------------------------------------------------------------ who gets what

  /** A fee account, other than the two recipients, that can cover the amount pays exactly it. */
  lemma {:induction false} LegsCovered(p: Purse, src: Address, amount: nat, refundTo: Address, from: Address)
    requires src != ZERO_ADDRESS && src != refundTo && src != from
    requires amount <= Get(p.balances, src)
    ensures var r := RefundLegs(p, src, amount, refundTo, from);
            && r.budget == p.budget - Min(amount, p.budget)
            && forall a :: Get(r.balances, a) ==
                           Get(p.balances, a) - At(a, src, amount)
                           + At(a, refundTo, Min(amount, p.budget)) + At(a, from, amount - Min(amount, p.budget))
  {
  }

  /** What the budgeted leg of a refund really pays to the refund address. */
  function BudgetedPaid(p: Purse, src: Address, amount: nat): nat {
    var budgeted := Min(amount, p.budget);
    if src != ZERO_ADDRESS && budgeted <= Get(p.balances, src) then budgeted else 0
  }

  /** What the excess leg, which comes second, really pays to the sender. */
  function ExcessPaid(p: Purse, src: Address, amount: nat, refundTo: Address): nat {
    var excess := amount - Min(amount, p.budget);
    var held := if refundTo == src then Get(p.balances, src) else Get(p.balances, src) - BudgetedPaid(p, src, amount);
    if src != ZERO_ADDRESS && excess <= held then excess else 0
  }

  /** A payment of `amount` changes the balance of account `a` from `before` to `after`. */
  predicate Paid(before: nat, after: nat, a: Address, src: Address, dst: Address, amount: nat) {
    after == before - At(a, src, amount) + At(a, dst, amount)
  }

  lemma {:induction false} LegPays(b: Balances, src: Address, dst: Address, amount: nat, a: Address)
    ensures Paid(Get(b, a), Get(PayLeg(b, src, dst, amount), a), a, src, dst, if amount <= Get(b, src) then amount else 0)
  {
  }

  /** One refund, account by account, whichever accounts coincide. */
  lemma {:induction false} LegsPay(p: Purse, src: Address, amount: nat, refundTo: Address, from: Address, a: Address)
    ensures var r := RefundLegs(p, src, amount, refundTo, from);
            var paid, excess := BudgetedPaid(p, src, amount), ExcessPaid(p, src, amount, refundTo);
            && paid + r.budget <= p.budget
            && Refunded(Get(p.balances, a), Get(r.balances, a), a, src, refundTo, from, paid, excess)
  {
    if src != ZERO_ADDRESS {
      var budgeted := Min(amount, p.budget);
      LegsPayFrom(p.balances, src, budgeted, amount - budgeted, refundTo, from, a);
    }
  }

  /** Two payments out of `src`, seen from account `a`. */
  predicate Refunded(before: nat, after: nat, a: Address, src: Address, refundTo: Address, from: Address, paid: nat, excess: nat) {
    after == before - At(a, src, paid + excess) + At(a, refundTo, paid) + At(a, from, excess)
  }

  lemma {:induction false} LegsPayFrom(b: Balances, src: Address, budgeted: nat, excess: nat, refundTo: Address, from: Address, a: Address)
    ensures var paid := if budgeted <= Get(b, src) then budgeted else 0;
            var held := if refundTo == src then Get(b, src) else Get(b, src) - paid;
            Refunded(Get(b, a), Get(PayLeg(PayLeg(b, src, refundTo, budgeted), src, from, excess), a), a, src, refundTo, from,
                     paid, if excess <= held then excess else 0)
  {
    var b1 := PayLeg(b, src, refundTo, budgeted);
    LegPays(b, src, refundTo, budgeted, src);
    LegPays(b, src, refundTo, budgeted, a);
    LegPays(b1, src, from, excess, a);
  }

  /** The payments of a whole settlement: out of each fee account, within the budget and beyond it. */
  datatype Flow = Flow(infraPaid: nat, infraExcess: nat, networkPaid: nat, networkExcess: nat)
  {
    /** Everything the budgeted legs pay. */
    function Budgeted(): nat { infraPaid + networkPaid }

    function Excess(): nat { infraExcess + networkExcess }

    function AddFee(fee: (nat, nat)): Flow {
      Flow(infraPaid, infraExcess, networkPaid + fee.0, networkExcess + fee.1)
    }
  }

  function LegFlow(p: Purse, src: Address, amount: nat, refundTo: Address): (nat, nat) {
    (BudgetedPaid(p, src, amount), ExcessPaid(p, src, amount, refundTo))
  }

  function GasFlow(p: Purse, tx: TxRetry, env: Env, refund: GasRefund): Flow {
    var infra := if env.SplitsInfra() then LegFlow(p, env.infraFeeAccount, refund.infra, tx.refundTo) else (0, 0);
    var p1 := if env.SplitsInfra()
              then RefundLegs(p, env.infraFeeAccount, refund.infra, tx.refundTo, tx.from) else p;
    var network := LegFlow(p1, env.networkFeeAccount, refund.network, tx.refundTo);
    Flow(infra.0, infra.1, network.0, network.1)
  }

  function FeeFlow(p: Purse, tx: TxRetry, env: Env, success: bool): (nat, nat) {
    if success then LegFlow(p, env.networkFeeAccount, tx.submissionFeeRefund, tx.refundTo) else (0, 0)
  }

  function SettleFlow(b: Balances, tx: TxRetry, env: Env, success: bool, gasUsed: nat): Flow
    requires gasUsed <= tx.gasLimit
  {
    var p0 := Purse(b, tx.maxRefund);
    var p1 := SettleFee(p0, tx, env, success);
    var p2 := p1.(budget := Monus(p1.budget, SatMul(MAX_U256, tx.gasFeeCap, gasUsed)));
    GasFlow(p2, tx, env, GasRefundOf(tx, env, gasUsed)).AddFee(FeeFlow(p0, tx, env, success))
  }

  /** The net of a settlement's payments on account `a`. */
  function FlowNet(flow: Flow, tx: TxRetry, env: Env, a: Address): int {
    At(a, tx.refundTo, flow.Budgeted()) + At(a, tx.from, flow.Excess())
    - At(a, env.infraFeeAccount, flow.infraPaid + flow.infraExcess)
    - At(a, env.networkFeeAccount, flow.networkPaid + flow.networkExcess)
  }

  lemma {:induction false} FlowAdds(g0: nat, g1: nat, g2: nat, flow: Flow, tx: TxRetry, env: Env, a: Address)
    requires Refunded(g0, g1, a, env.infraFeeAccount, tx.refundTo, tx.from, flow.infraPaid, flow.infraExcess)
    requires Refunded(g1, g2, a, env.networkFeeAccount, tx.refundTo, tx.from, flow.networkPaid, flow.networkExcess)
    ensures g2 == g0 + FlowNet(flow, tx, env, a)
  {
  }

  lemma {:induction false} GasPays(p: Purse, tx: TxRetry, env: Env, refund: GasRefund, a: Address)
    ensures var flow := GasFlow(p, tx, env, refund);
            && flow.Budgeted() <= p.budget
            && Get(SettleGas(p, tx, env, refund).balances, a) == Get(p.balances, a) + FlowNet(flow, tx, env, a)
  {
    var p1 := p;
    if env.SplitsInfra() {
      LegsPay(p, env.infraFeeAccount, refund.infra, tx.refundTo, tx.from, a);
      p1 := RefundLegs(p, env.infraFeeAccount, refund.infra, tx.refundTo, tx.from);
    }
    LegsPay(p1, env.networkFeeAccount, refund.network, tx.refundTo, tx.from, a);
    var p2 := RefundLegs(p1, env.networkFeeAccount, refund.network, tx.refundTo, tx.from);
    FlowAdds(Get(p.balances, a), Get(p1.balances, a), Get(p2.balances, a), GasFlow(p, tx, env, refund), tx, env, a);
  }

  /**
   The settlement of a retry, account by account, for all balances, all outcomes and whichever accounts
   coincide: the fee accounts pay, the refund address gets what the budgeted legs pay, the sender the rest.
   The budgeted legs together never pay more than the budget that the retry carries.
   */
  lemma {:induction false} SettlePays(b: Balances, tx: TxRetry, env: Env, success: bool, gasUsed: nat, a: Address)
    requires gasUsed <= tx.gasLimit
    ensures var flow := SettleFlow(b, tx, env, success, gasUsed);
            && flow.Budgeted() <= tx.maxRefund
            && Get(Settle(b, tx, env, success, gasUsed), a) == Get(b, a) + FlowNet(flow, tx, env, a)
  {
    var p0 := Purse(b, tx.maxRefund);
    var p1 := SettleFee(p0, tx, env, success);
    FeePays(p0, tx, env, success, a);
    var p2 := p1.(budget := Monus(p1.budget, SatMul(MAX_U256, tx.gasFeeCap, gasUsed)));
    var refund := GasRefundOf(tx, env, gasUsed);
    GasPays(p2, tx, env, refund, a);
    var p3 := SettleGas(p2, tx, env, refund);
    FeeAdds(Get(b, a), Get(p1.balances, a), Get(p3.balances, a), FeeFlow(p0, tx, env, success), GasFlow(p2, tx, env, refund),
            tx, env, a);
  }

  lemma {:induction false} FeePays(p: Purse, tx: TxRetry, env: Env, success: bool, a: Address)
    ensures var r, fee := SettleFee(p, tx, env, success), FeeFlow(p, tx, env, success);
            && fee.0 + r.budget <= p.budget
            && Refunded(Get(p.balances, a), Get(r.balances, a), a, env.networkFeeAccount, tx.refundTo, tx.from, fee.0, fee.1)
  {
    if success {
      LegsPay(p, env.networkFeeAccount, tx.submissionFeeRefund, tx.refundTo, tx.from, a);
    }
  }

  lemma {:induction false} FeeAdds(g0: nat, g1: nat, g2: nat, fee: (nat, nat), flow: Flow, tx: TxRetry, env: Env, a: Address)
    requires Refunded(g0, g1, a, env.networkFeeAccount, tx.refundTo, tx.from, fee.0, fee.1)
    requires g2 == g1 + FlowNet(flow, tx, env, a)
    ensures g2 == g0 + FlowNet(flow.AddFee(fee), tx, env, a)
  {
  }

  /**
   The deposit budget over the whole life of a ticket: what the submission refunds and what the budgeted
   legs of its redeem pay never exceed the part of the deposit that was not set aside for the call value,
   for all balances (`b` are those at the redeem), accounts and outcomes, and whatever the fee accounts and
   prices have become at the redeem (`env'`).
   */
  lemma {:induction false} LifecycleBudget(b: Balances, call: SubmitCall, env: Env, env': Env, from: Address, ticket: TicketId,
                                           success: bool, gasUsed: nat)
    requires gasUsed <= call.gasLimit
    ensures var x := AmountsOf(call, env);
            x.FeeRefund() + x.GasPriceRefund()
            + SettleFlow(b, AutoRedeem(call, env, from, ticket, x), env', success, gasUsed).Budgeted()
            <= call.deposit - Min(call.deposit, call.retryValue)
  {
    var x := AmountsOf(call, env);
    SettlePays(b, AutoRedeem(call, env, from, ticket, x), env', success, gasUsed, from);
    assert x.MaxRefund() + x.FeeRefund() + x.GasPriceRefund() + Min(call.deposit, call.retryValue) == call.deposit;
  }

  /** In balances: a refund address other than the sender gains at most the budget of the retry. */
  lemma {:induction false} RefundWithinBudget(b: Balances, tx: TxRetry, env: Env, success: bool, gasUsed: nat)
    requires gasUsed <= tx.gasLimit && tx.refundTo != tx.from
    ensures Get(Settle(b, tx, env, success, gasUsed), tx.refundTo) <= Get(b, tx.refundTo) + tx.maxRefund
  {
    SettlePays(b, tx, env, success, gasUsed, tx.refundTo);
  }

  /**
   The same over the whole life of a ticket, for a refund address that plays no other part in the
   submission: there a sender pays, and a fee account also receives fees.
   */
  lemma {:induction false} LifecycleRefundBound(b0: Balances, b1: Balances, b2: Balances, call: SubmitCall, env: Env, env': Env,
                                                from: Address, ticket: TicketId, success: bool, gasUsed: nat)
    requires gasUsed <= call.gasLimit
    requires call.feeRefundAddress !in {from, env.networkFeeAccount, env.infraFeeAccount, Escrow(ticket)}
    requires FundsMoved(b0, AmountsOf(call, env), PartiesOf(call, env, from, ticket), GasPrepaid, b1)
    ensures var tx := AutoRedeem(call, env, from, ticket, AmountsOf(call, env));
            var b3 := Settle(b2, tx, env', success, gasUsed);
            (Get(b1, call.feeRefundAddress) - Get(b0, call.feeRefundAddress))
            + (Get(b3, call.feeRefundAddress) - Get(b2, call.feeRefundAddress))
            <= call.deposit - Min(call.deposit, call.retryValue)
  {
    var x := AmountsOf(call, env);
    SettlePays(b2, AutoRedeem(call, env, from, ticket, x), env', success, gasUsed, call.feeRefundAddress);
    LifecycleBudget(b2, call, env, env', from, ticket, success, gasUsed);
    RefundGainAtSubmit(b0, b1, x, PartiesOf(call, env, from, ticket));
  }

  lemma {:induction false} RefundGainAtSubmit(b0: Balances, b1: Balances, x: Amounts, p: Parties)
    requires p.refund !in {p.from, p.network, p.infra, p.escrow}
    requires FundsMoved(b0, x, p, GasPrepaid, b1)
    ensures Get(b1, p.refund) - Get(b0, p.refund) == x.FeeRefund() + x.GasPriceRefund()
  {
    assert Get(b1, p.refund) == Get(b0, p.refund) + SubmitNet(GasPrepaid, x, p, p.refund);
  }

  // ------------------------------------------------------------------ exact settlement

  /** The fee accounts are neither the sender, nor the refund address, nor the ticket's escrow. */
  predicate FeeAccountsApart(p: Parties) {
    && p.network !in {p.from, p.refund, p.escrow, ZERO_ADDRESS}
    && p.infra !in {p.from, p.refund, p.escrow}
  }

  /** What the submission pays in and what the redeem gives back, without rounding or saturation. */
  lemma {:induction false} GasAmounts(call: SubmitCall, env: Env, from: Address, ticket: TicketId, gasUsed: nat)
    requires gasUsed <= call.gasLimit
    ensures var x := AmountsOf(call, env);
            var refund := GasRefundOf(AutoRedeem(call, env, from, ticket, x), env, gasUsed);
            && env.InfraFee() <= env.baseFee
            && x.infraCost - refund.infra == env.InfraFee() * gasUsed
            && (x.gasCost - x.infraCost) - refund.network == (env.baseFee - env.InfraFee()) * gasUsed
            && refund.infra <= x.infraCost && refund.network <= x.gasCost - x.infraCost
            && (!env.SplitsInfra() ==> x.infraCost == refund.infra == 0)
  {
    GasNumbers(env.baseFee, env.InfraFee(), call.gasLimit, gasUsed);
  }

  lemma {:induction false} GasNumbers(price: U64, infraFee: nat, limit: U64, used: nat)
    requires infraFee <= price && used <= limit
    ensures var cost, refund := SatMul(MAX_U256, price, limit), SatMul(MAX_U256, price, limit - used);
            var infraCost := Min(cost, SatMul(MAX_U256, infraFee, limit));
            var infraRefund := Min(SatMul(MAX_U256, infraFee, limit - used), refund);
            && infraCost - infraRefund == infraFee * used >= 0
            && (cost - infraCost) - (refund - infraRefund) == (price - infraFee) * used >= 0
  {
    CostDifference(price, limit, used);
    CostDifference(infraFee, limit, used);
    SatMulMono(infraFee, price, limit);
    SatMulMono(infraFee, price, limit - used);
    MulSplit(price - infraFee, infraFee, used);
    SplitDifference(SatMul(MAX_U256, price, limit), SatMul(MAX_U256, price, limit - used),
                    SatMul(MAX_U256, infraFee, limit), SatMul(MAX_U256, infraFee, limit - used),
                    infraFee * used, (price - infraFee) * used);
  }

  lemma {:induction false} SplitDifference(cost: nat, refund: nat, infraAll: nat, infraLeft: nat, infraUsed: nat, rest: nat)
    requires infraAll <= cost && infraLeft <= refund
    requires infraAll - infraLeft == infraUsed && cost - refund == rest + infraUsed
    ensures Min(cost, infraAll) - Min(infraLeft, refund) == infraUsed
    ensures (cost - Min(cost, infraAll)) - (refund - Min(infraLeft, refund)) == rest
  {
  }

  lemma {:induction false} SatMulMono(a: nat, b: nat, c: nat)
    requires a <= b
    ensures SatMul(MAX_U256, a, c) <= SatMul(MAX_U256, b, c)
  {
    MulMono(a, b, c);
  }

  lemma {:induction false} CostDifference(price: U64, limit: U64, used: nat)
    requires used <= limit
    ensures SatMul(MAX_U256, price, limit) - SatMul(MAX_U256, price, limit - used) == price * used
  {
    PriceTimesGasFits(price, limit);
    PriceTimesGasFits(price, limit - used);
    MulSplit(limit - used, used, price);
  }

  /** Settlement when the fee accounts can pay: every account's movement in closed form. */
  lemma {:induction false} SettleGasCovered(p: Purse, tx: TxRetry, env: Env, refund: GasRefund)
    requires env.networkFeeAccount !in {tx.from, tx.refundTo, ZERO_ADDRESS}
    requires env.infraFeeAccount !in {tx.from, tx.refundTo}
    requires !env.SplitsInfra() ==> refund.infra == 0
    requires refund.network + (if env.infraFeeAccount == env.networkFeeAccount then refund.infra else 0)
          <= Get(p.balances, env.networkFeeAccount)
    requires refund.infra <= Get(p.balances, env.infraFeeAccount)
    ensures forall a :: a != tx.from && a != tx.refundTo ==>
                          Get(SettleGas(p, tx, env, refund).balances, a) ==
                          Get(p.balances, a) - At(a, env.infraFeeAccount, refund.infra)
                          - At(a, env.networkFeeAccount, refund.network)
  {
    var p1 := p;
    if env.SplitsInfra() {
      p1 := RefundLegs(p, env.infraFeeAccount, refund.infra, tx.refundTo, tx.from);
      LegsCovered(p, env.infraFeeAccount, refund.infra, tx.refundTo, tx.from);
    }
    LegsCovered(p1, env.networkFeeAccount, refund.network, tx.refundTo, tx.from);
  }

  /**
   Submission and automatic redeem settle exactly.  If the fee accounts have not been drained below
   what they held right after the submission (`b1`) when the redeem settles (`b2`), they end up
   richer by the base fee times the gas used, split at the infra fee; after a failed redeem the
   network account also keeps the submission fee.
   */
  lemma {:induction false} ExactShares(b0: Balances, b1: Balances, b2: Balances, call: SubmitCall, env: Env, from: Address,
                                       ticket: TicketId, success: bool, gasUsed: nat, a: Address)
    requires gasUsed <= call.gasLimit
    requires FeeAccountsApart(PartiesOf(call, env, from, ticket))
    requires FundsMoved(b0, AmountsOf(call, env), PartiesOf(call, env, from, ticket), GasPrepaid, b1)
    requires Get(b1, env.networkFeeAccount) <= Get(b2, env.networkFeeAccount)
    requires Get(b1, env.infraFeeAccount) <= Get(b2, env.infraFeeAccount)
    requires a == env.networkFeeAccount || (a == env.infraFeeAccount && env.SplitsInfra())
    ensures var x := AmountsOf(call, env);
            var b3 := Settle(b2, AutoRedeem(call, env, from, ticket, x), env, success, gasUsed);
            Gained(b0, b1, b2, b3, a) ==
            At(a, env.infraFeeAccount, env.InfraFee() * gasUsed)
            + At(a, env.networkFeeAccount,
                 (env.baseFee - env.InfraFee()) * gasUsed + if success then 0 else x.fee)
  {
    var x, parties := AmountsOf(call, env), PartiesOf(call, env, from, ticket);
    var tx := AutoRedeem(call, env, from, ticket, x);
    var refund := GasRefundOf(tx, env, gasUsed);
    GasAmounts(call, env, from, ticket, gasUsed);
    PaidIn(b0, b1, x, parties, env.networkFeeAccount);
    PaidIn(b0, b1, x, parties, env.infraFeeAccount);
    SettleCovered(b2, tx, env, success, gasUsed, refund);
  }

  /**
   The same in numbers, from the gas counters of the redeem: the infra account gains the smaller of minimum base
   fee and base fee for each unit of gas used (from ArbOS 11 on, if it is set), the network account the rest of
   the base fee, and after a failed redeem the submission fee.
   */
  lemma {:induction false} ExactSettlement(b0: Balances, b1: Balances, b2: Balances, call: SubmitCall, env: Env, from: Address,
                                           ticket: TicketId, success: bool, gas: GasResult)
    requires gas.limit == call.gasLimit && gas.remaining + gas.refunded + gas.reservoir <= gas.limit
    requires FeeAccountsApart(PartiesOf(call, env, from, ticket)) && env.networkFeeAccount != env.infraFeeAccount
    requires FundsMoved(b0, AmountsOf(call, env), PartiesOf(call, env, from, ticket), GasPrepaid, b1)
    requires Get(b1, env.networkFeeAccount) <= Get(b2, env.networkFeeAccount)
    requires Get(b1, env.infraFeeAccount) <= Get(b2, env.infraFeeAccount)
    ensures var x := AmountsOf(call, env);
            var b3 := Settle(b2, AutoRedeem(call, env, from, ticket, x), env, success, gas.Used());
            SharesGained(b0, b1, b2, b3, env, gas.limit - gas.remaining - gas.refunded - gas.reservoir, if success then 0 else x.fee)
  {
    var x := AmountsOf(call, env);
    var b3 := Settle(b2, AutoRedeem(call, env, from, ticket, x), env, success, gas.Used());
    ExactShares(b0, b1, b2, call, env, from, ticket, success, gas.Used(), env.networkFeeAccount);
    if env.SplitsInfra() {
      ExactShares(b0, b1, b2, call, env, from, ticket, success, gas.Used(), env.infraFeeAccount);
    }
    SharesIntro(b0, b1, b2, b3, env, gas.Used(), if success then 0 else x.fee);
  }

  /** The shares of both fee accounts for `used` gas, `kept` being the submission fee that is not refunded. */
  ghost predicate SharesGained(b0: Balances, b1: Balances, b2: Balances, b3: Balances, env: Env, used: nat, kept: nat) {
    var split := env.arbosVersion >= 11 && env.infraFeeAccount != ZERO_ADDRESS;
    var infraFee: nat := if !split then 0 else if env.minBaseFee <= env.baseFee then env.minBaseFee else env.baseFee;
    && (split ==> Gained(b0, b1, b2, b3, env.infraFeeAccount) == infraFee * used)
    && Gained(b0, b1, b2, b3, env.networkFeeAccount) == (env.baseFee - infraFee) * used + kept
  }

  lemma {:induction false} SharesIntro(b0: Balances, b1: Balances, b2: Balances, b3: Balances, env: Env, used: nat, kept: nat)
    requires env.networkFeeAccount != env.infraFeeAccount
    requires env.SplitsInfra() ==> Gained(b0, b1, b2, b3, env.infraFeeAccount) == env.InfraFee() * used
    requires Gained(b0, b1, b2, b3, env.networkFeeAccount) == (env.baseFee - env.InfraFee()) * used + kept
    ensures SharesGained(b0, b1, b2, b3, env, used, kept)
  {
  }

  /** What an account gains by the submission (`b0` to `b1`) and by the redeem (`b2` to `b3`). */
  function Gained(b0: Balances, b1: Balances, b2: Balances, b3: Balances, a: Address): int {
    (Get(b1, a) - Get(b0, a)) + (Get(b3, a) - Get(b2, a))
  }

  /** What a fee account has received by the end of the submission. */
  lemma {:induction false} PaidIn(b0: Balances, b1: Balances, x: Amounts, p: Parties, a: Address)
    requires FeeAccountsApart(p) && a in {p.network, p.infra}
    requires FundsMoved(b0, x, p, GasPrepaid, b1)
    ensures Get(b1, a) - Get(b0, a) ==
            At(a, p.infra, x.infraCost) + At(a, p.network, x.fee as int + x.gasCost as int - x.infraCost as int)
  {
    assert Get(b1, a) == Get(b0, a) + SubmitNet(GasPrepaid, x, p, a);
  }

  lemma {:induction false} SettleCovered(b: Balances, tx: TxRetry, env: Env, success: bool, gasUsed: nat, refund: GasRefund)
    requires gasUsed <= tx.gasLimit && refund == GasRefundOf(tx, env, gasUsed)
    requires env.networkFeeAccount !in {tx.from, tx.refundTo, ZERO_ADDRESS}
    requires env.infraFeeAccount !in {tx.from, tx.refundTo}
    requires tx.submissionFeeRefund + refund.network
             + (if env.infraFeeAccount == env.networkFeeAccount then refund.infra else 0)
          <= Get(b, env.networkFeeAccount)
    requires refund.infra <= Get(b, env.infraFeeAccount)
    ensures forall a :: a != tx.from && a != tx.refundTo ==>
                          Get(Settle(b, tx, env, success, gasUsed), a) ==
                          Get(b, a) - At(a, env.infraFeeAccount, refund.infra)
                          - At(a, env.networkFeeAccount,
                               refund.network + if success then tx.submissionFeeRefund else 0)
  {
    var p0 := Purse(b, tx.maxRefund);
    if success {
      LegsCovered(p0, env.networkFeeAccount, tx.submissionFeeRefund, tx.refundTo, tx.from);
    }
    var p1 := SettleFee(p0, tx, env, success);
    var p2 := p1.(budget := Monus(p1.budget, SatMul(MAX_U256, tx.gasFeeCap, gasUsed)));
    NoInfraWithoutSplit(tx, env, gasUsed);
    SettleGasCovered(p2, tx, env, refund);
  }

  lemma {:induction false} NoInfraWithoutSplit(tx: TxRetry, env: Env, gasUsed: nat)
    requires gasUsed <= tx.gasLimit
    ensures !env.SplitsInfra() ==> GasRefundOf(tx, env, gasUsed).infra == 0
  {
  }

  // ------------------------------------------------------------------ exact refunds

  /** Both fee accounts are other accounts than the recipients, and can pay. */
  ghost predicate Covered(b: Balances, tx: TxRetry, env: Env, refund: GasRefund, fee: nat) {
    && env.networkFeeAccount !in {tx.from, tx.refundTo, ZERO_ADDRESS} && env.infraFeeAccount !in {tx.from, tx.refundTo}
    && fee + refund.network + (if env.infraFeeAccount == env.networkFeeAccount then refund.infra else 0)
       <= Get(b, env.networkFeeAccount)
    && refund.infra <= Get(b, env.infraFeeAccount)
  }

  lemma {:induction false} GasFlowCovered(p: Purse, tx: TxRetry, env: Env, refund: GasRefund)
    requires Covered(p.balances, tx, env, refund, 0) && (!env.SplitsInfra() ==> refund.infra == 0)
    ensures var flow := GasFlow(p, tx, env, refund);
            && flow.Budgeted() == Min(refund.infra + refund.network, p.budget)
            && flow.Budgeted() + flow.Excess() == refund.infra + refund.network
  {
    if env.SplitsInfra() {
      LegsCovered(p, env.infraFeeAccount, refund.infra, tx.refundTo, tx.from);
    }
  }

  lemma {:induction false} FeeFlowCovered(p: Purse, tx: TxRetry, env: Env, success: bool, refund: GasRefund)
    requires Covered(p.balances, tx, env, refund, tx.submissionFeeRefund)
    ensures var fee, r := FeeFlow(p, tx, env, success), SettleFee(p, tx, env, success);
            && fee.0 == (if success then Min(tx.submissionFeeRefund, p.budget) else 0)
            && fee.0 + fee.1 == (if success then tx.submissionFeeRefund else 0)
            && r.budget == Monus(p.budget, tx.submissionFeeRefund)
            && Covered(r.balances, tx, env, refund, 0)
  {
    if success {
      LegsCovered(p, env.networkFeeAccount, tx.submissionFeeRefund, tx.refundTo, tx.from);
    }
  }

  /** What the budgeted legs of a settlement pay when the fee accounts can pay. */
  function BudgetedRefund(tx: TxRetry, fee: nat, unused: nat, spent: nat): nat {
    Min(fee, tx.maxRefund) + Min(unused, Monus(Monus(tx.maxRefund, tx.submissionFeeRefund), spent))
  }

  lemma {:induction false} FlowCovered(b: Balances, tx: TxRetry, env: Env, success: bool, gasUsed: nat)
    requires gasUsed <= tx.gasLimit
    requires Covered(b, tx, env, GasRefundOf(tx, env, gasUsed), tx.submissionFeeRefund)
    ensures var fee: nat := if success then tx.submissionFeeRefund else 0;
            var unused, spent := SatMul(MAX_U256, tx.gasFeeCap, tx.gasLimit - gasUsed), SatMul(MAX_U256, tx.gasFeeCap, gasUsed);
            var flow := SettleFlow(b, tx, env, success, gasUsed);
            && flow.Budgeted() == BudgetedRefund(tx, fee, unused, spent)
            && flow.Budgeted() + flow.Excess() == fee + unused
  {
    NoInfraWithoutSplit(tx, env, gasUsed);
    RefundAddsUp(tx, env, gasUsed);
    FlowCoveredFrom(Purse(b, tx.maxRefund), tx, env, success, GasRefundOf(tx, env, gasUsed), SatMul(MAX_U256, tx.gasFeeCap, gasUsed));
  }

  lemma {:induction false} RefundAddsUp(tx: TxRetry, env: Env, gasUsed: nat)
    requires gasUsed <= tx.gasLimit
    ensures var refund := GasRefundOf(tx, env, gasUsed);
            refund.infra + refund.network == SatMul(MAX_U256, tx.gasFeeCap, tx.gasLimit - gasUsed)
  {
  }

  lemma {:induction false} FlowCoveredFrom(p: Purse, tx: TxRetry, env: Env, success: bool, refund: GasRefund, spent: nat)
    requires p.budget == tx.maxRefund && Covered(p.balances, tx, env, refund, tx.submissionFeeRefund)
    requires !env.SplitsInfra() ==> refund.infra == 0
    ensures var fee: nat := if success then tx.submissionFeeRefund else 0;
            var r := SettleFee(p, tx, env, success);
            var flow := GasFlow(r.(budget := Monus(r.budget, spent)), tx, env, refund).AddFee(FeeFlow(p, tx, env, success));
            && flow.Budgeted() == BudgetedRefund(tx, fee, refund.infra + refund.network, spent)
            && flow.Budgeted() + flow.Excess() == fee + refund.infra + refund.network
  {
    FeeFlowCovered(p, tx, env, success, refund);
    var r := SettleFee(p, tx, env, success);
    var r' := r.(budget := Monus(r.budget, spent));
    GasFlowCovered(r', tx, env, refund);
    FlowSum(GasFlow(r', tx, env, refund), FeeFlow(p, tx, env, success));
  }

  lemma {:induction false} FlowSum(flow: Flow, fee: (nat, nat))
    ensures flow.AddFee(fee).Budgeted() == flow.Budgeted() + fee.0 && flow.AddFee(fee).Excess() == flow.Excess() + fee.1
  {
  }

  lemma {:induction false} FlowApart(flow: Flow, tx: TxRetry, env: Env)
    requires tx.from != tx.refundTo
    requires env.networkFeeAccount !in {tx.from, tx.refundTo} && env.infraFeeAccount !in {tx.from, tx.refundTo}
    ensures FlowNet(flow, tx, env, tx.refundTo) == flow.Budgeted() && FlowNet(flow, tx, env, tx.from) == flow.Excess()
  {
  }

  /**
   When the fee accounts can pay: what the refund address and the sender receive.  The budget is first reduced
   by the submission fee, refunded or not, then by the price of the gas used; the unused gas is refunded out of
   what is left of it, and beyond it to the sender.
   */
  lemma {:induction false} RefundsExact(b: Balances, tx: TxRetry, env: Env, success: bool, gasUsed: nat)
    requires gasUsed <= tx.gasLimit && tx.refundTo != tx.from
    requires Covered(b, tx, env, GasRefundOf(tx, env, gasUsed), tx.submissionFeeRefund)
    ensures var fee: nat := if success then tx.submissionFeeRefund else 0;
            var unused, spent := SatMul(MAX_U256, tx.gasFeeCap, tx.gasLimit - gasUsed), SatMul(MAX_U256, tx.gasFeeCap, gasUsed);
            var b' := Settle(b, tx, env, success, gasUsed);
            && Get(b', tx.refundTo) == Get(b, tx.refundTo) + BudgetedRefund(tx, fee, unused, spent)
            && Get(b', tx.from) == Get(b, tx.from) + fee + unused - BudgetedRefund(tx, fee, unused, spent)
  {
    FlowCovered(b, tx, env, success, gasUsed);
    SettlePays(b, tx, env, success, gasUsed, tx.refundTo);
    SettlePays(b, tx, env, success, gasUsed, tx.from);
    FlowApart(SettleFlow(b, tx, env, success, gasUsed), tx, env);
  }
}
