/**
 Gas charging and fee settlement of an ordinary transaction: prepayment, poster gas, the cap on compute
 gas, the refund cap, reimbursement and the distribution of fees.
 */
module NormalTx {
  import opened Words
  import opened Ledger
  import opened Journals

  const L1_PRICER_FUNDS_POOL: Address := Account(0xA4B00000000000000000000000000000000000f6)
  const TX_DATA_NON_ZERO_GAS: nat := 16
  const MAX_REFUND_QUOTIENT: nat := 5

  /** `maxFee` is the gas price of a legacy transaction; `priorityFee` is present for EIP-1559 ones. */
  datatype Tx = Tx(caller: Address, gasLimit: U64, value: U256, maxFee: U128, priorityFee: Option<U128>)
  {
    /** The price is clamped to the base fee: tips are never part of it. */
    function EffectiveGasPrice(baseFee: U64): U128 {
      Min(match priorityFee
          case None => maxFee
          case Some(tip) => Min(maxFee, SatAdd(MAX_U128, baseFee, tip)),
          baseFee)
    }
  }

  /** What the hooks read from the block and from ArbOS state. */
  datatype Chain = Chain(
    baseFee: U64,
    version: U64,
    delayedInbox: bool,
    collectTipsFlag: U64,
    coinbase: Address,
    pricePerUnit: U256,
    compressedLen: U64,
    perBlockGasLimit: U64,
    perTxGasLimit: U64,
    minBaseFee: U256,
    networkFeeAccount: Address,
    infraFeeAccount: Address)
  {
    predicate CollectTips() {
      !delayedInbox && (version == 9 || (version >= 60 && collectTipsFlag != 0))
    }

    function InfraAccount(): Address {
      if version >= 5 then infraFeeAccount else ZERO_ADDRESS
    }

    function InfraFee(): nat {
      if InfraAccount() != ZERO_ADDRESS then Min(minBaseFee, baseFee) else 0
    }

    function PosterAccount(): Address {
      if version >= 2 then L1_PRICER_FUNDS_POOL else coinbase
    }

    /** Cap on compute gas; an unset limit reads as zero and means no cap. */
    function MaxCompute(intrinsic: nat): nat {
      var limit := if version < 50 then perBlockGasLimit else perTxGasLimit;
      var cap := if limit == 0 then MAX_U64 else limit;
      if version < 50 then cap else Monus(cap, intrinsic)
    }
  }

  datatype TxError = GasPriceLessThanBaseFee | LackOfFunds | GasLimitTooLow

  /** Result of the outermost frame: gas left of what it was given, and its refund counter. */
  datatype Frame = Frame(left: nat, refundCounter: int)

  datatype PosterInfo = PosterInfo(gas: U64, fee: nat)

  /** L1 cost of the transaction data, rounded down to whole units of L2 gas. */
  function ComputePosterInfo(c: Chain, gasPrice: U128): PosterInfo {
    if c.delayedInbox || c.compressedLen == 0 then PosterInfo(0, 0)
    else
      var units := SatMul(MAX_U64, TX_DATA_NON_ZERO_GAS, c.compressedLen);
      var cost := SatMul(MAX_U256, c.pricePerUnit, units);
      var gas := if gasPrice == 0 then 0 else Min(MAX_U64, cost / gasPrice);
      PosterInfo(gas, SatMul(MAX_U256, gasPrice, gas))
  }

  /** The poster fee is the L1 cost rounded down to whole gas: short of it by less than one unit of gas. */
  lemma {:induction false} PosterRounding(c: Chain, gasPrice: U64)
    requires gasPrice > 0 && !c.delayedInbox
    ensures var info := ComputePosterInfo(c, gasPrice);
            var cost := SatMul(MAX_U256, c.pricePerUnit, SatMul(MAX_U64, 16, c.compressedLen));
            && info.fee == gasPrice * info.gas <= cost
            && (cost < info.fee + gasPrice || info.gas == MAX_U64)
  {
    if c.compressedLen != 0 {
      var cost := SatMul(MAX_U256, c.pricePerUnit, SatMul(MAX_U64, TX_DATA_NON_ZERO_GAS, c.compressedLen));
      var gas := Min(MAX_U64, cost / gasPrice);
      PriceTimesGasFits(gasPrice, gas);
      Rounding(cost, gasPrice, gas);
    } else {
      assert SatMul(MAX_U64, TX_DATA_NON_ZERO_GAS, 0) == 0;
    }
  }

  lemma {:induction false} Rounding(cost: nat, price: nat, gas: nat)
    requires price > 0 && gas == Min(MAX_U64, cost / price)
    ensures price * gas <= cost && (cost < price * gas + price || gas == MAX_U64)
  {
    assert cost == price * (cost / price) + cost % price;
    MulMono(gas, cost / price, price);
  }

  /** Per-transaction fields of the chain context. */
  class TxContext {
    var intrinsicGas: U64
    var posterGas: U64
    var holdGas: U64
    var posterFee: nat
    var paidGasPrice: U128

    constructor (intrinsic: U64)
      ensures intrinsicGas == intrinsic && paidGasPrice == 0
    {
      intrinsicGas := intrinsic;
      posterGas, holdGas, posterFee, paidGasPrice := 0, 0, 0, 0;
    }

    method ResetPosterState()
      modifies this`posterGas, this`holdGas, this`posterFee, this`paidGasPrice
      ensures posterGas == 0 && holdGas == 0 && posterFee == 0 && paidGasPrice == 0
    {
      posterGas, holdGas, posterFee, paidGasPrice := 0, 0, 0, 0;
    }
  }

  // ------------------------------------------------------------------ hooks before the frame

  /** The fee cap reaches the base fee and the caller could pay it for all of its gas. */
  predicate CanPay(b: Balances, tx: Tx, c: Chain) {
    c.baseFee <= tx.maxFee
    && SatAdd(MAX_U256, SatMul(MAX_U256, tx.maxFee, tx.gasLimit), tx.value) <= Get(b, tx.caller)
  }

  /** The balance is checked against the declared fee cap, but only the base fee is deducted. */
  method DeductCaller(j: Journal, ctx: TxContext, tx: Tx, c: Chain) returns (err: Option<TxError>)
    requires j.Valid()
    modifies j`balances, ctx`paidGasPrice
    ensures j.Valid()
    ensures err.None? <==> CanPay(old(j.balances), tx, c)
    ensures err.Some? ==> j.balances == old(j.balances)
    ensures err.None? ==> && c.baseFee <= tx.maxFee
                          && c.baseFee * tx.gasLimit <= Get(old(j.balances), tx.caller)
                          && j.balances == Debit(old(j.balances), tx.caller, c.baseFee * tx.gasLimit)
                          && ctx.paidGasPrice == c.baseFee
  {
    if tx.maxFee < c.baseFee {
      return Some(GasPriceLessThanBaseFee);
    }
    var paid: U128 := if c.CollectTips() then tx.EffectiveGasPrice(c.baseFee) else c.baseFee;
    assert paid == c.baseFee;
    var priceForCheck := if tx.maxFee < paid then paid else tx.maxFee;
    var balance := Get(j.balances, tx.caller);
    MulMono(paid, priceForCheck, tx.gasLimit);
    PriceTimesGasFits(priceForCheck, tx.gasLimit);
    PriceTimesGasFits(paid, tx.gasLimit);
    if balance < SatAdd(MAX_U256, SatMul(MAX_U256, priceForCheck, tx.gasLimit), tx.value) {
      return Some(LackOfFunds);
    }
    WithinTotal(j.balances, tx.caller);
    TotalDebit(j.balances, tx.caller, paid * tx.gasLimit);
    j.balances := j.balances[tx.caller := Monus(balance, SatMul(MAX_U256, paid, tx.gasLimit))];
    ctx.paidGasPrice := paid;
    return None;
  }

  /**
   Gas charging.  The paid price is read before the context is reset, which leaves it zero for
   the settlement hooks.
   */
  method ChargeGas(ctx: TxContext, tx: Tx, c: Chain)
    requires ctx.paidGasPrice == c.baseFee
    modifies ctx
    ensures ctx.intrinsicGas == old(ctx.intrinsicGas) && ctx.paidGasPrice == 0
    ensures ctx.posterGas == ComputePosterInfo(c, c.baseFee).gas
    ensures ctx.posterFee == c.baseFee * ctx.posterGas
    ensures ctx.holdGas == Monus(Monus(Monus(tx.gasLimit, ctx.intrinsicGas), ctx.posterGas),
                                 c.MaxCompute(ctx.intrinsicGas))
  {
    var paid := ctx.paidGasPrice;
    ctx.ResetPosterState();
    if paid == 0 {
      paid := if c.CollectTips() then tx.EffectiveGasPrice(c.baseFee) else c.baseFee;
    }
    if paid == 0 {
      paid := c.baseFee;
    }
    var info := ComputePosterInfo(c, paid);
    PriceTimesGasFits(paid, info.gas);
    var afterOverhead := Monus(Monus(tx.gasLimit, ctx.intrinsicGas), info.gas);
    ctx.posterGas, ctx.posterFee := info.gas, info.fee;
    ctx.holdGas := Monus(afterOverhead, c.MaxCompute(ctx.intrinsicGas));
  }

  /**
   Runs the first frame with what is left after intrinsic, poster and held gas, and gives the held gas
   back.  `remaining` is what the transaction has not used.
   */
  method RunFrame(ctx: TxContext, tx: Tx, c: Chain, frame: nat -> Frame)
    returns (err: Option<TxError>, remaining: nat, refundCounter: int, ghost frameGas: nat)
    requires forall g: nat :: frame(g).left <= g
    requires ctx.holdGas == Monus(Monus(Monus(tx.gasLimit, ctx.intrinsicGas), ctx.posterGas), c.MaxCompute(ctx.intrinsicGas))
    ensures err.None? <==> ctx.intrinsicGas + ctx.posterGas <= tx.gasLimit
    ensures err.None? ==>
              && frameGas == Min(tx.gasLimit - ctx.intrinsicGas - ctx.posterGas, c.MaxCompute(ctx.intrinsicGas))
              && tx.gasLimit - remaining ==
                 ctx.intrinsicGas + ctx.posterGas + (frameGas - frame(frameGas).left)
              && remaining <= tx.gasLimit && refundCounter == frame(frameGas).refundCounter
  {
    remaining, refundCounter, frameGas := 0, 0, 0;
    var totalInitial := SatAdd(MAX_U64, SatAdd(MAX_U64, ctx.intrinsicGas, ctx.posterGas), ctx.holdGas);
    if totalInitial > tx.gasLimit {
      return Some(GasLimitTooLow), remaining, refundCounter, frameGas;
    }
    var tracked := Monus(tx.gasLimit, ctx.intrinsicGas);
    var reserved := SatAdd(MAX_U64, ctx.posterGas, ctx.holdGas);
    if tracked < reserved || tx.gasLimit < ctx.intrinsicGas {
      return Some(GasLimitTooLow), remaining, refundCounter, frameGas;
    }
    var given := tracked - reserved;
    frameGas := given;
    var result := frame(given);
    remaining := result.left + ctx.holdGas;
    return None, remaining, result.refundCounter, frameGas;
  }

  // ------------------------------------------------------------------ hooks after the frame

  /** Gas spent less the refund counter; the refund is the largest within a fifth of what is not poster gas. */
  function NetGas(spent: nat, posterGas: nat, counter: int): (net: nat)
    requires posterGas <= spent
    ensures posterGas <= net <= spent && 5 * (spent - net) <= spent - posterGas
    ensures net < spent ==> spent - net <= counter
    ensures counter <= 0 ==> net == spent
    ensures counter >= 0 ==> spent - net == counter || 5 * (spent - net + 1) > spent - posterGas
  {
    spent - Min(if counter < 0 then 0 else counter, (spent - posterGas) / MAX_REFUND_QUOTIENT)
  }

  /** Refunds are capped at a fifth of the gas spent beyond poster gas. */
  method CapRefund(ctx: TxContext, tx: Tx, remaining: nat, refundCounter: int) returns (refund: nat)
    requires remaining <= tx.gasLimit && ctx.posterGas <= tx.gasLimit - remaining
    ensures tx.gasLimit - remaining - refund == NetGas(tx.gasLimit - remaining, ctx.posterGas, refundCounter)
  {
    var refundable := Monus(Monus(tx.gasLimit, remaining), ctx.posterGas);
    var counter := if refundCounter < 0 then 0 else refundCounter;
    refund := Min(counter, refundable / MAX_REFUND_QUOTIENT);
  }

  /** The price used for settlement; a reset price falls back to the base fee. */
  function SettlementPrice(paid: U128, baseFee: U64): U128 {
    if paid == 0 then baseFee else paid
  }

  /** Unused gas goes back to the caller at the base fee: the paid price has been reset. */
  method ReimburseCaller(j: Journal, ctx: TxContext, tx: Tx, c: Chain, returned: U64)
    requires ctx.paidGasPrice == 0
    requires Total(j.balances) + c.baseFee * returned <= MAX_U256
    modifies j`balances
    ensures Total(j.balances) == old(Total(j.balances)) + c.baseFee * returned
    ensures forall a :: Get(j.balances, a) == Get(old(j.balances), a) + At(a, tx.caller, c.baseFee * returned)
  {
    var paid := SettlementPrice(ctx.paidGasPrice, c.baseFee);
    PriceTimesGasFits(paid, returned);
    j.Mint(tx.caller, SatMul(MAX_U256, paid, returned));
  }

  /** The credits of the end-of-transaction hook, as seen by account `a`. */
  function FeeCredits(c: Chain, computeGas: nat, posterGas: nat, a: Address): int {
    At(a, c.InfraAccount(), c.InfraFee() * computeGas)
    + (if c.networkFeeAccount == ZERO_ADDRESS then 0
       else At(a, c.networkFeeAccount, (c.baseFee - c.InfraFee()) * computeGas))
    + At(a, c.PosterAccount(), c.baseFee * posterGas)
  }

  method MintIfPositive(j: Journal, to: Address, amount: nat)
    requires Total(j.balances) + amount <= MAX_U256
    modifies j`balances
    ensures Total(j.balances) == old(Total(j.balances)) + amount
    ensures forall a :: Get(j.balances, a) == Get(old(j.balances), a) + At(a, to, amount)
  {
    if amount > 0 {
      j.Mint(to, amount);
    }
  }

  /** Compute cost and its infra part, exactly as rounded by the source. */
  lemma {:induction false} ComputeCosts(c: Chain, computeGas: U64)
    ensures SatMul(MAX_U256, c.baseFee, computeGas) == c.baseFee * computeGas
    ensures Min(SatMul(MAX_U256, c.InfraFee(), computeGas), c.baseFee * computeGas) == c.InfraFee() * computeGas
    ensures c.baseFee * computeGas - c.InfraFee() * computeGas == (c.baseFee - c.InfraFee()) * computeGas >= 0
  {
    PriceTimesGasFits(c.baseFee, computeGas);
    PriceTimesGasFits(c.InfraFee(), computeGas);
    MulMono(c.InfraFee(), c.baseFee, computeGas);
    MulSplit(c.baseFee - c.InfraFee(), c.InfraFee(), computeGas);
  }

  /** Mints the shares of the fee accounts; shares of an unset network account are dropped. */
  method Distribute(j: Journal, infra: Address, infraCost: nat, network: Address, networkCost: nat, tip: nat,
                    poster: Address, posterFee: nat)
    requires Total(j.balances) + infraCost + networkCost + tip + posterFee <= MAX_U256
    modifies j`balances
    ensures Total(j.balances) == old(Total(j.balances)) + infraCost + posterFee
                                 + (if network == ZERO_ADDRESS then 0 else networkCost + tip)
    ensures forall a ::
              Get(j.balances, a) == Get(old(j.balances), a) + At(a, infra, infraCost) + At(a, poster, posterFee)
              + (if network == ZERO_ADDRESS then 0 else At(a, network, networkCost + tip))
  {
    MintIfPositive(j, infra, infraCost);
    if network != ZERO_ADDRESS {
      MintIfPositive(j, network, networkCost);
      MintIfPositive(j, network, tip);
    }
    MintIfPositive(j, poster, posterFee);
  }

  /** Distributes the fees of a settled transaction; compute gas is gas used minus poster gas. */
  method RewardBeneficiary(j: Journal, ctx: TxContext, c: Chain, gasUsed: U64)
    requires ctx.paidGasPrice == 0
    requires ctx.posterGas <= gasUsed && ctx.posterFee == c.baseFee * ctx.posterGas
    requires Total(j.balances) + c.baseFee * gasUsed <= MAX_U256
    modifies j`balances
    ensures forall a :: Get(j.balances, a) ==
                        Get(old(j.balances), a) + FeeCredits(c, gasUsed - ctx.posterGas, ctx.posterGas, a)
    ensures Total(j.balances) == old(Total(j.balances)) + c.baseFee * gasUsed - Unclaimed(c, gasUsed - ctx.posterGas)
  {
    var computeGas := Monus(gasUsed, ctx.posterGas);
    var computeCost := SatMul(MAX_U256, c.baseFee, computeGas);
    var tip := SatMul(MAX_U256, Monus(SettlementPrice(ctx.paidGasPrice, c.baseFee), c.baseFee), computeGas);
    var infraCost := if c.InfraAccount() == ZERO_ADDRESS then 0
    else Min(SatMul(MAX_U256, Min(c.minBaseFee, c.baseFee), computeGas), computeCost);
    var networkCost := Monus(computeCost, infraCost);
    CostFacts(c, computeGas, ctx.posterGas, gasUsed, computeCost, tip, infraCost, networkCost);
    Distribute(j, c.InfraAccount(), infraCost, c.networkFeeAccount, networkCost, tip, c.PosterAccount(), ctx.posterFee);
  }

  /** What is collected but credited to nobody when no network account is set. */
  function Unclaimed(c: Chain, computeGas: nat): nat {
    if c.networkFeeAccount == ZERO_ADDRESS then (c.baseFee - c.InfraFee()) * computeGas else 0
  }

  lemma {:induction false} CostFacts(c: Chain, computeGas: U64, posterGas: U64, gasUsed: nat, computeCost: nat, tip: nat, infraCost: nat, networkCost: nat)
    requires gasUsed == computeGas + posterGas
    requires computeCost == SatMul(MAX_U256, c.baseFee, computeGas)
    requires tip == SatMul(MAX_U256, Monus(SettlementPrice(0, c.baseFee), c.baseFee), computeGas)
    requires infraCost == if c.InfraAccount() == ZERO_ADDRESS then 0
                          else Min(SatMul(MAX_U256, Min(c.minBaseFee, c.baseFee), computeGas), computeCost)
    requires networkCost == Monus(computeCost, infraCost)
    ensures tip == 0
    ensures infraCost == c.InfraFee() * computeGas
    ensures networkCost == (c.baseFee - c.InfraFee()) * computeGas
    ensures infraCost + networkCost + c.baseFee * posterGas == c.baseFee * gasUsed
  {
    ComputeCosts(c, computeGas);
    MulSplit(computeGas, posterGas, c.baseFee);
  }

  // ------------------------------------------------------------------ the whole transaction

  datatype Receipt = Receipt(gasUsed: U64, posterGas: U64, frameGas: nat)

  /** From the balances after the frame: unused gas back to the caller, fees to the fee accounts. */
  ghost predicate FeesSettled(mid: Balances, b: Balances, tx: Tx, c: Chain, gasUsed: U64, posterGas: U64) {
    var computeGas := Monus(gasUsed, posterGas);
    && posterGas <= gasUsed <= tx.gasLimit
    && (forall a :: Get(b, a) == Get(mid, a) + At(a, tx.caller, c.baseFee * (tx.gasLimit - gasUsed))
                                 + FeeCredits(c, computeGas, posterGas, a))
    && Total(b) == Total(mid) + c.baseFee * tx.gasLimit - Unclaimed(c, computeGas)
  }

  /** The hooks after the frame. */
  method SettleFees(j: Journal, ctx: TxContext, tx: Tx, c: Chain, remaining: nat, counter: int) returns (gasUsed: U64)
    requires ctx.paidGasPrice == 0 && ctx.posterFee == c.baseFee * ctx.posterGas
    requires remaining <= tx.gasLimit && ctx.posterGas <= tx.gasLimit - remaining
    requires Total(j.balances) + c.baseFee * tx.gasLimit <= MAX_U256
    modifies j`balances
    ensures gasUsed == NetGas(tx.gasLimit - remaining, ctx.posterGas, counter)
    ensures ctx.posterGas <= gasUsed <= tx.gasLimit - remaining
    ensures FeesSettled(old(j.balances), j.balances, tx, c, gasUsed, ctx.posterGas)
  {
    var refund := CapRefund(ctx, tx, remaining, counter);
    gasUsed := Monus(Monus(tx.gasLimit, remaining), refund);
    ghost var mid := j.balances;
    CostSplits(c.baseFee, remaining + refund, gasUsed, tx.gasLimit);
    ReimburseCaller(j, ctx, tx, c, remaining + refund);
    ghost var b1 := j.balances;
    RewardBeneficiary(j, ctx, c, gasUsed);
    FeesCompose(mid, b1, j.balances, tx, c, remaining + refund, gasUsed, ctx.posterGas);
  }

  lemma {:induction false} CostSplits(price: nat, a: nat, b: nat, sum: nat)
    requires sum == a + b
    ensures price * sum == price * a + price * b
  {
    MulSplit(a, b, price);
  }

  lemma {:induction false} FeesCompose(mid: Balances, b1: Balances, b2: Balances, tx: Tx, c: Chain, returned: nat, gasUsed: U64, posterGas: U64)
    requires posterGas <= gasUsed <= tx.gasLimit && returned == tx.gasLimit - gasUsed
    requires c.baseFee * tx.gasLimit == c.baseFee * returned + c.baseFee * gasUsed
    requires Total(b1) == Total(mid) + c.baseFee * returned
    requires forall a :: Get(b1, a) == Get(mid, a) + At(a, tx.caller, c.baseFee * returned)
    requires forall a :: Get(b2, a) == Get(b1, a) + FeeCredits(c, gasUsed - posterGas, posterGas, a)
    requires Total(b2) == Total(b1) + c.baseFee * gasUsed - Unclaimed(c, gasUsed - posterGas)
    ensures FeesSettled(mid, b2, tx, c, gasUsed, posterGas)
  {
  }

  /** What a receipt promises about gas. */
  predicate GasAccounted(r: Receipt, tx: Tx, c: Chain, intrinsic: U64, posterGas: U64, frame: nat -> Frame) {
    && r.posterGas == posterGas
    && r.posterGas <= r.gasUsed <= tx.gasLimit
    && intrinsic + r.posterGas <= tx.gasLimit
    && r.frameGas == Min(tx.gasLimit - intrinsic - r.posterGas, c.MaxCompute(intrinsic))
    && frame(r.frameGas).left <= r.frameGas
    && r.gasUsed == NetGas(intrinsic + r.posterGas + r.frameGas - frame(r.frameGas).left, r.posterGas,
                           frame(r.frameGas).refundCounter)
  }

  /** The frame and the hooks after it, once gas has been charged. */
  method RunCharged(j: Journal, ctx: TxContext, tx: Tx, c: Chain, frame: nat -> Frame, evm: Balances -> Balances)
    returns (r: Option<Receipt>)
    requires forall g: nat :: frame(g).left <= g
    requires ctx.paidGasPrice == 0 && ctx.posterFee == c.baseFee * ctx.posterGas
    requires ctx.holdGas == Monus(Monus(Monus(tx.gasLimit, ctx.intrinsicGas), ctx.posterGas), c.MaxCompute(ctx.intrinsicGas))
    requires Total(evm(j.balances)) + c.baseFee * tx.gasLimit <= MAX_U256
    modifies j`balances
    ensures r.Some? <==> ctx.intrinsicGas + ctx.posterGas <= tx.gasLimit
    ensures r.Some? ==>
              && GasAccounted(r.value, tx, c, ctx.intrinsicGas, ctx.posterGas, frame)
              && FeesSettled(evm(old(j.balances)), j.balances, tx, c, r.value.gasUsed, r.value.posterGas)
  {
    var err, remaining, counter, frameGas := RunFrame(ctx, tx, c, frame);
    if err.Some? {
      return None;
    }
    j.balances := evm(j.balances);
    var gasUsed := SettleFees(j, ctx, tx, c, remaining, counter);
    return Some(Receipt(gasUsed, ctx.posterGas,
                        Min(tx.gasLimit - ctx.intrinsicGas - ctx.posterGas, c.MaxCompute(ctx.intrinsicGas))));
  }

  /** When a transaction is accepted, the gas it is billed and where the money goes. */
  ghost predicate NormalTxSpec(b: Balances, tx: Tx, c: Chain, intrinsic: U64, frame: nat -> Frame,
                               evm: Balances -> Balances, r: Option<Receipt>, b': Balances)
  {
    var posterGas := ComputePosterInfo(c, c.baseFee).gas;
    && (r.Some? <==> CanPay(b, tx, c) && intrinsic + posterGas <= tx.gasLimit)
    && (r.Some? ==> Billed(b, tx, c, intrinsic, posterGas, frame, evm, r.value, b'))
  }

  ghost predicate Billed(b: Balances, tx: Tx, c: Chain, intrinsic: U64, posterGas: U64, frame: nat -> Frame,
                         evm: Balances -> Balances, r: Receipt, b': Balances)
  {
    && c.baseFee * tx.gasLimit <= Get(b, tx.caller)
    && GasAccounted(r, tx, c, intrinsic, posterGas, frame)
    && FeesSettled(evm(Debit(b, tx.caller, c.baseFee * tx.gasLimit)), b', tx, c, r.gasUsed, posterGas)
  }

  /**
   An unfiltered transaction from prepayment to settlement.  The frame turns the prepaid balances into
   `evm` of them without minting.

   The caller has paid the base fee times the gas used; exactly that is credited to the infra, network
   and poster accounts (less what an unset network account leaves unclaimed).
   */
  method RunNormalTx(j: Journal, ctx: TxContext, tx: Tx, c: Chain, frame: nat -> Frame, evm: Balances -> Balances)
    returns (r: Option<Receipt>)
    requires j.Valid()
    requires forall g: nat :: frame(g).left <= g
    requires forall b: Balances :: Total(evm(b)) <= Total(b)
    modifies j`balances, ctx
    ensures NormalTxSpec(old(j.balances), tx, c, old(ctx.intrinsicGas), frame, evm, r, j.balances)
  {
    var err := DeductCaller(j, ctx, tx, c);
    if err.Some? {
      return None;
    }
    TotalDebit(old(j.balances), tx.caller, c.baseFee * tx.gasLimit);
    ChargeGas(ctx, tx, c);
    assert Total(evm(j.balances)) <= Total(j.balances);
    r := RunCharged(j, ctx, tx, c, frame, evm);
    BilledIntro(old(j.balances), tx, c, old(ctx.intrinsicGas), ctx.posterGas, frame, evm, r, j.balances);
  }

  lemma {:induction false} BilledIntro(b: Balances, tx: Tx, c: Chain, intrinsic: U64, posterGas: U64, frame: nat -> Frame,
                                       evm: Balances -> Balances, r: Option<Receipt>, b': Balances)
    requires CanPay(b, tx, c) && posterGas == ComputePosterInfo(c, c.baseFee).gas
    requires r.Some? <==> intrinsic + posterGas <= tx.gasLimit
    requires r.Some? ==> Billed(b, tx, c, intrinsic, posterGas, frame, evm, r.value, b')
    ensures NormalTxSpec(b, tx, c, intrinsic, frame, evm, r, b')
  {
  }

  /** Everything that the fee accounts are credited with. */
  function TotalCredits(c: Chain, gasUsed: U64, posterGas: U64): nat
    requires posterGas <= gasUsed
  {
    var computeGas := gasUsed - posterGas;
    c.InfraFee() * computeGas
    + (if c.networkFeeAccount == ZERO_ADDRESS then 0 else (c.baseFee - c.InfraFee()) * computeGas)
    + c.baseFee * posterGas
  }

  /** Credits add up to the base fee times the gas used exactly when nothing is left unclaimed. */
  lemma {:induction false} CreditsExact(c: Chain, gasUsed: U64, posterGas: U64)
    requires posterGas <= gasUsed
    ensures TotalCredits(c, gasUsed, posterGas) == c.baseFee * gasUsed <==>
            c.networkFeeAccount != ZERO_ADDRESS || c.baseFee == c.InfraFee() || gasUsed == posterGas
  {
    var computeGas := gasUsed - posterGas;
    ComputeCosts(c, computeGas);
    MulSplit(computeGas, posterGas, c.baseFee);
    UnclaimedExactly(c, computeGas);
  }

  /** A chain without fee accounts: a plain transfer's fee is collected and credited to nobody. */
  lemma {:induction false} ShareUnclaimed() returns (c: Chain, gasUsed: U64)
    ensures gasUsed == 21_000 && c.networkFeeAccount == ZERO_ADDRESS
    ensures TotalCredits(c, gasUsed, 0) == 0 < c.baseFee * gasUsed
  {
    c, gasUsed := Chain(1, 60, false, 0, ZERO_ADDRESS, 0, 0, 0, 0, 0, ZERO_ADDRESS, ZERO_ADDRESS), 21_000;
  }

  /**
   Prepayment and settlement together, `cost` being the prepaid amount: no money is created, and none is
   lost unless a network share goes unclaimed.
   */
  lemma {:induction false} SupplyConservedExactly(b: Balances, tx: Tx, c: Chain, cost: nat, evm: Balances -> Balances,
                                                  gasUsed: U64, posterGas: U64, b': Balances)
    requires cost == c.baseFee * tx.gasLimit && cost <= Get(b, tx.caller)
    requires FeesSettled(evm(Debit(b, tx.caller, cost)), b', tx, c, gasUsed, posterGas)
    requires forall x: Balances :: Total(evm(x)) == Total(x)
    ensures posterGas <= gasUsed && Total(b') <= Total(b)
    ensures Total(b') == Total(b) <==>
            c.networkFeeAccount != ZERO_ADDRESS || c.baseFee == c.InfraFee() || gasUsed == posterGas
  {
    TotalDebit(b, tx.caller, cost);
    assert Total(evm(Debit(b, tx.caller, cost))) == Total(Debit(b, tx.caller, cost));
    UnclaimedExactly(c, gasUsed - posterGas);
  }

  lemma {:induction false} UnclaimedExactly(c: Chain, computeGas: nat)
    ensures Unclaimed(c, computeGas) == 0 <==>
            c.networkFeeAccount != ZERO_ADDRESS || c.baseFee == c.InfraFee() || computeGas == 0
  {
    if c.networkFeeAccount == ZERO_ADDRESS && c.baseFee != c.InfraFee() && computeGas != 0 {
      MulMono(1, c.baseFee - c.InfraFee(), computeGas);
    }
  }

  // ------------------------------------------------------------------ in numbers

  /** The cap on compute gas: the block's limit before ArbOS 50, the transaction's less its intrinsic gas from then on. */
  lemma {:induction false} CapInNumbers(c: Chain, intrinsic: nat)
    ensures c.version < 50 && c.perBlockGasLimit > 0 ==> c.MaxCompute(intrinsic) == c.perBlockGasLimit
    ensures c.version >= 50 && c.perTxGasLimit > 0 ==>
              c.MaxCompute(intrinsic) == if intrinsic <= c.perTxGasLimit then c.perTxGasLimit - intrinsic else 0
    ensures c.version < 50 && c.perBlockGasLimit == 0 ==> c.MaxCompute(intrinsic) == MAX_U64
  {
  }

  /** A transaction is accepted exactly when its fee cap reaches the base fee and its balance the cap and the value. */
  lemma {:induction false} AcceptedExactly(b: Balances, tx: Tx, c: Chain)
    requires tx.maxFee * tx.gasLimit + tx.value <= MAX_U256
    ensures CanPay(b, tx, c) <==> c.baseFee <= tx.maxFee && tx.maxFee * tx.gasLimit + tx.value <= Get(b, tx.caller)
  {
  }

  /** What each fee account is credited with, when they are different ones. */
  lemma {:induction false} CreditsByAccount(c: Chain, computeGas: nat, posterGas: nat)
    requires c.version >= 5 && c.networkFeeAccount != ZERO_ADDRESS && c.infraFeeAccount != ZERO_ADDRESS
    requires c.networkFeeAccount != c.infraFeeAccount
    requires Account(0xA4B00000000000000000000000000000000000f6) !in {c.networkFeeAccount, c.infraFeeAccount}
    ensures var infraFee: nat := if c.minBaseFee <= c.baseFee then c.minBaseFee else c.baseFee;
            && FeeCredits(c, computeGas, posterGas, c.infraFeeAccount) == infraFee * computeGas
            && FeeCredits(c, computeGas, posterGas, c.networkFeeAccount) == (c.baseFee - infraFee) * computeGas
            && FeeCredits(c, computeGas, posterGas, Account(0xA4B00000000000000000000000000000000000f6)) == c.baseFee * posterGas
  {
  }

  /** Before ArbOS 5 there is no infra share, and before ArbOS 2 the block's coinbase gets the poster fee. */
  lemma {:induction false} EarlyCredits(c: Chain, computeGas: nat, posterGas: nat)
    requires c.networkFeeAccount !in {ZERO_ADDRESS, c.coinbase, Account(0xA4B00000000000000000000000000000000000f6)}
    ensures c.version < 5 ==> FeeCredits(c, computeGas, posterGas, c.networkFeeAccount) == c.baseFee * computeGas
    ensures c.version < 2 ==> FeeCredits(c, computeGas, posterGas, c.coinbase) == c.baseFee * posterGas
    ensures 2 <= c.version < 5 ==>
              FeeCredits(c, computeGas, posterGas, Account(0xA4B00000000000000000000000000000000000f6)) == c.baseFee * posterGas
  {
  }
}
