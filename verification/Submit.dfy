/**
 Submission of a retryable ticket: the deposit is minted, a submission fee is charged, the call
 value is escrowed, the ticket is stored and, when the sender can pay for the gas, an automatic
 redeem is prepaid and announced.

 `ApplySubmit` runs the source's chain of fallible transfers.  Its specification does not follow
 that order: `SubmitStage` says from the initial balances how far the submission gets, and
 `SubmitNet` gives, account by account, the net movement of funds, whichever accounts coincide.
 */
module Submit {
  import opened Words
  import opened Ledger
  import opened Journals

  const TX_GAS: nat := 21_000
  const STYLUS_VERSION: nat := 30

  datatype SubmitCall = SubmitCall(
    l1BaseFee: U256,
    deposit: U256,
    retryValue: U256,
    gasFeeCap: U256,
    gasLimit: U64,
    maxSubmissionFee: U256,
    feeRefundAddress: Address,
    beneficiary: Address,
    retryTo: Option<Address>,
    retryData: seq<Byte>)

  /** Block and ArbOS values read by the hooks. */
  datatype Env = Env(
    chainId: nat,
    timestamp: U64,
    baseFee: U64,
    arbosVersion: U64,
    networkFeeAccount: Address,
    infraFeeAccount: Address,
    minBaseFee: U256)
  {
    /** Retryable gas is split between infra and network accounts from ArbOS 11 on. */
    predicate SplitsInfra() {
      arbosVersion >= 11 && infraFeeAccount != ZERO_ADDRESS
    }

    /** The infra share of the gas price. */
    function InfraFee(): nat {
      if SplitsInfra() then Min(minBaseFee, baseFee) else 0
    }
  }

  datatype Outcome = Created(gasUsed: U64) | Failed(gasUsed: U64)

  datatype Stage = FeeBoundTooLow | MintUncovered | EscrowUnfunded | TicketOnly | GasPrepaid

  // ------------------------------------------------------------------ amounts and budget

  /** The accounts a submission pays from and to; any of them may coincide. */
  datatype Parties = Parties(from: Address, network: Address, infra: Address, refund: Address, escrow: Address)

  /** The amounts of a submission, and the budget that the deposit leaves for refunds. */
  datatype Amounts = Amounts(
    deposit: U256,
    retryValue: U256,
    maxFee: U256,
    fee: U256,
    maxGasCost: U256,
    gasCost: U256,
    infraCost: U256,
    priceSlack: U256)
  {
    /** What is left of the deposit after setting the call value aside. */
    function DepositLeft(): U256 { Monus(deposit, retryValue) }

    function WithheldFee(): U256 { Min(DepositLeft(), fee) }

    function FeeRefund(): U256 { Min(DepositLeft() - WithheldFee(), Monus(maxFee, fee)) }

    /** The refund budget once the ticket is created. */
    function Budget(): U256 { DepositLeft() - WithheldFee() - FeeRefund() }

    function GasCostRefund(): U256 { Min(Budget(), maxGasCost) }

    function WithheldGas(): U256 { Min(Budget(), gasCost) }

    function GasPriceRefund(): U256 { Min(Budget() - WithheldGas(), priceSlack) }

    /** The part of the deposit that the automatic redeem may still refund. */
    function MaxRefund(): (r: U256)
      ensures r + FeeRefund() + GasPriceRefund() + Min(deposit, retryValue) == deposit
    {
      Budget() - GasPriceRefund() + WithheldFee()
    }
  }

  /** The 256-bit product wraps; the number of units saturates at 128 bits. */
  function SubmissionFee(len: nat, l1BaseFee: U256): U256 {
    l1BaseFee * SatAdd(MAX_U128, 1400, SatMul(MAX_U128, 6, len)) % (MAX_U256 + 1)
  }

  function AmountsOf(call: SubmitCall, env: Env): (x: Amounts)
    ensures x.infraCost <= x.gasCost
    ensures env.baseFee <= call.gasFeeCap ==> x.gasCost <= x.maxGasCost
  {
    MulMono(Min(env.baseFee, call.gasFeeCap), call.gasFeeCap, call.gasLimit);
    var gasCost := SatMul(MAX_U256, env.baseFee, call.gasLimit);
    Amounts(call.deposit, call.retryValue, call.maxSubmissionFee,
            SubmissionFee(|call.retryData|, call.l1BaseFee),
            SatMul(MAX_U256, call.gasFeeCap, call.gasLimit),
            gasCost,
            Min(gasCost, SatMul(MAX_U256, env.InfraFee(), call.gasLimit)),
            SatMul(MAX_U256, Monus(call.gasFeeCap, env.baseFee), call.gasLimit))
  }

  function PartiesOf(call: SubmitCall, env: Env, from: Address, ticket: TicketId): Parties {
    Parties(from, env.networkFeeAccount, env.infraFeeAccount, call.feeRefundAddress, Escrow(ticket))
  }

  /** The conditions, apart from the sender's balance, under which the redeem is prepaid. */
  predicate GasAcceptable(call: SubmitCall, env: Env) {
    TX_GAS <= call.gasLimit && env.baseFee <= call.gasFeeCap
  }

  // ------------------------------------------------------------------ net movement of funds

  /** Net effect of mint, submission fee and submission-fee refund on account `a`. */
  function FeesNet(x: Amounts, p: Parties, a: Address): int {
    At(a, p.from, x.deposit as int - x.fee as int - x.FeeRefund() as int)
    + At(a, p.network, x.fee)
    + At(a, p.refund, x.FeeRefund())
  }

  function EscrowNet(x: Amounts, p: Parties, a: Address): int {
    FeesNet(x, p, a) - At(a, p.from, x.retryValue) + At(a, p.escrow, x.retryValue)
  }

  /** The stage at which a submission ends for lack of funds, before a ticket is created. */
  function FundingFailure(b: Balances, x: Amounts, p: Parties): Option<Stage> {
    if x.maxFee < x.fee then Some(FeeBoundTooLow)
    else if Get(b, p.from) + x.deposit < x.maxFee then Some(MintUncovered)
    else if Get(b, p.from) + FeesNet(x, p, p.from) < x.retryValue then Some(EscrowUnfunded)
    else None
  }

  /** How far the submission gets, decided on the balances before it. */
  function SubmitStage(b: Balances, x: Amounts, p: Parties, gasAcceptable: bool): Stage {
    match FundingFailure(b, x, p)
    case Some(stage) => stage
    case None =>
      if Get(b, p.from) + EscrowNet(x, p, p.from) < x.maxGasCost || !gasAcceptable then TicketOnly
      else GasPrepaid
  }

  /** Net movement of funds on account `a` by a submission that reaches `stage`. */
  function SubmitNet(stage: Stage, x: Amounts, p: Parties, a: Address): int {
    match stage
    case FeeBoundTooLow => 0
    case MintUncovered => At(a, p.from, x.deposit)
    case EscrowUnfunded =>
      At(a, p.from, x.deposit as int - x.FeeRefund() as int - x.WithheldFee() as int)
      + At(a, p.refund, x.FeeRefund() + x.WithheldFee())
    case TicketOnly =>
      EscrowNet(x, p, a) - At(a, p.from, x.GasCostRefund()) + At(a, p.refund, x.GasCostRefund())
    case GasPrepaid =>
      EscrowNet(x, p, a) + PrepayNet(x, p, a)
  }

  function PrepayNet(x: Amounts, p: Parties, a: Address): int {
    At(a, p.infra, x.infraCost) + At(a, p.network, x.gasCost as int - x.infraCost as int)
    + At(a, p.refund, x.GasPriceRefund())
    - At(a, p.from, x.gasCost + x.GasPriceRefund())
  }

  // ------------------------------------------------------------------ what is stored and announced

  /** A submission whose hash is filtered pays its refunds and its ticket to `recipient`. */
  function Redirect(call: SubmitCall, filter: Option<Address>): SubmitCall {
    match filter
    case None => call
    case Some(recipient) => call.(feeRefundAddress := recipient, beneficiary := recipient)
  }

  function NewTicket(call: SubmitCall, env: Env, from: Address, numTries: U64): Ticket {
    Ticket(numTries, from, call.retryTo, call.retryValue, call.beneficiary,
           SatAdd(MAX_U64, env.timestamp, LIFETIME), 0, call.retryData)
  }

  /** The automatic redeem as the submission hashes it. */
  function AutoRedeem(call: SubmitCall, env: Env, from: Address, ticket: TicketId, x: Amounts): TxRetry {
    TxRetry(env.chainId, 0, from, env.baseFee, call.gasLimit, call.retryTo, call.retryValue,
            call.retryData, ticket, call.feeRefundAddress, x.MaxRefund(), x.fee)
  }

  function AutoRedeemLog(call: SubmitCall, env: Env, from: Address, ticket: TicketId, x: Amounts): Log {
    RedeemScheduled(ticket, AutoRedeem(call, env, from, ticket, x), 0, call.gasLimit,
                    call.feeRefundAddress, x.MaxRefund(), x.fee)
  }

  function OutcomeOf(stage: Stage, gasLimit: U64, filtered: bool): Outcome {
    match stage
    case TicketOnly => if filtered then Failed(0) else Created(0)
    case GasPrepaid => if filtered then Failed(gasLimit) else Created(gasLimit)
    case _ => Failed(0)
  }

  /** A stored ticket holds what its submission named, for `beneficiary`, and lives for seven days. */
  predicate StoredAs(t: Ticket, raw: SubmitCall, env: Env, from: Address, beneficiary: Address) {
    && t.from == from && t.to == raw.retryTo && t.callvalue == raw.retryValue && t.calldata == raw.retryData
    && t.beneficiary == beneficiary && t.windowsLeft == 0 && t.numTries <= 1
    && t.timeout == if env.timestamp + 604_800 <= MAX_U64 then env.timestamp + 604_800 else MAX_U64
  }

  /** The complete effect of a submission. */
  ghost predicate SubmitSpec(w: World, raw: SubmitCall, env: Env, from: Address, ticket: TicketId,
                             filter: Option<Address>, outcome: Outcome, w': World)
  {
    var call := Redirect(raw, filter);
    var x, p := AmountsOf(call, env), PartiesOf(call, env, from, ticket);
    var stage := SubmitStage(w.balances, x, p, GasAcceptable(call, env));
    && outcome == OutcomeOf(stage, call.gasLimit, filter.Some?)
    && FundsMoved(w.balances, x, p, stage, w'.balances)
    && TicketStored(w, call, env, from, ticket, x, stage, filter.Some?, w')
  }

  ghost predicate FundsMoved(b: Balances, x: Amounts, p: Parties, stage: Stage, b': Balances) {
    && (forall a :: Get(b', a) == Get(b, a) + SubmitNet(stage, x, p, a))
    && Total(b') == Total(b) + (if stage == FeeBoundTooLow then 0 else x.deposit)
  }

  ghost predicate TicketStored(w: World, call: SubmitCall, env: Env, from: Address, ticket: TicketId,
                               x: Amounts, stage: Stage, filtered: bool, w': World)
  {
    var scheduled := stage == GasPrepaid && !filtered;
    if stage == TicketOnly || stage == GasPrepaid then
      && w'.tickets == w.tickets[ticket := NewTicket(call, env, from, if scheduled then 1 else 0)]
      && w'.queue == w.queue + [ticket]
      && w'.logs == w.logs + [TicketCreated(ticket)]
                    + (if scheduled then [AutoRedeemLog(call, env, from, ticket, x)] else [])
    else
      w'.tickets == w.tickets && w'.queue == w.queue && w'.logs == w.logs
  }

  /**
   Before Stylus, the escrow account of a ticket without call value may be revived by a redeem in the same
   block: the tickets that a submission marks for that.
   */
  function Zombies(stage: Stage, x: Amounts, env: Env, filtered: bool, ticket: TicketId): seq<TicketId> {
    if stage == GasPrepaid && !filtered && x.retryValue == 0 && env.arbosVersion < STYLUS_VERSION then [ticket] else []
  }

  // ------------------------------------------------------------------ the operation

  method TakeFunds(available: nat, requested: nat) returns (taken: nat, left: nat)
    ensures taken == Min(available, requested)
    ensures taken + left == available
  {
    taken := Min(available, requested);
    left := Monus(available, taken);
  }

  /** A transfer whose failure aborts the block; `fatal` reports that failure. */
  method MustTransfer(j: Journal, from: Address, to: Address, amount: nat) returns (fatal: bool)
    requires j.Valid()
    modifies j`balances
    ensures j.Valid() && Total(j.balances) == old(Total(j.balances))
    ensures fatal <==> Get(old(j.balances), from) < amount
    ensures !fatal ==> forall a ::
                Get(j.balances, a) == Get(old(j.balances), a) - At(a, from, amount) + At(a, to, amount)
  {
    if amount == 0 {
      return false;
    }
    var err := j.Transfer(from, to, amount);
    return err.Some?;
  }

  /** Submission fee to the network account, unused part of the fee bound to the refund address. */
  method ChargeSubmissionFee(j: Journal, x: Amounts, p: Parties)
    returns (fatal: bool, withheldFee: U256, available: U256)
    requires j.Valid()
    requires x.fee <= x.maxFee <= Get(j.balances, p.from)
    modifies j`balances
    ensures j.Valid() && Total(j.balances) == old(Total(j.balances))
    ensures !fatal && withheldFee == x.WithheldFee() && available == x.Budget()
    ensures x.fee <= Get(j.balances, p.network)
    ensures forall a :: Get(j.balances, a) == Get(old(j.balances), a) + FeesNet(x, p, a) - At(a, p.from, x.deposit)
  {
    var feeRefund, f;
    var _, left := TakeFunds(x.deposit, x.retryValue);
    fatal := MustTransfer(j, p.from, p.network, x.fee);
    withheldFee, left := TakeFunds(left, x.fee);
    feeRefund, available := TakeFunds(left, Monus(x.maxFee, x.fee));
    f := MustTransfer(j, p.from, p.refund, feeRefund);
    fatal := fatal || f;
  }

  /**
   Moves the call value into escrow.  If the sender cannot fund it, the submission fee goes back and
   its withheld part on to the refund address.
   */
  method EscrowCallvalue(j: Journal, x: Amounts, p: Parties, withheldFee: U256) returns (funded: bool, fatal: bool)
    requires j.Valid()
    requires withheldFee <= x.fee <= Get(j.balances, p.network)
    modifies j`balances
    ensures j.Valid() && Total(j.balances) == old(Total(j.balances))
    ensures !fatal && (funded <==> x.retryValue <= Get(old(j.balances), p.from))
    ensures funded ==> forall a ::
                Get(j.balances, a) == Get(old(j.balances), a) - At(a, p.from, x.retryValue)
                + At(a, p.escrow, x.retryValue)
    ensures !funded ==> forall a ::
                Get(j.balances, a) == Get(old(j.balances), a) - At(a, p.network, x.fee)
                + At(a, p.from, x.fee as int - withheldFee as int)
                + At(a, p.refund, withheldFee)
  {
    if x.retryValue == 0 {
      return true, false;
    }
    var err := j.Transfer(p.from, p.escrow, x.retryValue);
    if err.None? {
      return true, false;
    }
    fatal := MustTransfer(j, p.network, p.from, x.fee);
    var f := MustTransfer(j, p.from, p.refund, withheldFee);
    return false, fatal || f;
  }

  /** Mint, submission fee and escrow; `ended` is the stage at which the submission ends, if it ends here. */
  method FundTicket(j: Journal, x: Amounts, p: Parties)
    returns (ended: Option<Stage>, fatal: bool, withheldFee: U256, available: U256)
    requires Total(j.balances) + x.deposit <= MAX_U256
    modifies j`balances
    ensures j.Valid() && !fatal
    ensures ended == FundingFailure(old(j.balances), x, p)
    ensures match ended
            case Some(s) => FundsMoved(old(j.balances), x, p, s, j.balances)
            case None =>
              && withheldFee == x.WithheldFee() && available == x.Budget() <= Get(j.balances, p.from)
              && Total(j.balances) == Total(old(j.balances)) + x.deposit
              && forall a :: Get(j.balances, a) == Get(old(j.balances), a) + EscrowNet(x, p, a)
  {
    if x.maxFee < x.fee {
      return Some(FeeBoundTooLow), false, 0, 0;
    }
    j.Mint(p.from, x.deposit);
    if Get(j.balances, p.from) < x.maxFee {
      return Some(MintUncovered), false, 0, 0;
    }
    fatal, withheldFee, available := ChargeSubmissionFee(j, x, p);
    var funded, f := EscrowCallvalue(j, x, p, withheldFee);
    fatal := fatal || f;
    ended := if funded then None else Some(EscrowUnfunded);
    if !funded {
      Unwound(old(j.balances), x, p, j.balances);
    }
  }

  /** Unwinding the submission fee leaves the movement of an unfunded escrow. */
  lemma {:induction false} Unwound(b: Balances, x: Amounts, p: Parties, b': Balances)
    requires Total(b') == Total(b) + x.deposit
    requires forall a ::
               Get(b', a) == Get(b, a) + FeesNet(x, p, a) - At(a, p.network, x.fee)
               + At(a, p.from, x.fee as int - x.WithheldFee() as int) + At(a, p.refund, x.WithheldFee())
    ensures FundsMoved(b, x, p, EscrowUnfunded, b')
  {
  }

  /** Gas of the automatic redeem to the fee accounts, unused part of the price bound refunded. */
  method PrepayGas(j: Journal, x: Amounts, p: Parties, splitsInfra: bool, available: U256)
    returns (fatal: bool, maxGasRefund: U256)
    requires j.Valid()
    requires x.infraCost <= x.gasCost <= x.maxGasCost && (!splitsInfra ==> x.infraCost == 0)
    requires available == x.Budget()
    requires x.maxGasCost <= Get(j.balances, p.from) && available <= Get(j.balances, p.from)
    modifies j`balances
    ensures j.Valid() && Total(j.balances) == old(Total(j.balances))
    ensures !fatal && maxGasRefund == x.Budget() - x.GasPriceRefund()
    ensures forall a :: Get(j.balances, a) == Get(old(j.balances), a) + PrepayNet(x, p, a)
  {
    var networkCost, infraCost, f := x.gasCost, 0, false;
    fatal := false;
    if splitsInfra {
      infraCost, networkCost := TakeFunds(networkCost, x.infraCost);
      fatal := MustTransfer(j, p.from, p.infra, infraCost);
    }
    f := MustTransfer(j, p.from, p.network, networkCost);
    fatal := fatal || f;
    var withheldGas, left := TakeFunds(available, x.gasCost);
    var gasPriceRefund;
    gasPriceRefund, left := TakeFunds(left, x.priceSlack);
    f := MustTransfer(j, p.from, p.refund, gasPriceRefund);
    fatal := fatal || f;
    maxGasRefund := left + withheldGas;
  }

  /**
   The ticket is funded: prepay its automatic redeem if the sender can pay for the gas, else refund
   the gas money.  `redeem` is the remaining refund budget of a prepaid redeem.
   */
  method SettleTicketGas(j: Journal, x: Amounts, p: Parties, gasAcceptable: bool, splitsInfra: bool, available: U256)
    returns (fatal: bool, redeem: Option<U256>)
    requires j.Valid()
    requires x.infraCost <= x.gasCost && (gasAcceptable ==> x.gasCost <= x.maxGasCost)
    requires !splitsInfra ==> x.infraCost == 0
    requires available == x.Budget() <= Get(j.balances, p.from)
    modifies j`balances
    ensures j.Valid() && !fatal && Total(j.balances) == old(Total(j.balances))
    ensures redeem.Some? <==> gasAcceptable && x.maxGasCost <= Get(old(j.balances), p.from)
    ensures redeem.Some? ==> redeem.value == x.Budget() - x.GasPriceRefund()
    ensures forall a ::
              Get(j.balances, a) + EscrowNet(x, p, a) ==
              Get(old(j.balances), a) + SubmitNet(if redeem.Some? then GasPrepaid else TicketOnly, x, p, a)
  {
    if Get(j.balances, p.from) < x.maxGasCost || !gasAcceptable {
      var gasCostRefund, _ := TakeFunds(available, x.maxGasCost);
      fatal := MustTransfer(j, p.from, p.refund, gasCostRefund);
      return fatal, None;
    }
    var maxGasRefund;
    fatal, maxGasRefund := PrepayGas(j, x, p, splitsInfra, available);
    return fatal, Some(maxGasRefund);
  }

  /** Funding and gas settlement together are the net movement of the stage reached. */
  lemma {:induction false} FundsCompose(b: Balances, b1: Balances, b2: Balances, x: Amounts, p: Parties, gasAcceptable: bool)
    requires FundingFailure(b, x, p).None?
    requires Total(b2) == Total(b1) == Total(b) + x.deposit
    requires forall a :: Get(b1, a) == Get(b, a) + EscrowNet(x, p, a)
    requires forall a ::
               Get(b2, a) + EscrowNet(x, p, a) ==
               Get(b1, a) + SubmitNet(FundedStage(b1, x, p, gasAcceptable), x, p, a)
    ensures SubmitStage(b, x, p, gasAcceptable) == FundedStage(b1, x, p, gasAcceptable)
    ensures FundsMoved(b, x, p, SubmitStage(b, x, p, gasAcceptable), b2)
  {
  }

  /** The stage that a funded submission reaches. */
  function FundedStage(b: Balances, x: Amounts, p: Parties, gasAcceptable: bool): Stage {
    if gasAcceptable && x.maxGasCost <= Get(b, p.from) then GasPrepaid else TicketOnly
  }

  /** Stores the funded ticket and settles its gas. */
  method CreateTicket(j: Journal, call: SubmitCall, env: Env, from: Address, ticket: TicketId, filtered: bool,
                      x: Amounts, p: Parties, withheldFee: U256, available: U256) returns (outcome: Outcome, fatal: bool)
    requires j.Valid() && withheldFee == x.WithheldFee() && available == x.Budget() <= Get(j.balances, p.from)
    requires x.infraCost <= x.gasCost && (GasAcceptable(call, env) ==> x.gasCost <= x.maxGasCost)
    requires !env.SplitsInfra() ==> x.infraCost == 0
    modifies j`balances, j`tickets, j`queue, j`logs, j`pendingZombies
    ensures j.Valid() && !fatal && Total(j.balances) == old(Total(j.balances))
    ensures var stage := FundedStage(old(j.balances), x, p, GasAcceptable(call, env));
            && outcome == OutcomeOf(stage, call.gasLimit, filtered)
            && (forall a :: Get(j.balances, a) + EscrowNet(x, p, a) == Get(old(j.balances), a) + SubmitNet(stage, x, p, a))
            && TicketStored(old(j.Contents()), call, env, from, ticket, x, stage, filtered, j.Contents())
            && j.pendingZombies == old(j.pendingZombies) + Zombies(stage, x, env, filtered, ticket)
  {
    var redeem;
    j.tickets := j.tickets[ticket := NewTicket(call, env, from, 0)];
    j.queue := j.queue + [ticket];
    j.logs := j.logs + [TicketCreated(ticket)];
    fatal, redeem := SettleTicketGas(j, x, p, GasAcceptable(call, env), env.SplitsInfra(), available);
    if redeem.None? {
      return if filtered then Failed(0) else Created(0), fatal;
    }
    if filtered {
      return Failed(call.gasLimit), fatal;
    }
    var maxRefund := redeem.value + withheldFee;
    j.tickets := j.tickets[ticket := j.tickets[ticket].(numTries := 1)];
    var retry := TxRetry(env.chainId, 0, from, env.baseFee, call.gasLimit, call.retryTo, call.retryValue,
                         call.retryData, ticket, call.feeRefundAddress, maxRefund, x.fee);
    j.logs := j.logs + [RedeemScheduled(ticket, retry, 0, call.gasLimit, call.feeRefundAddress, maxRefund, x.fee)];
    if x.retryValue == 0 && env.arbosVersion < STYLUS_VERSION {
      j.pendingZombies := j.pendingZombies + [ticket];
    }
    return Created(call.gasLimit), fatal;
  }

  /** The submission with its amounts worked out. */
  method SubmitAmounts(j: Journal, call: SubmitCall, env: Env, from: Address, ticket: TicketId, filtered: bool,
                       x: Amounts, p: Parties) returns (outcome: Outcome, fatal: bool)
    requires Total(j.balances) + x.deposit <= MAX_U256
    requires p == PartiesOf(call, env, from, ticket)
    requires x.infraCost <= x.gasCost && (GasAcceptable(call, env) ==> x.gasCost <= x.maxGasCost)
    requires !env.SplitsInfra() ==> x.infraCost == 0
    modifies j`balances, j`tickets, j`queue, j`logs, j`pendingZombies
    ensures j.Valid() && !fatal
    ensures var stage := SubmitStage(old(j.balances), x, p, GasAcceptable(call, env));
            && outcome == OutcomeOf(stage, call.gasLimit, filtered)
            && FundsMoved(old(j.balances), x, p, stage, j.balances)
            && TicketStored(old(j.Contents()), call, env, from, ticket, x, stage, filtered, j.Contents())
            && j.pendingZombies == old(j.pendingZombies) + Zombies(stage, x, env, filtered, ticket)
  {
    var ended, withheldFee, available, f;
    ended, fatal, withheldFee, available := FundTicket(j, x, p);
    if ended.Some? {
      return Failed(0), fatal;
    }
    ghost var funded := j.balances;
    outcome, f := CreateTicket(j, call, env, from, ticket, filtered, x, p, withheldFee, available);
    fatal := fatal || f;
    FundsCompose(old(j.balances), funded, j.balances, x, p, GasAcceptable(call, env));
  }

  /**
   Applies a submit-retryable transaction.

   Every transfer but the escrow one is mandatory: a failure aborts the block, reported as `fatal`.
   The specification excludes it for every input and every way in which sender, refund address, fee
   accounts and escrow may coincide.
   */
  method ApplySubmit(j: Journal, raw: SubmitCall, env: Env, from: Address, ticket: TicketId,
                     filter: Option<Address>) returns (outcome: Outcome, fatal: bool)
    requires Total(j.balances) + raw.deposit <= MAX_U256
    modifies j`balances, j`tickets, j`queue, j`logs, j`pendingZombies
    ensures j.Valid() && !fatal
    ensures SubmitSpec(old(j.Contents()), raw, env, from, ticket, filter, outcome, j.Contents())
    ensures j.queue != old(j.queue) ==>
              ticket in j.tickets && StoredAs(j.tickets[ticket], raw, env, from, if filter.Some? then filter.value else raw.beneficiary)
    ensures var call := Redirect(raw, filter);
            var x, p := AmountsOf(call, env), PartiesOf(call, env, from, ticket);
            j.pendingZombies == old(j.pendingZombies)
            + Zombies(SubmitStage(old(j.balances), x, p, GasAcceptable(call, env)), x, env, filter.Some?, ticket)
  {
    var call := Redirect(raw, filter);
    outcome, fatal := SubmitAmounts(j, call, env, from, ticket, filter.Some?,
                                    AmountsOf(call, env), PartiesOf(call, env, from, ticket));
  }
}
