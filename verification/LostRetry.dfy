/**
 A ticket that is redeemed twice in one block, automatically and by hand: once the first redeem succeeds, the
 second can no longer start.  The block's base fee is zero, so that no funds move at all.
 */
module LostRetry {
  import opened Words
  import opened Ledger
  import opened Journals
  import opened Submit
  import opened Retryables
  import opened RetrySettlement
  import opened Lifecycle
  import opened Scheduling

  const SENDER: Address := Account(5)
  const CALLER: Address := Account(6)
  const ENV: Env := Env(1, 0, 0, 60, Account(1), Account(2), 0)
  const CALL: SubmitCall := SubmitCall(0, 0, 0, 0, 30_000, 0, SENDER, SENDER, Some(CALLER), [])

  /** Amounts of a submission that moves nothing. */
  predicate Nothing(x: Amounts) {
    x.deposit == x.retryValue == x.maxFee == x.fee == x.maxGasCost == x.gasCost == x.infraCost == 0
  }

  const AUTOMATIC: TxRetry := TxRetry(1, 0, SENDER, 0, 30_000, Some(CALLER), 0, [], 0, SENDER, 0, 0)
  const ANNOUNCED: Log := RedeemScheduled(0, AUTOMATIC, 0, 30_000, SENDER, 0, 0)
  const MANUAL: TxRetry := TxRetry(1, 1, SENDER, 0, 21_000, Some(CALLER), 0, [], 0, CALLER, MAX_U256, 0)

  /** A successful frame that used 25000 of its 30000 gas. */
  const GAS: GasResult := GasResult(30_000, 5_000, 0, 0)

  function TicketTried(tries: U64): Ticket {
    Ticket(tries, SENDER, Some(CALLER), 0, SENDER, LIFETIME, 0, [])
  }

  /** No funds anywhere. */
  function Poor(tickets: map<TicketId, Ticket>, logs: seq<Log>): World {
    World(map[], tickets, [0], logs)
  }

  const START: Machine := Machine(World(map[], map[], [], []), 0, {}, [], Idle)

  function Waiting(tries: U64, scheduled: seq<TxRetry>): Machine {
    Machine(Poor(map[0 := TicketTried(tries)], []), 0, {0}, scheduled, Idle)
  }

  // ------------------------------------------------------------------ the submission

  lemma {:induction false} AmountsOfCall()
    ensures Nothing(AmountsOf(CALL, ENV))
  {
    assert SubmissionFee(0, 0) == 0;
  }

  /** Without a deposit there is no budget for refunds. */
  lemma {:induction false} NoBudget(x: Amounts)
    requires x.deposit == 0
    ensures x.MaxRefund() == 0 && x.FeeRefund() == 0 && x.GasPriceRefund() == 0
  {
    assert x.MaxRefund() + x.FeeRefund() + x.GasPriceRefund() + Min(x.deposit, x.retryValue) == x.deposit;
  }

  lemma {:induction false} NoNet(x: Amounts, p: Parties, a: Address)
    requires Nothing(x) && x.FeeRefund() == 0 && x.GasPriceRefund() == 0
    ensures FeesNet(x, p, a) == 0 && EscrowNet(x, p, a) == 0 && SubmitNet(GasPrepaid, x, p, a) == 0
  {
  }

  lemma {:induction false} FundsOfCall(b: Balances, x: Amounts, p: Parties)
    requires Nothing(x)
    ensures SubmitStage(b, x, p, true) == GasPrepaid && FundsMoved(b, x, p, GasPrepaid, b)
  {
    NoBudget(x);
    forall a
      ensures FeesNet(x, p, a) == 0 && EscrowNet(x, p, a) == 0 && SubmitNet(GasPrepaid, x, p, a) == 0
    {
      NoNet(x, p, a);
    }
    NoNet(x, p, p.from);
  }

  ghost function Submitted(): World {
    Poor(map[0 := TicketTried(1)], [TicketCreated(0), ANNOUNCED])
  }

  lemma {:induction false} LogOfCall(x: Amounts)
    requires Nothing(x)
    ensures AutoRedeemLog(CALL, ENV, SENDER, 0, x) == ANNOUNCED
  {
    NoBudget(x);
  }

  lemma {:induction false} StoredByCall(x: Amounts)
    requires Nothing(x)
    ensures TicketStored(START.w, CALL, ENV, SENDER, 0, x, GasPrepaid, false, Submitted())
  {
    LogOfCall(x);
  }

  lemma {:induction false} CallSchedules()
    ensures Schedule(Submitted().logs, Submitted().tickets, ENV.chainId, ENV.baseFee) == [AUTOMATIC]
  {
    LastScheduled(TicketCreated(0), ANNOUNCED, AUTOMATIC, Submitted().tickets);
  }

  lemma {:induction false} LastScheduled(first: Log, log: Log, retry: TxRetry, tickets: map<TicketId, Ticket>)
    requires !first.RedeemScheduled? && ScheduleOne(log, tickets, ENV.chainId, ENV.baseFee) == Some(retry)
    ensures Schedule([first, log], tickets, ENV.chainId, ENV.baseFee) == [retry]
  {
    assert [first, log][..1] == [first] && [first][..0] == [];
    assert Schedule([first], tickets, ENV.chainId, ENV.baseFee) == [];
  }

  lemma {:induction false} CallCommits()
    ensures Waiting(1, [AUTOMATIC]) == Commit(START.(used := START.used + {0}), Submitted(), ENV)
  {
    CallSchedules();
    assert START.used + {0} == {0} && START.scheduled + [AUTOMATIC] == [AUTOMATIC];
  }

  lemma {:induction false} SubmitStep(clock: nat) returns (s: Step)
    ensures Next(clock, START, s, Waiting(1, [AUTOMATIC]))
  {
    assert Total(map[]) == 0;
    AmountsOfCall();
    var x := AmountsOf(CALL, ENV);
    FundsOfCall(map[], x, PartiesOf(CALL, ENV, SENDER, 0));
    StoredByCall(x);
    CallCommits();
    s := SubmitNext(clock, START, CALL, ENV, SENDER, 0, x, GasPrepaid, Submitted(), Waiting(1, [AUTOMATIC]));
  }

  // ------------------------------------------------------------------ the manual redeem

  ghost function Redeemed(): World {
    Redeem(Waiting(1, []).w, ENV, CALLER, 0, 21_000)
  }

  lemma {:induction false} RedeemCommits()
    ensures Commit(Waiting(1, [AUTOMATIC]).(w := Redeemed(), phase := User), Redeemed(), ENV) == Waiting(2, [AUTOMATIC, MANUAL])
  {
    RedeemSchedules();
    assert [AUTOMATIC] + [MANUAL] == [AUTOMATIC, MANUAL];
    assert Redeemed().tickets == map[0 := TicketTried(2)];
  }

  lemma {:induction false} RedeemSchedules()
    ensures Schedule(Redeemed().logs, Redeemed().tickets, ENV.chainId, ENV.baseFee) == [MANUAL]
  {
    var log := RedeemScheduled(0, MANUAL, 1, 21_000, CALLER, MAX_U256, 0);
    assert Redeemed().logs == [log] && Redeemed().tickets[0].numTries == 2;
    OneScheduled(log, MANUAL, Redeemed().tickets);
  }

  lemma {:induction false} OneScheduled(log: Log, retry: TxRetry, tickets: map<TicketId, Ticket>)
    requires ScheduleOne(log, tickets, ENV.chainId, ENV.baseFee) == Some(retry)
    ensures Schedule([log], tickets, ENV.chainId, ENV.baseFee) == [retry]
  {
    assert [log][..0] == [];
  }

  lemma {:induction false} RedeemSteps(clock: nat)
    ensures var m := Waiting(1, [AUTOMATIC]);
            && Next(clock, m, DoBeginUser, m.(phase := User))
            && Next(clock, m.(phase := User), DoRedeem(ENV, CALLER, 0, 21_000), m.(w := Redeemed(), phase := User))
            && Next(clock, m.(w := Redeemed(), phase := User), DoEndUser(ENV), Waiting(2, [AUTOMATIC, MANUAL]))
  {
    RedeemCommits();
  }

  // ------------------------------------------------------------------ the automatic redeem

  ghost function Done(): Machine {
    Machine(Poor(map[], []), 0, {0}, [AUTOMATIC, MANUAL], Idle)
  }

  ghost function Running(): Machine {
    var m := Waiting(2, [AUTOMATIC, MANUAL]);
    m.(phase := Retry(AUTOMATIC, m.w))
  }

  /** Without a price and without a submission fee nothing is refunded. */
  lemma {:induction false} NothingRefunded(b: Balances, tx: TxRetry, env: Env, success: bool, gasUsed: nat)
    requires gasUsed <= tx.gasLimit && tx.gasFeeCap == 0 && tx.submissionFeeRefund == 0
    ensures Settle(b, tx, env, success, gasUsed) == b
  {
    assert GasRefundOf(tx, env, gasUsed) == GasRefund(0, 0);
  }

  lemma {:induction false} StartStep(clock: nat)
    ensures Next(clock, Waiting(2, [AUTOMATIC, MANUAL]), DoBeginRetry(0, ENV), Running())
  {
  }

  lemma {:induction false} SuccessCommits(w: World)
    requires w == Poor(map[0 := TicketTried(2)], [])
    ensures Commit(Running(), Delete(w, 0), ENV) == Done()
  {
    assert Delete(w, 0) == Poor(map[], []);
    assert [AUTOMATIC, MANUAL] + [] == [AUTOMATIC, MANUAL];
  }

  /** A retry without a price ends in success. */
  lemma {:induction false} FreeSuccess(clock: nat, m: Machine, gas: GasResult, m': Machine) returns (s: Step)
    requires m.phase.Retry? && gas.limit == m.phase.tx.gasLimit && EnvOk(ENV, m.now)
    requires m.phase.tx.gasFeeCap == 0 && m.phase.tx.submissionFeeRefund == 0
    requires m' == Commit(m, Delete(m.w, m.phase.tx.ticket), ENV)
    ensures Next(clock, m, s, m')
  {
    NothingRefunded(m.w.balances, m.phase.tx, ENV, true, gas.Used());
    assert Settled(m, true, gas, ENV) == m.w;
    s := DoEndRetry(true, gas, ENV);
  }

  lemma {:induction false} RedeemedRun(clock: nat) returns (ms: seq<Machine>, steps: seq<Step>)
    ensures Run(clock, ms, steps) && ms[|steps|] == Waiting(2, [AUTOMATIC, MANUAL])
  {
    ms, steps := [START], [];
    assert Total(map[]) == 0;
    var s := SubmitStep(clock);
    var m := Waiting(1, [AUTOMATIC]);
    ms, steps := Extended(clock, ms, steps, s, m);
    RedeemSteps(clock);
    ms, steps := Extended(clock, ms, steps, DoBeginUser, m.(phase := User));
    ms, steps := Extended(clock, ms, steps, DoRedeem(ENV, CALLER, 0, 21_000), m.(w := Redeemed(), phase := User));
    ms, steps := Extended(clock, ms, steps, DoEndUser(ENV), Waiting(2, [AUTOMATIC, MANUAL]));
  }

  /** A complete run, under any clock, after which a queued retry can never start: its ticket is gone. */
  lemma {:induction false} LostRun(clock: nat) returns (ms: seq<Machine>, steps: seq<Step>)
    ensures Run(clock, ms, steps) && ms[|steps|].phase == Idle && ms[|steps|].scheduled == [AUTOMATIC, MANUAL]
    ensures EnvOk(ENV, ms[|steps|].now) && forall m' :: !Next(clock, ms[|steps|], DoBeginRetry(1, ENV), m')
  {
    ms, steps := RedeemedRun(clock);
    StartStep(clock);
    ms, steps := Extended(clock, ms, steps, DoBeginRetry(0, ENV), Running());
    SuccessCommits(Running().w);
    var s := FreeSuccess(clock, Running(), GAS, Done());
    ms, steps := Extended(clock, ms, steps, s, Done());
  }
}
