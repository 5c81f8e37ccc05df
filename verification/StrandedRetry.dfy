/**
 A network fee account that sends a retryable of its own and then puts the rest of its funds into the escrow of
 a second one: when the redeem of the first fails, the refund for unused gas is paid out of the very call value
 that has to go back to escrow.
 */
module StrandedRetry {
  import opened Words
  import opened Ledger
  import opened Journals
  import opened Submit
  import opened Retryables
  import opened RetrySettlement
  import opened Lifecycle
  import opened Scheduling

  const NETWORK: Address := Account(1)
  const REFUND: Address := Account(3)
  const OTHER: Address := Account(4)
  const ENV: Env := Env(1, 0, 1, 60, NETWORK, Account(2), 0)
  const CALL: SubmitCall := SubmitCall(0, 100_000, 10_000, 1, 30_000, 0, REFUND, REFUND, Some(OTHER), [])
  const AMOUNTS: Amounts := Amounts(100_000, 10_000, 0, 0, 30_000, 30_000, 0, 0)

  const SUBMITTED: Balances := map[NETWORK := 90_000, Escrow(0) := 10_000]

  /** The second submission, without gas for a redeem. */
  const SECOND: SubmitCall := SubmitCall(0, 0, 90_000, 1, 0, 0, REFUND, REFUND, Some(OTHER), [])
  const SECOND_AMOUNTS: Amounts := Amounts(0, 90_000, 0, 0, 0, 0, 0, 0)

  const SPENT: Balances := map[NETWORK := 0, Escrow(0) := 10_000, Escrow(1) := 90_000]

  const RETRY: TxRetry :=
    TxRetry(1, 0, NETWORK, 1, 30_000, Some(OTHER), 10_000, [], 0, REFUND, 90_000, 0)
  const TICKET: Ticket := Ticket(1, NETWORK, Some(OTHER), 10_000, REFUND, LIFETIME, 0, [])
  const TICKETS: map<TicketId, Ticket> := map[0 := TICKET]
  const BOTH: map<TicketId, Ticket> := map[0 := TICKET, 1 := Ticket(0, NETWORK, Some(OTHER), 90_000, REFUND, LIFETIME, 0, [])]

  const START: Machine := Machine(World(map[], map[], [], []), 0, {}, [], Idle)

  /** Gas of a frame that failed after a few instructions: 21004 of 30000 used. */
  const GAS: GasResult := GasResult(30_000, 8_996, 0, 0)

  // ------------------------------------------------------------------ the submission

  lemma {:induction false} AmountsOfCall()
    ensures AmountsOf(CALL, ENV) == AMOUNTS && AMOUNTS.MaxRefund() == 90_000
    ensures AMOUNTS.FeeRefund() == 0 && AMOUNTS.GasPriceRefund() == 0
  {
    assert SubmissionFee(0, 0) == 0;
  }

  lemma {:induction false} Totals()
    ensures Total(map[]) == 0 && Total(SUBMITTED) == 100_000 && Total(SPENT) == 100_000
  {
    var none: Balances := map[];
    var one := none[NETWORK := 90_000];
    TotalUpdate(none, NETWORK, 90_000);
    TotalUpdate(one, Escrow(0), 10_000);
    assert one[Escrow(0) := 10_000] == SUBMITTED;
    TotalUpdate(SUBMITTED, NETWORK, 0);
    TotalUpdate(SUBMITTED[NETWORK := 0], Escrow(1), 90_000);
    assert SUBMITTED[NETWORK := 0][Escrow(1) := 90_000] == SPENT;
  }

  lemma {:induction false} FirstNet(x: Amounts, p: Parties, a: Address)
    requires x.fee == x.infraCost == 0 && x.FeeRefund() == 0 && x.GasPriceRefund() == 0 && p.network == p.from
    ensures FeesNet(x, p, a) == At(a, p.from, x.deposit)
    ensures SubmitNet(GasPrepaid, x, p, a) == At(a, p.from, x.deposit - x.retryValue) + At(a, p.escrow, x.retryValue)
  {
  }

  /** A sender that is the network account pays the gas to itself. */
  lemma {:induction false} FundsOfFirst(b: Balances, x: Amounts, p: Parties, b': Balances)
    requires x.fee == x.maxFee == x.infraCost == 0 && x.FeeRefund() == 0 && x.GasPriceRefund() == 0
    requires p.network == p.from != p.escrow && x.retryValue + x.maxGasCost <= x.deposit
    requires forall a :: Get(b', a) == Get(b, a) + At(a, p.from, x.deposit - x.retryValue) + At(a, p.escrow, x.retryValue)
    requires Total(b') == Total(b) + x.deposit
    ensures SubmitStage(b, x, p, true) == GasPrepaid && FundsMoved(b, x, p, GasPrepaid, b')
  {
    FirstNet(x, p, p.from);
    forall a
      ensures SubmitNet(GasPrepaid, x, p, a) == At(a, p.from, x.deposit - x.retryValue) + At(a, p.escrow, x.retryValue)
    {
      FirstNet(x, p, a);
    }
  }

  lemma {:induction false} FundsOfCall()
    ensures SubmitStage(map[], AMOUNTS, PartiesOf(CALL, ENV, NETWORK, 0), true) == GasPrepaid
    ensures FundsMoved(map[], AMOUNTS, PartiesOf(CALL, ENV, NETWORK, 0), GasPrepaid, SUBMITTED)
  {
    AmountsOfCall();
    Totals();
    FundsOfFirst(map[], AMOUNTS, PartiesOf(CALL, ENV, NETWORK, 0), SUBMITTED);
  }

  ghost function Submitted(): World {
    World(SUBMITTED, TICKETS, [0], [TicketCreated(0), AutoRedeemLog(CALL, ENV, NETWORK, 0, AMOUNTS)])
  }

  lemma {:induction false} StoredByCall()
    ensures TicketStored(START.w, CALL, ENV, NETWORK, 0, AMOUNTS, GasPrepaid, false, Submitted())
  {
  }

  lemma {:induction false} CallSchedules()
    ensures Schedule(Submitted().logs, TICKETS, 1, 1) == [RETRY]
  {
    AmountsOfCall();
    StoredByCall();
    StoredSchedules(START.w, CALL, ENV, NETWORK, 0, AMOUNTS, Submitted());
  }

  lemma {:induction false} CallCommits()
    ensures SubmittedOne() == Commit(START.(used := START.used + {0}), Submitted(), ENV)
  {
    CallSchedules();
    assert START.used + {0} == {0} && START.scheduled + [RETRY] == [RETRY];
  }

  lemma {:induction false} SubmitStep(clock: nat) returns (s: Step)
    ensures Next(clock, START, s, SubmittedOne())
  {
    AmountsOfCall();
    Totals();
    FundsOfCall();
    StoredByCall();
    CallCommits();
    s := SubmitNext(clock, START, CALL, ENV, NETWORK, 0, AMOUNTS, GasPrepaid, Submitted(), SubmittedOne());
  }

  ghost function SubmittedOne(): Machine {
    Machine(World(SUBMITTED, TICKETS, [0], []), 0, {0}, [RETRY], Idle)
  }

  // ------------------------------------------------------------------ the second submission

  lemma {:induction false} AmountsOfSecond()
    ensures AmountsOf(SECOND, ENV) == SECOND_AMOUNTS
    ensures SECOND_AMOUNTS.FeeRefund() == 0 && SECOND_AMOUNTS.GasCostRefund() == 0
  {
    assert SubmissionFee(0, 0) == 0;
  }

  lemma {:induction false} SecondNet(x: Amounts, p: Parties, a: Address)
    requires x.deposit == x.fee == 0 && x.FeeRefund() == 0 && x.GasCostRefund() == 0
    ensures FeesNet(x, p, a) == 0
    ensures SubmitNet(TicketOnly, x, p, a) == At(a, p.escrow, x.retryValue) - At(a, p.from, x.retryValue)
  {
  }

  lemma {:induction false} FundsOfSecond(b: Balances, x: Amounts, p: Parties)
    requires x.deposit == x.fee == x.maxFee == 0 && x.FeeRefund() == 0 && x.GasCostRefund() == 0
    requires x.retryValue <= Get(b, p.from)
    ensures SubmitStage(b, x, p, false) == TicketOnly
    ensures FundsMoved(b, x, p, TicketOnly, Move(b, p.from, p.escrow, x.retryValue))
  {
    SecondNet(x, p, p.from);
    TotalMove(b, p.from, p.escrow, x.retryValue);
    forall a
      ensures SubmitNet(TicketOnly, x, p, a) == At(a, p.escrow, x.retryValue) - At(a, p.from, x.retryValue)
    {
      SecondNet(x, p, a);
    }
  }

  ghost function AfterSecond(w: World): World
    requires 90_000 <= Get(w.balances, NETWORK)
  {
    World(Move(w.balances, NETWORK, Escrow(1), 90_000), w.tickets[1 := BOTH[1]], w.queue + [1], [TicketCreated(1)])
  }

  lemma {:induction false} StoredBySecond(w: World)
    requires 90_000 <= Get(w.balances, NETWORK) && w.logs == []
    ensures TicketStored(w, SECOND, ENV, NETWORK, 1, SECOND_AMOUNTS, TicketOnly, false, AfterSecond(w))
  {
    assert w.logs + [TicketCreated(1)] + [] == [TicketCreated(1)];
  }

  /** The second submission, from any state in which the sender has the funds. */
  lemma {:induction false} SecondStep(clock: nat, m: Machine, m': Machine) returns (s: Step)
    requires m.phase == Idle && m.now == 0 && m.w.logs == [] && Total(m.w.balances) <= MAX_U256 && 1 !in m.used
    requires 90_000 <= Get(m.w.balances, NETWORK)
    requires m' == Commit(m.(used := m.used + {1}), AfterSecond(m.w), ENV)
    ensures Next(clock, m, s, m')
  {
    AmountsOfSecond();
    FundsOfSecond(m.w.balances, SECOND_AMOUNTS, PartiesOf(SECOND, ENV, NETWORK, 1));
    StoredBySecond(m.w);
    s := SubmitNext(clock, m, SECOND, ENV, NETWORK, 1, SECOND_AMOUNTS, TicketOnly, AfterSecond(m.w), m');
  }

  lemma {:induction false} SecondCommits()
    ensures SubmittedBoth() == Commit(SubmittedOne().(used := SubmittedOne().used + {1}), AfterSecond(SubmittedOne().w), ENV)
  {
    assert [TicketCreated(1)][..0] == [];
    assert Schedule([TicketCreated(1)], BOTH, 1, 1) == [];
    assert {0} + {1} == {0, 1} && [RETRY] + [] == [RETRY] && [0] + [1] == [0, 1];
    assert TICKETS[1 := BOTH[1]] == BOTH;
    assert Move(SUBMITTED, NETWORK, Escrow(1), 90_000) == SPENT;
  }

  // ------------------------------------------------------------------ the run

  ghost function SubmittedBoth(): Machine {
    Machine(World(SPENT, BOTH, [0, 1], []), 0, {0, 1}, [RETRY], Idle)
  }

  ghost function Released(): World {
    World(Move(SPENT, Escrow(0), NETWORK, 10_000), BOTH, [0, 1], [])
  }

  /** The retry has started: the sender holds nothing but the call value. */
  ghost function Started(): Machine {
    Machine(Released(), 0, {0, 1}, [RETRY], Retry(RETRY, Released()))
  }

  lemma {:induction false} StartStep(clock: nat)
    ensures Next(clock, SubmittedBoth(), DoBeginRetry(0, ENV), Started())
  {
    assert ReleaseCallvalue(SubmittedBoth().w, RETRY) == Released();
  }

  lemma {:induction false} ShortAfterwards()
    ensures Get(Settle(Released().balances, RETRY, ENV, false, 21_004), NETWORK) < 10_000
  {
    FailedReturnExact(Released().balances, RETRY, ENV, 21_004, 10_000);
  }

  /** A failed retry cannot end when its sender is short of the call value after the settlement. */
  lemma {:induction false} CannotEnd(clock: nat, m: Machine, gas: GasResult)
    requires m.phase.Retry? && gas.limit == m.phase.tx.gasLimit && m.phase.tx.ticket in m.phase.entry.tickets
    requires Get(Settle(m.phase.entry.balances, m.phase.tx, ENV, false, gas.Used()), m.phase.tx.from)
           < m.phase.entry.tickets[m.phase.tx.ticket].callvalue
    ensures forall m' :: !Next(clock, m, DoEndRetry(false, gas, ENV), m')
  {
  }

  lemma {:induction false} CannotReturn(clock: nat)
    ensures forall m' :: !Next(clock, Started(), DoEndRetry(false, GAS, ENV), m')
  {
    ShortAfterwards();
    CannotEnd(clock, Started(), GAS);
  }

  lemma {:induction false} FirstRun(clock: nat) returns (ms: seq<Machine>, steps: seq<Step>)
    ensures Run(clock, ms, steps) && ms[|steps|] == SubmittedOne()
  {
    ms, steps := [START], [];
    Totals();
    var s := SubmitStep(clock);
    ms, steps := Extended(clock, ms, steps, s, SubmittedOne());
  }

  lemma {:induction false} SecondAfterFirst(clock: nat) returns (s: Step)
    ensures Next(clock, SubmittedOne(), s, SubmittedBoth())
  {
    Totals();
    SecondCommits();
    s := SecondStep(clock, SubmittedOne(), SubmittedBoth());
  }

  lemma {:induction false} SubmittedRun(clock: nat) returns (ms: seq<Machine>, steps: seq<Step>)
    ensures Run(clock, ms, steps) && ms[|steps|] == SubmittedBoth()
  {
    ms, steps := FirstRun(clock);
    var s := SecondAfterFirst(clock);
    ms, steps := Extended(clock, ms, steps, s, SubmittedBoth());
  }

  /**
   A complete run, under any clock, that ends inside a retry whose frame has failed after using 21004 gas and
   which cannot end: the sender no longer has the call value.
   */
  lemma {:induction false} StrandedRun(clock: nat) returns (ms: seq<Machine>, steps: seq<Step>)
    ensures Run(clock, ms, steps) && ms[|steps|].phase == Retry(RETRY, ms[|steps|].w)
    ensures RETRY.gasLimit == GAS.limit >= TX_GAS && GAS.Used() > TX_GAS && EnvOk(ENV, ms[|steps|].now)
    ensures forall m' :: !Next(clock, ms[|steps|], DoEndRetry(false, GAS, ENV), m')
  {
    ms, steps := SubmittedRun(clock);
    StartStep(clock);
    ms, steps := Extended(clock, ms, steps, DoBeginRetry(0, ENV), Started());
    CannotReturn(clock);
  }
}
