/**
 The life of retryable tickets over whole runs: submissions, deposits, user transactions and retries with
 arbitrary frames and precompile calls inside, and block starts that reap expired tickets.

 A frame is arbitrary, and may mint and burn, except that it cannot take funds out of an escrow account, whose
 key nobody holds.  A reverted frame leaves no trace, so only surviving effects appear as steps; a failed retry
 restores the contents it started from.
 */
module Lifecycle {
  import opened Words
  import opened Ledger
  import opened Journals
  import opened Deposit
  import opened Submit
  import opened Retryables
  import opened RetrySettlement

  datatype Phase =
    | Idle
    | User
    | Retry(tx: TxRetry, entry: World)

  /** `used` are the ticket ids ever submitted, `scheduled` the retries ever queued. */
  datatype Machine = Machine(
    w: World,
    now: U64,
    used: set<TicketId>,
    scheduled: seq<TxRetry>,
    phase: Phase)
  {
    function Current(): Option<TicketId> {
      if phase.Retry? then Some(phase.tx.ticket) else None
    }
  }

  datatype Step =
    | DoSubmit(call: SubmitCall, env: Env, from: Address, ticket: TicketId, filter: Option<Address>,
               outcome: Outcome, after: World)
    | DoDeposit(to: Address, value: U256, balances: Balances)
    | DoBeginUser
    | DoEndUser(env: Env)
    | DoBeginRetry(index: nat, env: Env)
    | DoEndRetry(success: bool, gas: GasResult, env: Env)
    | DoFrame(balances: Balances)
    | DoRedeem(env: Env, caller: Address, ticket: TicketId, donatedGas: U64)
    | DoKeepalive(env: Env, ticket: TicketId)
    | DoCancel(env: Env, caller: Address, ticket: TicketId)
    | DoStartBlock(now: U64)

  /** Fee accounts are ordinary accounts. */
  predicate EnvOk(env: Env, now: U64) {
    env.timestamp == now && env.networkFeeAccount.Account? && env.infraFeeAccount.Account?
  }

  ghost predicate FrameEffect(b: Balances, b': Balances) {
    Total(b') <= MAX_U256 && forall id :: Get(b, Escrow(id)) <= Get(b', Escrow(id))
  }

  /** The end of a committed transaction: its logs are turned into queued retries. */
  function Commit(m: Machine, w: World, env: Env): Machine {
    m.(w := w.(logs := []),
    scheduled := m.scheduled + Schedule(w.logs, w.tickets, env.chainId, env.baseFee),
    phase := Idle)
  }

  /** Contents when a retry settles: a failed frame has been rolled back. */
  function Settled(m: Machine, success: bool, gas: GasResult, env: Env): World
    requires m.phase.Retry? && gas.limit == m.phase.tx.gasLimit
  {
    var w := if success then m.w else m.phase.entry;
    w.(balances := Settle(w.balances, m.phase.tx, env, success, gas.Used()))
  }

  ghost predicate Init(m: Machine, clock: nat) {
    && m.w.tickets == map[] && m.w.queue == [] && m.w.logs == [] && Total(m.w.balances) <= MAX_U256
    && m.now <= clock && m.used == {} && m.scheduled == [] && m.phase == Idle
  }

  /** One step; block timestamps never go back and never pass `clock`. */
  ghost predicate Next(clock: nat, m: Machine, s: Step, m': Machine) {
    match s
    case DoSubmit(call, env, from, ticket, filter, outcome, after) =>
      && m.phase == Idle && EnvOk(env, m.now) && from.Account? && ticket !in m.used
      && Total(m.w.balances) + call.deposit <= MAX_U256
      && SubmitSpec(m.w, call, env, from, ticket, filter, outcome, after)
      && m' == var m1 := m.(used := m.used + {ticket});
               if outcome.Created? then Commit(m1, after, env) else m1.(w := after.(logs := []))
    case DoDeposit(to, value, balances) =>
      && m.phase == Idle && Total(m.w.balances) + value <= MAX_U256
      && Deposited(m.w.balances, to, value, balances)
      && m' == m.(w := m.w.(balances := balances))
    case DoBeginUser => m.phase == Idle && m' == m.(phase := User)
    case DoEndUser(env) => m.phase == User && EnvOk(env, m.now) && m' == Commit(m, m.w, env)
    case DoBeginRetry(index, env) =>
      && m.phase == Idle && EnvOk(env, m.now) && index < |m.scheduled|
      && var tx := m.scheduled[index];
      && Live(m.w, tx.ticket, m.now, env.arbosVersion)
      && m.w.tickets[tx.ticket].callvalue <= Get(m.w.balances, Escrow(tx.ticket))
      && m' == m.(w := ReleaseCallvalue(m.w, tx), phase := Retry(tx, ReleaseCallvalue(m.w, tx)))
    case DoEndRetry(success, gas, env) =>
      && m.phase.Retry? && EnvOk(env, m.now) && gas.limit == m.phase.tx.gasLimit
      && var w := Settled(m, success, gas, env);
      if success then m' == Commit(m, Delete(w, m.phase.tx.ticket), env)
      else
        && m.phase.tx.ticket in w.tickets
        && w.tickets[m.phase.tx.ticket].callvalue <= Get(w.balances, m.phase.tx.from)
        && m' == m.(w := ReturnCallvalue(w, m.phase.tx), phase := Idle)
    case DoFrame(balances) =>
      && m.phase != Idle && FrameEffect(m.w.balances, balances)
      && m' == m.(w := m.w.(balances := balances))
    case DoRedeem(env, caller, ticket, donatedGas) =>
      && m.phase != Idle && EnvOk(env, m.now) && RedeemAllowed(m.w, ticket, m.now, env.arbosVersion, m.Current())
      && m' == m.(w := Redeem(m.w, env, caller, ticket, donatedGas))
    case DoKeepalive(env, ticket) =>
      && m.phase != Idle && EnvOk(env, m.now) && KeepaliveAllowed(m.w, ticket, m.now, env.arbosVersion)
      && m' == m.(w := Keepalive(m.w, ticket))
    case DoCancel(env, caller, ticket) =>
      && m.phase != Idle && EnvOk(env, m.now)
      && CancelAllowed(m.w, caller, ticket, m.now, env.arbosVersion, m.Current())
      && m' == m.(w := Cancel(m.w, ticket))
    case DoStartBlock(now) =>
      && m.phase == Idle && m.now <= now <= clock
      && m' == m.(w := Reap(Reap(m.w, now), now), now := now)
  }

  ghost predicate Run(clock: nat, ms: seq<Machine>, steps: seq<Step>) {
    && |ms| == |steps| + 1
    && Init(ms[0], clock)
    && forall i :: 0 <= i < |steps| ==> Next(clock, ms[i], steps[i], ms[i + 1])
  }

  /** The step of an unfiltered submission that creates a ticket. */
  lemma {:induction false} SubmitNext(clock: nat, m: Machine, call: SubmitCall, env: Env, from: Address, ticket: TicketId,
                                      x: Amounts, stage: Stage, after: World, m': Machine)
    returns (s: Step)
    requires m.phase == Idle && EnvOk(env, m.now) && from.Account? && ticket !in m.used
    requires Total(m.w.balances) + call.deposit <= MAX_U256 && stage in {TicketOnly, GasPrepaid}
    requires x == AmountsOf(call, env)
    requires stage == SubmitStage(m.w.balances, x, PartiesOf(call, env, from, ticket), GasAcceptable(call, env))
    requires FundsMoved(m.w.balances, x, PartiesOf(call, env, from, ticket), stage, after.balances)
    requires TicketStored(m.w, call, env, from, ticket, x, stage, false, after)
    requires m' == Commit(m.(used := m.used + {ticket}), after, env)
    ensures Next(clock, m, s, m')
  {
    s := DoSubmit(call, env, from, ticket, None, OutcomeOf(stage, call.gasLimit, false), after);
  }

  /** Gluing two consecutive stretches of a run. */
  lemma {:induction false} Glue(clock: nat, ms1: seq<Machine>, steps1: seq<Step>, ms2: seq<Machine>, steps2: seq<Step>)
    requires Run(clock, ms1, steps1) && |ms2| == |steps2| + 1 && ms1[|steps1|] == ms2[0]
    requires forall i :: 0 <= i < |steps2| ==> Next(clock, ms2[i], steps2[i], ms2[i + 1])
    ensures Run(clock, ms1 + ms2[1..], steps1 + steps2)
  {
    var ms, steps := ms1 + ms2[1..], steps1 + steps2;
    forall i | 0 <= i < |steps|
      ensures Next(clock, ms[i], steps[i], ms[i + 1])
    {
      if i >= |steps1| {
        assert ms[i] == ms2[i - |steps1|] && ms[i + 1] == ms2[i - |steps1| + 1];
        assert steps[i] == steps2[i - |steps1|];
      }
    }
  }

  lemma {:induction false} GlueOne(clock: nat, ms: seq<Machine>, steps: seq<Step>, s: Step, m': Machine)
    requires Run(clock, ms, steps) && Next(clock, ms[|steps|], s, m')
    ensures Run(clock, ms + [m'], steps + [s])
  {
    Glue(clock, ms, steps, [ms[|steps|], m'], [s]);
    assert [ms[|steps|], m'][1..] == [m'];
  }

  /** A run with one more step. */
  lemma {:induction false} Extended(clock: nat, ms: seq<Machine>, steps: seq<Step>, s: Step, m': Machine)
    returns (ms': seq<Machine>, steps': seq<Step>)
    requires Run(clock, ms, steps) && Next(clock, ms[|steps|], s, m')
    ensures Run(clock, ms', steps') && ms'[|steps'|] == m'
  {
    GlueOne(clock, ms, steps, s, m');
    ms', steps' := ms + [m'], steps + [s];
  }

  // ------------------------------------------------------------------ the invariant

  /** Stored tickets are known, sent by ordinary accounts, and (but for one) backed by their escrow. */
  ghost predicate TicketsOk(w: World, used: set<TicketId>, except: Option<TicketId>) {
    forall id :: id in w.tickets ==>
                   && id in used && w.tickets[id].from.Account?
                   && (except != Some(id) ==> w.tickets[id].callvalue <= Get(w.balances, Escrow(id)))
  }

  /** Queued retries agree with their stored ticket and have been counted by it. */
  ghost predicate ScheduledOk(w: World, used: set<TicketId>, scheduled: seq<TxRetry>) {
    forall i :: 0 <= i < |scheduled| ==>
                  && scheduled[i].ticket in used && scheduled[i].from.Account?
                  && (scheduled[i].ticket in w.tickets ==>
                        var t := w.tickets[scheduled[i].ticket];
                        scheduled[i].nonce < t.numTries && scheduled[i].from == t.from
                        && scheduled[i].value == t.callvalue)
  }

  /** No two queued retries share ticket and nonce. */
  ghost predicate Distinct(scheduled: seq<TxRetry>) {
    forall i, j :: 0 <= i < j < |scheduled| ==>
                     scheduled[i].ticket != scheduled[j].ticket || scheduled[i].nonce != scheduled[j].nonce
  }

  /** Redeem logs of one ticket appear in counting order. */
  ghost predicate Ordered(logs: seq<Log>) {
    forall k, l :: 0 <= k < l < |logs| && logs[k].RedeemScheduled? && logs[l].RedeemScheduled?
                   && logs[k].ticket == logs[l].ticket ==>
                     logs[k].sequence < logs[l].sequence || logs[l].sequence == MAX_U64
  }

  /** Redeem logs of the running transaction are newer than every queued retry and in counting order. */
  ghost predicate LogsOk(w: World, used: set<TicketId>, scheduled: seq<TxRetry>) {
    && (forall k :: 0 <= k < |w.logs| && w.logs[k].RedeemScheduled? ==>
                      && w.logs[k].ticket in used
                      && (w.logs[k].ticket in w.tickets ==>
                            var n := w.tickets[w.logs[k].ticket].numTries;
                            w.logs[k].sequence < n || n == MAX_U64))
    && (forall k, i :: 0 <= k < |w.logs| && 0 <= i < |scheduled| && w.logs[k].RedeemScheduled?
                       && w.logs[k].ticket == scheduled[i].ticket ==>
                         scheduled[i].nonce < w.logs[k].sequence)
    && Ordered(w.logs)
  }

  ghost predicate Inv(m: Machine) {
    && Total(m.w.balances) <= MAX_U256
    && Distinct(m.scheduled)
    && TicketsOk(m.w, m.used, m.Current())
    && ScheduledOk(m.w, m.used, m.scheduled)
    && LogsOk(m.w, m.used, m.scheduled)
    && match m.phase
       case Idle => m.w.logs == []
       case User => true
       case Retry(tx, entry) =>
         && Total(entry.balances) <= MAX_U256
         && TicketsOk(entry, m.used, m.Current()) && ScheduledOk(entry, m.used, m.scheduled) && entry.logs == []
         && tx.from.Account? && tx in m.scheduled
         && tx.ticket in entry.tickets && tx.ticket in m.w.tickets
         && entry.tickets[tx.ticket].callvalue <= Get(entry.balances, tx.from)
  }

  // ------------------------------------------------------------------ pieces of the step proofs

  /** Fee refunds conserve the total and never touch an escrow except to add to it. */
  lemma {:induction false} PayLegFacts(b: Balances, src: Address, dst: Address, amount: nat, keep: Address)
    requires keep != src
    ensures Total(PayLeg(b, src, dst, amount)) == Total(b)
    ensures Get(b, keep) <= Get(PayLeg(b, src, dst, amount), keep)
  {
    if 0 < amount <= Get(b, src) {
      TotalMove(b, src, dst, amount);
    }
  }

  lemma {:induction false} RefundLegsFacts(p: Purse, src: Address, amount: nat, refundTo: Address, from: Address, keep: Address)
    requires keep != src
    ensures Total(RefundLegs(p, src, amount, refundTo, from).balances) == Total(p.balances)
    ensures Get(p.balances, keep) <= Get(RefundLegs(p, src, amount, refundTo, from).balances, keep)
  {
    var budgeted := Min(amount, p.budget);
    PayLegFacts(p.balances, src, refundTo, budgeted, keep);
    PayLegFacts(PayLeg(p.balances, src, refundTo, budgeted), src, from, amount - budgeted, keep);
  }

  /** Settlement keeps the total, and every account that is not a fee account keeps at least its balance. */
  lemma {:induction false} SettleFacts(b: Balances, tx: TxRetry, env: Env, success: bool, gasUsed: nat, keep: Address)
    requires gasUsed <= tx.gasLimit
    requires keep != env.networkFeeAccount && keep != env.infraFeeAccount
    ensures Total(Settle(b, tx, env, success, gasUsed)) == Total(b)
    ensures Get(b, keep) <= Get(Settle(b, tx, env, success, gasUsed), keep)
  {
    var p0 := Purse(b, tx.maxRefund);
    var p1 := SettleFee(p0, tx, env, success);
    RefundLegsFacts(p0, env.networkFeeAccount, tx.submissionFeeRefund, tx.refundTo, tx.from, keep);
    var p2 := p1.(budget := Monus(p1.budget, SatMul(MAX_U256, tx.gasFeeCap, gasUsed)));
    var refund := GasRefundOf(tx, env, gasUsed);
    RefundLegsFacts(p2, env.infraFeeAccount, refund.infra, tx.refundTo, tx.from, keep);
    var p3 := if env.SplitsInfra()
    then RefundLegs(p2, env.infraFeeAccount, refund.infra, tx.refundTo, tx.from) else p2;
    RefundLegsFacts(p3, env.networkFeeAccount, refund.network, tx.refundTo, tx.from, keep);
  }

  lemma {:induction false} DeleteFacts(w: World, id: TicketId)
    ensures Total(Delete(w, id).balances) == Total(w.balances)
    ensures forall other :: other != id ==> Get(w.balances, Escrow(other)) <= Get(Delete(w, id).balances, Escrow(other))
  {
    if id in w.tickets && Get(w.balances, Escrow(id)) != 0 {
      TotalMove(w.balances, Escrow(id), w.tickets[id].beneficiary, Get(w.balances, Escrow(id)));
    }
  }

  lemma {:induction false} DeleteKeeps(w: World, id: TicketId, used: set<TicketId>, scheduled: seq<TxRetry>, except: Option<TicketId>)
    requires TicketsOk(w, used, except) && ScheduledOk(w, used, scheduled) && LogsOk(w, used, scheduled)
    ensures var d := Delete(w, id);
            TicketsOk(d, used, except) && ScheduledOk(d, used, scheduled) && LogsOk(d, used, scheduled)
  {
    DeleteFacts(w, id);
    var d := Delete(w, id);
    forall other | other in d.tickets
      ensures d.tickets[other] == w.tickets[other]
      ensures except != Some(other) ==> d.tickets[other].callvalue <= Get(d.balances, Escrow(other))
    {
    }
  }

  lemma {:induction false} ReapKeeps(w: World, now: U64, used: set<TicketId>, scheduled: seq<TxRetry>)
    requires TicketsOk(w, used, None) && ScheduledOk(w, used, scheduled) && LogsOk(w, used, scheduled)
    ensures var r := Reap(w, now);
            && Total(r.balances) == Total(w.balances) && r.logs == w.logs
            && TicketsOk(r, used, None) && ScheduledOk(r, used, scheduled) && LogsOk(r, used, scheduled)
  {
    if w.queue != [] && w.queue[0] in w.tickets {
      var popped, t := w.(queue := w.queue[1..]), w.tickets[w.queue[0]];
      if t.timeout < now && t.windowsLeft == 0 {
        DeleteFacts(popped, w.queue[0]);
        DeleteKeeps(popped, w.queue[0], used, scheduled, None);
      }
    }
  }

  // ------------------------------------------------------------------ scheduling

  /** Every retry queued from logs comes from a log that carries its ticket's latest count. */
  lemma {:induction false} ScheduleOrigin(logs: seq<Log>, tickets: map<TicketId, Ticket>, chainId: nat, baseFee: U64, i: nat)
    returns (k: nat)
    requires i < |Schedule(logs, tickets, chainId, baseFee)|
    ensures k < |logs| && Some(Schedule(logs, tickets, chainId, baseFee)[i]) == ScheduleOne(logs[k], tickets, chainId, baseFee)
  {
    var n := |logs| - 1;
    if i < |Schedule(logs[..n], tickets, chainId, baseFee)| {
      k := ScheduleOrigin(logs[..n], tickets, chainId, baseFee, i);
    } else {
      k := n;
    }
  }

  ghost predicate TicketsApart(s: seq<TxRetry>) {
    forall i, j :: 0 <= i < j < |s| ==> s[i].ticket != s[j].ticket
  }

  /** One committed transaction queues at most one retry per ticket. */
  lemma {:induction false} OnePerTicket(logs: seq<Log>, tickets: map<TicketId, Ticket>, chainId: nat, baseFee: U64)
    requires Ordered(logs)
    ensures TicketsApart(Schedule(logs, tickets, chainId, baseFee))
  {
    if logs != [] {
      var n := |logs| - 1;
      var s, s' := Schedule(logs, tickets, chainId, baseFee), Schedule(logs[..n], tickets, chainId, baseFee);
      OnePerTicket(logs[..n], tickets, chainId, baseFee);
      forall i, j | 0 <= i < j < |s|
        ensures s[i].ticket != s[j].ticket
      {
        if j == |s'| {
          var k := ScheduleOrigin(logs[..n], tickets, chainId, baseFee, i);
          assert s[i] == s'[i] && Some(s[j]) == ScheduleOne(logs[n], tickets, chainId, baseFee);
          assert logs[..n][k] == logs[k];
        } else {
          assert s[i] == s'[i] && s[j] == s'[j];
        }
      }
    }
  }

  lemma {:induction false} CommitKeeps(m: Machine, w: World, env: Env)
    requires Distinct(m.scheduled) && Total(w.balances) <= MAX_U256
    requires TicketsOk(w, m.used, None) && ScheduledOk(w, m.used, m.scheduled) && LogsOk(w, m.used, m.scheduled)
    ensures Inv(Commit(m, w, env))
  {
    var s := Schedule(w.logs, w.tickets, env.chainId, env.baseFee);
    OnePerTicket(w.logs, w.tickets, env.chainId, env.baseFee);
    forall i | 0 <= i < |s|
      ensures && s[i].ticket in m.used && s[i].ticket in w.tickets && s[i].from == w.tickets[s[i].ticket].from
              && s[i].value == w.tickets[s[i].ticket].callvalue && s[i].nonce < w.tickets[s[i].ticket].numTries
      ensures forall j :: 0 <= j < |m.scheduled| ==>
                            m.scheduled[j].ticket != s[i].ticket || m.scheduled[j].nonce != s[i].nonce
    {
      var k := ScheduleOrigin(w.logs, w.tickets, env.chainId, env.baseFee, i);
    }
    DistinctAppend(m.scheduled, s);
  }

  lemma {:induction false} DistinctAppend(a: seq<TxRetry>, b: seq<TxRetry>)
    requires Distinct(a) && Distinct(b)
    requires forall i, j :: 0 <= i < |a| && 0 <= j < |b| ==> a[i].ticket != b[j].ticket || a[i].nonce != b[j].nonce
    ensures Distinct(a + b)
  {
  }

  // ------------------------------------------------------------------ every step keeps the invariant

  /** A submission adds to escrow accounts only, and backs the ticket it creates. */
  lemma {:induction false} SubmitEscrows(b: Balances, x: Amounts, p: Parties, stage: Stage, b': Balances, id: TicketId)
    requires p.from.Account? && p.network.Account? && p.infra.Account?
    requires FundsMoved(b, x, p, stage, b')
    ensures Get(b, Escrow(id)) <= Get(b', Escrow(id))
    ensures stage in {TicketOnly, GasPrepaid} && p.escrow == Escrow(id) ==> x.retryValue <= Get(b', Escrow(id))
  {
    assert Get(b', Escrow(id)) == Get(b, Escrow(id)) + SubmitNet(stage, x, p, Escrow(id));
  }

  lemma {:induction false} SubmitKeeps(clock: nat, m: Machine, s: Step, m': Machine)
    requires Inv(m) && s.DoSubmit? && Next(clock, m, s, m')
    ensures Inv(m')
  {
    var m1, after := m.(used := m.used + {s.ticket}), s.after;
    var call := Redirect(s.call, s.filter);
    var x, p := AmountsOf(call, s.env), PartiesOf(call, s.env, s.from, s.ticket);
    var stage := SubmitStage(m.w.balances, x, p, GasAcceptable(call, s.env));
    SubmitWorldKeeps(m.w, m.used, m.scheduled, call, s.env, s.from, s.ticket, x, p, stage, s.filter.Some?, after);
    CommitKeeps(m1, after, s.env);
  }

  lemma {:induction false} SubmitWorldKeeps(w: World, used: set<TicketId>, scheduled: seq<TxRetry>, call: SubmitCall, env: Env,
                                            from: Address, ticket: TicketId, x: Amounts, p: Parties, stage: Stage, filtered: bool, after: World)
    requires TicketsOk(w, used, None) && ScheduledOk(w, used, scheduled) && w.logs == []
    requires ticket !in used && x.retryValue == call.retryValue
    requires from.Account? && p.network.Account? && p.infra.Account? && p.from == from && p.escrow == Escrow(ticket)
    requires FundsMoved(w.balances, x, p, stage, after.balances)
    requires TicketStored(w, call, env, from, ticket, x, stage, filtered, after)
    ensures TicketsOk(after, used + {ticket}, None)
    ensures ScheduledOk(after, used + {ticket}, scheduled)
    ensures LogsOk(after, used + {ticket}, scheduled)
  {
    forall id | id in after.tickets
      ensures after.tickets[id].callvalue <= Get(after.balances, Escrow(id))
    {
      SubmitEscrows(w.balances, x, p, stage, after.balances, id);
    }
    SubmitLogs(w, used, scheduled, call, env, from, ticket, x, stage, filtered, after);
  }

  /** The log of a submission belongs to a ticket that no queued retry knows yet. */
  lemma {:induction false} SubmitLogs(w: World, used: set<TicketId>, scheduled: seq<TxRetry>, call: SubmitCall, env: Env,
                                      from: Address, ticket: TicketId, x: Amounts, stage: Stage, filtered: bool, after: World)
    requires ScheduledOk(w, used, scheduled) && w.logs == [] && ticket !in used
    requires TicketStored(w, call, env, from, ticket, x, stage, filtered, after)
    ensures ScheduledOk(after, used + {ticket}, scheduled) && LogsOk(after, used + {ticket}, scheduled)
  {
  }

  lemma {:induction false} DepositKeeps(clock: nat, m: Machine, s: Step, m': Machine)
    requires Inv(m) && s.DoDeposit? && Next(clock, m, s, m')
    ensures Inv(m')
  {
    forall id
      ensures Get(m.w.balances, Escrow(id)) <= Get(m'.w.balances, Escrow(id))
    {
    }
  }

  lemma {:induction false} BeginRetryKeeps(clock: nat, m: Machine, s: Step, m': Machine)
    requires Inv(m) && s.DoBeginRetry? && Next(clock, m, s, m')
    ensures Inv(m')
  {
    var tx := m.scheduled[s.index];
    var callvalue := m.w.tickets[tx.ticket].callvalue;
    if callvalue != 0 {
      TotalMove(m.w.balances, Escrow(tx.ticket), tx.from, callvalue);
    }
  }

  lemma {:induction false} EndRetryKeeps(clock: nat, m: Machine, s: Step, m': Machine)
    requires Inv(m) && s.DoEndRetry? && Next(clock, m, s, m')
    ensures Inv(m')
  {
    var tx, env := m.phase.tx, s.env;
    var w := Settled(m, s.success, s.gas, env);
    var before := if s.success then m.w else m.phase.entry;
    forall id
      ensures Total(w.balances) == Total(before.balances)
      ensures Get(before.balances, Escrow(id)) <= Get(w.balances, Escrow(id))
    {
      SettleFacts(before.balances, tx, env, s.success, s.gas.Used(), Escrow(id));
    }
    if s.success {
      SuccessKeeps(m, w, env);
    } else {
      ReturnKeeps(w, tx, m.used);
    }
  }

  lemma {:induction false} SuccessKeeps(m: Machine, w: World, env: Env)
    requires m.phase.Retry? && Distinct(m.scheduled) && Total(w.balances) <= MAX_U256
    requires TicketsOk(w, m.used, m.Current()) && ScheduledOk(w, m.used, m.scheduled) && LogsOk(w, m.used, m.scheduled)
    ensures Inv(Commit(m, Delete(w, m.phase.tx.ticket), env))
  {
    DeleteKeeps(w, m.phase.tx.ticket, m.used, m.scheduled, m.Current());
    DeleteFacts(w, m.phase.tx.ticket);
    CommitKeeps(m, Delete(w, m.phase.tx.ticket), env);
  }

  lemma {:induction false} ReturnKeeps(w: World, tx: TxRetry, used: set<TicketId>)
    requires tx.ticket in w.tickets && w.tickets[tx.ticket].callvalue <= Get(w.balances, tx.from) && tx.from.Account?
    requires TicketsOk(w, used, Some(tx.ticket))
    ensures TicketsOk(ReturnCallvalue(w, tx), used, None)
    ensures Total(ReturnCallvalue(w, tx).balances) == Total(w.balances)
  {
    if w.tickets[tx.ticket].callvalue != 0 {
      TotalMove(w.balances, tx.from, Escrow(tx.ticket), w.tickets[tx.ticket].callvalue);
    }
  }

  lemma {:induction false} RedeemKeeps(w: World, env: Env, caller: Address, id: TicketId, donatedGas: U64, used: set<TicketId>,
                                       scheduled: seq<TxRetry>, except: Option<TicketId>)
    requires TicketsOk(w, used, except) && ScheduledOk(w, used, scheduled) && LogsOk(w, used, scheduled)
    requires id in w.tickets
    ensures var r := Redeem(w, env, caller, id, donatedGas);
            TicketsOk(r, used, except) && ScheduledOk(r, used, scheduled) && LogsOk(r, used, scheduled)
  {
  }

  lemma {:induction false} KeepaliveKeeps(w: World, id: TicketId, used: set<TicketId>, scheduled: seq<TxRetry>, except: Option<TicketId>)
    requires TicketsOk(w, used, except) && ScheduledOk(w, used, scheduled) && LogsOk(w, used, scheduled)
    requires id in w.tickets
    ensures var r := Keepalive(w, id);
            TicketsOk(r, used, except) && ScheduledOk(r, used, scheduled) && LogsOk(r, used, scheduled)
  {
  }

  lemma {:induction false} CallKeeps(clock: nat, m: Machine, s: Step, m': Machine)
    requires Inv(m) && (s.DoRedeem? || s.DoKeepalive?) && Next(clock, m, s, m')
    ensures Inv(m')
  {
    if s.DoRedeem? {
      RedeemKeeps(m.w, s.env, s.caller, s.ticket, s.donatedGas, m.used, m.scheduled, m.Current());
    } else {
      KeepaliveKeeps(m.w, s.ticket, m.used, m.scheduled, m.Current());
    }
  }

  lemma {:induction false} CancelKeeps(clock: nat, m: Machine, s: Step, m': Machine)
    requires Inv(m) && s.DoCancel? && Next(clock, m, s, m')
    ensures Inv(m')
  {
    DeleteKeeps(m.w, s.ticket, m.used, m.scheduled, m.Current());
    DeleteFacts(m.w, s.ticket);
  }

  lemma {:induction false} StartBlockKeeps(clock: nat, m: Machine, s: Step, m': Machine)
    requires Inv(m) && s.DoStartBlock? && Next(clock, m, s, m')
    ensures Inv(m')
  {
    ReapKeeps(m.w, s.now, m.used, m.scheduled);
    ReapKeeps(Reap(m.w, s.now), s.now, m.used, m.scheduled);
  }

  lemma {:induction false} StepKeeps(clock: nat, m: Machine, s: Step, m': Machine)
    requires Inv(m) && Next(clock, m, s, m')
    ensures Inv(m')
  {
    match s
    case DoSubmit(_, _, _, _, _, _, _) => SubmitKeeps(clock, m, s, m');
    case DoDeposit(_, _, _) => DepositKeeps(clock, m, s, m');
    case DoBeginUser =>
    case DoEndUser(env) => CommitKeeps(m, m.w, env);
    case DoBeginRetry(_, _) => BeginRetryKeeps(clock, m, s, m');
    case DoEndRetry(_, _, _) => EndRetryKeeps(clock, m, s, m');
    case DoFrame(_) =>
    case DoRedeem(_, _, _, _) => CallKeeps(clock, m, s, m');
    case DoKeepalive(_, _) => CallKeeps(clock, m, s, m');
    case DoCancel(_, _, _) => CancelKeeps(clock, m, s, m');
    case DoStartBlock(_) => StartBlockKeeps(clock, m, s, m');
  }

  lemma {:induction false} RunKeeps(clock: nat, ms: seq<Machine>, steps: seq<Step>, i: nat)
    requires Run(clock, ms, steps) && i < |ms|
    ensures Inv(ms[i])
  {
    if i > 0 {
      RunKeeps(clock, ms, steps, i - 1);
      StepKeeps(clock, ms[i - 1], steps[i - 1], ms[i]);
    }
  }

  // ------------------------------------------------------------------ safety over whole runs

  /** Between transactions every stored ticket is backed by its escrow account. */
  lemma {:induction false} EscrowBacking(clock: nat, ms: seq<Machine>, steps: seq<Step>, i: nat, id: TicketId)
    requires Run(clock, ms, steps) && i < |ms|
    requires ms[i].phase == Idle && id in ms[i].w.tickets
    ensures ms[i].w.tickets[id].callvalue <= Get(ms[i].w.balances, Escrow(id))
  {
    RunKeeps(clock, ms, steps, i);
  }

  /** Whenever a queued retry may start at all, its call value can be taken from escrow. */
  lemma {:induction false} RetryStartFunded(clock: nat, ms: seq<Machine>, steps: seq<Step>, i: nat, index: nat, env: Env)
    requires Run(clock, ms, steps) && i < |ms|
    requires ms[i].phase == Idle && index < |ms[i].scheduled| && EnvOk(env, ms[i].now)
    requires Live(ms[i].w, ms[i].scheduled[index].ticket, ms[i].now, env.arbosVersion)
    ensures exists m' :: Next(clock, ms[i], DoBeginRetry(index, env), m')
  {
    RunKeeps(clock, ms, steps, i);
    var m := ms[i];
    var w := ReleaseCallvalue(m.w, m.scheduled[index]);
    assert Next(clock, m, DoBeginRetry(index, env), m.(w := w, phase := Retry(m.scheduled[index], w)));
  }

  /** In every reachable state a queued retry can start exactly when its ticket is still alive. */
  lemma {:induction false} RetryStartsExactly(clock: nat, ms: seq<Machine>, steps: seq<Step>, i: nat, index: nat, env: Env)
    requires Run(clock, ms, steps) && i < |ms|
    requires ms[i].phase == Idle && index < |ms[i].scheduled| && EnvOk(env, ms[i].now)
    ensures (exists m' :: Next(clock, ms[i], DoBeginRetry(index, env), m')) <==>
            Live(ms[i].w, ms[i].scheduled[index].ticket, ms[i].now, env.arbosVersion)
  {
    if Live(ms[i].w, ms[i].scheduled[index].ticket, ms[i].now, env.arbosVersion) {
      RetryStartFunded(clock, ms, steps, i, index, env);
    }
  }

  /**
   A failed retry can always return the call value to escrow, provided its sender is not itself one of
   the accounts that pay the refunds.
   */
  lemma {:induction false} FailedRetryReturnsCallvalue(clock: nat, ms: seq<Machine>, steps: seq<Step>, i: nat, gas: GasResult, env: Env)
    requires Run(clock, ms, steps) && i < |ms|
    requires ms[i].phase.Retry? && EnvOk(env, ms[i].now) && gas.limit == ms[i].phase.tx.gasLimit
    requires ms[i].phase.tx.from !in {env.networkFeeAccount, env.infraFeeAccount}
    ensures exists m' :: Next(clock, ms[i], DoEndRetry(false, gas, env), m')
  {
    RunKeeps(clock, ms, steps, i);
    var m := ms[i];
    var tx, entry := m.phase.tx, m.phase.entry;
    SettleFacts(entry.balances, tx, env, false, gas.Used(), tx.from);
    var w := Settled(m, false, gas, env);
    assert Next(clock, m, DoEndRetry(false, gas, env), m.(w := ReturnCallvalue(w, tx), phase := Idle));
  }

  /** Over a whole run no two queued retries have the same ticket and nonce. */
  lemma {:induction false} RetriesDistinct(clock: nat, ms: seq<Machine>, steps: seq<Step>, i: nat, k: nat, l: nat)
    requires Run(clock, ms, steps) && i < |ms| && k < l < |ms[i].scheduled|
    ensures (ms[i].scheduled[k].ticket, ms[i].scheduled[k].nonce) != (ms[i].scheduled[l].ticket, ms[i].scheduled[l].nonce)
  {
    RunKeeps(clock, ms, steps, i);
  }

  /** A retry that can still run carries the sender and call value stored with its ticket. */
  lemma {:induction false} RetriesMatchTickets(clock: nat, ms: seq<Machine>, steps: seq<Step>, i: nat, k: nat)
    requires Run(clock, ms, steps) && i < |ms| && k < |ms[i].scheduled|
    requires ms[i].scheduled[k].ticket in ms[i].w.tickets
    ensures var tx, t := ms[i].scheduled[k], ms[i].w.tickets[ms[i].scheduled[k].ticket];
            tx.from == t.from && tx.value == t.callvalue && tx.nonce < t.numTries
  {
    RunKeeps(clock, ms, steps, i);
  }

  // ------------------------------------------------------------------ when the sender is a fee account

  /**
   The balance of a sender, other than the refund address, after one refund out of a fee account: `own` before
   it, `held` being what the fee account holds.
   */
  function SenderAfter(own: nat, held: nat, srcIsSender: bool, srcIsRefund: bool, amount: nat, budget: nat): nat {
    var budgeted := Min(amount, budget);
    var excess := amount - budgeted;
    if srcIsSender then Monus(own, if budgeted <= own then budgeted else 0)
    else if excess <= (if srcIsRefund || held < budgeted then held else held - budgeted) then own + excess
    else own
  }

  lemma {:induction false} SenderAfterLegs(p: Purse, src: Address, amount: nat, refundTo: Address, from: Address)
    requires refundTo != from && src != ZERO_ADDRESS
    ensures Get(RefundLegs(p, src, amount, refundTo, from).balances, from) ==
            SenderAfter(Get(p.balances, from), Get(p.balances, src), src == from, src == refundTo, amount, p.budget)
  {
    LegsPay(p, src, amount, refundTo, from, from);
  }

  /** The balance of a fee-account sender, other than the refund address, when its failed retry has settled. */
  function FailedSenderAfter(b: Balances, tx: TxRetry, env: Env, refund: GasRefund, budget: nat): nat {
    var own, infra, network := Get(b, tx.from), env.infraFeeAccount, env.networkFeeAccount;
    var infraBudgeted := if env.SplitsInfra() then Min(refund.infra, budget) else 0;
    var own1 := if env.SplitsInfra()
                then SenderAfter(own, Get(b, infra), infra == tx.from, infra == tx.refundTo, refund.infra, budget) else own;
    var held1 := Get(b, network) + if network == tx.refundTo && infraBudgeted <= own then infraBudgeted else 0;
    if network == ZERO_ADDRESS then own1
    else SenderAfter(own1, if network == tx.from then own1 else held1, network == tx.from, network == tx.refundTo,
                     refund.network, budget - infraBudgeted)
  }

  /** The refund budget of a failed retry once submission fee and gas used are taken off. */
  function FailedBudget(tx: TxRetry, gasUsed: nat): nat {
    Monus(Monus(tx.maxRefund, tx.submissionFeeRefund), SatMul(MAX_U256, tx.gasFeeCap, gasUsed))
  }

  /** The sender is one of the accounts that pay the refunds. */
  predicate PaysRefunds(env: Env, a: Address) {
    a == env.networkFeeAccount || (env.SplitsInfra() && a == env.infraFeeAccount)
  }

  /**
   Exactly when a failed retry can return the call value: its sender pays no refunds, or is also the refund
   address, or still holds the call value after the refunds it pays and receives, worked out from the
   balances before them.
   */
  lemma {:induction false} FailedReturnExact(b: Balances, tx: TxRetry, env: Env, gasUsed: nat, callvalue: nat)
    requires gasUsed <= tx.gasLimit && callvalue <= Get(b, tx.from)
    ensures callvalue <= Get(Settle(b, tx, env, false, gasUsed), tx.from) <==>
            || !PaysRefunds(env, tx.from)
            || tx.refundTo == tx.from
            || callvalue <= FailedSenderAfter(b, tx, env, GasRefundOf(tx, env, gasUsed), FailedBudget(tx, gasUsed))
  {
    var refund, p := GasRefundOf(tx, env, gasUsed), Purse(b, FailedBudget(tx, gasUsed));
    assert Settle(b, tx, env, false, gasUsed) == SettleGas(p, tx, env, refund).balances;
    if !PaysRefunds(env, tx.from) || tx.refundTo == tx.from {
      UnharmedSender(p, tx, env, refund);
    } else {
      SettledSender(p, tx, env, refund);
    }
  }

  /** In every reachable state a failed retry can end exactly under that condition. */
  lemma {:induction false} FailedRetryEndsExactly(clock: nat, ms: seq<Machine>, steps: seq<Step>, i: nat, gas: GasResult, env: Env)
    requires Run(clock, ms, steps) && i < |ms|
    requires ms[i].phase.Retry? && EnvOk(env, ms[i].now) && gas.limit == ms[i].phase.tx.gasLimit
    ensures var tx, b := ms[i].phase.tx, ms[i].phase.entry.balances;
            (exists m' :: Next(clock, ms[i], DoEndRetry(false, gas, env), m')) <==>
            || !PaysRefunds(env, tx.from)
            || tx.refundTo == tx.from
            || tx.value <= FailedSenderAfter(b, tx, env, GasRefundOf(tx, env, gas.Used()), FailedBudget(tx, gas.Used()))
  {
    RunKeeps(clock, ms, steps, i);
    var m := ms[i];
    var tx, w := m.phase.tx, Settled(m, false, gas, env);
    EntryMatches(m);
    FailedReturnExact(m.phase.entry.balances, tx, env, gas.Used(), tx.value);
    if tx.value <= Get(w.balances, tx.from) {
      assert Next(clock, m, DoEndRetry(false, gas, env), m.(w := ReturnCallvalue(w, tx), phase := Idle));
    }
  }

  /** A running retry carries the call value that was stored when it started, and its sender holds it. */
  lemma {:induction false} EntryMatches(m: Machine)
    requires Inv(m) && m.phase.Retry?
    ensures var tx, entry := m.phase.tx, m.phase.entry;
            tx.ticket in entry.tickets && tx.value == entry.tickets[tx.ticket].callvalue <= Get(entry.balances, tx.from)
  {
    var k :| 0 <= k < |m.scheduled| && m.scheduled[k] == m.phase.tx;
  }

  /** Who pays no refunds, or is refunded what it pays, loses nothing. */
  lemma {:induction false} UnharmedSender(p: Purse, tx: TxRetry, env: Env, refund: GasRefund)
    requires !PaysRefunds(env, tx.from) || tx.refundTo == tx.from
    ensures Get(p.balances, tx.from) <= Get(SettleGas(p, tx, env, refund).balances, tx.from)
  {
    GasPays(p, tx, env, refund, tx.from);
  }

  lemma {:induction false} SettledSender(p: Purse, tx: TxRetry, env: Env, refund: GasRefund)
    requires PaysRefunds(env, tx.from) && tx.refundTo != tx.from
    ensures Get(SettleGas(p, tx, env, refund).balances, tx.from) ==
            FailedSenderAfter(p.balances, tx, env, refund, p.budget)
  {
    var p1 := p;
    if env.SplitsInfra() {
      p1 := RefundLegs(p, env.infraFeeAccount, refund.infra, tx.refundTo, tx.from);
      SenderAfterLegs(p, env.infraFeeAccount, refund.infra, tx.refundTo, tx.from);
      LegsPay(p, env.infraFeeAccount, refund.infra, tx.refundTo, tx.from, env.networkFeeAccount);
    }
    if env.networkFeeAccount != ZERO_ADDRESS {
      SenderAfterLegs(p1, env.networkFeeAccount, refund.network, tx.refundTo, tx.from);
    }
  }
}
