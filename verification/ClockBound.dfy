/**
 The bounds on block time are the exact ones.  One second past the bound under which the two liveness tests
 agree there is a run in which a ticket is alive for keepalive and redeem but gone for cancel; one second past
 the bound under which tickets end within two lifetimes there is a run in which one can be kept alive further.
 */
module ClockBound {
  import opened Words
  import opened Ledger
  import opened Journals
  import opened Submit
  import opened Retryables
  import opened Lifecycle
  import opened Timekeeping

  const START: nat := MAX_U64 + 1 - 4 * LIFETIME
  const SENDER: Address := Account(9)

  function EnvAt(now: U64): Env {
    Env(1, now, 0, 60, Account(1), Account(2), 0)
  }

  const EMPTY_CALL: SubmitCall := SubmitCall(0, 0, 0, 0, 0, 0, SENDER, SENDER, None, [])

  /** An empty ticket submitted at `start` and kept alive `windows` times. */
  function TicketAt(start: nat, windows: U64): Ticket
    requires start + LIFETIME <= MAX_U64
  {
    Ticket(0, SENDER, None, 0, SENDER, start + LIFETIME, windows, [])
  }

  function TicketWith(windows: U64): Ticket {
    TicketAt(START, windows)
  }

  /** A machine of this run: no funds, no retries, nothing logged. */
  function Quiet(tickets: map<TicketId, Ticket>, queue: seq<TicketId>, now: U64, used: set<TicketId>): Machine {
    Machine(World(map[], tickets, queue, []), now, used, [], Idle)
  }

  lemma {:induction false} EmptyAmounts(env: Env)
    requires env.baseFee == 0 && env.minBaseFee == 0
    ensures AmountsOf(EMPTY_CALL, env) == Amounts(0, 0, 0, 0, 0, 0, 0, 0)
  {
    assert SubmissionFee(0, 0) == 0;
  }

  lemma {:induction false} EmptyFunds(b: Balances, x: Amounts, p: Parties)
    requires x == Amounts(0, 0, 0, 0, 0, 0, 0, 0)
    ensures SubmitStage(b, x, p, false) == TicketOnly
    ensures FundsMoved(b, x, p, TicketOnly, b)
  {
    EmptyBudget(x);
    forall a
      ensures FeesNet(x, p, a) == 0 && EscrowNet(x, p, a) == 0 && SubmitNet(TicketOnly, x, p, a) == 0
    {
      EmptyNet(x, p, a);
    }
    EmptyStage(b, x, p);
  }

  lemma {:induction false} EmptyBudget(x: Amounts)
    requires x == Amounts(0, 0, 0, 0, 0, 0, 0, 0)
    ensures x.FeeRefund() == 0 && x.GasCostRefund() == 0
  {
  }

  lemma {:induction false} EmptyNet(x: Amounts, p: Parties, a: Address)
    requires x.deposit == x.fee == x.retryValue == 0 && x.FeeRefund() == 0 && x.GasCostRefund() == 0
    ensures FeesNet(x, p, a) == 0 && EscrowNet(x, p, a) == 0 && SubmitNet(TicketOnly, x, p, a) == 0
  {
  }

  lemma {:induction false} EmptyStage(b: Balances, x: Amounts, p: Parties)
    requires x.maxFee == x.fee == x.deposit == x.retryValue == 0
    requires FeesNet(x, p, p.from) == 0
    ensures SubmitStage(b, x, p, false) == TicketOnly
  {
  }

  /** A transaction without a redeem log queues nothing. */
  lemma {:induction false} NothingScheduled(log: Log, tickets: map<TicketId, Ticket>)
    requires !log.RedeemScheduled?
    ensures Schedule([log], tickets, 1, 0) == []
  {
    assert [log][..0] == [];
  }

  lemma {:induction false} EmptyStored(w: World, w': World, start: U64, id: TicketId, x: Amounts)
    requires start + LIFETIME <= MAX_U64
    requires w' == World(w.balances, w.tickets[id := TicketAt(start, 0)], w.queue + [id], w.logs + [TicketCreated(id)])
    ensures TicketStored(w, EMPTY_CALL, EnvAt(start), SENDER, id, x, TicketOnly, false, w')
  {
    assert w.logs + [TicketCreated(id)] + [] == w.logs + [TicketCreated(id)];
  }

  /** The contents right after an empty submission. */
  function AfterSubmit(w: World, start: U64, id: TicketId): World
    requires start + LIFETIME <= MAX_U64
  {
    World(w.balances, w.tickets[id := TicketAt(start, 0)], w.queue + [id], [TicketCreated(id)])
  }

  lemma {:induction false} QuietCommits(m: Machine, start: U64, id: TicketId)
    requires start + LIFETIME <= MAX_U64 && m.phase == Idle
    ensures var w := AfterSubmit(m.w, start, id);
            Commit(m.(used := m.used + {id}), w, EnvAt(start)) == m.(w := w.(logs := []), used := m.used + {id})
  {
    NothingScheduled(TicketCreated(id), m.w.tickets[id := TicketAt(start, 0)]);
    assert m.scheduled + [] == m.scheduled;
  }

  lemma {:induction false} EmptySubmit(clock: nat, m: Machine, start: U64, id: TicketId, m': Machine) returns (s: Step)
    requires m.phase == Idle && m.now == start && m.w.logs == [] && Total(m.w.balances) <= MAX_U256
    requires id !in m.used && start + LIFETIME <= MAX_U64
    requires m' == Commit(m.(used := m.used + {id}), AfterSubmit(m.w, start, id), EnvAt(start))
    ensures Next(clock, m, s, m')
  {
    var env, x := EnvAt(start), Amounts(0, 0, 0, 0, 0, 0, 0, 0);
    EmptyAmounts(env);
    EmptyFunds(m.w.balances, x, PartiesOf(EMPTY_CALL, env, SENDER, id));
    EmptyStored(m.w, AfterSubmit(m.w, start, id), start, id, x);
    s := SubmitNext(clock, m, EMPTY_CALL, env, SENDER, id, x, TicketOnly, AfterSubmit(m.w, start, id), m');
  }

  /** An empty submission stores a ticket and nothing else. */
  lemma {:induction false} SubmitQuiet(clock: nat, start: U64, tickets: map<TicketId, Ticket>, queue: seq<TicketId>,
                                       used: set<TicketId>, id: TicketId)
    returns (s: Step)
    requires id !in used && start + LIFETIME <= MAX_U64
    ensures Next(clock, Quiet(tickets, queue, start, used), s,
                 Quiet(tickets[id := TicketAt(start, 0)], queue + [id], start, used + {id}))
  {
    var m := Quiet(tickets, queue, start, used);
    QuietCommits(m, start, id);
    s := EmptySubmit(clock, m, start, id, Quiet(tickets[id := TicketAt(start, 0)], queue + [id], start, used + {id}));
  }

  predicate KeptOnceMore(start: U64, windows: nat, now: U64)
    requires start + LIFETIME <= MAX_U64 && windows < MAX_U64
  {
    && Exists(TicketAt(start, windows), now, 60)
    && SaturatedTimeout(TicketAt(start, windows)) <= SatAdd(MAX_U64, now, LIFETIME)
  }

  /** After n lifetimes, a ticket with n windows may be kept alive once more. */
  lemma {:induction false} KeepaliveOpen(windows: nat, now: U64)
    requires windows < 3 && now == START + windows * LIFETIME
    ensures KeptOnceMore(START, windows, now)
  {
    if windows == 0 {
    } else if windows == 1 {
    } else {
    }
  }

  /** A user transaction that only calls keepalive; its third state is the one right after the call. */
  lemma {:induction false} KeepaliveQuiet(clock: nat, start: U64, tickets: map<TicketId, Ticket>, queue: seq<TicketId>,
                                          used: set<TicketId>, now: U64, id: TicketId, windows: nat)
    returns (ms: seq<Machine>, steps: seq<Step>)
    requires start + LIFETIME <= MAX_U64 && windows < MAX_U64 && id in tickets && tickets[id] == TicketAt(start, windows)
    requires KeptOnceMore(start, windows, now)
    ensures |ms| == 4 && |steps| == 3
    ensures ms[0] == Quiet(tickets, queue, now, used)
    ensures ms[3] == Quiet(tickets[id := TicketAt(start, windows + 1)], queue + [id], now, used)
    ensures ms[2].now == now && id in ms[2].w.tickets && ms[2].w.tickets[id] == TicketAt(start, windows + 1)
    ensures forall i :: 0 <= i < 3 ==> Next(clock, ms[i], steps[i], ms[i + 1])
  {
    var m, env := Quiet(tickets, queue, now, used), EnvAt(now);
    var m1 := m.(phase := User);
    var m2 := m1.(w := Keepalive(m1.w, id));
    NothingScheduled(m2.w.logs[0], m2.w.tickets);
    var m3 := Commit(m2, m2.w, env);
    assert m3.w.tickets == tickets[id := TicketAt(start, windows + 1)];
    ms, steps := [m, m1, m2, m3], [DoBeginUser, DoKeepalive(env, id), DoEndUser(env)];
    assert Next(clock, ms[0], steps[0], ms[1]);
    assert Next(clock, ms[1], steps[1], ms[2]);
    assert Next(clock, ms[2], steps[2], ms[3]);
  }

  /** Extends a run by one empty submission. */
  lemma {:induction false} SubmitMore(clock: nat, start: U64, ms: seq<Machine>, steps: seq<Step>, tickets: map<TicketId, Ticket>,
                                      queue: seq<TicketId>, used: set<TicketId>, id: TicketId)
    returns (ms': seq<Machine>, steps': seq<Step>)
    requires Run(clock, ms, steps) && ms[|steps|] == Quiet(tickets, queue, start, used)
    requires id !in used && start + LIFETIME <= MAX_U64
    ensures Run(clock, ms', steps')
    ensures ms'[|steps'|] == Quiet(tickets[id := TicketAt(start, 0)], queue + [id], start, used + {id})
  {
    var s := SubmitQuiet(clock, start, tickets, queue, used, id);
    var m := Quiet(tickets[id := TicketAt(start, 0)], queue + [id], start, used + {id});
    GlueOne(clock, ms, steps, s, m);
    ms', steps' := ms + [m], steps + [s];
  }

  /** Extends a run by a keepalive; state `i` is the one right after the call. */
  lemma {:induction false} KeepaliveMore(clock: nat, start: U64, ms: seq<Machine>, steps: seq<Step>, tickets: map<TicketId, Ticket>,
                                         queue: seq<TicketId>, used: set<TicketId>, now: U64, id: TicketId, windows: nat)
    returns (ms': seq<Machine>, steps': seq<Step>, i: nat)
    requires Run(clock, ms, steps) && ms[|steps|] == Quiet(tickets, queue, now, used)
    requires start + LIFETIME <= MAX_U64 && windows < MAX_U64 && id in tickets && tickets[id] == TicketAt(start, windows)
    requires KeptOnceMore(start, windows, now)
    ensures Run(clock, ms', steps')
    ensures ms'[|steps'|] == Quiet(tickets[id := TicketAt(start, windows + 1)], queue + [id], now, used)
    ensures i < |ms'| && ms'[i].now == now && id in ms'[i].w.tickets && ms'[i].w.tickets[id] == TicketAt(start, windows + 1)
  {
    var ks, ss := KeepaliveQuiet(clock, start, tickets, queue, used, now, id, windows);
    Glue(clock, ms, steps, ks, ss);
    ms', steps', i := ms + ks[1..], steps + ss, |ms| + 1;
  }

  /** Three tickets are submitted; the third will be kept alive. */
  lemma {:induction false} SubmitThree(clock: nat) returns (ms: seq<Machine>, steps: seq<Step>)
    requires START <= clock
    ensures Run(clock, ms, steps)
    ensures ms[|steps|] == Quiet(Three(0), [0, 1, 2], START, {0, 1, 2})
  {
    ms, steps := [Quiet(map[], [], START, {})], [];
    assert Total(map[]) == 0;
    ms, steps := SubmitMore(clock, START, ms, steps, map[], [], {}, 0);
    ms, steps := SubmitMore(clock, START, ms, steps, map[][0 := TicketWith(0)], [] + [0], {} + {0}, 1);
    ms, steps := SubmitMore(clock, START, ms, steps, map[][0 := TicketWith(0)][1 := TicketWith(0)], [] + [0] + [1], {} + {0} + {1}, 2);
    assert map[][0 := TicketWith(0)][1 := TicketWith(0)][2 := TicketWith(0)] == Three(0);
    assert [] + [0] + [1] + [2] == [0, 1, 2];
    assert {} + {0} + {1} + {2} == {0, 1, 2};
  }

  function Three(windows: U64): map<TicketId, Ticket> {
    map[0 := TicketWith(0), 1 := TicketWith(0), 2 := TicketWith(windows)]
  }

  lemma {:induction false} ThreeKept(windows: U64)
    requires windows < 3
    ensures Three(windows)[2 := TicketWith(windows + 1)] == Three(windows + 1)
  {
  }

  /** One lifetime after the start nothing has expired yet. */
  lemma {:induction false} FirstBlock(clock: nat)
    requires START + LIFETIME <= clock
    ensures Next(clock, Quiet(Three(1), [0, 1, 2, 2], START, {0, 1, 2}), DoStartBlock(START + LIFETIME),
                 Quiet(Three(1), [0, 1, 2, 2], START + LIFETIME, {0, 1, 2}))
  {
  }

  /** After the second lifetime the first two tickets are reaped; the third is third in the queue. */
  lemma {:induction false} SecondBlock(clock: nat)
    requires START + 2 * LIFETIME <= clock
    ensures Next(clock, Quiet(Three(2), [0, 1, 2, 2, 2], START + LIFETIME, {0, 1, 2}),
                 DoStartBlock(START + 2 * LIFETIME),
                 Quiet(map[2 := TicketWith(2)], [2, 2, 2], START + 2 * LIFETIME, {0, 1, 2}))
  {
    assert Three(2) - {0} == map[1 := TicketWith(0), 2 := TicketWith(2)];
    assert Three(2) - {0} - {1} == map[2 := TicketWith(2)];
    assert [0, 1, 2, 2, 2][1..] == [1, 2, 2, 2] && [1, 2, 2, 2][1..] == [2, 2, 2];
  }

  /** The first half: submissions and two keepalives around the first block start. */
  lemma {:induction false} TwiceKept(clock: nat) returns (ms: seq<Machine>, steps: seq<Step>)
    requires START + LIFETIME <= clock
    ensures Run(clock, ms, steps)
    ensures ms[|steps|] == Quiet(Three(2), [0, 1, 2, 2, 2], START + LIFETIME, {0, 1, 2})
  {
    var i;
    ms, steps := SubmitThree(clock);
    ThreeKept(0);
    KeepaliveOpen(0, START);
    ms, steps, i := KeepaliveMore(clock, START, ms, steps, Three(0), [0, 1, 2], {0, 1, 2}, START, 2, 0);
    assert [0, 1, 2] + [2] == [0, 1, 2, 2];
    FirstBlock(clock);
    var m := Quiet(Three(1), [0, 1, 2, 2], START + LIFETIME, {0, 1, 2});
    GlueOne(clock, ms, steps, DoStartBlock(START + LIFETIME), m);
    ms, steps := ms + [m], steps + [DoStartBlock(START + LIFETIME)];
    ThreeKept(1);
    KeepaliveOpen(1, START + LIFETIME);
    ms, steps, i := KeepaliveMore(clock, START, ms, steps, Three(1), [0, 1, 2, 2], {0, 1, 2}, START + LIFETIME, 2, 1);
    assert [0, 1, 2, 2] + [2] == [0, 1, 2, 2, 2];
  }

  /** A run that reaches block time `LAST_SAFE_TIME + 1` and a state in which the tests disagree. */
  lemma {:induction false} DisagreeingRun(clock: nat) returns (ms: seq<Machine>, steps: seq<Step>, i: nat)
    requires LAST_SAFE_TIME < clock
    ensures Run(clock, ms, steps) && i < |ms| && !TestsAgree(ms[i])
  {
    ms, steps := TwiceKept(clock);
    SecondBlock(clock);
    var m := Quiet(map[2 := TicketWith(2)], [2, 2, 2], START + 2 * LIFETIME, {0, 1, 2});
    GlueOne(clock, ms, steps, DoStartBlock(START + 2 * LIFETIME), m);
    ms, steps := ms + [m], steps + [DoStartBlock(START + 2 * LIFETIME)];
    KeepaliveOpen(2, START + 2 * LIFETIME);
    ms, steps, i := KeepaliveMore(clock, START, ms, steps, map[2 := TicketWith(2)], [2, 2, 2], {0, 1, 2}, START + 2 * LIFETIME, 2, 2);
    Disagree(START + 2 * LIFETIME);
  }

  lemma {:induction false} Disagree(now: U64)
    requires now == START + 2 * LIFETIME
    ensures Exists(TicketWith(3), now, 60) && !OpenExists(TicketWith(3), now, 60)
  {
  }

  /** The tests agree in every reachable state exactly when block time stays within the bound. */
  lemma {:induction false} TestsAgreeExactly(clock: nat)
    ensures (forall ms, steps, i :: Run(clock, ms, steps) && 0 <= i < |ms| ==> TestsAgree(ms[i]))
       <==> clock <= LAST_SAFE_TIME
  {
    if clock <= LAST_SAFE_TIME {
      forall ms, steps, i | Run(clock, ms, steps) && 0 <= i < |ms|
        ensures TestsAgree(ms[i])
      {
        SafeTimeTestsAgree(clock, ms, steps, i);
      }
    } else {
      var ms, steps, i := DisagreeingRun(clock);
    }
  }

  // ------------------------------------------------------------------ two lifetimes

  const LATE: nat := LAST_BOUNDED_TIME + 1

  lemma {:induction false} KeptForever(windows: nat)
    requires windows < 2
    ensures KeptOnceMore(LATE, windows, LATE)
  {
  }

  /** A run at a block time from which a lifetime reaches the largest word: keepalive has no limit any more. */
  lemma {:induction false} LongLivedRun(clock: nat) returns (ms: seq<Machine>, steps: seq<Step>, i: nat)
    requires LAST_BOUNDED_TIME < clock
    ensures Run(clock, ms, steps) && i < |ms| && 0 in ms[i].w.tickets
    ensures TrueTimeout(ms[i].w.tickets[0]) > ms[i].now + 2 * LIFETIME
  {
    ms, steps := [Quiet(map[], [], LATE, {})], [];
    assert Total(map[]) == 0;
    ms, steps := SubmitMore(clock, LATE, ms, steps, map[], [], {}, 0);
    var tickets: map<TicketId, Ticket>, queue: seq<TicketId>, used: set<TicketId> := map[][0 := TicketAt(LATE, 0)], [] + [0], {} + {0};
    KeptForever(0);
    ms, steps, i := KeepaliveMore(clock, LATE, ms, steps, tickets, queue, used, LATE, 0, 0);
    KeptForever(1);
    ms, steps, i := KeepaliveMore(clock, LATE, ms, steps, tickets[0 := TicketAt(LATE, 1)], queue + [0], used, LATE, 0, 1);
  }

  /** Every ticket ends within two lifetimes in every reachable state exactly when block time stays within the bound. */
  lemma {:induction false} TwoLifetimesExactly(clock: nat)
    ensures (forall ms, steps, i :: Run(clock, ms, steps) && 0 <= i < |ms| ==> WithinTwoLifetimes(ms[i]))
       <==> clock <= LAST_BOUNDED_TIME
  {
    if clock <= LAST_BOUNDED_TIME {
      forall ms, steps, i | Run(clock, ms, steps) && 0 <= i < |ms|
        ensures WithinTwoLifetimes(ms[i])
      {
        EndsWithinTwoLifetimes(clock, ms, steps, i);
      }
    } else {
      var ms, steps, i := LongLivedRun(clock);
      assert !WithinTwoLifetimes(ms[i]);
    }
  }
}
