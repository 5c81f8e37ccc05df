/**
 Timeouts, keepalive windows and the timeout queue over whole runs, block starts with their reaping
 included.
 */
module Timekeeping {
  import opened Words
  import opened Ledger
  import opened Journals
  import opened Submit
  import opened Retryables
  import opened RetrySettlement
  import opened Lifecycle

  /** The latest block time for which two more lifetimes still fit in 64 bits. */
  const LAST_SAFE_TIME: nat := MAX_U64 - 2 * LIFETIME

  /** The latest block time at which keepalive still compares with a time below the largest word. */
  const LAST_BOUNDED_TIME: nat := MAX_U64 - LIFETIME - 1

  /** More windows than fit into the two lifetimes that follow a 64-bit time. */
  const WINDOW_LIMIT: nat := (MAX_U64 + 2 * LIFETIME) / LIFETIME

  ghost predicate InTime(t: Ticket, now: nat) {
    t.timeout > 0 && TrueTimeout(t) <= now + 2 * LIFETIME
  }

  /** A stored ticket is queued once more than it has windows left. */
  ghost predicate QueueOk(w: World, used: set<TicketId>) {
    && (forall id :: id in w.queue ==> id in used)
    && (forall id :: id in w.tickets ==> id in used && multiset(w.queue)[id] == w.tickets[id].windowsLeft + 1)
  }

  ghost predicate AllInTime(w: World, now: nat) {
    now <= LAST_BOUNDED_TIME && forall id :: id in w.tickets ==> InTime(w.tickets[id], now)
  }

  ghost predicate WindowsWithin(w: World, n: nat) {
    forall id :: id in w.tickets ==> w.tickets[id].windowsLeft <= n
  }

  /** Queue and windows are in step; windows number at most `n`; if `bounded`, timeouts are within two lifetimes. */
  ghost predicate Timed(w: World, used: set<TicketId>, now: nat, n: nat, bounded: bool) {
    QueueOk(w, used) && WindowsWithin(w, n) && (bounded ==> AllInTime(w, now))
  }

  ghost predicate TimeInv(m: Machine, n: nat, bounded: bool) {
    && Timed(m.w, m.used, m.now, n, bounded)
    && (m.phase.Retry? ==> Timed(m.phase.entry, m.used, m.now, n, bounded))
  }

  // ------------------------------------------------------------------ single tickets

  /** Within the safe time nothing saturates and nothing wraps. */
  lemma {:induction false} TimeoutsExact(t: Ticket, now: nat)
    requires InTime(t, now) && now <= LAST_SAFE_TIME
    ensures SaturatedTimeout(t) == WrappedTimeout(t) == TrueTimeout(t)
  {
    assert t.windowsLeft * LIFETIME <= MAX_U64;
  }

  /** Reaping trades one window for one lifetime. */
  lemma {:induction false} ReapTicket(t: Ticket, now: nat)
    requires InTime(t, now) && t.timeout < now <= LAST_BOUNDED_TIME && t.windowsLeft > 0
    ensures var t' := t.(timeout := SatAdd(MAX_U64, t.timeout, LIFETIME), windowsLeft := t.windowsLeft - 1);
            TrueTimeout(t') == TrueTimeout(t) && InTime(t', now)
  {
    MulSplit(t.windowsLeft - 1, 1, LIFETIME);
  }

  /** A keepalive that is allowed adds one lifetime to a ticket that ends within one. */
  lemma {:induction false} KeepaliveTicket(t: Ticket, now: nat)
    requires t.timeout > 0 && now <= LAST_BOUNDED_TIME && t.windowsLeft < MAX_U64
    requires SaturatedTimeout(t) <= SatAdd(MAX_U64, now, LIFETIME)
    ensures var t' := t.(windowsLeft := t.windowsLeft + 1);
            InTime(t', now) && TrueTimeout(t') == SaturatedTimeout(t) + LIFETIME
  {
    MulSplit(t.windowsLeft, 1, LIFETIME);
    Unsaturated(t, now + LIFETIME);
  }

  lemma {:induction false} Unsaturated(t: Ticket, limit: nat)
    requires SaturatedTimeout(t) <= limit < MAX_U64
    ensures SaturatedTimeout(t) == TrueTimeout(t)
  {
  }

  lemma {:induction false} FewWindows(t: Ticket, now: nat)
    requires InTime(t, now) && now <= MAX_U64
    ensures t.windowsLeft <= WINDOW_LIMIT < MAX_U64
  {
  }

  // ------------------------------------------------------------------ single operations

  /** Same queue, and the same tickets up to what has no bearing on time. */
  ghost predicate Alike(w: World, w': World) {
    && w'.queue == w.queue && w'.tickets.Keys == w.tickets.Keys
    && forall id :: id in w.tickets ==>
                      w'.tickets[id].timeout == w.tickets[id].timeout
                      && w'.tickets[id].windowsLeft == w.tickets[id].windowsLeft
  }

  lemma {:induction false} AlikeKeepsTime(w: World, w': World, used: set<TicketId>, now: nat, n: nat, bounded: bool)
    requires Timed(w, used, now, n, bounded) && Alike(w, w')
    ensures Timed(w', used, now, n, bounded)
  {
    assert forall id :: id in w'.tickets ==> id in w.tickets && TrueTimeout(w'.tickets[id]) == TrueTimeout(w.tickets[id]);
  }

  lemma {:induction false} DeleteKeepsTime(w: World, id: TicketId, used: set<TicketId>, now: nat, n: nat, bounded: bool)
    requires Timed(w, used, now, n, bounded)
    ensures Timed(Delete(w, id), used, now, n, bounded)
  {
  }

  /** Popping the head of the queue takes one occurrence away. */
  lemma {:induction false} PopCount(q: seq<TicketId>, id: TicketId)
    requires q != []
    ensures multiset(q)[id] == multiset(q[1..])[id] + if id == q[0] then 1 else 0
  {
    assert q == [q[0]] + q[1..];
  }

  lemma {:induction false} ReapKeepsTime(w: World, used: set<TicketId>, now: U64, n: nat, bounded: bool)
    requires Timed(w, used, now, n, bounded)
    ensures Timed(Reap(w, now), used, now, n, bounded)
  {
    if w.queue != [] {
      var head := w.queue[0];
      if head !in w.tickets {
        DropKeepsTime(w, Reap(w, now), used, now, n, bounded);
      } else if w.tickets[head].timeout < now {
        if w.tickets[head].windowsLeft == 0 {
          DropKeepsTime(w, Reap(w, now), used, now, n, bounded);
        } else {
          WindowKeepsTime(w, Reap(w, now), used, now, n, bounded);
        }
      }
    }
  }

  lemma {:induction false} DropKeepsTime(w: World, r: World, used: set<TicketId>, now: U64, n: nat, bounded: bool)
    requires Timed(w, used, now, n, bounded) && w.queue != []
    requires r.queue == w.queue[1..] && r.tickets == w.tickets - {w.queue[0]}
    ensures Timed(r, used, now, n, bounded)
  {
    forall id | id in r.tickets
      ensures multiset(r.queue)[id] == r.tickets[id].windowsLeft + 1
    {
      PopCount(w.queue, id);
    }
    assert forall id :: id in r.queue ==> id in w.queue;
  }

  lemma {:induction false} WindowKeepsTime(w: World, r: World, used: set<TicketId>, now: U64, n: nat, bounded: bool)
    requires Timed(w, used, now, n, bounded) && w.queue != [] && w.queue[0] in w.tickets
    requires var t := w.tickets[w.queue[0]];
             && t.timeout < now && t.windowsLeft > 0 && r.queue == w.queue[1..]
             && r.tickets == w.tickets[w.queue[0] := t.(timeout := SatAdd(MAX_U64, t.timeout, LIFETIME),
                             windowsLeft := t.windowsLeft - 1)]
    ensures Timed(r, used, now, n, bounded)
  {
    if bounded {
      ReapTicket(w.tickets[w.queue[0]], now);
    }
    forall id | id in r.tickets
      ensures multiset(r.queue)[id] == r.tickets[id].windowsLeft + 1
    {
      PopCount(w.queue, id);
    }
    assert forall id :: id in r.queue ==> id in w.queue;
  }

  lemma {:induction false} KeepaliveKeepsTime(w: World, id: TicketId, used: set<TicketId>, now: U64, version: U64, n: nat, bounded: bool)
    requires Timed(w, used, now, n, bounded) && n < MAX_U64 && KeepaliveAllowed(w, id, now, version)
    ensures Timed(Keepalive(w, id), used, now, n + 1, bounded)
  {
    if bounded {
      KeepaliveTicket(w.tickets[id], now);
    }
  }

  /** Within the safe time, what keepalive logs is the true new timeout. */
  lemma {:induction false} KeepaliveLogsTruth(w: World, id: TicketId, now: U64, version: U64)
    requires now <= LAST_SAFE_TIME && KeepaliveAllowed(w, id, now, version) && w.tickets[id].windowsLeft < MAX_U64
    ensures var w' := Keepalive(w, id);
            w'.logs[|w'.logs| - 1] == LifetimeExtended(id, TrueTimeout(w'.tickets[id]))
  {
    KeepaliveTicket(w.tickets[id], now);
  }

  lemma {:induction false} SubmitKeepsTime(w: World, used: set<TicketId>, call: SubmitCall, env: Env, from: Address, ticket: TicketId,
                                           x: Amounts, stage: Stage, filtered: bool, after: World, n: nat, bounded: bool)
    requires Timed(w, used, env.timestamp, n, bounded) && ticket !in used
    requires TicketStored(w, call, env, from, ticket, x, stage, filtered, after)
    ensures Timed(after, used + {ticket}, env.timestamp, n, bounded)
  {
    if stage == TicketOnly || stage == GasPrepaid {
      NewKeepsTime(w, after, used, ticket, env.timestamp, n, bounded);
    }
  }

  lemma {:induction false} NewKeepsTime(w: World, w': World, used: set<TicketId>, ticket: TicketId, now: U64, n: nat, bounded: bool)
    requires Timed(w, used, now, n, bounded) && ticket !in used
    requires ticket in w'.tickets && w'.tickets == w.tickets[ticket := w'.tickets[ticket]] && w'.queue == w.queue + [ticket]
    requires w'.tickets[ticket].windowsLeft == 0 && w'.tickets[ticket].timeout == SatAdd(MAX_U64, now, LIFETIME)
    ensures Timed(w', used + {ticket}, now, n, bounded)
  {
    assert ticket !in w.queue;
    assert multiset(w'.queue) == multiset(w.queue) + multiset{ticket};
  }

  lemma {:induction false} LaterKeepsTime(w: World, used: set<TicketId>, now: nat, later: nat, n: nat, bounded: bool)
    requires Timed(w, used, now, n, bounded) && now <= later && (bounded ==> later <= LAST_BOUNDED_TIME)
    ensures Timed(w, used, later, n, bounded)
  {
  }

  // ------------------------------------------------------------------ steps

  lemma {:induction false} SubmitStepKeepsTime(clock: nat, m: Machine, s: Step, m': Machine, n: nat, bounded: bool)
    requires TimeInv(m, n, bounded) && s.DoSubmit? && Next(clock, m, s, m')
    ensures TimeInv(m', n, bounded)
  {
    var call := Redirect(s.call, s.filter);
    var x := AmountsOf(call, s.env);
    var stage := SubmitStage(m.w.balances, x, PartiesOf(call, s.env, s.from, s.ticket), GasAcceptable(call, s.env));
    SubmitKeepsTime(m.w, m.used, call, s.env, s.from, s.ticket, x, stage, s.filter.Some?, s.after, n, bounded);
    AlikeKeepsTime(s.after, m'.w, m'.used, m.now, n, bounded);
  }

  lemma {:induction false} EndRetryKeepsTime(clock: nat, m: Machine, s: Step, m': Machine, n: nat, bounded: bool)
    requires TimeInv(m, n, bounded) && s.DoEndRetry? && Next(clock, m, s, m')
    ensures TimeInv(m', n, bounded)
  {
    if s.success {
      var w := Settled(m, true, s.gas, s.env);
      AlikeKeepsTime(m.w, w, m.used, m.now, n, bounded);
      DeleteKeepsTime(w, m.phase.tx.ticket, m.used, m.now, n, bounded);
      AlikeKeepsTime(Delete(w, m.phase.tx.ticket), m'.w, m.used, m.now, n, bounded);
    } else {
      AlikeKeepsTime(m.phase.entry, m'.w, m.used, m.now, n, bounded);
    }
  }

  lemma {:induction false} CallKeepsTime(clock: nat, m: Machine, s: Step, m': Machine, n: nat, bounded: bool)
    requires TimeInv(m, n, bounded) && n < MAX_U64 && (s.DoKeepalive? || s.DoCancel?) && Next(clock, m, s, m')
    ensures TimeInv(m', n + 1, bounded)
  {
    if s.DoKeepalive? {
      KeepaliveKeepsTime(m.w, s.ticket, m.used, m.now, s.env.arbosVersion, n, bounded);
    } else {
      DeleteKeepsTime(m.w, s.ticket, m.used, m.now, n, bounded);
      AlikeKeepsTime(Delete(m.w, s.ticket), m'.w, m.used, m.now, n, bounded);
    }
  }

  lemma {:induction false} StartBlockKeepsTime(clock: nat, m: Machine, s: Step, m': Machine, n: nat, bounded: bool)
    requires TimeInv(m, n, bounded) && s.DoStartBlock? && Next(clock, m, s, m') && (bounded ==> clock <= LAST_BOUNDED_TIME)
    ensures TimeInv(m', n, bounded)
  {
    LaterKeepsTime(m.w, m.used, m.now, s.now, n, bounded);
    ReapKeepsTime(m.w, m.used, s.now, n, bounded);
    ReapKeepsTime(Reap(m.w, s.now), m.used, s.now, n, bounded);
  }

  /** The remaining steps leave timeouts, windows and queue alone. */
  lemma {:induction false} QuietStep(clock: nat, m: Machine, s: Step, m': Machine)
    requires Next(clock, m, s, m')
    requires s.DoDeposit? || s.DoBeginUser? || s.DoEndUser? || s.DoBeginRetry? || s.DoFrame? || s.DoRedeem?
    ensures Alike(m.w, m'.w) && m'.used == m.used && m'.now == m.now
    ensures m'.phase.Retry? ==> m'.phase.entry == m'.w || (m.phase.Retry? && m'.phase.entry == m.phase.entry)
  {
  }

  lemma {:induction false} StepKeepsTime(clock: nat, m: Machine, s: Step, m': Machine, n: nat, bounded: bool)
    requires TimeInv(m, n, bounded) && n < MAX_U64 && Next(clock, m, s, m') && (bounded ==> clock <= LAST_BOUNDED_TIME)
    ensures TimeInv(m', n + 1, bounded)
  {
    if s.DoSubmit? {
      SubmitStepKeepsTime(clock, m, s, m', n, bounded);
    } else if s.DoEndRetry? {
      EndRetryKeepsTime(clock, m, s, m', n, bounded);
    } else if s.DoKeepalive? || s.DoCancel? {
      CallKeepsTime(clock, m, s, m', n, bounded);
    } else if s.DoStartBlock? {
      StartBlockKeepsTime(clock, m, s, m', n, bounded);
    } else {
      QuietStep(clock, m, s, m');
      AlikeKeepsTime(m.w, m'.w, m.used, m.now, n, bounded);
    }
  }

  // ------------------------------------------------------------------ runs

  lemma {:induction false} WindowsFew(m: Machine, n: nat)
    requires TimeInv(m, n, true)
    ensures TimeInv(m, WINDOW_LIMIT, true)
  {
    forall id | id in m.w.tickets
      ensures m.w.tickets[id].windowsLeft <= WINDOW_LIMIT
    {
      FewWindows(m.w.tickets[id], m.now);
    }
    if m.phase.Retry? {
      forall id | id in m.phase.entry.tickets
        ensures m.phase.entry.tickets[id].windowsLeft <= WINDOW_LIMIT
      {
        FewWindows(m.phase.entry.tickets[id], m.now);
      }
    }
  }

  /** A bounded clock keeps the invariant over runs of any length. */
  lemma {:induction false} RunKeepsTime(clock: nat, ms: seq<Machine>, steps: seq<Step>, i: nat)
    requires clock <= LAST_BOUNDED_TIME && Run(clock, ms, steps) && i < |ms|
    ensures TimeInv(ms[i], WINDOW_LIMIT, true)
  {
    if i > 0 {
      RunKeepsTime(clock, ms, steps, i - 1);
      StepKeepsTime(clock, ms[i - 1], steps[i - 1], ms[i], WINDOW_LIMIT, true);
      WindowsFew(ms[i], WINDOW_LIMIT + 1);
    }
  }

  /** Under any clock, no ticket has had time to collect more windows than there were steps. */
  lemma {:induction false} RunKeepsQueue(clock: nat, ms: seq<Machine>, steps: seq<Step>, i: nat)
    requires Run(clock, ms, steps) && i < |ms| && i <= MAX_U64
    ensures TimeInv(ms[i], i, false)
  {
    if i > 0 {
      RunKeepsQueue(clock, ms, steps, i - 1);
      StepKeepsTime(clock, ms[i - 1], steps[i - 1], ms[i], i - 1, false);
    }
  }

  // ------------------------------------------------------------------ results

  /**
   In every reachable state a ticket is queued once more than it has windows left: under any clock for the
   first 2^64 - 1 steps, before which the count of windows cannot saturate, and for ever under a bounded clock.
   */
  lemma {:induction false} WindowsMatchQueue(clock: nat, ms: seq<Machine>, steps: seq<Step>, i: nat, id: TicketId)
    requires Run(clock, ms, steps) && i < |ms| && id in ms[i].w.tickets
    requires i <= MAX_U64 || clock <= LAST_BOUNDED_TIME
    ensures multiset(ms[i].w.queue)[id] == ms[i].w.tickets[id].windowsLeft + 1
  {
    if i <= MAX_U64 {
      RunKeepsQueue(clock, ms, steps, i);
    } else {
      RunKeepsTime(clock, ms, steps, i);
    }
  }

  ghost predicate WithinTwoLifetimes(m: Machine) {
    forall id :: id in m.w.tickets ==> TrueTimeout(m.w.tickets[id]) <= m.now + 2 * LIFETIME
  }

  /** In every reachable state under a bounded clock every ticket ends within two lifetimes. */
  lemma {:induction false} EndsWithinTwoLifetimes(clock: nat, ms: seq<Machine>, steps: seq<Step>, i: nat)
    requires clock <= LAST_BOUNDED_TIME && Run(clock, ms, steps) && i < |ms|
    ensures WithinTwoLifetimes(ms[i])
  {
    RunKeepsTime(clock, ms, steps, i);
  }

  /** The saturating and the wrapping liveness test of a ticket give the same answer at every version. */
  ghost predicate TestsAgree(m: Machine) {
    forall id, version: U64 :: id in m.w.tickets ==>
                                 (Exists(m.w.tickets[id], m.now, version) <==> OpenExists(m.w.tickets[id], m.now, version))
  }

  lemma {:induction false} SafeTimeTestsAgree(clock: nat, ms: seq<Machine>, steps: seq<Step>, i: nat)
    requires clock <= LAST_SAFE_TIME && Run(clock, ms, steps) && i < |ms|
    ensures TestsAgree(ms[i])
    ensures forall id :: id in ms[i].w.tickets ==>
                           SaturatedTimeout(ms[i].w.tickets[id]) == WrappedTimeout(ms[i].w.tickets[id])
                        == TrueTimeout(ms[i].w.tickets[id])
  {
    RunKeepsTime(clock, ms, steps, i);
    NowWithin(clock, ms, steps, i);
    forall id | id in ms[i].w.tickets
      ensures SaturatedTimeout(ms[i].w.tickets[id]) == WrappedTimeout(ms[i].w.tickets[id])
           == TrueTimeout(ms[i].w.tickets[id])
    {
      TimeoutsExact(ms[i].w.tickets[id], ms[i].now);
    }
  }

  lemma {:induction false} NowWithin(clock: nat, ms: seq<Machine>, steps: seq<Step>, i: nat)
    requires Run(clock, ms, steps) && i < |ms|
    ensures ms[i].now <= clock
  {
    if i > 0 {
      NowWithin(clock, ms, steps, i - 1);
    }
  }
}
