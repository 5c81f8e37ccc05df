/**
 The transaction loop of a block: user transactions first, the retries they and other retries schedule
 queued behind.  It terminates for every message because a retry can only donate gas that it has itself
 been charged for, which is what the gas arithmetic of redeem guarantees.
 */
module Executor {
  import opened Words
  import opened Ledger
  import opened Journals
  import opened Retryables
  import opened RedeemGas

  datatype Tx =
    | UserTx(id: nat, supported: bool)
    | RetryTx(retry: TxRetry)

  /**
   Gas-relevant events of a committed execution: plain consumption, redeem calls with the retry they announce,
   and the log of a submission's automatic redeem.
   */
  datatype GasEvent =
    | Burn(gas: nat)
    | RedeemEvent(args: RedeemArgs, ticket: TicketId, retry: TxRetry, sequence: U64, donor: Address)
    | SubmitEvent(log: Log)
  {
    /** What the event costs the transaction; the cost of a redeem that fails is a burn of its own. */
    function Cost(): nat {
      match this
      case Burn(gas) => gas
      case RedeemEvent(args, _, _, _, _) => if args.Succeeds() then args.Charged() else 0
      case SubmitEvent(_) => 0
    }

    function LogOf(): Option<Log> {
      match this
      case Burn(_) => None
      case RedeemEvent(args, ticket, retry, sequence, donor) =>
        if args.Succeeds() then Some(RedeemScheduled(ticket, retry, sequence, args.Donated(), donor, MAX_U256, 0)) else None
      case SubmitEvent(log) => Some(log)
    }
  }

  /** `tickets` are the stored tickets after the transaction is committed. */
  datatype TxRun =
    | Aborted
    | Ran(success: bool, intrinsic: nat, events: seq<GasEvent>, tickets: map<TicketId, Ticket>)

  datatype TxExecution = TxExecution(tx: Tx, success: bool)

  /** `txs` are the executed transactions in order, with their success. */
  datatype Outcome = Outcome(txs: seq<TxExecution>, executed: nat, skipped: nat, scheduled: nat, aborted: bool)

  function Spent(events: seq<GasEvent>): nat {
    if events == [] then 0 else Spent(events[..|events| - 1]) + events[|events| - 1].Cost()
  }

  function LogsOf(events: seq<GasEvent>): seq<Log> {
    if events == [] then []
    else
      var log := events[|events| - 1].LogOf();
      LogsOf(events[..|events| - 1]) + (if log.Some? then [log.value] else [])
  }

  predicate NothingSubmitted(events: seq<GasEvent>) {
    forall i :: 0 <= i < |events| ==> !events[i].SubmitEvent?
  }

  /** A retry pays its positive intrinsic gas and all its events out of its gas limit, and submits nothing. */
  predicate ValidRun(tx: Tx, run: TxRun) {
    run.Ran? && tx.RetryTx? ==>
      && 0 < run.intrinsic && run.intrinsic + Spent(run.events) <= tx.retry.gasLimit
      && NothingSubmitted(run.events)
  }

  // ------------------------------------------------------------------ gas bounds

  function GasOf(retries: seq<TxRetry>): nat {
    if retries == [] then 0 else GasOf(retries[..|retries| - 1]) + retries[|retries| - 1].gasLimit
  }

  /**
   Retries scheduled from a transaction's logs carry no more gas than the transaction spent, because a redeem
   is charged more than it donates.
   */
  lemma {:induction false} DonationsWithinSpent(events: seq<GasEvent>, tickets: map<TicketId, Ticket>, chainId: nat, baseFee: U64)
    requires NothingSubmitted(events)
    ensures GasOf(Schedule(LogsOf(events), tickets, chainId, baseFee)) <= Spent(events)
  {
    if events != [] {
      var n := |events| - 1;
      DonationsWithinSpent(events[..n], tickets, chainId, baseFee);
      var log := events[n].LogOf();
      if log.Some? {
        ChargeExceedsDonation(events[n].args);
        ScheduleOneMore(LogsOf(events[..n]), log.value, tickets, chainId, baseFee);
      } else {
        assert LogsOf(events) == LogsOf(events[..n]);
      }
    }
  }

  /** One more log schedules at most the gas it donates. */
  lemma {:induction false} ScheduleOneMore(logs: seq<Log>, log: Log, tickets: map<TicketId, Ticket>, chainId: nat, baseFee: U64)
    requires log.RedeemScheduled?
    ensures GasOf(Schedule(logs + [log], tickets, chainId, baseFee)) <=
            GasOf(Schedule(logs, tickets, chainId, baseFee)) + log.donatedGas
  {
    var more, s := ScheduleOne(log, tickets, chainId, baseFee), Schedule(logs, tickets, chainId, baseFee);
    assert (logs + [log])[..|logs|] == logs;
    if more.Some? {
      assert (s + [more.value])[..|s|] == s;
    } else {
      assert s + [] == s;
    }
  }

  /** Users still waiting and gas still held by queued retries: the measure of the loop. */
  function Users(queue: seq<Tx>): nat {
    if queue == [] then 0 else Users(queue[..|queue| - 1]) + (if queue[|queue| - 1].UserTx? then 1 else 0)
  }

  function QueuedGas(queue: seq<Tx>): nat {
    if queue == [] then 0
    else QueuedGas(queue[..|queue| - 1]) + (if queue[|queue| - 1].RetryTx? then queue[|queue| - 1].retry.gasLimit else 0)
  }

  lemma {:induction false} PopMeasure(queue: seq<Tx>)
    requires queue != []
    ensures Users(queue) == Users(queue[1..]) + (if queue[0].UserTx? then 1 else 0)
    ensures QueuedGas(queue) == QueuedGas(queue[1..]) + (if queue[0].RetryTx? then queue[0].retry.gasLimit else 0)
  {
    if |queue| > 1 {
      var n := |queue| - 1;
      PopMeasure(queue[..n]);
      assert queue[..n][1..] == queue[1..][..n - 1];
    }
  }

  function AsTxs(retries: seq<TxRetry>): seq<Tx> {
    if retries == [] then [] else AsTxs(retries[..|retries| - 1]) + [RetryTx(retries[|retries| - 1])]
  }

  method PushRetries(queue: seq<Tx>, retries: seq<TxRetry>) returns (queue': seq<Tx>)
    ensures queue' == queue + AsTxs(retries)
    ensures Users(queue') == Users(queue)
    ensures QueuedGas(queue') == QueuedGas(queue) + GasOf(retries)
  {
    queue' := queue;
    for i := 0 to |retries|
      invariant queue' == queue + AsTxs(retries[..i])
      invariant Users(queue') == Users(queue)
      invariant QueuedGas(queue') == QueuedGas(queue) + GasOf(retries[..i])
    {
      assert (queue' + [RetryTx(retries[i])])[..|queue'|] == queue';
      assert retries[..i + 1][..i] == retries[..i];
      queue' := queue' + [RetryTx(retries[i])];
    }
    assert retries[..|retries|] == retries;
  }

  // ------------------------------------------------------------------ what is executed, in which order

  /** Everything but the user transactions that have no form to execute. */
  function Runnable(txs: seq<Tx>): seq<Tx> {
    if txs == [] then []
    else (if txs[0].UserTx? && !txs[0].supported then [] else [txs[0]]) + Runnable(txs[1..])
  }

  function Unsupported(txs: seq<Tx>): nat {
    if txs == [] then 0 else (if txs[0].UserTx? && !txs[0].supported then 1 else 0) + Unsupported(txs[1..])
  }

  lemma {:induction false} RunnableAppend(a: seq<Tx>, b: seq<Tx>)
    ensures Runnable(a + b) == Runnable(a) + Runnable(b) && Unsupported(a + b) == Unsupported(a) + Unsupported(b)
  {
    if a == [] {
      assert a + b == b;
    } else {
      assert (a + b)[1..] == a[1..] + b;
      RunnableAppend(a[1..], b);
    }
  }

  lemma {:induction false} RetriesRunnable(retries: seq<TxRetry>)
    ensures Runnable(AsTxs(retries)) == AsTxs(retries) && Unsupported(AsTxs(retries)) == 0
  {
    if retries != [] {
      var n := |retries| - 1;
      RetriesRunnable(retries[..n]);
      RunnableAppend(AsTxs(retries[..n]), [RetryTx(retries[n])]);
    }
  }

  lemma {:induction false} AsTxsAppend(a: seq<TxRetry>, b: seq<TxRetry>)
    ensures AsTxs(a + b) == AsTxs(a) + AsTxs(b)
  {
    if b == [] {
      assert a + b == a;
    } else {
      var n := |b| - 1;
      assert (a + b)[..|a| + n] == a + b[..n];
      AsTxsAppend(a, b[..n]);
    }
  }

  /** What every execution of a message shares: the interpreter, and the values read for scheduling. */
  datatype Block = Block(evm: (Tx, nat) -> TxRun, commits: bool, chainId: nat, baseFee: U64)
  {
    /** The retries that the run of the n-th executed transaction queues: those of its logs, if it is committed and succeeds. */
    function QueuedBy(tx: Tx, n: nat): (retries: seq<TxRetry>)
      ensures |retries| > 0 ==> commits && evm(tx, n).Ran? && evm(tx, n).success
    {
      var run := evm(tx, n);
      if commits && run.Ran? && run.success then Schedule(LogsOf(run.events), run.tickets, chainId, baseFee) else []
    }

    /** All retries queued by a sequence of executed transactions, in order. */
    function Queued(ran: seq<Tx>): seq<TxRetry> {
      if ran == [] then [] else Queued(ran[..|ran| - 1]) + QueuedBy(ran[|ran| - 1], |ran| - 1)
    }
  }

  function TxsOf(txs: seq<TxExecution>): seq<Tx> {
    if txs == [] then [] else TxsOf(txs[..|txs| - 1]) + [txs[|txs| - 1].tx]
  }

  lemma {:induction false} TxsAt(txs: seq<TxExecution>, i: nat)
    ensures |TxsOf(txs)| == |txs| && (i < |txs| ==> TxsOf(txs)[i] == txs[i].tx)
  {
    if txs != [] {
      TxsAt(txs[..|txs| - 1], i);
    }
  }

  /** Every recorded transaction ran, and with the recorded success. */
  ghost predicate Recorded(b: Block, txs: seq<TxExecution>) {
    forall i :: 0 <= i < |txs| ==> b.evm(txs[i].tx, i).Ran? && b.evm(txs[i].tx, i).success == txs[i].success
  }

  // ------------------------------------------------------------------ the loop

  /** The queue when `txs` have been executed: what is left of the users, then of the retries queued so far. */
  ghost predicate InOrder(b: Block, users: seq<Tx>, txs: seq<TxExecution>, queue: seq<Tx>) {
    TxsOf(txs) + Runnable(queue) == Runnable(users) + AsTxs(b.Queued(TxsOf(txs)))
  }

  ghost predicate Progress(b: Block, users: seq<Tx>, out: Outcome, queue: seq<Tx>) {
    && !out.aborted && out.executed == |out.txs| && Recorded(b, out.txs)
    && out.scheduled == |b.Queued(TxsOf(out.txs))|
    && out.skipped + Unsupported(queue) == Unsupported(users)
    && InOrder(b, users, out.txs, queue)
  }

  /**
   A complete block has executed exactly the supported user transactions, in order, and then exactly the retries
   that the executed transactions have queued, in the order in which they queued them; it has skipped exactly the
   unsupported ones.  An aborted block has executed the beginning of that sequence, up to the run that aborts.
   */
  ghost predicate Executed(b: Block, users: seq<Tx>, out: Outcome) {
    var all := Runnable(users) + AsTxs(b.Queued(TxsOf(out.txs)));
    && Recorded(b, out.txs) && out.executed == |out.txs| && out.scheduled == |b.Queued(TxsOf(out.txs))|
    && |out.txs| <= |all| && TxsOf(out.txs) == all[..|out.txs|]
    && if out.aborted then |out.txs| < |all| && b.evm(all[|out.txs|], |out.txs|).Aborted?
       else |out.txs| == |all| && out.skipped == Unsupported(users)
  }

  lemma {:induction false} Regroup(ran: seq<Tx>, tx: Tx, queue: seq<Tx>, users: seq<Tx>, retries: seq<Tx>, more: seq<Tx>)
    requires ran + ([tx] + queue) == users + retries
    ensures (ran + [tx]) + (queue + more) == users + (retries + more)
  {
    assert (ran + [tx]) + (queue + more) == ran + ([tx] + queue) + more;
    assert users + (retries + more) == users + retries + more;
  }

  lemma {:induction false} QueuedAppend(b: Block, ran: seq<Tx>, tx: Tx)
    ensures b.Queued(ran + [tx]) == b.Queued(ran) + b.QueuedBy(tx, |ran|)
  {
    assert (ran + [tx])[..|ran|] == ran;
  }

  lemma {:induction false} TxsAppend(txs: seq<TxExecution>, x: TxExecution)
    ensures TxsOf(txs + [x]) == TxsOf(txs) + [x.tx]
  {
    assert (txs + [x])[..|txs|] == txs;
  }

  lemma {:induction false} OrderKept(b: Block, users: seq<Tx>, txs: seq<TxExecution>, x: TxExecution, rest: seq<Tx>,
                                     retries: seq<TxRetry>)
    requires TxsOf(txs) + ([x.tx] + Runnable(rest)) == Runnable(users) + AsTxs(b.Queued(TxsOf(txs)))
    requires retries == b.QueuedBy(x.tx, |txs|)
    ensures InOrder(b, users, txs + [x], rest + AsTxs(retries))
    ensures |b.Queued(TxsOf(txs + [x]))| == |b.Queued(TxsOf(txs))| + |retries|
  {
    var ran := TxsOf(txs);
    TxsAt(txs, 0);
    TxsAppend(txs, x);
    QueuedAppend(b, ran, x.tx);
    AsTxsAppend(b.Queued(ran), retries);
    RetriesRunnable(retries);
    RunnableAppend(rest, AsTxs(retries));
    Regroup(ran, x.tx, Runnable(rest), Runnable(users), AsTxs(b.Queued(ran)), AsTxs(retries));
  }

  lemma {:induction false} RecordedMore(b: Block, txs: seq<TxExecution>, x: TxExecution)
    requires Recorded(b, txs) && b.evm(x.tx, |txs|).Ran? && b.evm(x.tx, |txs|).success == x.success
    ensures Recorded(b, txs + [x])
  {
  }

  lemma {:induction false} RetriesSupported(rest: seq<Tx>, retries: seq<TxRetry>)
    ensures Unsupported(rest + AsTxs(retries)) == Unsupported(rest)
  {
    RetriesRunnable(retries);
    RunnableAppend(rest, AsTxs(retries));
  }

  /** The front of the queue is executed and what it queues is put behind. */
  lemma {:induction false} OneExecuted(b: Block, users: seq<Tx>, out: Outcome, queue: seq<Tx>, x: TxExecution,
                                       retries: seq<TxRetry>, out': Outcome)
    requires queue != [] && x.tx == queue[0] && !(x.tx.UserTx? && !x.tx.supported) && Progress(b, users, out, queue)
    requires b.evm(x.tx, |out.txs|).Ran? && b.evm(x.tx, |out.txs|).success == x.success
    requires retries == b.QueuedBy(x.tx, |out.txs|)
    requires out' == out.(txs := out.txs + [x], executed := out.executed + 1, scheduled := out.scheduled + |retries|)
    ensures Progress(b, users, out', queue[1..] + AsTxs(retries))
  {
    OrderKept(b, users, out.txs, x, queue[1..], retries);
    RecordedMore(b, out.txs, x);
    RetriesSupported(queue[1..], retries);
  }

  lemma {:induction false} OneSkipped(b: Block, users: seq<Tx>, out: Outcome, queue: seq<Tx>)
    requires queue != [] && queue[0].UserTx? && !queue[0].supported && Progress(b, users, out, queue)
    ensures Progress(b, users, out.(skipped := out.skipped + 1), queue[1..])
  {
    assert Runnable(queue) == Runnable(queue[1..]);
  }

  lemma {:induction false} Ends(b: Block, users: seq<Tx>, out: Outcome, queue: seq<Tx>)
    requires Progress(b, users, out, queue)
    requires queue == [] || (!(queue[0].UserTx? && !queue[0].supported) && b.evm(queue[0], |out.txs|).Aborted?)
    ensures Executed(b, users, out.(aborted := queue != []))
  {
    var all := Runnable(users) + AsTxs(b.Queued(TxsOf(out.txs)));
    TxsAt(out.txs, 0);
    assert all == TxsOf(out.txs) + Runnable(queue);
    if queue != [] {
      assert Runnable(queue)[0] == queue[0];
    }
  }

  /** Executes a message.  `b.evm(tx, n)` is the result of running `tx` as the n-th executed transaction. */
  method ExecuteMessage(users: seq<Tx>, b: Block) returns (out: Outcome)
    requires forall i :: 0 <= i < |users| ==> users[i].UserTx?
    requires forall tx, n :: ValidRun(tx, b.evm(tx, n))
    ensures Executed(b, users, out)
  {
    var queue := users;
    out := Outcome([], 0, 0, 0, false);
    while queue != []
      invariant Progress(b, users, out, queue)
      decreases Users(queue), QueuedGas(queue), |queue|
    {
      PopMeasure(queue);
      var tx := queue[0];
      if tx.UserTx? && !tx.supported {
        OneSkipped(b, users, out, queue);
        out := out.(skipped := out.skipped + 1);
        queue := queue[1..];
        continue;
      }
      var run := b.evm(tx, out.executed);
      assert ValidRun(tx, run);
      if run.Aborted? {
        Ends(b, users, out, queue);
        return out.(aborted := true);
      }
      ghost var whole, before := queue, out;
      queue := queue[1..];
      out := out.(txs := out.txs + [TxExecution(tx, run.success)], executed := out.executed + 1);
      var retries := [];
      if b.commits && run.success {
        var logs := LogsOf(run.events);
        retries := Schedule(logs, run.tickets, b.chainId, b.baseFee);
        if tx.RetryTx? {
          DonationsWithinSpent(run.events, run.tickets, b.chainId, b.baseFee);
        }
        out := out.(scheduled := out.scheduled + |retries|);
      }
      OneExecuted(b, users, before, whole, TxExecution(tx, run.success), retries, out);
      queue := PushRetries(queue, retries);
    }
    Ends(b, users, out, queue);
  }
}
