/**
 Operations on stored tickets: liveness, deletion, reaping, the precompile calls keepalive, cancel
 and redeem, the hooks around a retry, and the scheduling of retries from logs.

 Each operation is a function on the journal's contents together with the method that performs it.
 */
module Retryables {
  import opened Words
  import opened Ledger
  import opened Journals
  import opened Submit

  const WINDOWS_COUNT_FROM: nat := 60

  // ------------------------------------------------------------------ liveness

  /** Timeout plus keepalive windows, saturating, as `exists` and keepalive compute it. */
  function SaturatedTimeout(t: Ticket): U64 {
    SatAdd(MAX_U64, t.timeout, SatMul(MAX_U64, t.windowsLeft, LIFETIME))
  }

  /** The same with wrapping arithmetic, as `open_retryable` computes it. */
  function WrappedTimeout(t: Ticket): U64 {
    (t.timeout + t.windowsLeft * LIFETIME % (MAX_U64 + 1)) % (MAX_U64 + 1)
  }

  function TrueTimeout(t: Ticket): nat {
    t.timeout + t.windowsLeft * LIFETIME
  }

  predicate Exists(t: Ticket, now: U64, version: U64) {
    t.timeout != 0
    && (now <= t.timeout || (version >= WINDOWS_COUNT_FROM && now <= SaturatedTimeout(t)))
  }

  predicate OpenExists(t: Ticket, now: U64, version: U64) {
    t.timeout != 0
    && (now <= t.timeout || (version >= WINDOWS_COUNT_FROM && now <= WrappedTimeout(t)))
  }

  predicate Live(w: World, id: TicketId, now: U64, version: U64) {
    id in w.tickets && Exists(w.tickets[id], now, version)
  }

  predicate OpenLive(w: World, id: TicketId, now: U64, version: U64) {
    id in w.tickets && OpenExists(w.tickets[id], now, version)
  }

  // ------------------------------------------------------------------ deletion and reaping

  /** Releases whatever the escrow holds to the beneficiary and clears every slot. */
  function Delete(w: World, id: TicketId): World {
    if id !in w.tickets then w
    else
      var held := Get(w.balances, Escrow(id));
      w.(balances := if held == 0 then w.balances
      else Move(w.balances, Escrow(id), w.tickets[id].beneficiary, held),
           tickets := w.tickets - {id})
  }

  /** Everything that the escrow of `id` held has gone to `to`, and nothing else has moved. */
  ghost predicate Released(b: Balances, id: TicketId, to: Address, b': Balances) {
    var held := Get(b, Escrow(id));
    forall a :: Get(b', a) == Get(b, a) - At(a, Escrow(id), held) + At(a, to, held)
  }

  method DeleteRetryable(j: Journal, id: TicketId) returns (deleted: bool)
    requires j.Valid()
    modifies j`balances, j`tickets
    ensures j.Valid() && Total(j.balances) == old(Total(j.balances))
    ensures deleted <==> id in old(j.tickets)
    ensures j.Contents() == Delete(old(j.Contents()), id)
    ensures deleted ==> Released(old(j.balances), id, old(j.tickets)[id].beneficiary, j.balances)
  {
    if id !in j.tickets {
      return false;
    }
    var held := Get(j.balances, Escrow(id));
    if held > 0 {
      var _ := j.Transfer(Escrow(id), j.tickets[id].beneficiary, held);
    }
    j.tickets := j.tickets - {id};
    return true;
  }

  /** Looks at the head of the timeout queue: drop it, keep it, delete its ticket or use up one window. */
  function Reap(w: World, now: U64): World {
    if w.queue == [] then w
    else
      var id := w.queue[0];
      var popped := w.(queue := w.queue[1..]);
      if id !in w.tickets then popped
      else
        var t := w.tickets[id];
        if now <= t.timeout then w
        else if t.windowsLeft == 0 then Delete(popped, id)
        else popped.(tickets := w.tickets[id := t.(timeout := SatAdd(MAX_U64, t.timeout, LIFETIME),
             windowsLeft := t.windowsLeft - 1)])
  }

  method TryToReapOne(j: Journal, now: U64) returns (worked: bool)
    requires j.Valid()
    modifies j`balances, j`tickets, j`queue
    ensures j.Valid() && Total(j.balances) == old(Total(j.balances))
    ensures j.Contents() == Reap(old(j.Contents()), now)
    ensures !worked ==> j.Contents() == old(j.Contents())
    ensures forall id :: id in old(j.tickets) && id !in j.tickets ==>
                           && old(j.tickets)[id].timeout < now && old(j.tickets)[id].windowsLeft == 0
                           && Released(old(j.balances), id, old(j.tickets)[id].beneficiary, j.balances)
  {
    if |j.queue| == 0 {
      return false;
    }
    var id := j.queue[0];
    if id !in j.tickets {
      j.queue := j.queue[1..];
      return true;
    }
    var t := j.tickets[id];
    if now <= t.timeout {
      return false;
    }
    j.queue := j.queue[1..];
    if t.windowsLeft == 0 {
      var _ := DeleteRetryable(j, id);
      return true;
    }
    j.tickets := j.tickets[id := t.(timeout := SatAdd(MAX_U64, t.timeout, LIFETIME))];
    j.tickets := j.tickets[id := j.tickets[id].(windowsLeft := Monus(t.windowsLeft, 1))];
    return true;
  }

  /** The part of a block start that concerns retryables: two attempts to reap, and no marks from earlier blocks. */
  method StartBlockRetryables(j: Journal, now: U64)
    requires j.Valid()
    modifies j`balances, j`tickets, j`queue, j`pendingZombies
    ensures j.Valid() && Total(j.balances) == old(Total(j.balances))
    ensures j.Contents() == Reap(Reap(old(j.Contents()), now), now) && j.pendingZombies == []
  {
    var _ := TryToReapOne(j, now);
    var _ := TryToReapOne(j, now);
    j.pendingZombies := [];
  }

  // ------------------------------------------------------------------ precompile calls

  /** Keepalive is refused for a missing ticket and for one whose life already reaches past one lifetime. */
  predicate KeepaliveAllowed(w: World, id: TicketId, now: U64, version: U64) {
    Live(w, id, now, version)
    && SaturatedTimeout(w.tickets[id]) <= SatAdd(MAX_U64, now, LIFETIME)
  }

  function Keepalive(w: World, id: TicketId): World
    requires id in w.tickets
  {
    var t := w.tickets[id];
    w.(queue := w.queue + [id],
    tickets := w.tickets[id := t.(windowsLeft := SatAdd(MAX_U64, t.windowsLeft, 1))],
    logs := w.logs + [LifetimeExtended(id, SatAdd(MAX_U64, SaturatedTimeout(t), LIFETIME))])
  }

  datatype KeepaliveResult =
    | KeptAlive(newTimeout: U64, charged: nat)
    | NoTicket(charged: nat)
    | TooEarly(charged: nat)
    | NotEnoughGas

  const STORAGE_READ_GAS: nat := 800
  const UPDATE_GAS_PER_WORD: nat := 200
  const QUEUE_AND_WINDOW_WRITES_GAS: nat := 60_000
  const REAP_GAS: nat := 58_000
  const LIFETIME_EXTENDED_EVENT_GAS: nat := 1_381

  /** Opening a ticket that has timed out also reads its windows. */
  function OpenReads(t: Ticket, now: U64, version: U64): nat {
    if t.timeout != 0 && t.timeout < now && version >= WINDOWS_COUNT_FROM then 2 else 1
  }

  /** Gas up to the point where the timeout is compared: the ticket is opened twice, and sized in between. */
  function KeepaliveChecks(t: Ticket, now: U64, version: U64): nat {
    STORAGE_READ_GAS * (2 * OpenReads(t, now, version) + 3) + UPDATE_GAS_PER_WORD * (7 + WordsFor(|t.calldata|))
  }

  function KeepaliveGas(t: Ticket, now: U64, version: U64): nat {
    KeepaliveChecks(t, now, version) + 2 * STORAGE_READ_GAS
    + QUEUE_AND_WINDOW_WRITES_GAS + REAP_GAS + LIFETIME_EXTENDED_EVENT_GAS
  }

  /** A cost that is recorded on a failed call counts only if there is gas for it. */
  function Recorded(gasLimit: U64, cost: nat): nat {
    if cost <= gasLimit then cost else 0
  }

  /** The keepalive call: which of its four outcomes it has, what it charges and what it changes. */
  method KeepaliveCall(j: Journal, id: TicketId, now: U64, version: U64, gasLimit: U64) returns (r: KeepaliveResult)
    modifies j`queue, j`tickets, j`logs
    ensures r.NoTicket? <==> !Live(old(j.Contents()), id, now, version)
    ensures r.TooEarly? <==> Live(old(j.Contents()), id, now, version)
                             && !KeepaliveAllowed(old(j.Contents()), id, now, version)
    ensures r.KeptAlive? <==> KeepaliveAllowed(old(j.Contents()), id, now, version)
                              && KeepaliveGas(old(j.tickets)[id], now, version) <= gasLimit
    ensures j.Contents() == if r.KeptAlive? then Keepalive(old(j.Contents()), id) else old(j.Contents())
    ensures match r
            case KeptAlive(newTimeout, charged) =>
              && j.logs[|j.logs| - 1] == LifetimeExtended(id, newTimeout)
              && charged == KeepaliveGas(old(j.tickets)[id], now, version)
            case NoTicket(charged) =>
              charged == Recorded(gasLimit, STORAGE_READ_GAS * if id in j.tickets then OpenReads(j.tickets[id], now, version) else 1)
            case TooEarly(charged) => charged == Recorded(gasLimit, KeepaliveChecks(j.tickets[id], now, version))
            case NotEnoughGas => true
  {
    var slots := 1;
    if id !in j.tickets {
      return NoTicket(Recorded(gasLimit, STORAGE_READ_GAS * slots));
    }
    var t := j.tickets[id];
    var found := t.timeout != 0;
    if found && t.timeout < now {
      if version >= WINDOWS_COUNT_FROM {
        slots := slots + 1;
        found := SatAdd(MAX_U64, t.timeout, SatMul(MAX_U64, t.windowsLeft, LIFETIME)) >= now;
      } else {
        found := false;
      }
    }
    if !found {
      return NoTicket(Recorded(gasLimit, STORAGE_READ_GAS * slots));
    }
    var updateCost := WordsFor(7 * 32 + 32 * WordsFor(|t.calldata|)) * UPDATE_GAS_PER_WORD;
    slots := slots + 2;
    if t.timeout < now {
      slots := slots + 1;
    }
    var effective := SatAdd(MAX_U64, t.timeout, SatMul(MAX_U64, t.windowsLeft, LIFETIME));
    slots := slots + 2;
    if effective > SatAdd(MAX_U64, now, LIFETIME) {
      return TooEarly(Recorded(gasLimit, slots * STORAGE_READ_GAS + updateCost));
    }
    slots := slots + 2;
    var cost := slots * STORAGE_READ_GAS + updateCost + QUEUE_AND_WINDOW_WRITES_GAS + REAP_GAS + LIFETIME_EXTENDED_EVENT_GAS;
    if gasLimit < cost {
      return NotEnoughGas;
    }
    j.queue := j.queue + [id];
    j.tickets := j.tickets[id := t.(windowsLeft := SatAdd(MAX_U64, t.windowsLeft, 1))];
    var newTimeout := SatAdd(MAX_U64, effective, LIFETIME);
    j.logs := j.logs + [LifetimeExtended(id, newTimeout)];
    return KeptAlive(newTimeout, cost);
  }

  /** Only the beneficiary cancels, and never from within the ticket's own retry. */
  predicate CancelAllowed(w: World, caller: Address, id: TicketId, now: U64, version: U64, current: Option<TicketId>) {
    current != Some(id) && OpenLive(w, id, now, version) && w.tickets[id].beneficiary == caller
  }

  function Cancel(w: World, id: TicketId): World {
    var d := Delete(w, id);
    d.(logs := d.logs + [Canceled(id)])
  }

  const STORAGE_CLEAR_GAS: nat := 5_000
  const CANCELED_EVENT_GAS: nat := 1_125

  /** Clearing a ticket: its seven fields, and the size and words of its calldata. */
  function DeleteGas(t: Ticket): nat {
    3 * STORAGE_READ_GAS + (8 + WordsFor(|t.calldata|)) * STORAGE_CLEAR_GAS
  }

  function CancelGas(t: Ticket, now: U64, version: U64): nat {
    (OpenReads(t, now, version) + 1) * STORAGE_READ_GAS + DeleteGas(t) + CANCELED_EVENT_GAS
  }

  /** Clears the stored calldata word by word; what that costs. */
  method ClearCalldata(len: nat) returns (cost: nat)
    ensures cost == STORAGE_READ_GAS + (WordsFor(len) + 1) * STORAGE_CLEAR_GAS
  {
    cost := STORAGE_READ_GAS;
    var left, words := len, 0;
    while left > 0
      invariant WordsFor(left) + words == WordsFor(len)
      invariant cost == STORAGE_READ_GAS + words * STORAGE_CLEAR_GAS
    {
      cost, words := cost + STORAGE_CLEAR_GAS, words + 1;
      left := Monus(left, 32);
    }
    cost := cost + STORAGE_CLEAR_GAS;
  }

  datatype CancelResult =
    | CanceledFor(charged: nat)
    | OwnTicket
    | CancelNoTicket(charged: nat)
    | NotBeneficiary(charged: nat)
    | CancelOutOfGas

  /**
   The cancel call: which outcome it has, what it charges and what it changes.  A call whose metered gas
   exceeds its limit is rolled back.
   */
  method CancelCall(j: Journal, caller: Address, id: TicketId, now: U64, version: U64, current: Option<TicketId>, gasLimit: U64)
    returns (r: CancelResult)
    requires j.Valid()
    modifies j`balances, j`tickets, j`logs
    ensures j.Valid() && Total(j.balances) == old(Total(j.balances))
    ensures r.CanceledFor? <==> CancelAllowed(old(j.Contents()), caller, id, now, version, current)
                                && CancelGas(old(j.tickets)[id], now, version) <= gasLimit
    ensures j.Contents() == if r.CanceledFor? then Cancel(old(j.Contents()), id) else old(j.Contents())
    ensures r.CanceledFor? ==> id !in j.tickets && Released(old(j.balances), id, caller, j.balances)
    ensures r.OwnTicket? <==> current == Some(id)
    ensures var opening := if id in old(j.tickets) then OpenReads(old(j.tickets)[id], now, version) else 1;
            && (r.CancelNoTicket? <==> && current != Some(id) && !OpenLive(old(j.Contents()), id, now, version)
                                       && opening * STORAGE_READ_GAS <= gasLimit)
            && (r.NotBeneficiary? <==> && current != Some(id) && OpenLive(old(j.Contents()), id, now, version)
                                       && old(j.tickets)[id].beneficiary != caller
                                       && (opening + 1) * STORAGE_READ_GAS <= gasLimit)
            && (r.CanceledFor? ==> r.charged == CancelGas(old(j.tickets)[id], now, version))
            && (r.CancelNoTicket? ==> r.charged == opening * STORAGE_READ_GAS)
            && (r.NotBeneficiary? ==> r.charged == (opening + 1) * STORAGE_READ_GAS)
  {
    if current == Some(id) {
      return OwnTicket;
    }
    var opening := if id in j.tickets then OpenReads(j.tickets[id], now, version) else 1;
    var burned := opening * STORAGE_READ_GAS;
    if id !in j.tickets || !OpenExists(j.tickets[id], now, version) {
      return if burned > gasLimit then CancelOutOfGas else CancelNoTicket(burned);
    }
    burned := burned + STORAGE_READ_GAS;
    if caller != j.tickets[id].beneficiary {
      return if burned > gasLimit then CancelOutOfGas else NotBeneficiary(burned);
    }
    var balances, tickets, logs := j.balances, j.tickets, j.logs;
    var t := j.tickets[id];
    var _ := DeleteRetryable(j, id);
    j.logs := j.logs + [Canceled(id)];
    var clearing := ClearCalldata(|t.calldata|);
    burned := burned + 2 * STORAGE_READ_GAS + 7 * STORAGE_CLEAR_GAS + clearing + CANCELED_EVENT_GAS;
    if burned > gasLimit {
      j.balances, j.tickets, j.logs := balances, tickets, logs;
      return CancelOutOfGas;
    }
    return CanceledFor(burned);
  }

  predicate RedeemAllowed(w: World, id: TicketId, now: U64, version: U64, current: Option<TicketId>) {
    current != Some(id) && Live(w, id, now, version)
  }

  /** The retry a manual redeem announces: unlimited refund budget, no submission fee to give back. */
  function ManualRetry(t: Ticket, env: Env, caller: Address, id: TicketId, donatedGas: U64): TxRetry {
    TxRetry(env.chainId, t.numTries, t.from, env.baseFee, donatedGas, t.to, t.callvalue, t.calldata, id,
            caller, MAX_U256, 0)
  }

  function Redeem(w: World, env: Env, caller: Address, id: TicketId, donatedGas: U64): World
    requires id in w.tickets
  {
    var t := w.tickets[id];
    w.(tickets := w.tickets[id := t.(numTries := SatAdd(MAX_U64, t.numTries, 1))],
    logs := w.logs + [RedeemScheduled(id, ManualRetry(t, env, caller, id, donatedGas), t.numTries, donatedGas,
                                                        caller, MAX_U256, 0)])
  }

  /** The state changes of a redeem call that has enough gas; `current` is the ticket of a running retry. */
  method RedeemTicket(j: Journal, env: Env, caller: Address, id: TicketId, donatedGas: U64, current: Option<TicketId>)
    returns (ok: bool)
    modifies j`tickets, j`logs
    ensures ok <==> current != Some(id) && Live(old(j.Contents()), id, env.timestamp, env.arbosVersion)
    ensures j.Contents() == if ok then Redeem(old(j.Contents()), env, caller, id, donatedGas) else old(j.Contents())
  {
    if current == Some(id) || id !in j.tickets || !Exists(j.tickets[id], env.timestamp, env.arbosVersion) {
      return false;
    }
    var nonce := j.tickets[id].numTries;
    j.tickets := j.tickets[id := j.tickets[id].(numTries := SatAdd(MAX_U64, nonce, 1))];
    var t := j.tickets[id];
    var retry := TxRetry(env.chainId, nonce, t.from, env.baseFee, donatedGas, t.to, t.callvalue, t.calldata, id,
                         caller, MAX_U256, 0);
    j.logs := j.logs + [RedeemScheduled(id, retry, nonce, donatedGas, caller, MAX_U256, 0)];
    return true;
  }

  // ------------------------------------------------------------------ hooks around a retry

  function ReleaseCallvalue(w: World, tx: TxRetry): World
    requires tx.ticket in w.tickets && w.tickets[tx.ticket].callvalue <= Get(w.balances, Escrow(tx.ticket))
  {
    var callvalue := w.tickets[tx.ticket].callvalue;
    if callvalue == 0 then w else w.(balances := Move(w.balances, Escrow(tx.ticket), tx.from, callvalue))
  }

  datatype HookError = TicketNotFound | CallvalueUnfunded | NonceOverflow

  function NonceOf(nonces: map<Address, U64>, a: Address): U64 {
    if a in nonces then nonces[a] else 0
  }

  /**
   Before the frame runs: the call value leaves escrow for the retry's sender, and the nonce of the sender of
   a call goes up; a creation does that by itself.
   */
  method RetryPreExecution(j: Journal, tx: TxRetry, now: U64, version: U64) returns (err: Option<HookError>)
    requires j.Valid()
    modifies j`balances, j`nonces
    ensures j.Valid() && Total(j.balances) == old(Total(j.balances))
    ensures err == Some(TicketNotFound) <==> !Live(old(j.Contents()), tx.ticket, now, version)
    ensures err == Some(CallvalueUnfunded) <==>
            && Live(old(j.Contents()), tx.ticket, now, version)
            && Get(old(j.balances), Escrow(tx.ticket)) < j.tickets[tx.ticket].callvalue
    ensures err in {None, Some(NonceOverflow)} <==>
            && Live(old(j.Contents()), tx.ticket, now, version)
            && j.tickets[tx.ticket].callvalue <= Get(old(j.balances), Escrow(tx.ticket))
    ensures err == Some(NonceOverflow) ==> tx.to.Some? && NonceOf(old(j.nonces), tx.from) == MAX_U64
    ensures j.Contents() == if err in {None, Some(NonceOverflow)} then ReleaseCallvalue(old(j.Contents()), tx)
                            else old(j.Contents())
    ensures if err.None? && tx.to.Some?
            then NonceOf(old(j.nonces), tx.from) < MAX_U64
                 && j.nonces == old(j.nonces)[tx.from := NonceOf(old(j.nonces), tx.from) + 1]
            else j.nonces == old(j.nonces)
  {
    if tx.ticket !in j.tickets || !Exists(j.tickets[tx.ticket], now, version) {
      return Some(TicketNotFound);
    }
    var callvalue := j.tickets[tx.ticket].callvalue;
    if callvalue > 0 {
      var e := j.Transfer(Escrow(tx.ticket), tx.from, callvalue);
      if e.Some? {
        return Some(CallvalueUnfunded);
      }
    }
    if tx.to.Some? {
      var nonce := NonceOf(j.nonces, tx.from);
      if nonce == MAX_U64 {
        return Some(NonceOverflow);
      }
      j.nonces := j.nonces[tx.from := nonce + 1];
    }
    return None;
  }

  function ReturnCallvalue(w: World, tx: TxRetry): World
    requires tx.ticket in w.tickets && w.tickets[tx.ticket].callvalue <= Get(w.balances, tx.from)
  {
    var callvalue := w.tickets[tx.ticket].callvalue;
    if callvalue == 0 then w else w.(balances := Move(w.balances, tx.from, Escrow(tx.ticket), callvalue))
  }

  /**
   After the frame: delete the ticket on success, return the call value to escrow on failure.  The empty escrow
   account of a ticket marked in this block is revived exactly by success.
   */
  method RetryPostExecution(j: Journal, tx: TxRetry, success: bool) returns (err: Option<HookError>)
    requires j.Valid()
    modifies j`balances, j`tickets, j`revived
    ensures j.Valid() && Total(j.balances) == old(Total(j.balances))
    ensures j.revived == old(j.revived) + if success && tx.ticket in j.pendingZombies then {Escrow(tx.ticket)} else {}
    ensures success ==> err.None? && j.Contents() == Delete(old(j.Contents()), tx.ticket)
    ensures success && tx.ticket in old(j.tickets) ==>
              && j.tickets == old(j.tickets) - {tx.ticket}
              && Released(old(j.balances), tx.ticket, old(j.tickets)[tx.ticket].beneficiary, j.balances)
    ensures !success ==>
              && (err.Some? <==> tx.ticket in old(j.tickets)
                                 && Get(old(j.balances), tx.from) < old(j.tickets)[tx.ticket].callvalue)
              && j.Contents() == if err.Some? || tx.ticket !in old(j.tickets) then old(j.Contents())
                                 else ReturnCallvalue(old(j.Contents()), tx)
  {
    if success {
      var _ := DeleteRetryable(j, tx.ticket);
      if tx.ticket in j.pendingZombies {
        j.revived := j.revived + {Escrow(tx.ticket)};
      }
      return None;
    }
    if tx.ticket in j.tickets && j.tickets[tx.ticket].callvalue > 0 {
      var e := j.Transfer(tx.from, Escrow(tx.ticket), j.tickets[tx.ticket].callvalue);
      if e.Some? {
        return Some(CallvalueUnfunded);
      }
    }
    return None;
  }

  // ------------------------------------------------------------------ scheduling from logs

  /** The retry implied by one log, if the log is current for its ticket. */
  function ScheduleOne(log: Log, tickets: map<TicketId, Ticket>, chainId: nat, baseFee: U64): Option<TxRetry> {
    if !log.RedeemScheduled? || log.donatedGas == 0 || log.ticket !in tickets then None
    else
      var t := tickets[log.ticket];
      if t.numTries == 0 || t.numTries - 1 != log.sequence then None
      else Some(TxRetry(chainId, log.sequence, t.from, baseFee, log.donatedGas, t.to, t.callvalue, t.calldata,
                        log.ticket, log.gasDonor, log.maxRefund, log.submissionFeeRefund))
  }

  function Schedule(logs: seq<Log>, tickets: map<TicketId, Ticket>, chainId: nat, baseFee: U64): (s: seq<TxRetry>)
  {
    if logs == [] then []
    else
      var last := ScheduleOne(logs[|logs| - 1], tickets, chainId, baseFee);
      Schedule(logs[..|logs| - 1], tickets, chainId, baseFee) + (if last.Some? then [last.value] else [])
  }

  method ScheduledRetriesFromLogs(j: Journal, logs: seq<Log>, chainId: nat, baseFee: U64) returns (scheduled: seq<TxRetry>)
    ensures scheduled == Schedule(logs, j.tickets, chainId, baseFee)
  {
    scheduled := [];
    for i := 0 to |logs|
      invariant scheduled == Schedule(logs[..i], j.tickets, chainId, baseFee)
    {
      assert logs[..i + 1][..i] == logs[..i];
      if logs[i].RedeemScheduled? && logs[i].donatedGas != 0 && logs[i].ticket in j.tickets {
        var t := j.tickets[logs[i].ticket];
        if t.numTries != 0 && Monus(t.numTries, 1) == logs[i].sequence {
          scheduled := scheduled + [TxRetry(chainId, logs[i].sequence, t.from, baseFee, logs[i].donatedGas, t.to,
                                            t.callvalue, t.calldata, logs[i].ticket, logs[i].gasDonor,
                                            logs[i].maxRefund, logs[i].submissionFeeRefund)];
        }
      }
    }
    assert logs[..|logs|] == logs;
  }

  // ------------------------------------------------------------------ in numbers

  /** Keepalive windows extend the life of a ticket, by seven days each, from ArbOS 60 on. */
  lemma {:induction false} LivenessInNumbers(t: Ticket, now: U64, version: U64)
    requires t.timeout + 604_800 * t.windowsLeft <= MAX_U64
    ensures version < 60 ==> (Exists(t, now, version) <==> t.timeout > 0 && now <= t.timeout)
    ensures version >= 60 ==> (Exists(t, now, version) <==> t.timeout > 0 && now <= t.timeout + 604_800 * t.windowsLeft)
    ensures OpenExists(t, now, version) <==> Exists(t, now, version)
  {
  }

  /** The gas of a keepalive and of a cancel, by the calldata of the ticket and whether it has timed out. */
  lemma {:induction false} CallGasInNumbers(t: Ticket, now: U64, version: U64)
    requires t.timeout > 0
    ensures var words, late := (|t.calldata| + 31) / 32, version >= 60 && t.timeout < now;
            && KeepaliveGas(t, now, version) == 126_381 + 200 * words + (if late then 1_600 else 0)
            && CancelGas(t, now, version) == 45_125 + 5_000 * words + (if late then 800 else 0)
  {
  }

  /** Keepalive is allowed from seven days before the end of a live ticket on. */
  lemma {:induction false} KeepaliveWindow(w: World, id: TicketId, now: U64, version: U64)
    requires id in w.tickets && w.tickets[id].timeout + 604_800 * w.tickets[id].windowsLeft <= MAX_U64
    requires now + 604_800 <= MAX_U64
    ensures KeepaliveAllowed(w, id, now, version) <==>
            Live(w, id, now, version) && w.tickets[id].timeout + 604_800 * w.tickets[id].windowsLeft <= now + 604_800
  {
  }
}
