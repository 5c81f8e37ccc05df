/**
 The journaled state that retryable transactions work on: balances, ticket records, the timeout
 queue and the logs of the transaction in progress; beside them nonces and empty escrow accounts, on which
 nothing else depends.
 */
module Journals {
  import opened Words
  import opened Ledger

  /** Seven days, in seconds. */
  const LIFETIME: nat := 604_800

  type Byte = x: nat | x < 256

  /** A stored retryable.  A ticket that is absent reads as all-zero slots (timeout 0). */
  datatype Ticket = Ticket(
    numTries: U64,
    from: Address,
    to: Option<Address>,
    callvalue: U256,
    beneficiary: Address,
    timeout: U64,
    windowsLeft: U64,
    calldata: seq<Byte>)

  /** A retry transaction.  Its hash is injective in the fields, so the record stands for its hash. */
  datatype TxRetry = TxRetry(
    chainId: nat,
    nonce: U64,
    from: Address,
    gasFeeCap: U256,
    gasLimit: U64,
    to: Option<Address>,
    value: U256,
    input: seq<Byte>,
    ticket: TicketId,
    refundTo: Address,
    maxRefund: U256,
    submissionFeeRefund: U256)

  datatype Log =
    | TicketCreated(ticket: TicketId)
    | RedeemScheduled(
        ticket: TicketId, retryTxHash: TxRetry, sequence: U64,
        donatedGas: U64, gasDonor: Address, maxRefund: U256, submissionFeeRefund: U256)
    | LifetimeExtended(ticket: TicketId, newTimeout: U64)
    | Canceled(ticket: TicketId)

  /** The contents of a journal as a value. */
  datatype World = World(
    balances: Balances,
    tickets: map<TicketId, Ticket>,
    queue: seq<TicketId>,
    logs: seq<Log>)

  datatype TransferError = OutOfFunds

  class Journal {
    var balances: Balances
    var tickets: map<TicketId, Ticket>
    var queue: seq<TicketId>
    var logs: seq<Log>
    var nonces: map<Address, U64>
    /** Tickets without call value submitted in this block before Stylus. */
    var pendingZombies: seq<TicketId>
    /** Empty accounts that are written although they hold nothing. */
    var revived: set<Address>

    ghost function Contents(): World
      reads this
    {
      World(balances, tickets, queue, logs)
    }

    /** The whole supply fits in a 256-bit word, so no credit can overflow. */
    ghost predicate Valid()
      reads this
    {
      Total(balances) <= MAX_U256
    }

    /**
     Moves `amount`.  The only error is an underfunded sender: the overflow error of the EVM journal
     is excluded by the bound on the total supply.
     */
    method Transfer(from: Address, to: Address, amount: nat) returns (err: Option<TransferError>)
      requires Valid()
      modifies this`balances
      ensures Valid() && Total(balances) == old(Total(balances))
      ensures err.Some? <==> Get(old(balances), from) < amount
      ensures balances == if err.Some? then old(balances) else Move(old(balances), from, to, amount)
    {
      if Get(balances, from) < amount {
        return Some(OutOfFunds);
      }
      TotalMove(balances, from, to, amount);
      if from != to {
        PairWithinTotal(balances, from, to);
        assert Get(balances, to) + amount <= MAX_U256;
        balances := balances[from := Get(balances, from) - amount];
        balances := balances[to := Get(balances, to) + amount];
      }
      return None;
    }

    /** `balance_incr`: mints `amount` to `to`. */
    method Mint(to: Address, amount: nat)
      requires Total(balances) + amount <= MAX_U256
      modifies this`balances
      ensures Valid() && Total(balances) == old(Total(balances)) + amount
      ensures balances == Credit(old(balances), to, amount)
    {
      TotalCredit(balances, to, amount);
      balances := balances[to := Get(balances, to) + amount];
    }
  }
}
