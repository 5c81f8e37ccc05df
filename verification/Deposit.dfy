/**
 Deposit transactions: value that arrives from the parent chain is minted to the sender and handed on to
 the recipient.
 */
module Deposit {
  import opened Words
  import opened Ledger
  import opened Journals

  datatype DepositOutcome = Applied | Filtered | NotACall | TransferFailed

  /** The recipient of a deposit; one whose hash is filtered goes to the filtered-funds recipient. */
  function Recipient(to: Address, filter: Option<Address>): Address {
    if filter.Some? then filter.value else to
  }

  /**
   Applies a deposit.  `to` is absent for a contract creation, which is refused.  The transfer never fails,
   whatever the sender held before, and the sender keeps exactly that.
   */
  method ApplyDeposit(j: Journal, from: Address, to: Option<Address>, value: U256, filter: Option<Address>)
    returns (outcome: DepositOutcome)
    requires Total(j.balances) + value <= MAX_U256
    modifies j`balances
    ensures outcome == if to.None? then NotACall else if filter.Some? then Filtered else Applied
    ensures to.None? ==> j.balances == old(j.balances)
    ensures to.Some? ==>
              Deposited(old(j.balances), if filter.Some? then filter.value else to.value, value, j.balances)
  {
    if to.None? {
      return NotACall;
    }
    j.Mint(from, value);
    var err := j.Transfer(from, Recipient(to.value, filter), value);
    return if err.Some? then TransferFailed else if filter.Some? then Filtered else Applied;
  }

  /** Only the recipient gains, and the supply grows by the value. */
  ghost predicate Deposited(b: Balances, to: Address, value: nat, b': Balances) {
    && (forall a :: Get(b', a) == Get(b, a) + At(a, to, value))
    && Total(b') == Total(b) + value
  }
}
