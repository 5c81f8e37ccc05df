/**
 Account balances as the EVM journal keeps them, and the total they add up to.

 An escrow account is addressed by the hash of a tag and the ticket id.  Hash collisions are
 excluded by giving escrow accounts their own constructor.
 */
module Ledger {
  import opened Words

  type TicketId = nat

  datatype Address = Account(id: nat) | Escrow(ticket: TicketId)

  const ZERO_ADDRESS: Address := Account(0)

  type Balances = map<Address, nat>

  function Get(b: Balances, a: Address): nat {
    if a in b then b[a] else 0
  }

  /** `amount` as seen from account `a` when it is `who` that receives it. */
  function At(a: Address, who: Address, amount: int): int {
    if a == who then amount else 0
  }

  function Credit(b: Balances, a: Address, amount: nat): (r: Balances)
    ensures forall x :: Get(r, x) == Get(b, x) + At(x, a, amount)
  {
    b[a := Get(b, a) + amount]
  }

  function Debit(b: Balances, a: Address, amount: nat): (r: Balances)
    requires amount <= Get(b, a)
    ensures forall x :: Get(r, x) == Get(b, x) - At(x, a, amount)
  {
    b[a := Get(b, a) - amount]
  }

  /** A transfer that is known to be funded; a transfer to oneself changes nothing. */
  function Move(b: Balances, from: Address, to: Address, amount: nat): (r: Balances)
    requires amount <= Get(b, from)
    ensures forall x :: Get(r, x) == Get(b, x) - At(x, from, amount) + At(x, to, amount)
  {
    if from == to then b else Credit(Debit(b, from, amount), to, amount)
  }

  // ------------------------------------------------------------------ total supply

  ghost function Sum(b: Balances, keys: set<Address>): nat {
    if keys == {} then 0
    else
      var k :| k in keys;
      Get(b, k) + Sum(b, keys - {k})
  }

  ghost function Total(b: Balances): nat {
    Sum(b, b.Keys)
  }

  lemma {:induction false} SumSplit(b: Balances, keys: set<Address>, x: Address)
    requires x in keys
    ensures Sum(b, keys) == Get(b, x) + Sum(b, keys - {x})
    decreases keys
  {
    var k :| k in keys && Sum(b, keys) == Get(b, k) + Sum(b, keys - {k});
    if k != x {
      SumSplit(b, keys - {k}, x);
      SumSplit(b, keys - {x}, k);
      assert keys - {k} - {x} == keys - {x} - {k};
    }
  }

  lemma {:induction false} SumFrame(b: Balances, c: Balances, keys: set<Address>)
    requires forall k :: k in keys ==> Get(b, k) == Get(c, k)
    ensures Sum(b, keys) == Sum(c, keys)
    decreases keys
  {
    if keys != {} {
      var k :| k in keys;
      SumSplit(b, keys, k);
      SumSplit(c, keys, k);
      SumFrame(b, c, keys - {k});
    }
  }

  /** Replacing one balance moves the total by exactly the difference. */
  lemma {:induction false} TotalUpdate(b: Balances, a: Address, v: nat)
    ensures Total(b[a := v]) == Total(b) - Get(b, a) + v
  {
    var c := b[a := v];
    assert c.Keys == b.Keys + {a};
    SumSplit(c, c.Keys, a);
    assert c.Keys - {a} == b.Keys - {a};
    SumFrame(c, b, b.Keys - {a});
    if a in b {
      SumSplit(b, b.Keys, a);
    } else {
      assert b.Keys - {a} == b.Keys;
    }
  }

  lemma {:induction false} TotalCredit(b: Balances, a: Address, amount: nat)
    ensures Total(Credit(b, a, amount)) == Total(b) + amount
  {
    TotalUpdate(b, a, Get(b, a) + amount);
  }

  lemma {:induction false} TotalDebit(b: Balances, a: Address, amount: nat)
    requires amount <= Get(b, a)
    ensures Total(Debit(b, a, amount)) == Total(b) - amount
  {
    TotalUpdate(b, a, Get(b, a) - amount);
  }

  lemma {:induction false} TotalMove(b: Balances, from: Address, to: Address, amount: nat)
    requires amount <= Get(b, from)
    ensures Total(Move(b, from, to, amount)) == Total(b)
  {
    if from != to {
      TotalDebit(b, from, amount);
      TotalCredit(Debit(b, from, amount), to, amount);
    }
  }

  lemma {:induction false} WithinTotal(b: Balances, a: Address)
    ensures Get(b, a) <= Total(b)
  {
    if a in b {
      SumSplit(b, b.Keys, a);
    }
  }

  /** Two different accounts together never exceed the total, so a funded transfer cannot overflow. */
  lemma {:induction false} PairWithinTotal(b: Balances, x: Address, y: Address)
    requires x != y
    ensures Get(b, x) + Get(b, y) <= Total(b)
  {
    if y in b {
      SumSplit(b, b.Keys, y);
      if x in b {
        SumSplit(b, b.Keys - {y}, x);
      }
    } else {
      WithinTotal(b, x);
    }
  }
}
