/**
 Machine words of the executor and their arithmetic.

 Balances and prices are 256-bit words, gas and timestamps 64-bit words.  Dafny's integers are
 unbounded, so the saturating operators of the source are written out here.
 */
module Words {

  const MAX_U64: nat := 0xFFFF_FFFF_FFFF_FFFF
  const MAX_U128: nat := 0xFFFF_FFFF_FFFF_FFFF_FFFF_FFFF_FFFF_FFFF
  const MAX_U256: nat :=
    0xFFFF_FFFF_FFFF_FFFF_FFFF_FFFF_FFFF_FFFF_FFFF_FFFF_FFFF_FFFF_FFFF_FFFF_FFFF_FFFF

  type U64 = x: nat | x <= MAX_U64
  type U128 = x: nat | x <= MAX_U128
  type U256 = x: nat | x <= MAX_U256

  datatype Option<+T> = None | Some(value: T)

  function Min(a: nat, b: nat): nat {
    if a <= b then a else b
  }

  /** Saturating subtraction. */
  function Monus(a: nat, b: nat): nat {
    if a <= b then 0 else a - b
  }

  function SatAdd(limit: nat, a: nat, b: nat): nat {
    Min(limit, a + b)
  }

  function SatMul(limit: nat, a: nat, b: nat): nat {
    Min(limit, a * b)
  }

  /** The number of 32-byte words that hold so many bytes. */
  function WordsFor(bytes: nat): nat {
    (bytes + 31) / 32
  }

  /** A 64-bit price times a 64-bit amount of gas always fits in 256 bits. */
  lemma {:induction false} PriceTimesGasFits(price: nat, gas: U64)
    requires price <= MAX_U128
    ensures price * gas <= MAX_U256
    ensures SatMul(MAX_U256, price, gas) == price * gas
  {
    assert price * gas <= MAX_U128 * MAX_U64 by {
      assert price * gas <= MAX_U128 * gas by { MulMono(price, MAX_U128, gas); }
      assert gas * MAX_U128 <= MAX_U64 * MAX_U128 by { MulMono(gas, MAX_U64, MAX_U128); }
    }
  }

  lemma {:induction false} MulMono(a: nat, b: nat, c: nat)
    requires a <= b
    ensures a * c <= b * c
  {
    assert b * c == a * c + (b - a) * c;
  }

  lemma {:induction false} MulSplit(a: int, b: int, c: int)
    ensures (a + b) * c == a * c + b * c
  {
  }
}
