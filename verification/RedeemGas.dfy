/**
 Gas of the redeem call: what it reserves, what it donates to the retry and what the caller is charged,
 including the backlog update whose cost is only known afterwards.
 */
module RedeemGas {
  import opened Words

  const READ: nat := 800
  const WRITE: nat := 20_000
  const WRITE_ZERO: nat := 5_000
  const COPY_GAS: nat := 3
  const STATE_OPEN_GAS: nat := 800
  const RETRY_GAS_MINIMUM: nat := 21_000
  const EVENT_GAS: nat := 375 + 4 * 375 + 128 * 8
  const READ_BURNS_BASE: nat := 28_353
  const SIZE_SLOAD_GAS: nat := 50
  const SINGLE_CONSTRAINTS: nat := 50
  const CONSTRAINT_FIX: nat := 51
  const MULTI_CONSTRAINTS: nat := 60

  /** L2 pricing backlogs: the legacy one, one per gas constraint, and (backlog, weight) per multi-gas constraint. */
  datatype Pricing = Pricing(backlog: U64, constraints: seq<U64>, multi: seq<(U64, U64)>)

  datatype GasModel = Legacy | SingleGas | MultiGas

  function ModelOf(p: Pricing, version: U64): GasModel {
    if version >= MULTI_CONSTRAINTS && |p.multi| > 0 then MultiGas
    else if version >= SINGLE_CONSTRAINTS && |p.constraints| > 0 then SingleGas
    else Legacy
  }

  function WriteCost(updated: U64): nat {
    if updated == 0 then WRITE_ZERO else WRITE
  }

  // ------------------------------------------------------------------ shrinking the backlog

  /** The cost of traversing and rewriting every constraint once `gas` has been taken off its backlog. */
  function TraversalCost(constraints: seq<U64>, gas: U64): nat {
    if constraints == [] then 0
    else TraversalCost(constraints[..|constraints| - 1], gas) + READ
         + WriteCost(Monus(constraints[|constraints| - 1], gas))
  }

  function ShrinkCost(p: Pricing, gas: U64, version: U64): nat {
    if version >= MULTI_CONSTRAINTS then READ + WRITE
    else if ModelOf(p, version) == SingleGas then 2 * READ + TraversalCost(p.constraints, gas)
    else (if version >= SINGLE_CONSTRAINTS then READ else 0) + READ + WriteCost(Monus(p.backlog, gas))
  }

  /** Every backlog of the active model is smaller by the gas, weighted for multi-gas; the others are as before. */
  ghost predicate Shrunk(p: Pricing, gas: U64, version: U64, p': Pricing) {
    && |p'.constraints| == |p.constraints| && |p'.multi| == |p.multi|
    && p'.backlog == (if ModelOf(p, version) == Legacy then Monus(p.backlog, gas) else p.backlog)
    && (forall i :: 0 <= i < |p.constraints| ==>
                      p'.constraints[i] == if ModelOf(p, version) == SingleGas then Monus(p.constraints[i], gas)
                      else p.constraints[i])
    && (forall i :: 0 <= i < |p.multi| ==>
                      p'.multi[i] == if ModelOf(p, version) == MultiGas
                      then (Monus(p.multi[i].0, SatMul(MAX_U64, gas, p.multi[i].1)), p.multi[i].1)
                      else p.multi[i])
  }

  method ShrinkBacklog(p: Pricing, gas: U64, version: U64) returns (p': Pricing, cost: nat)
    ensures cost == ShrinkCost(p, gas, version) && Shrunk(p, gas, version, p')
  {
    p' := p;
    var model := ModelOf(p, version);
    if model == Legacy {
      var updated := Monus(p.backlog, gas);
      p' := p'.(backlog := updated);
      cost := (if version >= SINGLE_CONSTRAINTS then READ else 0) + READ + (if updated == 0 then WRITE_ZERO else WRITE);
    } else if model == SingleGas {
      cost := 2 * READ;
      for i := 0 to |p.constraints|
        invariant |p'.constraints| == |p.constraints| && p'.multi == p.multi && p'.backlog == p.backlog
        invariant cost == 2 * READ + TraversalCost(p.constraints[..i], gas)
        invariant forall k :: 0 <= k < |p.constraints| ==>
                                p'.constraints[k] == if k < i then Monus(p.constraints[k], gas) else p.constraints[k]
      {
        assert p.constraints[..i + 1][..i] == p.constraints[..i];
        var updated := Monus(p'.constraints[i], gas);
        p' := p'.(constraints := p'.constraints[i := updated]);
        cost := cost + READ + (if updated == 0 then WRITE_ZERO else WRITE);
      }
      assert p.constraints[..|p.constraints|] == p.constraints;
    } else {
      cost := 0;
      for i := 0 to |p.multi|
        invariant |p'.multi| == |p.multi| && p'.constraints == p.constraints && p'.backlog == p.backlog
        invariant forall k :: 0 <= k < |p.multi| ==>
                                p'.multi[k] == if k < i
                                then (Monus(p.multi[k].0, SatMul(MAX_U64, gas, p.multi[k].1)), p.multi[k].1)
                                else p.multi[k]
      {
        var (backlog, weight) := p'.multi[i];
        p' := p'.(multi := p'.multi[i := (Monus(backlog, SatMul(MAX_U64, gas, weight)), weight)]);
      }
    }
    if version >= MULTI_CONSTRAINTS {
      cost := READ + WRITE;
    }
  }

  /** What redeem sets aside for the backlog update before it knows the outcome. */
  function BacklogReserve(p: Pricing, version: U64): nat {
    if version >= MULTI_CONSTRAINTS then READ + WRITE
    else
      var modelRead := if version >= SINGLE_CONSTRAINTS then READ else 0;
      if version >= CONSTRAINT_FIX && |p.constraints| > 0 then modelRead + READ + |p.constraints| * (READ + WRITE)
      else modelRead + READ + WRITE
  }

  lemma {:induction false} TraversalBounds(constraints: seq<U64>, gas: U64)
    ensures |constraints| * (READ + WRITE_ZERO) <= TraversalCost(constraints, gas) <= |constraints| * (READ + WRITE)
    ensures (exists i :: 0 <= i < |constraints| && constraints[i] > gas) ==>
              |constraints| * (READ + WRITE_ZERO) + WRITE - WRITE_ZERO <= TraversalCost(constraints, gas)
    ensures (forall i :: 0 <= i < |constraints| ==> constraints[i] <= gas) ==>
              TraversalCost(constraints, gas) == |constraints| * (READ + WRITE_ZERO)
  {
    if constraints != [] {
      var n := |constraints| - 1;
      TraversalBounds(constraints[..n], gas);
      if i :| 0 <= i < |constraints| && constraints[i] > gas {
        if i < n {
          assert constraints[..n][i] > gas;
        }
      }
    }
  }

  /**
   The reservation covers the update except at ArbOS 50 under gas constraints, where it does so exactly
   when the donation empties every constraint and there are at most three of them.
   */
  lemma {:induction false} ReserveCoversExactly(p: Pricing, gas: U64, version: U64)
    ensures ShrinkCost(p, gas, version) <= BacklogReserve(p, version) <==>
            || version != SINGLE_CONSTRAINTS
            || |p.constraints| == 0
            || (|p.constraints| <= 3 && forall i :: 0 <= i < |p.constraints| ==> p.constraints[i] <= gas)
  {
    TraversalBounds(p.constraints, gas);
  }

  // ------------------------------------------------------------------ the redeem call

  /** Charge that the dispatcher adds around the call: opening the state, copying arguments and result. */
  function CallOverhead(inputLen: nat, outputLen: nat): nat {
    STATE_OPEN_GAS + COPY_GAS * WordsFor(Monus(inputLen, 4)) + COPY_GAS * WordsFor(outputLen)
  }

  function ReadBurns(calldataLen: nat, version: U64): nat {
    READ_BURNS_BASE + SIZE_SLOAD_GAS * WordsFor(calldataLen) + READ * Monus(WordsFor(calldataLen), 1)
    + (if CONSTRAINT_FIX <= version < MULTI_CONSTRAINTS then READ else 0)
  }

  function Reserved(p: Pricing, calldataLen: nat, version: U64): nat {
    EVENT_GAS + COPY_GAS + BacklogReserve(p, version) + ReadBurns(calldataLen, version)
  }

  /** What the gas of a redeem call of a live ticket depends on. */
  datatype RedeemArgs = RedeemArgs(gasLimit: U64, inputLen: nat, calldataLen: nat, version: U64, pricing: Pricing)
  {
    function Reserve(): nat { BacklogReserve(pricing, version) }

    /** After everything reserved, enough is left to donate. */
    predicate Funded() {
      Reserved(pricing, calldataLen, version) + RETRY_GAS_MINIMUM <= gasLimit
    }

    function Donated(): (gas: U64)
      requires Funded()
    {
      gasLimit - Reserved(pricing, calldataLen, version)
    }

    function BacklogCost(): nat
      requires Funded()
    {
      ShrinkCost(pricing, Donated(), version)
    }

    predicate Succeeds() {
      Funded() && BacklogCost() <= Reserve() && CallOverhead(inputLen, 32) <= gasLimit
    }

    /** What is charged beside the donation. */
    function SchedulingCost(): nat
      requires Funded()
    {
      ReadBurns(calldataLen, version) + EVENT_GAS + COPY_GAS + BacklogCost()
    }

    /** The charge of a redeem that succeeds: the precompile's own, and the dispatcher's overhead on top. */
    function Charged(): nat
      requires Succeeds()
    {
      Monus(gasLimit - (Reserve() - BacklogCost()), CallOverhead(inputLen, 32)) + CallOverhead(inputLen, 32)
    }
  }

  /**
   A successful redeem donates at least the minimum and is charged more than it donates.  The charge is the
   donation plus the cost of scheduling exactly when no subtraction saturates.
   */
  lemma {:induction false} ChargeExceedsDonation(a: RedeemArgs)
    requires a.Succeeds()
    ensures RETRY_GAS_MINIMUM <= a.Donated() < a.Charged() <= a.gasLimit
    ensures a.Charged() == a.Donated() + a.SchedulingCost() <==>
            CallOverhead(a.inputLen, 32) <= a.gasLimit - (a.Reserve() - a.BacklogCost())
  {
  }

  datatype RedeemResult =
    | Redeemed(donated: U64, charged: U64, pricing: Pricing)
    | Refused
    | Reverted
    | OutOfGas

  /** The gas of one redeem call of a live ticket, up to and including the dispatcher's charge. */
  method RedeemCall(a: RedeemArgs) returns (r: RedeemResult)
    ensures r.Refused? <==> !a.Funded()
    ensures r.Reverted? <==> a.Funded() && a.Reserve() < a.BacklogCost()
    ensures r.OutOfGas? <==> a.Funded() && a.BacklogCost() <= a.Reserve() && a.gasLimit < CallOverhead(a.inputLen, 32)
    ensures r.Redeemed? ==>
              && r.donated == a.Donated() && r.charged == a.Charged()
              && Shrunk(a.pricing, a.Donated(), a.version, r.pricing)
  {
    var reserve := BacklogReserve(a.pricing, a.version);
    var reserved := EVENT_GAS + COPY_GAS + reserve + ReadBurns(a.calldataLen, a.version);
    if a.gasLimit < reserved {
      return Refused;
    }
    var donated := a.gasLimit - reserved;
    if donated < RETRY_GAS_MINIMUM {
      return Refused;
    }
    var p', actual := ShrinkBacklog(a.pricing, donated, a.version);
    if actual > reserve {
      return Reverted;
    }
    var overReserve := reserve - actual;
    var extra := STATE_OPEN_GAS + COPY_GAS * WordsFor(Monus(a.inputLen, 4)) + COPY_GAS * WordsFor(32);
    var consumed := Monus(Monus(a.gasLimit, overReserve), extra);
    if consumed + CallOverhead(a.inputLen, 32) > a.gasLimit {
      return OutOfGas;
    }
    return Redeemed(donated, consumed + CallOverhead(a.inputLen, 32), p');
  }

  /** For every input up to half a megabyte (the call itself has 36 bytes) no subtraction saturates. */
  lemma {:induction false} OverheadFits(a: RedeemArgs)
    requires a.Funded() && a.BacklogCost() <= a.Reserve() && a.inputLen <= 500_000
    ensures a.Succeeds() && a.Charged() == a.Donated() + a.SchedulingCost()
  {
    assert WordsFor(Monus(a.inputLen, 4)) <= 15_625 && WordsFor(32) == 1;
    assert READ_BURNS_BASE <= ReadBurns(a.calldataLen, a.version);
    ChargeExceedsDonation(a);
  }

  // ------------------------------------------------------------------ inputs on which the conditions fail

  /** At ArbOS 50 a constraint that the donation does not empty makes an otherwise funded redeem revert. */
  lemma {:induction false} ReserveTooSmall() returns (a: RedeemArgs)
    ensures a.version == SINGLE_CONSTRAINTS && |a.pricing.constraints| == 1
    ensures a.Funded() && a.BacklogCost() > a.Reserve()
  {
    a := RedeemArgs(100_000, 36, 0, 50, Pricing(0, [1_000_000], []));
    assert a.pricing.constraints[..0] == [];
  }

  /** A padded input of 640004 bytes: the charge is more than the donation and the cost of scheduling. */
  lemma {:induction false} LongInputSaturates() returns (a: RedeemArgs)
    ensures a.inputLen == 640_004 && a.Succeeds() && a.Charged() > a.Donated() + a.SchedulingCost()
  {
    a := RedeemArgs(73_055, 640_004, 0, 40, Pricing(0, [], []));
  }

  // ------------------------------------------------------------------ in numbers

  /** The reservation for the backlog update at the boundaries between versions. */
  lemma {:induction false} ReserveInNumbers(p: Pricing, version: U64)
    ensures version < 50 ==> BacklogReserve(p, version) == 20_800
    ensures version == 50 ==> BacklogReserve(p, version) == 21_600
    ensures 51 <= version < 60 ==>
              BacklogReserve(p, version) == if |p.constraints| == 0 then 21_600 else 1_600 + 20_800 * |p.constraints|
    ensures version >= 60 ==> BacklogReserve(p, version) == 20_800
  {
  }

  /** The cost of the update: a backlog that is emptied is cheaper to write. */
  lemma {:induction false} ShrinkCostInNumbers(p: Pricing, gas: U64, version: U64)
    ensures version < 50 ==> ShrinkCost(p, gas, version) == if p.backlog <= gas then 5_800 else 20_800
    ensures 50 <= version < 60 && |p.constraints| == 0 ==>
              ShrinkCost(p, gas, version) == if p.backlog <= gas then 6_600 else 21_600
    ensures 50 <= version < 60 && |p.constraints| > 0 && (forall i :: 0 <= i < |p.constraints| ==> p.constraints[i] <= gas) ==>
              ShrinkCost(p, gas, version) == 1_600 + 5_800 * |p.constraints|
    ensures 50 <= version < 60 && |p.constraints| > 0 && (forall i :: 0 <= i < |p.constraints| ==> p.constraints[i] > gas) ==>
              ShrinkCost(p, gas, version) == 1_600 + 20_800 * |p.constraints|
    ensures version >= 60 ==> ShrinkCost(p, gas, version) == 20_800
  {
    TraversalBounds(p.constraints, gas);
    if forall i :: 0 <= i < |p.constraints| ==> p.constraints[i] > gas {
      AllKept(p.constraints, gas);
    }
  }

  lemma {:induction false} AllKept(constraints: seq<U64>, gas: U64)
    requires forall i :: 0 <= i < |constraints| ==> constraints[i] > gas
    ensures TraversalCost(constraints, gas) == 20_800 * |constraints|
  {
    if constraints != [] {
      AllKept(constraints[..|constraints| - 1], gas);
    }
  }

  /** The donation, by the calldata of the ticket: 50 gas for its first word and 850 for every further one. */
  lemma {:induction false} DonationInNumbers(a: RedeemArgs)
    requires a.Funded()
    ensures var words := (a.calldataLen + 31) / 32;
            a.Donated() + a.Reserve() + 31_255 + (if words == 0 then 0 else 850 * words - 800)
            + (if 51 <= a.version < 60 then 800 else 0) == a.gasLimit
    ensures a.Donated() >= 21_000
  {
  }

  /** A plain call, of 36 bytes, carries an overhead of 806 gas. */
  lemma {:induction false} OverheadInNumbers(inputLen: nat)
    requires inputLen >= 4
    ensures CallOverhead(36, 32) == 806
    ensures CallOverhead(inputLen, 32) == 803 + 3 * ((inputLen - 4 + 31) / 32)
  {
  }

  /** Which backlog a donation shrinks: the legacy one unless constraints are configured and known to the version. */
  lemma {:induction false} ShrunkInNumbers(p: Pricing, gas: U64, version: U64, p': Pricing)
    requires Shrunk(p, gas, version, p')
    ensures version < 50 || (p.constraints == [] && (version < 60 || p.multi == [])) ==>
              && p'.backlog == (if gas <= p.backlog then p.backlog - gas else 0)
              && p'.constraints == p.constraints && p'.multi == p.multi
    ensures version >= 50 && p.constraints != [] && (version < 60 || p.multi == []) ==>
              && p'.backlog == p.backlog && p'.multi == p.multi
              && forall i :: 0 <= i < |p.constraints| ==>
                               p'.constraints[i] == if gas <= p.constraints[i] then p.constraints[i] - gas else 0
    ensures version >= 60 && p.multi != [] ==> p'.backlog == p.backlog && p'.constraints == p.constraints
  {
  }
}
