/**
 ArbOS versions: the upgrade cascade, genesis at a version, and how the two compare.
 */
module Upgrade {
  import opened Words
  import opened Ledger

  // ------------------------------------------------------------------ precompiles

  datatype Precompile = Precompile(address: nat, minVersion: nat, debugOnly: bool)

  const PRECOMPILES: seq<Precompile> := [
    Precompile(0x64, 0, false), Precompile(0x65, 0, false), Precompile(0x66, 0, false),
    Precompile(0x67, 0, false), Precompile(0x68, 0, false), Precompile(0x69, 0, false),
    Precompile(0x6b, 0, false), Precompile(0x6c, 0, false), Precompile(0x6d, 0, false),
    Precompile(0x6e, 0, false), Precompile(0x6f, 0, false), Precompile(0x70, 0, false),
    Precompile(0x71, 30, false), Precompile(0x72, 30, false), Precompile(0x73, 41, false),
    Precompile(0x74, 60, false), Precompile(0xff, 0, true), Precompile(0xa4b05, 0, false)
  ]

  /** The addresses of a table whose precompiles exist at a version. */
  ghost function CodeIn(table: seq<Precompile>, version: nat): set<nat> {
    set i | 0 <= i < |table| && table[i].minVersion <= version :: table[i].address
  }

  /** The addresses of a table that an upgrade to a version adds. */
  ghost function IntroducedIn(table: seq<Precompile>, version: nat): set<nat> {
    set i | 0 <= i < |table| && table[i].minVersion == version && !table[i].debugOnly :: table[i].address
  }

  ghost function CodeAt(version: nat): set<nat> {
    CodeIn(PRECOMPILES, version)
  }

  ghost function Introduced(version: nat): set<nat> {
    IntroducedIn(PRECOMPILES, version)
  }

  lemma {:induction false} CodeGrows(version: nat)
    ensures CodeAt(version + 1) == CodeAt(version) + Introduced(version + 1)
  {
    assert forall i :: 0 <= i < |PRECOMPILES| && PRECOMPILES[i].debugOnly ==> PRECOMPILES[i].minVersion == 0;
  }

  /** Which precompiles there are from the start, and which an upgrade to version 30, 41 or 60 adds. */
  lemma {:induction false} PrecompilesByVersion(version: nat)
    ensures forall x :: x in CodeAt(0) <==> Original(x)
    ensures version > 0 ==> Introduced(version) == Added(version)
  {
    forall x
      ensures x in CodeAt(0) <==> Original(x)
    {
      FirstCode(x);
    }
    if version > 0 {
      AddedExactly(version);
    }
  }

  /** The addresses 0x64 to 0x70 without 0x6a, the debug precompile and the internal actor. */
  predicate Original(x: nat) {
    (0x64 <= x <= 0x70 && x != 0x6a) || x == 0xff || x == 0xa4b05
  }

  lemma {:induction false} OriginalEntries()
    ensures |PRECOMPILES| == 18
    ensures forall i :: 0 <= i < 6 ==> PRECOMPILES[i] == Precompile(0x64 + i, 0, false)
    ensures forall i :: 6 <= i < 12 ==> PRECOMPILES[i] == Precompile(0x65 + i, 0, false)
    ensures PRECOMPILES[16] == Precompile(0xff, 0, true) && PRECOMPILES[17] == Precompile(0xa4b05, 0, false)
  {
  }

  lemma {:induction false} FirstCode(x: nat)
    ensures x in CodeAt(0) <==> Original(x)
  {
    OriginalEntries();
    LateEntries();
    if Original(x) {
      var i := if x == 0xff then 16 else if x == 0xa4b05 then 17 else if x < 0x6a then x - 0x64 else x - 0x65;
      assert PRECOMPILES[i].minVersion == 0 && PRECOMPILES[i].address == x;
    }
    if x in CodeAt(0) {
      var i :| 0 <= i < |PRECOMPILES| && PRECOMPILES[i].minVersion <= 0 && PRECOMPILES[i].address == x;
      assert i < 12 || i == 16 || i == 17;
    }
  }

  function Added(version: nat): set<nat> {
    if version == 30 then {0x71, 0x72} else if version == 41 then {0x73} else if version == 60 then {0x74} else {}
  }

  lemma {:induction false} AddedExactly(version: nat)
    requires version > 0
    ensures Introduced(version) == Added(version)
  {
    LateEntries();
    forall x
      ensures x in Introduced(version) <==> x in Added(version)
    {
      if x in Added(version) {
        var i := if x == 0x71 then 12 else if x == 0x72 then 13 else if x == 0x73 then 14 else 15;
        assert PRECOMPILES[i].minVersion == version && !PRECOMPILES[i].debugOnly && PRECOMPILES[i].address == x;
      }
    }
  }

  lemma {:induction false} LateEntries()
    ensures |PRECOMPILES| == 18
    ensures PRECOMPILES[12] == Precompile(0x71, 30, false) && PRECOMPILES[13] == Precompile(0x72, 30, false)
    ensures PRECOMPILES[14] == Precompile(0x73, 41, false) && PRECOMPILES[15] == Precompile(0x74, 60, false)
    ensures forall i :: 0 <= i < 18 && PRECOMPILES[i].minVersion > 0 ==> 12 <= i < 16
  {
  }

  // ------------------------------------------------------------------ the state the cascade touches

  /** The packed word of Stylus parameters. */
  datatype StylusParams = StylusParams(
    version: nat, inkPrice: nat, maxStackDepth: nat, freePages: nat, pageGas: nat, pageLimit: nat,
    minInitGas: nat, minCachedInitGas: nat, initCostScalar: nat, cachedCostScalar: nat,
    expiryDays: nat, keepaliveDays: nat, blockCacheSize: nat, maxWasmSize: nat, maxFragmentCount: nat)

  datatype DataPricer = DataPricer(bytesPerSecond: nat, lastUpdateTime: nat, minPrice: nat, inertia: nat)

  datatype ArbosState = ArbosState(
    version: nat,
    lastSurplus: int, perBatchGasCost: int, amortizedCostCapBips: nat, l1FeesAvailable: nat,
    payRewardsTo: Address, equilibrationUnits: nat,
    speedLimit: nat, perBlockGasLimit: nat, perTxGasLimit: nat,
    networkFeeAccount: Address, ownerList: seq<Address>, owners: set<Address>,
    brotliLevel: nat, params: StylusParams, dataPricer: DataPricer,
    historyContract: bool, filterAccount: bool,
    code: set<nat>, poolBalance: nat)

  const NO_PARAMS: StylusParams := StylusParams(0, 0, 0, 0, 0, 0, 0, 0, 0, 0, 0, 0, 0, 0, 0)
  const INITIAL_PARAMS: StylusParams :=
    StylusParams(1, 10_000, 262_144, 2, 1_000, 128, 72, 11, 50, 50, 365, 31, 32, 0, 0)
  const NO_PRICER: DataPricer := DataPricer(0, 0, 0, 0)
  const INITIAL_PRICER: DataPricer := DataPricer(34_865, 1_421_388_000, 82_928_201, 21_360_419)
  const BATCH_POSTER: Address := Account(0xA4B0_0000_0000_0000_0000_0073_6571_7565_6e63_6572)
  const LATEST: nat := 61

  predicate Known(version: nat) {
    2 <= version <= LATEST
  }

  /** The migration of one version. */
  function Migrated(s: ArbosState, version: nat, firstTime: bool): ArbosState {
    match version
    case 2 => s.(lastSurplus := 0)
    case 3 => s.(perBatchGasCost := 0, amortizedCostCapBips := MAX_U64)
    case 10 => s.(l1FeesAvailable := s.poolBalance)
    case 11 =>
      s.(perBatchGasCost := 210_000,
      amortizedCostCapBips := if s.amortizedCostCapBips == MAX_U64 then 0 else s.amortizedCostCapBips,
      ownerList := if firstTime then s.ownerList else [])
    case 20 => s.(brotliLevel := 1)
    case 30 => s.(params := INITIAL_PARAMS, dataPricer := INITIAL_PRICER)
    case 31 => s.(params := s.params.(version := 2, minInitGas := 69))
    case 40 => s.(historyContract := true, params := s.params.(maxWasmSize := 131_072))
    case 50 =>
      s.(perTxGasLimit := 32_000_000,
      params := s.params.(maxStackDepth := Min(s.params.maxStackDepth, 22_000)))
    case 59 => s.(params := s.params.(version := 3))
    case 60 => s.(filterAccount := true, params := s.params.(maxWasmSize := 262_144, maxFragmentCount := 4))
    case _ => s
  }

  /** One step of the cascade: migrate, install what is new, store the version. */
  ghost function Step(s: ArbosState, version: nat, firstTime: bool): ArbosState {
    var m := Migrated(s, version, firstTime);
    m.(code := m.code + Introduced(version), version := version)
  }

  datatype Outcome = Outcome(state: ArbosState, unknown: Option<nat>)

  /** Every step from `current` up to `target`, or up to the first version that is not known. */
  ghost function Cascade(s: ArbosState, current: nat, target: nat, firstTime: bool): Outcome
    decreases target - current
  {
    if current >= target then Outcome(s, None)
    else if !Known(current + 1) then Outcome(s, Some(current + 1))
    else Cascade(Step(s, current + 1, firstTime), current + 1, target, firstTime)
  }

  class Store {
    var state: ArbosState

    constructor (s: ArbosState)
      ensures state == s
    {
      state := s;
    }

    method InstallPrecompilesIntroducedAt(version: nat)
      modifies this
      ensures state == old(state).(code := old(state).code + Introduced(version))
    {
      InstallFrom(PRECOMPILES, version);
    }

    method InstallFrom(table: seq<Precompile>, version: nat)
      modifies this
      ensures state == old(state).(code := old(state).code + IntroducedIn(table, version))
    {
      ghost var before := state;
      for i := 0 to |table|
        invariant state == before.(code := before.code + IntroducedIn(table[..i], version))
      {
        IntroducedMore(table, i, version);
        if table[i].minVersion == version && !table[i].debugOnly {
          state := state.(code := state.code + {table[i].address});
        }
      }
      assert table[..|table|] == table;
    }

    /** Installs everything that exists at a version. */
    method InstallAll(table: seq<Precompile>, version: nat)
      modifies this
      ensures state == old(state).(code := old(state).code + CodeIn(table, version))
    {
      ghost var before := state;
      for i := 0 to |table|
        invariant state == before.(code := before.code + CodeIn(table[..i], version))
      {
        CodeMore(table, i, version);
        if table[i].minVersion <= version {
          state := state.(code := state.code + {table[i].address});
        }
      }
      assert table[..|table|] == table;
    }

    method MigrateTo(version: nat, firstTime: bool)
      requires Known(version)
      modifies this
      ensures state == Migrated(old(state), version, firstTime)
    {
      match version {
        case 2 => state := state.(lastSurplus := 0);
        case 3 =>
          state := state.(perBatchGasCost := 0);
          state := state.(amortizedCostCapBips := MAX_U64);
        case 10 => state := state.(l1FeesAvailable := state.poolBalance);
        case 11 =>
          state := state.(perBatchGasCost := 210_000);
          if state.amortizedCostCapBips == MAX_U64 {
            state := state.(amortizedCostCapBips := 0);
          }
          if !firstTime {
            state := state.(ownerList := []);
          }
        case 20 => state := state.(brotliLevel := 1);
        case 30 =>
          state := state.(params := INITIAL_PARAMS);
          state := state.(dataPricer := INITIAL_PRICER);
        case 31 => state := state.(params := state.params.(version := 2, minInitGas := 69));
        case 40 =>
          state := state.(historyContract := true);
          state := state.(params := state.params.(maxWasmSize := 131_072));
        case 50 =>
          if state.params.maxStackDepth > 22_000 {
            state := state.(params := state.params.(maxStackDepth := 22_000));
          }
          state := state.(perTxGasLimit := 32_000_000);
        case 59 => state := state.(params := state.params.(version := 3));
        case 60 =>
          state := state.(params := state.params.(maxWasmSize := 262_144, maxFragmentCount := 4));
          state := state.(filterAccount := true);
        case _ =>
      }
    }

    /** Upgrades step by step; an unknown version stops it with the versions before it in place. */
    method UpgradeArbosVersion(current: nat, target: nat, firstTime: bool) returns (unknown: Option<nat>)
      modifies this
      ensures Outcome(state, unknown) == Cascade(old(state), current, target, firstTime)
    {
      var version := current;
      while version < target
        invariant current <= version
        invariant Cascade(state, version, target, firstTime) == Cascade(old(state), current, target, firstTime)
      {
        version := version + 1;
        if !Known(version) {
          return Some(version);
        }
        MigrateTo(version, firstTime);
        InstallPrecompilesIntroducedAt(version);
        state := state.(version := version);
      }
      return None;
    }

    /** The upgrade trigger at the start of a block. */
    method UpgradeIfNecessary(upgradeVersion: nat, upgradeTimestamp: nat, now: nat) returns (unknown: Option<nat>)
      modifies this
      ensures if upgradeVersion > old(state).version && now >= upgradeTimestamp
              then Outcome(state, unknown) == Cascade(old(state), old(state).version, upgradeVersion, false)
              else state == old(state) && unknown == None
    {
      if upgradeVersion > state.version && now >= upgradeTimestamp {
        unknown := UpgradeArbosVersion(state.version, upgradeVersion, false);
      } else {
        unknown := None;
      }
    }
  }

  lemma {:induction false} IntroducedMore(table: seq<Precompile>, n: nat, version: nat)
    requires n < |table|
    ensures IntroducedIn(table[..n + 1], version) ==
            IntroducedIn(table[..n], version)
            + if table[n].minVersion == version && !table[n].debugOnly then {table[n].address} else {}
  {
    var more := table[..n + 1];
    assert more[..n] == table[..n] && more[n] == table[n];
    assert forall i :: 0 <= i < n ==> table[..n][i] == more[i];
  }

  lemma {:induction false} CodeMore(table: seq<Precompile>, n: nat, version: nat)
    requires n < |table|
    ensures CodeIn(table[..n + 1], version) ==
            CodeIn(table[..n], version) + if table[n].minVersion <= version then {table[n].address} else {}
  {
    var more := table[..n + 1];
    assert more[..n] == table[..n] && more[n] == table[n];
    assert forall i :: 0 <= i < n ==> table[..n][i] == more[i];
  }

  // ------------------------------------------------------------------ composition

  /** Upgrading in two legs is upgrading at once; a leg that fails is where the whole fails. */
  lemma {:induction false} CascadeComposes(s: ArbosState, a: nat, b: nat, c: nat, firstTime: bool)
    requires a <= b <= c
    ensures var leg := Cascade(s, a, b, firstTime);
            Cascade(s, a, c, firstTime) ==
            if leg.unknown.Some? then leg else Cascade(leg.state, b, c, firstTime)
    decreases b - a
  {
    if a < b && Known(a + 1) {
      CascadeComposes(Step(s, a + 1, firstTime), a + 1, b, c, firstTime);
    }
  }

  /** One known step of the cascade leads to a state that has stored its version. */
  lemma {:induction false} StepReaches(s: ArbosState, a: nat, c: nat, firstTime: bool) returns (next: ArbosState)
    requires a < c && Known(a + 1)
    ensures next.version == a + 1 && Cascade(s, a, c, firstTime) == Cascade(next, a + 1, c, firstTime)
  {
    next := Step(s, a + 1, firstTime);
  }

  /** What an upgrade from `a` to `c` comes to: failure exactly past version 61, and the last version reached is stored. */
  ghost predicate Reached(r: Outcome, a: nat, c: nat) {
    && (r.unknown.Some? <==> a < c && c > 61)
    && (r.unknown == None ==> r.state.version == c)
    && (r.unknown.Some? ==> r.unknown.value == r.state.version + 1 == (if a > 61 then a else 61) + 1)
  }

  lemma {:induction false} CascadeReaches(s: ArbosState, a: nat, c: nat, firstTime: bool)
    requires 1 <= a <= c && s.version == a
    ensures Reached(Cascade(s, a, c, firstTime), a, c)
    decreases c - a
  {
    if a < c && Known(a + 1) {
      var next := StepReaches(s, a, c, firstTime);
      CascadeReaches(next, a + 1, c, firstTime);
    }
  }

  // ------------------------------------------------------------------ genesis

  /** Genesis before its own cascade: version 1, with the constants of the first version. */
  ghost function Founded(owner: Address, pool: nat, version: nat): ArbosState {
    ArbosState(
      1, 0, 0, 0, 0,
      if version >= 2 then owner else BATCH_POSTER, 96_000_000,
      1_000_000, 20_000_000, 0,
      if version >= 2 then owner else ZERO_ADDRESS, [owner], {owner},
      0, NO_PARAMS, NO_PRICER, false, false, CodeAt(version), pool)
  }

  /** The constants that only a genesis at version 6 or later writes. */
  ghost function Overridden(s: ArbosState, version: nat): ArbosState {
    if version < 6 then s
    else s.(perBatchGasCost := if version < 11 then 100_000 else s.perBatchGasCost,
         equilibrationUnits := 160_000_000, speedLimit := 7_000_000, perBlockGasLimit := 32_000_000)
  }

  ghost function ParamsAt(version: nat): StylusParams {
    if version < 30 then NO_PARAMS
    else INITIAL_PARAMS.(
         version := if version >= 59 then 3 else if version >= 31 then 2 else 1,
         minInitGas := if version >= 31 then 69 else 72,
         maxStackDepth := if version >= 50 then 22_000 else 262_144,
         maxWasmSize := if version >= 60 then 262_144 else if version >= 40 then 131_072 else 0,
         maxFragmentCount := if version >= 60 then 4 else 0)
  }

  /** What a cascade started at version 1 has written when it reaches `version`. */
  ghost function CascadedAt(founded: ArbosState, version: nat): ArbosState {
    founded.(
    version := version,
    lastSurplus := 0,
    perBatchGasCost := if version >= 11 then 210_000 else 0,
    amortizedCostCapBips := if 3 <= version < 11 then MAX_U64 else 0,
    l1FeesAvailable := if version >= 10 then founded.poolBalance else 0,
    brotliLevel := if version >= 20 then 1 else 0,
    params := ParamsAt(version),
    dataPricer := if version >= 30 then INITIAL_PRICER else NO_PRICER,
    historyContract := version >= 40,
    perTxGasLimit := if version >= 50 then 32_000_000 else 0,
    filterAccount := version >= 60)
  }

  /** The state of a chain founded at `version`. */
  ghost function GenesisAt(owner: Address, pool: nat, version: nat): ArbosState {
    Overridden(CascadedAt(Founded(owner, pool, version), version), version)
  }

  /** The precompiles a version introduces are installed already at a later genesis. */
  lemma {:induction false} IntroducedInstalled(version: nat, target: nat)
    requires version <= target
    ensures CodeAt(target) + Introduced(version) == CodeAt(target)
  {
  }

  /** A family of states that follows the steps of the cascade is what the cascade computes. */
  lemma {:induction false} CascadeFollows(states: nat -> ArbosState, a: nat, c: nat, firstTime: bool)
    requires a <= c && forall v :: a < v <= c ==> Known(v) && Step(states(v - 1), v, firstTime) == states(v)
    ensures Cascade(states(a), a, c, firstTime) == Outcome(states(c), None)
    decreases c - a
  {
    if a < c {
      CascadeFollows(states, a + 1, c, firstTime);
    }
  }

  lemma {:induction false} GenesisCascade(founded: ArbosState, target: nat)
    requires 1 <= target <= LATEST && founded.code == CodeAt(target) && founded == CascadedAt(founded, 1)
    ensures Cascade(founded, 1, target, true) == Outcome(CascadedAt(founded, target), None)
  {
    var states := (v: nat) => CascadedAt(founded, v);
    forall v | 1 < v <= target
      ensures Known(v) && Step(states(v - 1), v, true) == states(v)
    {
      StepsGenesis(founded, v, target);
    }
    CascadeFollows(states, 1, target, true);
  }

  lemma {:induction false} StepsGenesis(founded: ArbosState, v: nat, target: nat)
    requires 2 <= v <= target <= LATEST && founded.code == CodeAt(target) && founded == CascadedAt(founded, 1)
    ensures Step(CascadedAt(founded, v - 1), v, true) == CascadedAt(founded, v)
  {
    IntroducedInstalled(v, target);
    MigratesGenesis(founded, v);
  }

  lemma {:induction false} MigratesGenesis(founded: ArbosState, v: nat)
    requires 2 <= v <= LATEST && founded == CascadedAt(founded, 1)
    ensures Migrated(CascadedAt(founded, v - 1), v, true) == CascadedAt(founded, v).(version := v - 1)
  {
  }

  /** Initialises a fresh chain; version 0 and unknown versions are refused. */
  method InitializeArbosState(owner: Address, pool: nat, version: nat) returns (store: Store, ok: bool)
    ensures ok <==> 1 <= version <= LATEST
    ensures ok ==> store.state == GenesisAt(owner, pool, version)
  {
    store := new Store(ArbosState(0, 0, 0, 0, 0, ZERO_ADDRESS, 0, 0, 0, 0, ZERO_ADDRESS, [], {},
                       0, NO_PARAMS, NO_PRICER, false, false, {}, pool));
    if version == 0 {
      return store, false;
    }
    store.InstallAll(PRECOMPILES, version);
    assert store.state.code == CodeAt(version);
    store.state := store.state.(version := 1);
    if version >= 2 {
      store.state := store.state.(networkFeeAccount := owner);
    }
    store.state := store.state.(payRewardsTo := if version >= 2 then owner else BATCH_POSTER,
    equilibrationUnits := 96_000_000,
    speedLimit := 1_000_000, perBlockGasLimit := 20_000_000);
    store.state := store.state.(ownerList := [owner], owners := {owner});
    ghost var founded := Founded(owner, pool, version);
    assert store.state == founded;
    CascadeReaches(founded, 1, version, true);
    if version <= LATEST {
      GenesisCascade(founded, version);
    }
    if version > 1 {
      var unknown := store.UpgradeArbosVersion(1, version, true);
      if unknown.Some? {
        return store, false;
      }
    }
    if version >= 6 {
      if version < 11 {
        store.state := store.state.(perBatchGasCost := 100_000);
      }
      store.state := store.state.(equilibrationUnits := 160_000_000, speedLimit := 7_000_000, perBlockGasLimit := 32_000_000);
    }
    ok := true;
  }

  // ------------------------------------------------------------------ genesis, then upgrade

  /** A chain founded at `a` and upgraded to `c`, in terms of one founded at `c`. */
  ghost function UpgradedAt(owner: Address, pool: nat, a: nat, c: nat): ArbosState {
    var g := GenesisAt(owner, pool, a);
    GenesisAt(owner, pool, c).(
    ownerList := if a < 11 <= c then [] else [owner],
    perBatchGasCost := if c < 11 then g.perBatchGasCost else 210_000,
    networkFeeAccount := g.networkFeeAccount,
    payRewardsTo := g.payRewardsTo,
    equilibrationUnits := g.equilibrationUnits,
    speedLimit := g.speedLimit,
    perBlockGasLimit := g.perBlockGasLimit)
  }

  lemma {:induction false} UpgradeMigrates(owner: Address, pool: nat, a: nat, v: nat)
    requires 1 <= a < v <= LATEST
    ensures var next := UpgradedAt(owner, pool, a, v);
            Migrated(UpgradedAt(owner, pool, a, v - 1), v, false) == next.(version := v - 1, code := CodeAt(v - 1))
  {
  }

  lemma {:induction false} UpgradeStep(owner: Address, pool: nat, a: nat, v: nat)
    requires 1 <= a < v <= LATEST
    ensures Step(UpgradedAt(owner, pool, a, v - 1), v, false) == UpgradedAt(owner, pool, a, v)
  {
    CodeGrows(v - 1);
    UpgradeMigrates(owner, pool, a, v);
  }

  lemma {:induction false} UpgradedSelf(owner: Address, pool: nat, a: nat)
    requires 1 <= a <= LATEST
    ensures UpgradedAt(owner, pool, a, a) == GenesisAt(owner, pool, a)
  {
  }

  /** What a runtime upgrade of a fresh chain leaves behind. */
  lemma {:induction false} UpgradedGenesis(owner: Address, pool: nat, a: nat, c: nat)
    requires 1 <= a <= c <= LATEST
    ensures Cascade(GenesisAt(owner, pool, a), a, c, false) == Outcome(UpgradedAt(owner, pool, a, c), None)
  {
    var states := (v: nat) => UpgradedAt(owner, pool, a, v);
    forall v | a < v <= c
      ensures Known(v) && Step(states(v - 1), v, false) == states(v)
    {
      UpgradeStep(owner, pool, a, v);
    }
    CascadeFollows(states, a, c, false);
    UpgradedSelf(owner, pool, a);
  }

  /**
   Founding at `a` and upgrading to `c` installs the same precompiles as founding at `c`.  The whole state is
   the same exactly when no version between them is one that genesis treats in its own way: 2, 6 or 11.
   */
  lemma {:induction false} UpgradeMatchesGenesis(owner: Address, pool: nat, a: nat, c: nat)
    requires 1 <= a <= c <= LATEST
    ensures var r := Cascade(GenesisAt(owner, pool, a), a, c, false);
            && r.unknown == None
            && r.state.code == GenesisAt(owner, pool, c).code == CodeAt(c)
            && (r.state == GenesisAt(owner, pool, c) <==> !(a < 2 <= c) && !(a < 6 <= c) && !(a < 11 <= c))
  {
    UpgradedGenesis(owner, pool, a, c);
  }

  /** At each of the three versions the upgraded chain differs from a founded one, whoever owns it. */
  lemma {:induction false} UpgradeDiffersFromGenesis(owner: Address, pool: nat)
    ensures Cascade(GenesisAt(owner, pool, 1), 1, 2, false).state.payRewardsTo == BATCH_POSTER
    ensures GenesisAt(owner, pool, 2).payRewardsTo == owner
    ensures Cascade(GenesisAt(owner, pool, 5), 5, 6, false).state.speedLimit == 1_000_000
    ensures GenesisAt(owner, pool, 6).speedLimit == 7_000_000
    ensures Cascade(GenesisAt(owner, pool, 10), 10, 11, false).state.ownerList == []
    ensures GenesisAt(owner, pool, 11).ownerList == [owner]
  {
    UpgradedGenesis(owner, pool, 1, 2);
    UpgradedGenesis(owner, pool, 5, 6);
    UpgradedGenesis(owner, pool, 10, 11);
  }

  /** A chain founded at version 40 or 5, and the Stylus parameters of one founded at the latest version. */
  lemma {:induction false} GenesisInNumbers(owner: Address, pool: nat)
    ensures var g := GenesisAt(owner, pool, 40);
            && g.equilibrationUnits == 160_000_000 && g.speedLimit == 7_000_000 && g.perBlockGasLimit == 32_000_000
            && g.perBatchGasCost == 210_000 && g.amortizedCostCapBips == 0 && g.l1FeesAvailable == pool && g.brotliLevel == 1
            && g.historyContract && g.perTxGasLimit == 0 && !g.filterAccount
            && g.params == StylusParams(2, 10_000, 262_144, 2, 1_000, 128, 69, 11, 50, 50, 365, 31, 32, 131_072, 0)
            && g.dataPricer == DataPricer(34_865, 1_421_388_000, 82_928_201, 21_360_419)
    ensures var g := GenesisAt(owner, pool, 5);
            && g.equilibrationUnits == 96_000_000 && g.speedLimit == 1_000_000 && g.perBlockGasLimit == 20_000_000
            && g.perBatchGasCost == 0 && g.amortizedCostCapBips == 0xFFFF_FFFF_FFFF_FFFF && g.l1FeesAvailable == 0
            && g.networkFeeAccount == owner && g.payRewardsTo == owner && g.ownerList == [owner]
    ensures GenesisAt(owner, pool, 9).perBatchGasCost == 100_000 && GenesisAt(owner, pool, 10).l1FeesAvailable == pool
    ensures var g := GenesisAt(owner, pool, 61);
            && g.perTxGasLimit == 32_000_000 && g.filterAccount && g.version == 61
            && g.params == StylusParams(3, 10_000, 22_000, 2, 1_000, 128, 69, 11, 50, 50, 365, 31, 32, 262_144, 4)
  {
  }
}
