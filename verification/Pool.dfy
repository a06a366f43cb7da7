/** The liquidity pool: per-region float, shares, exposures, and the two draw limits. */
module PoolRules {
  import opened Prelude
  import opened Totals
  import opened Chain

  const MIN_COLLATERAL_RATIO_BPS: nat := 10_000
  const MAX_COLLATERAL_RATIO_BPS: nat := 100_000
  const MAX_UTILIZATION_CAP_BPS: nat := 9_500

  datatype PoolState = PoolState(
    region: Symbol, totalDeposited: int, totalDrawn: int, totalShares: int, depositorCount: nat,
    utilizationCapBps: nat, active: bool, updatedAt: nat)
  {
    /** Float depositors can still take out. */
    function Available<E>(): Result<int, E> { Plain(totalDeposited - totalDrawn) }

    function UtilizationBps<E>(): Result<nat, E> {
      if totalDeposited <= 0 then Ok(0)
      else
        var scaled :- Plain((if totalDrawn < 0 then 0 else totalDrawn) * 10_000);
        Ok(ToU32(Quotient(scaled, totalDeposited)))
    }
  }

  /** `u32::try_from(x).unwrap_or(u32::MAX)`. */
  function ToU32(x: int): nat { if 0 <= x <= U32_MAX then x else U32_MAX }

  datatype PoolConfig = PoolConfig(
    registry: Address, token: Address, collateralRatioBps: nat, defaultUtilizationCapBps: nat, paused: bool)

  datatype LiquidityStats = LiquidityStats(regionsOpened: nat, totalDeposits: nat, totalWithdrawals: nat, totalDraws: nat)

  datatype LiquidityError =
    | NotInitialized | AlreadyInitialized | Paused | InvalidAmount | UnknownRegion | RegionInactive
    | RegionAlreadyOpen | AgentNotAuthorized | InsufficientCollateral | UtilizationCapExceeded
    | InsufficientLiquidity | InsufficientShares | RepaymentExceedsExposure | ZeroShares | InvalidConfig
    | RegistryCallFailed | Overflow

  /** One holder's stake in one region: an agent's exposure or a provider's shares. */
  datatype Position = Position(holder: Address, region: Symbol)

  datatype PoolContractState = PoolContractState(
    admin: Option<Address>, config: Option<PoolConfig>, stats: LiquidityStats, regionList: seq<Symbol>,
    pools: map<Symbol, PoolState>, exposures: map<Position, int>, shares: map<Position, int>)

  const BLANK_POOL := PoolContractState(None, None, LiquidityStats(0, 0, 0, 0), [], map[], map[], map[])

  type PoolResult<T> = Result<Done<PoolContractState, T>, LiquidityError>

  function Exposure(p: PoolContractState, agent: Address, region: Symbol): int {
    LookupOr(p.exposures, Position(agent, region), 0)
  }

  function ShareBalance(p: PoolContractState, provider: Address, region: Symbol): int {
    LookupOr(p.shares, Position(provider, region), 0)
  }

  function RequireAdmin(p: PoolContractState, caller: Address): Outcome<LiquidityError> {
    match p.admin
    case None => Fail(NotInitialized)
    case Some(admin) => Demand(caller == admin)
  }

  function LoadPool(p: PoolContractState, region: Symbol): Result<PoolState, LiquidityError> {
    Lookup(p.pools, region).OkOr(UnknownRegion)
  }

  function LoadConfig(p: PoolContractState): Result<PoolConfig, LiquidityError> {
    p.config.OkOr(NotInitialized)
  }

  /** Bond an agent must hold to cover an exposure at the configured ratio. */
  function BondRequirement(config: PoolConfig, exposure: int): Result<int, LiquidityError> {
    var scaled :- Checked(exposure * config.collateralRatioBps, Overflow);
    Ok(Quotient(scaled, 10_000))
  }

  predicate ValidRatio(bps: nat) { MIN_COLLATERAL_RATIO_BPS <= bps <= MAX_COLLATERAL_RATIO_BPS }
  predicate ValidCap(bps: nat) { 0 < bps <= MAX_UTILIZATION_CAP_BPS }

  function Initialize(p: PoolContractState, ledger: LedgerState, caller: Address, admin: Address,
                      registry: Address, token: Address, ratio: u32, cap: u32): PoolResult<()>
  {
    var _ :- Check(p.admin.None?, AlreadyInitialized);
    var _ :- Check(ValidRatio(ratio), InvalidConfig);
    var _ :- Check(ValidCap(cap), InvalidConfig);
    var _ :- Demand(caller == admin);
    Ok(Done(p.(admin := Some(admin), config := Some(PoolConfig(registry, token, ratio, cap, false)),
               stats := BLANK_POOL.stats), ledger, ()))
  }

  /** The admin's setters. */
  datatype PoolChange =
    | SetAdmin(admin: Address)
    | SetAgentRegistry(registry: Address)
    | SetCollateralRatio(bps: u32)
    | SetDefaultUtilizationCap(bps: u32)
    | SetUtilizationCap(region: Symbol, bps: u32)
    | SetRegionActive(region: Symbol, active: bool)
    | SetPaused(paused: bool)
    | OpenRegion(region: Symbol, bps: u32)

  function Configure(p: PoolContractState, ledger: LedgerState, caller: Address, change: PoolChange): PoolResult<()> {
    var _ :- RequireAdmin(p, caller);
    match change
    case SetAdmin(next) => Ok(Done(p.(admin := Some(next)), ledger, ()))
    case SetAgentRegistry(registry) =>
      var config :- LoadConfig(p);
      Ok(Done(p.(config := Some(config.(registry := registry))), ledger, ()))
    case SetCollateralRatio(bps) =>
      var _ :- Check(ValidRatio(bps), InvalidConfig);
      var config :- LoadConfig(p);
      Ok(Done(p.(config := Some(config.(collateralRatioBps := bps))), ledger, ()))
    case SetDefaultUtilizationCap(bps) =>
      var _ :- Check(ValidCap(bps), InvalidConfig);
      var config :- LoadConfig(p);
      Ok(Done(p.(config := Some(config.(defaultUtilizationCapBps := bps))), ledger, ()))
    case SetUtilizationCap(region, bps) =>
      var _ :- Check(ValidCap(bps), InvalidConfig);
      var state :- LoadPool(p, region);
      Ok(Done(p.(pools := p.pools[region := state.(utilizationCapBps := bps, updatedAt := ledger.now)]), ledger, ()))
    case SetRegionActive(region, active) =>
      var state :- LoadPool(p, region);
      Ok(Done(p.(pools := p.pools[region := state.(active := active, updatedAt := ledger.now)]), ledger, ()))
    case SetPaused(paused) =>
      var config :- LoadConfig(p);
      Ok(Done(p.(config := Some(config.(paused := paused))), ledger, ()))
    case OpenRegion(region, bps) =>
      var _ :- Check(region !in p.pools, RegionAlreadyOpen);
      var config :- LoadConfig(p);
      var _ :- Check(bps <= MAX_UTILIZATION_CAP_BPS, InvalidConfig);
      var cap := if bps == 0 then config.defaultUtilizationCapBps else bps;
      Ok(Done(p.(pools := p.pools[region := PoolState(region, 0, 0, 0, 0, cap, true, ledger.now)],
                 regionList := PushUnique(p.regionList, region),
                 stats := p.stats.(regionsOpened := Increment(p.stats.regionsOpened))), ledger, ()))
  }

  /** Shares minted for a deposit, at `totalDeposited / totalShares` apiece. */
  function SharesFor(state: PoolState, amount: int): Result<int, LiquidityError> {
    if state.totalShares <= 0 || state.totalDeposited <= 0 then Ok(amount)
    else
      var scaled :- Checked(amount * state.totalShares, Overflow);
      Ok(Quotient(scaled, state.totalDeposited))
  }

  /** Float that a number of shares redeems for. */
  function AmountFor(state: PoolState, shares: int): Result<int, LiquidityError> {
    var _ :- Check(0 < state.totalShares, ZeroShares);
    var scaled :- Checked(shares * state.totalDeposited, Overflow);
    Ok(Quotient(scaled, state.totalShares))
  }

  function DepositLiquidity(p: PoolContractState, ledger: LedgerState, caller: Address,
                            provider: Address, region: Symbol, amount: i128): PoolResult<int>
  {
    var _ :- Demand(caller == provider);
    var _ :- Check(0 < amount, InvalidAmount);
    var config :- LoadConfig(p);
    var _ :- Check(!config.paused, Paused);
    var state :- LoadPool(p, region);
    var _ :- Check(state.active, RegionInactive);
    var minted :- SharesFor(state, amount);
    var _ :- Check(0 < minted, ZeroShares);
    var ledger' :- ledger.Move(config.token, provider, POOL, amount);
    BookDeposit(p, ledger', provider, state, amount, minted)
  }

  function BookDeposit(p: PoolContractState, ledger: LedgerState, provider: Address, state: PoolState,
                       amount: int, minted: int): PoolResult<int>
  {
    var previous := ShareBalance(p, provider, state.region);
    var held :- Plain(previous + minted);
    var deposited :- Checked(state.totalDeposited + amount, Overflow);
    var shares :- Checked(state.totalShares + minted, Overflow);
    var count := if previous == 0 then Increment(state.depositorCount) else state.depositorCount;
    var next := state.(totalDeposited := deposited, totalShares := shares, depositorCount := count, updatedAt := ledger.now);
    Ok(Done(p.(pools := p.pools[state.region := next],
               shares := p.shares[Position(provider, state.region) := held],
               stats := p.stats.(totalDeposits := Increment(p.stats.totalDeposits))), ledger, minted))
  }

  function WithdrawLiquidity(p: PoolContractState, ledger: LedgerState, caller: Address,
                             provider: Address, region: Symbol, shares: i128): PoolResult<int>
  {
    var _ :- Demand(caller == provider);
    var _ :- Check(0 < shares, InvalidAmount);
    var config :- LoadConfig(p);
    var _ :- Check(!config.paused, Paused);
    var state :- LoadPool(p, region);
    var _ :- Check(shares <= ShareBalance(p, provider, region), InsufficientShares);
    var amount :- AmountFor(state, shares);
    var available :- state.Available();
    var _ :- Check(amount <= available, InsufficientLiquidity);
    var ledger' :- ledger.Move(config.token, POOL, provider, amount);
    BookWithdrawal(p, ledger', provider, state, amount, shares)
  }

  function BookWithdrawal(p: PoolContractState, ledger: LedgerState, provider: Address, state: PoolState,
                          amount: int, shares: int): PoolResult<int>
  {
    var held :- Plain(ShareBalance(p, provider, state.region) - shares);
    var deposited :- Plain(state.totalDeposited - amount);
    var remaining :- Plain(state.totalShares - shares);
    var count := if held == 0 then Decrement(state.depositorCount) else state.depositorCount;
    var next := state.(totalDeposited := deposited, totalShares := remaining, depositorCount := count, updatedAt := ledger.now);
    Ok(Done(p.(pools := p.pools[state.region := next],
               shares := p.shares[Position(provider, state.region) := held],
               stats := p.stats.(totalWithdrawals := Increment(p.stats.totalWithdrawals))), ledger, amount))
  }

  /** A registry's reply to one question; `NoAnswer` is a call that failed or could not be decoded. */
  datatype Answer<T> = Answered(value: T) | NoAnswer

  /** What the pool's registry says of the drawing agent. */
  datatype RegistryView = RegistryView(authorized: Answer<bool>, bond: Answer<int>)

  function CheckAuthorized(view: RegistryView): Outcome<LiquidityError> {
    match view.authorized
    case Answered(yes) => Check(yes, AgentNotAuthorized)
    case NoAnswer => Fail(RegistryCallFailed)
  }

  function RegistryBond(view: RegistryView): Result<int, LiquidityError> {
    match view.bond
    case Answered(bond) => Ok(bond)
    case NoAnswer => Err(RegistryCallFailed)
  }

  function DrawLiquidity(p: PoolContractState, ledger: LedgerState, caller: Address, view: RegistryView,
                         agent: Address, region: Symbol, amount: i128): PoolResult<int>
  {
    var _ :- Demand(caller == agent);
    var _ :- Check(0 < amount, InvalidAmount);
    var config :- LoadConfig(p);
    var _ :- Check(!config.paused, Paused);
    var state :- LoadPool(p, region);
    var _ :- Check(state.active, RegionInactive);
    var _ :- CheckAuthorized(view);
    var available :- state.Available();
    var _ :- Check(amount <= available, InsufficientLiquidity);
    var drawn :- DrawnAfter(state, amount);
    var exposure :- Checked(Exposure(p, agent, region) + amount, Overflow);
    var required :- BondRequirement(config, exposure);
    var bond :- RegistryBond(view);
    var _ :- Check(required <= bond, InsufficientCollateral);
    var ledger' :- ledger.Move(config.token, POOL, agent, amount);
    Ok(BookDraw(p, ledger', agent, state, drawn, exposure))
  }

  function BookDraw(p: PoolContractState, ledger: LedgerState, agent: Address, state: PoolState, drawn: int, exposure: int)
    : Done<PoolContractState, int>
  {
    Done(p.(pools := p.pools[state.region := state.(totalDrawn := drawn, updatedAt := ledger.now)],
            exposures := p.exposures[Position(agent, state.region) := exposure],
            stats := p.stats.(totalDraws := Increment(p.stats.totalDraws))), ledger, exposure)
  }

  /** The new total drawn, if it stays inside the region's utilization cap. */
  function DrawnAfter(state: PoolState, amount: int): Result<int, LiquidityError> {
    var drawn :- Checked(state.totalDrawn + amount, Overflow);
    var utilization :- (if state.totalDeposited <= 0 then Ok(10_000)
                        else
                          var scaled :- Plain(drawn * 10_000);
                          Ok(ToU32(Quotient(scaled, state.totalDeposited))));
    var _ :- Check(utilization <= state.utilizationCapBps, UtilizationCapExceeded);
    Ok(drawn)
  }

  /** Repayment, open even while the pool is paused. */
  function RepayLiquidity(p: PoolContractState, ledger: LedgerState, caller: Address,
                          agent: Address, region: Symbol, amount: i128): PoolResult<int>
  {
    var _ :- Demand(caller == agent);
    var _ :- Check(0 < amount, InvalidAmount);
    var config :- LoadConfig(p);
    var state :- LoadPool(p, region);
    var exposure := Exposure(p, agent, region);
    var _ :- Check(amount <= exposure, RepaymentExceedsExposure);
    var ledger' :- ledger.Move(config.token, agent, POOL, amount);
    var drawn :- Plain(state.totalDrawn - amount);
    Ok(Done(p.(pools := p.pools[region := state.(totalDrawn := drawn, updatedAt := ledger.now)],
               exposures := p.exposures[Position(agent, region) := exposure - amount]), ledger', exposure - amount))
  }

  /** Bond needed to draw `additional` more; 0 when that cannot be computed. */
  function RequiredBondFor(p: PoolContractState, agent: Address, region: Symbol, additional: i128): int {
    if additional <= 0 then 0
    else
      var exposure := Exposure(p, agent, region) + additional;
      var clamped := if I128_MAX < exposure then I128_MAX else if exposure < I128_MIN then I128_MIN else exposure;
      match LoadConfig(p)
      case Ok(config) => (match BondRequirement(config, clamped) case Ok(bond) => bond case _ => 0)
      case _ => 0
  }

  /* ------------------------------ invariants ------------------------------ */

  function StakeIn(region: Symbol): (Position, int) -> int {
    (pos: Position, stake: int) => if pos.region == region then stake else 0
  }

  function HolderIn(region: Symbol): (Position, int) -> int {
    (pos: Position, stake: int) => if pos.region == region && 0 < stake then 1 else 0
  }

  function UndrawnFloat(): (Symbol, PoolState) -> int {
    (region: Symbol, state: PoolState) => state.totalDeposited - state.totalDrawn
  }

  /** A region's totals against the per-holder records they summarise. */
  ghost predicate RegionSound(p: PoolContractState, g: Symbol)
    requires g in p.pools
  {
    var s := p.pools[g];
    && s.region == g
    && 0 <= s.totalDrawn <= s.totalDeposited <= I128_MAX
    && 10_000 * s.totalDrawn <= I128_MAX
    && s.totalDrawn == Total(p.exposures, StakeIn(g))
    && s.totalShares == s.totalDeposited == Total(p.shares, StakeIn(g))
    && (|p.shares| <= U32_MAX ==> s.depositorCount == Total(p.shares, HolderIn(g)))
  }

  ghost predicate StakesSound(p: PoolContractState, stakes: map<Position, int>) {
    forall pos :: pos in stakes ==> 0 <= stakes[pos] && pos.region in p.pools
  }

  ghost predicate PoolInv(p: PoolContractState) {
    && (forall g :: g in p.pools ==> RegionSound(p, g))
    && StakesSound(p, p.exposures)
    && StakesSound(p, p.shares)
    && (p.admin.None? ==> p == BLANK_POOL)
    && (p.admin.Some? ==> p.config.Some? && ValidRatio(p.config.value.collateralRatioBps))
  }

  /** What the pool owes in a token: the float deposited and not drawn, over all regions. */
  ghost function Owed(p: PoolContractState, token: Address): int {
    if p.config.Some? && p.config.value.token == token then Total(p.pools, UndrawnFloat()) else 0
  }

  lemma PutStake(stakes: map<Position, int>, pos: Position, stake: int, g: Symbol)
    ensures Total(stakes[pos := stake], StakeIn(g))
         == Total(stakes, StakeIn(g)) + (if pos.region == g then stake - LookupOr(stakes, pos, 0) else 0)
    ensures Total(stakes[pos := stake], HolderIn(g)) == Total(stakes, HolderIn(g))
              + (if pos.region == g then (if 0 < stake then 1 else 0) - (if 0 < LookupOr(stakes, pos, 0) then 1 else 0) else 0)
  {
    TotalPut(stakes, StakeIn(g), pos, stake);
    TotalPut(stakes, HolderIn(g), pos, stake);
  }

  lemma HoldersWithin(stakes: map<Position, int>, g: Symbol)
    ensures 0 <= Total(stakes, HolderIn(g)) <= |stakes|
    ensures forall pos :: pos in stakes && pos.region == g && 0 < stakes[pos] ==> 1 <= Total(stakes, HolderIn(g))
  {
    var one := (pos: Position, stake: int) => 1;
    TotalOrdered(stakes, HolderIn(g), one);
    TotalOnes(stakes, one);
    TotalNonNegative(stakes, HolderIn(g));
    forall pos | pos in stakes && pos.region == g && 0 < stakes[pos] ensures 1 <= Total(stakes, HolderIn(g)) {
      TotalCovers(stakes, HolderIn(g), pos);
    }
  }

  /** One holder's exposure or share balance never exceeds the region's total. */
  lemma StakeWithinTotal(stakes: map<Position, int>, pos: Position)
    requires forall q :: q in stakes ==> 0 <= stakes[q]
    ensures 0 <= LookupOr(stakes, pos, 0) <= Total(stakes, StakeIn(pos.region))
  {
    if pos in stakes {
      TotalCovers(stakes, StakeIn(pos.region), pos);
    } else {
      TotalNonNegative(stakes, StakeIn(pos.region));
    }
  }

  /** Drawing or repaying: one exposure and its region's total move together. */
  ghost predicate ExposureMove(p: PoolContractState, next: PoolContractState, agent: Address, g: Symbol, exposure: int) {
    && g in p.pools && g in next.pools
    && next == p.(pools := p.pools[g := next.pools[g]],
                  exposures := p.exposures[Position(agent, g) := exposure], stats := next.stats)
    && next.pools[g] == p.pools[g].(totalDrawn := next.pools[g].totalDrawn, updatedAt := next.pools[g].updatedAt)
    && 0 <= exposure
    && next.pools[g].totalDrawn - p.pools[g].totalDrawn == exposure - Exposure(p, agent, g)
    && next.pools[g].totalDrawn <= p.pools[g].totalDeposited
    && 10_000 * next.pools[g].totalDrawn <= I128_MAX
  }

  lemma ExposureMoveInRegion(p: PoolContractState, next: PoolContractState, agent: Address, g: Symbol, exposure: int, k: Symbol)
    requires k in p.pools && RegionSound(p, k) && ExposureMove(p, next, agent, g, exposure)
    requires StakesSound(p, p.exposures)
    ensures RegionSound(next, k)
  {
    PutStake(p.exposures, Position(agent, g), exposure, k);
    StakeWithinTotal(next.exposures, Position(agent, g));
  }

  lemma ExposureMoveKeepsInv(p: PoolContractState, next: PoolContractState, agent: Address, g: Symbol, exposure: int)
    requires PoolInv(p) && ExposureMove(p, next, agent, g, exposure)
    ensures PoolInv(next)
    ensures Total(next.pools, UndrawnFloat()) == Total(p.pools, UndrawnFloat()) - (exposure - Exposure(p, agent, g))
  {
    TotalPut(p.pools, UndrawnFloat(), g, next.pools[g]);
    forall k | k in next.pools ensures RegionSound(next, k) {
      ExposureMoveInRegion(p, next, agent, g, exposure, k);
    }
  }

  /** Depositing or redeeming: one share balance and its region's totals move together. */
  ghost predicate ShareMove(p: PoolContractState, next: PoolContractState, provider: Address, g: Symbol, held: int) {
    && g in p.pools && g in next.pools
    && next == p.(pools := p.pools[g := next.pools[g]],
                  shares := p.shares[Position(provider, g) := held], stats := next.stats)
    && var s, t, before := p.pools[g], next.pools[g], ShareBalance(p, provider, g);
    && t == s.(totalDeposited := t.totalDeposited, totalShares := t.totalDeposited,
               depositorCount := t.depositorCount, updatedAt := t.updatedAt)
    && t.totalDeposited - s.totalDeposited == held - before
    && t.depositorCount == (if before == 0 && 0 < held then Increment(s.depositorCount)
                            else if 0 < before && held == 0 then Decrement(s.depositorCount)
                            else s.depositorCount)
    && 0 <= held
    && s.totalDrawn <= t.totalDeposited <= I128_MAX
  }

  lemma ShareMoveInRegion(p: PoolContractState, next: PoolContractState, provider: Address, g: Symbol, held: int, k: Symbol)
    requires k in p.pools && RegionSound(p, k) && ShareMove(p, next, provider, g, held)
    requires StakesSound(p, p.shares)
    ensures RegionSound(next, k)
  {
    var pos := Position(provider, g);
    PutStake(p.shares, pos, held, k);
    HoldersCounted(p.shares, pos, held);
  }

  /** A depositor counter kept as the code keeps it follows the number of holders, below saturation. */
  lemma HoldersCounted(shares: map<Position, int>, pos: Position, held: int)
    ensures |shares| <= |shares[pos := held]|
    ensures Total(shares, HolderIn(pos.region)) <= |shares| && Total(shares[pos := held], HolderIn(pos.region)) <= |shares[pos := held]|
    ensures 0 < LookupOr(shares, pos, 0) ==> 1 <= Total(shares, HolderIn(pos.region))
  {
    assert shares[pos := held].Keys == shares.Keys + {pos};
    assert |shares.Keys| <= |shares[pos := held].Keys|;
    HoldersWithin(shares, pos.region);
    HoldersWithin(shares[pos := held], pos.region);
  }

  lemma ShareMoveKeepsStakes(p: PoolContractState, next: PoolContractState, provider: Address, g: Symbol, held: int)
    requires StakesSound(p, p.exposures) && StakesSound(p, p.shares) && ShareMove(p, next, provider, g, held)
    ensures StakesSound(next, next.exposures) && StakesSound(next, next.shares)
    ensures Total(next.pools, UndrawnFloat()) == Total(p.pools, UndrawnFloat()) + held - ShareBalance(p, provider, g)
  {
    TotalPut(p.pools, UndrawnFloat(), g, next.pools[g]);
  }

  lemma ShareMoveKeepsInv(p: PoolContractState, next: PoolContractState, provider: Address, g: Symbol, held: int)
    requires PoolInv(p) && p.admin.Some? && ShareMove(p, next, provider, g, held)
    ensures PoolInv(next)
    ensures Total(next.pools, UndrawnFloat()) == Total(p.pools, UndrawnFloat()) + held - ShareBalance(p, provider, g)
  {
    ShareMoveKeepsStakes(p, next, provider, g, held);
    forall k | k in next.pools ensures RegionSound(next, k) {
      ShareMoveInRegion(p, next, provider, g, held, k);
    }
  }

  lemma ScaledBack(x: int, d: int)
    requires 0 <= x && 0 < d
    ensures 0 <= x * d && Quotient(x * d, d) == x
  {
    ScaleOrder(0, x, d);
    QuotientIs(x * d, d, x);
  }

  /** On reachable regions a share is worth one unit: minting and redeeming are one for one, or overflow. */
  lemma OneForOne(p: PoolContractState, g: Symbol, x: int)
    requires g in p.pools && RegionSound(p, g) && 0 < x
    ensures var s := p.pools[g];
            && SharesFor(s, x) == (if s.totalDeposited == 0 || x * s.totalDeposited <= I128_MAX then Ok(x) else Err(Overflow))
            && (0 < s.totalShares ==>
                  AmountFor(s, x) == (if x * s.totalDeposited <= I128_MAX then Ok(x) else Err(Overflow)))
  {
    var s := p.pools[g];
    if 0 < s.totalDeposited {
      ScaledBack(x, s.totalDeposited);
      assert 0 <= x * s.totalDeposited;
    }
  }

  lemma InitializeKeepsInv(p: PoolContractState, ledger: LedgerState, caller: Address, admin: Address,
                           registry: Address, token: Address, ratio: u32, cap: u32)
    requires PoolInv(p)
    requires Initialize(p, ledger, caller, admin, registry, token, ratio, cap).Ok?
    ensures var done := Initialize(p, ledger, caller, admin, registry, token, ratio, cap).value;
            PoolInv(done.state) && done.ledger == ledger && Total(done.state.pools, UndrawnFloat()) == 0
  {
  }

  /** A change to a region's settings, or a new empty region. */
  ghost predicate PoolSettings(p: PoolContractState, next: PoolContractState, g: Symbol) {
    && g in next.pools
    && next == p.(pools := p.pools[g := next.pools[g]], regionList := next.regionList, stats := next.stats)
    && var t := next.pools[g];
    && if g in p.pools
       then t == p.pools[g].(utilizationCapBps := t.utilizationCapBps, active := t.active, updatedAt := t.updatedAt)
       else t.region == g && t.totalDeposited == t.totalDrawn == t.totalShares == t.depositorCount == 0
  }

  lemma PoolSettingsInRegion(p: PoolContractState, next: PoolContractState, g: Symbol, k: Symbol)
    requires PoolSettings(p, next, g) && k in next.pools
    requires k in p.pools ==> RegionSound(p, k)
    requires StakesSound(p, p.exposures) && StakesSound(p, p.shares)
    ensures RegionSound(next, k)
  {
    if k !in p.pools {
      TotalZero(p.exposures, StakeIn(k));
      TotalZero(p.shares, StakeIn(k));
      TotalZero(p.shares, HolderIn(k));
    }
  }

  lemma PutPoolKeepsInv(p: PoolContractState, next: PoolContractState, g: Symbol)
    requires PoolInv(p) && p.admin.Some? && PoolSettings(p, next, g)
    ensures PoolInv(next)
    ensures Total(next.pools, UndrawnFloat()) == Total(p.pools, UndrawnFloat())
  {
    TotalPut(p.pools, UndrawnFloat(), g, next.pools[g]);
    forall k | k in next.pools ensures RegionSound(next, k) {
      PoolSettingsInRegion(p, next, g, k);
    }
  }

  lemma SettingsKeepInv(p: PoolContractState, next: PoolContractState)
    requires PoolInv(p) && p.admin.Some?
    requires next == p.(admin := next.admin, config := next.config)
    requires next.admin.Some? && next.config.Some? && ValidRatio(next.config.value.collateralRatioBps)
    ensures PoolInv(next)
  {
    forall k | k in next.pools ensures RegionSound(next, k) {
      assert RegionSound(p, k);
    }
  }

  lemma ConfigureKeepsInv(p: PoolContractState, ledger: LedgerState, caller: Address, change: PoolChange)
    requires PoolInv(p)
    requires Configure(p, ledger, caller, change).Ok?
    ensures var done := Configure(p, ledger, caller, change).value;
            && PoolInv(done.state)
            && Total(done.state.pools, UndrawnFloat()) == Total(p.pools, UndrawnFloat())
  {
    var next := Configure(p, ledger, caller, change).value.state;
    match change
    case SetUtilizationCap(g, _) => PutPoolKeepsInv(p, next, g);
    case SetRegionActive(g, _) => PutPoolKeepsInv(p, next, g);
    case OpenRegion(g, _) => PutPoolKeepsInv(p, next, g);
    case _ => SettingsKeepInv(p, next);
  }

  /** The setters touch no stake and no token, and never change which token the pool lends. */
  lemma ConfigureFrame(p: PoolContractState, ledger: LedgerState, caller: Address, change: PoolChange)
    requires PoolInv(p)
    requires Configure(p, ledger, caller, change).Ok?
    ensures var done := Configure(p, ledger, caller, change).value;
            && done.ledger == ledger
            && done.state.exposures == p.exposures && done.state.shares == p.shares
            && p.config.Some? && done.state.config.Some? && done.state.config.value.token == p.config.value.token
  {
  }

  lemma DepositSteps(p: PoolContractState, ledger: LedgerState, caller: Address, provider: Address, region: Symbol, amount: i128)
    requires PoolInv(p)
    requires DepositLiquidity(p, ledger, caller, provider, region, amount).Ok?
    ensures caller == provider && 0 < amount && p.config.Some? && region in p.pools
    ensures var moved := ledger.Move<LiquidityError>(p.config.value.token, provider, POOL, amount);
            && moved.Ok?
            && DepositLiquidity(p, ledger, caller, provider, region, amount)
            == BookDeposit(p, moved.value, provider, p.pools[region], amount, amount)
  {
    assert RegionSound(p, region);
    OneForOne(p, region, amount);
  }

  lemma BookedDeposit(p: PoolContractState, ledger: LedgerState, provider: Address, region: Symbol, amount: int)
    requires PoolInv(p) && region in p.pools && 0 < amount
    requires BookDeposit(p, ledger, provider, p.pools[region], amount, amount).Ok?
    ensures var done := BookDeposit(p, ledger, provider, p.pools[region], amount, amount).value;
            && done.ledger == ledger && done.value == amount
            && ShareMove(p, done.state, provider, region, ShareBalance(p, provider, region) + amount)
            && done.state.pools[region].totalDeposited == p.pools[region].totalDeposited + amount
  {
    assert RegionSound(p, region);
    StakeWithinTotal(p.shares, Position(provider, region));
  }

  lemma DepositEffect(p: PoolContractState, ledger: LedgerState, caller: Address, provider: Address, region: Symbol, amount: i128)
    requires PoolInv(p)
    requires DepositLiquidity(p, ledger, caller, provider, region, amount).Ok?
    ensures var done := DepositLiquidity(p, ledger, caller, provider, region, amount).value;
            && caller == provider && 0 < amount && p.config.Some?
            && ledger.Move(p.config.value.token, provider, POOL, amount) == Result<LedgerState, LiquidityError>.Ok(done.ledger)
            && done.value == amount
            && ShareMove(p, done.state, provider, region, ShareBalance(p, provider, region) + amount)
            && done.state.pools[region].totalDeposited == p.pools[region].totalDeposited + amount
  {
    DepositSteps(p, ledger, caller, provider, region, amount);
    var moved := ledger.Move<LiquidityError>(p.config.value.token, provider, POOL, amount);
    BookedDeposit(p, moved.value, provider, region, amount);
  }

  lemma DepositKeepsInv(p: PoolContractState, ledger: LedgerState, caller: Address, provider: Address, region: Symbol, amount: i128)
    requires PoolInv(p)
    requires DepositLiquidity(p, ledger, caller, provider, region, amount).Ok?
    ensures var done := DepositLiquidity(p, ledger, caller, provider, region, amount).value;
            && PoolInv(done.state)
            && Total(done.state.pools, UndrawnFloat()) == Total(p.pools, UndrawnFloat()) + amount
  {
    DepositSteps(p, ledger, caller, provider, region, amount);
    var moved := ledger.Move<LiquidityError>(p.config.value.token, provider, POOL, amount).value;
    BookedDeposit(p, moved, provider, region, amount);
    var next := BookDeposit(p, moved, provider, p.pools[region], amount, amount).value.state;
    ShareMoveKeepsInv(p, next, provider, region, ShareBalance(p, provider, region) + amount);
  }

  lemma WithdrawSteps(p: PoolContractState, ledger: LedgerState, caller: Address, provider: Address, region: Symbol, shares: i128)
    requires PoolInv(p)
    requires WithdrawLiquidity(p, ledger, caller, provider, region, shares).Ok?
    ensures caller == provider && 0 < shares <= ShareBalance(p, provider, region)
    ensures p.config.Some? && region in p.pools && shares <= p.pools[region].totalDeposited - p.pools[region].totalDrawn
    ensures var moved := ledger.Move<LiquidityError>(p.config.value.token, POOL, provider, shares);
            && moved.Ok?
            && WithdrawLiquidity(p, ledger, caller, provider, region, shares)
            == BookWithdrawal(p, moved.value, provider, p.pools[region], shares, shares)
  {
    assert RegionSound(p, region);
    OneForOne(p, region, shares);
  }

  lemma BookedWithdrawal(p: PoolContractState, ledger: LedgerState, provider: Address, region: Symbol, shares: int)
    requires PoolInv(p) && region in p.pools && 0 < shares <= ShareBalance(p, provider, region)
    requires shares <= p.pools[region].totalDeposited - p.pools[region].totalDrawn
    requires BookWithdrawal(p, ledger, provider, p.pools[region], shares, shares).Ok?
    ensures var done := BookWithdrawal(p, ledger, provider, p.pools[region], shares, shares).value;
            && done.ledger == ledger && done.value == shares
            && ShareMove(p, done.state, provider, region, ShareBalance(p, provider, region) - shares)
            && done.state.pools[region].totalDeposited == p.pools[region].totalDeposited - shares
  {
    assert RegionSound(p, region);
  }

  lemma WithdrawEffect(p: PoolContractState, ledger: LedgerState, caller: Address, provider: Address, region: Symbol, shares: i128)
    requires PoolInv(p)
    requires WithdrawLiquidity(p, ledger, caller, provider, region, shares).Ok?
    ensures var done := WithdrawLiquidity(p, ledger, caller, provider, region, shares).value;
            && caller == provider && 0 < shares && p.config.Some?
            && ledger.Move(p.config.value.token, POOL, provider, shares) == Result<LedgerState, LiquidityError>.Ok(done.ledger)
            && done.value == shares
            && ShareMove(p, done.state, provider, region, ShareBalance(p, provider, region) - shares)
            && done.state.pools[region].totalDeposited == p.pools[region].totalDeposited - shares
  {
    WithdrawSteps(p, ledger, caller, provider, region, shares);
    var moved := ledger.Move<LiquidityError>(p.config.value.token, POOL, provider, shares);
    BookedWithdrawal(p, moved.value, provider, region, shares);
  }

  lemma WithdrawKeepsInv(p: PoolContractState, ledger: LedgerState, caller: Address, provider: Address, region: Symbol, shares: i128)
    requires PoolInv(p)
    requires WithdrawLiquidity(p, ledger, caller, provider, region, shares).Ok?
    ensures var done := WithdrawLiquidity(p, ledger, caller, provider, region, shares).value;
            && PoolInv(done.state)
            && Total(done.state.pools, UndrawnFloat()) == Total(p.pools, UndrawnFloat()) - shares
  {
    WithdrawEffect(p, ledger, caller, provider, region, shares);
    var next := WithdrawLiquidity(p, ledger, caller, provider, region, shares).value.state;
    ShareMoveKeepsInv(p, next, provider, region, ShareBalance(p, provider, region) - shares);
  }

  /** A draw that goes through has passed every check; both limits bind on the totals after it. */
  lemma DrawSteps(p: PoolContractState, ledger: LedgerState, caller: Address, view: RegistryView,
                  agent: Address, region: Symbol, amount: i128)
    requires DrawLiquidity(p, ledger, caller, view, agent, region, amount).Ok?
    ensures caller == agent && 0 < amount && p.config.Some? && region in p.pools
    ensures var state, config, exposure := p.pools[region], p.config.value, Exposure(p, agent, region) + amount;
            var moved := ledger.Move<LiquidityError>(config.token, POOL, agent, amount);
            && moved.Ok?
            && amount <= state.totalDeposited - state.totalDrawn
            && DrawnAfter(state, amount) == Ok(state.totalDrawn + amount)
            && view.bond.Answered? && BondRequirement(config, exposure).Ok?
            && BondRequirement(config, exposure).value <= view.bond.value
            && DrawLiquidity(p, ledger, caller, view, agent, region, amount)
            == Ok(BookDraw(p, moved.value, agent, state, state.totalDrawn + amount, exposure))
  {
  }

  lemma DrawEffect(p: PoolContractState, ledger: LedgerState, caller: Address, view: RegistryView,
                   agent: Address, region: Symbol, amount: i128)
    requires PoolInv(p)
    requires DrawLiquidity(p, ledger, caller, view, agent, region, amount).Ok?
    ensures var done := DrawLiquidity(p, ledger, caller, view, agent, region, amount).value;
            && caller == agent && 0 < amount && p.config.Some?
            && ledger.Move(p.config.value.token, POOL, agent, amount) == Result<LedgerState, LiquidityError>.Ok(done.ledger)
            && done.value == Exposure(p, agent, region) + amount
            && ExposureMove(p, done.state, agent, region, done.value)
  {
    DrawSteps(p, ledger, caller, view, agent, region, amount);
    var moved := ledger.Move<LiquidityError>(p.config.value.token, POOL, agent, amount);
    BookedDraw(p, moved.value, agent, region, amount);
  }

  lemma BookedDraw(p: PoolContractState, ledger: LedgerState, agent: Address, region: Symbol, amount: int)
    requires PoolInv(p) && region in p.pools && 0 < amount
    requires amount <= p.pools[region].totalDeposited - p.pools[region].totalDrawn
    requires DrawnAfter(p.pools[region], amount).Ok?
    ensures var state, exposure := p.pools[region], Exposure(p, agent, region) + amount;
            ExposureMove(p, BookDraw(p, ledger, agent, state, state.totalDrawn + amount, exposure).state, agent, region, exposure)
  {
    assert RegionSound(p, region);
    StakeWithinTotal(p.exposures, Position(agent, region));
  }

  lemma DrawKeepsInv(p: PoolContractState, ledger: LedgerState, caller: Address, view: RegistryView,
                     agent: Address, region: Symbol, amount: i128)
    requires PoolInv(p)
    requires DrawLiquidity(p, ledger, caller, view, agent, region, amount).Ok?
    ensures var done := DrawLiquidity(p, ledger, caller, view, agent, region, amount).value;
            && PoolInv(done.state)
            && Total(done.state.pools, UndrawnFloat()) == Total(p.pools, UndrawnFloat()) - amount
  {
    DrawEffect(p, ledger, caller, view, agent, region, amount);
    var done := DrawLiquidity(p, ledger, caller, view, agent, region, amount).value;
    ExposureMoveKeepsInv(p, done.state, agent, region, done.value);
  }

  lemma RepayEffect(p: PoolContractState, ledger: LedgerState, caller: Address, agent: Address, region: Symbol, amount: i128)
    requires PoolInv(p)
    requires RepayLiquidity(p, ledger, caller, agent, region, amount).Ok?
    ensures var done := RepayLiquidity(p, ledger, caller, agent, region, amount).value;
            && caller == agent && 0 < amount && p.config.Some?
            && ledger.Move(p.config.value.token, agent, POOL, amount) == Result<LedgerState, LiquidityError>.Ok(done.ledger)
            && done.value == Exposure(p, agent, region) - amount
            && ExposureMove(p, done.state, agent, region, done.value)
  {
    assert RegionSound(p, region);
    StakeWithinTotal(p.exposures, Position(agent, region));
  }

  lemma RepayKeepsInv(p: PoolContractState, ledger: LedgerState, caller: Address, agent: Address, region: Symbol, amount: i128)
    requires PoolInv(p)
    requires RepayLiquidity(p, ledger, caller, agent, region, amount).Ok?
    ensures var done := RepayLiquidity(p, ledger, caller, agent, region, amount).value;
            && PoolInv(done.state)
            && Total(done.state.pools, UndrawnFloat()) == Total(p.pools, UndrawnFloat()) + amount
  {
    RepayEffect(p, ledger, caller, agent, region, amount);
    var done := RepayLiquidity(p, ledger, caller, agent, region, amount).value;
    ExposureMoveKeepsInv(p, done.state, agent, region, done.value);
  }

  /** A part of the whole is at most 10,000 basis points of it. */
  lemma ShareOfWhole(part: int, whole: int)
    requires 0 <= part <= whole && 0 < whole
    ensures Quotient(part * 10_000, whole) <= 10_000
  {
    ScaleOrder(10_001, Quotient(part * 10_000, whole), whole);
  }

  /** On a reachable region the utilization figure never traps and never exceeds 100%. */
  lemma UtilizationNeverTraps(p: PoolContractState, region: Symbol)
    requires PoolInv(p) && region in p.pools
    ensures p.pools[region].Available<LiquidityError>().Ok?
    ensures var s := p.pools[region];
            && s.UtilizationBps<LiquidityError>()
            == Ok(if s.totalDeposited == 0 then 0 else Quotient(s.totalDrawn * 10_000, s.totalDeposited))
    ensures p.pools[region].UtilizationBps<LiquidityError>().value <= 10_000
  {
    var s := p.pools[region];
    assert RegionSound(p, region);
    if 0 < s.totalDeposited {
      ShareOfWhole(s.totalDrawn, s.totalDeposited);
    }
  }
}
