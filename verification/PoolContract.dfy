/** The liquidity pool contract. */
module PoolContract {
  import opened Prelude
  import opened Chain
  import opened PoolRules

  class LiquidityPool {
    var admin: Option<Address>
    var config: Option<PoolConfig>
    var stats: LiquidityStats
    var regionList: seq<Symbol>
    var pools: map<Symbol, PoolState>
    var exposures: map<Position, int>
    var shares: map<Position, int>

    constructor (start: PoolContractState)
      ensures State() == start
    {
      admin, config, stats, regionList := start.admin, start.config, start.stats, start.regionList;
      pools, exposures, shares := start.pools, start.exposures, start.shares;
    }

    function State(): PoolContractState
      reads this
    {
      PoolContractState(admin, config, stats, regionList, pools, exposures, shares)
    }

    method Restore(start: PoolContractState)
      modifies this
      ensures State() == start
    {
      admin, config, stats, regionList := start.admin, start.config, start.stats, start.regionList;
      pools, exposures, shares := start.pools, start.exposures, start.shares;
    }

    method Initialize(env: Ledger, caller: Address, newAdmin: Address, registry: Address, token: Address, ratio: u32, cap: u32)
      returns (r: Result<(), LiquidityError>)
      modifies this
      ensures Ran(PoolRules.Initialize(old(State()), env.State(), caller, newAdmin, registry, token, ratio, cap),
                  r, State(), env.State())
    {
      if admin.Some? { return Err(AlreadyInitialized); }
      if !ValidRatio(ratio) { return Err(InvalidConfig); }
      if cap == 0 || MAX_UTILIZATION_CAP_BPS < cap { return Err(InvalidConfig); }
      var _ :- Demand(caller == newAdmin);
      admin := Some(newAdmin);
      config := Some(PoolConfig(registry, token, ratio, cap, false));
      stats := LiquidityStats(0, 0, 0, 0);
      return Ok(());
    }

    method Configure(env: Ledger, caller: Address, change: PoolChange) returns (r: Result<(), LiquidityError>)
      modifies this
      ensures Ran(PoolRules.Configure(old(State()), env.State(), caller, change), r, State(), env.State())
    {
      var _ :- RequireAdmin(State(), caller);
      match change {
        case SetAdmin(next) => admin := Some(next);
        case SetUtilizationCap(region, bps) =>
          var _ :- Check(ValidCap(bps), InvalidConfig);
          var state :- LoadPool(State(), region);
          pools := pools[region := state.(utilizationCapBps := bps, updatedAt := env.now)];
        case SetRegionActive(region, active) =>
          var state :- LoadPool(State(), region);
          pools := pools[region := state.(active := active, updatedAt := env.now)];
        case OpenRegion(region, bps) => r := OpenRegion(env, region, bps); return;
        case _ => r := ChangeConfig(env, caller, change); return;
      }
      return Ok(());
    }

    /** The setters that rewrite the contract-wide configuration entry. */
    method ChangeConfig(env: Ledger, caller: Address, change: PoolChange) returns (r: Result<(), LiquidityError>)
      requires change.SetAgentRegistry? || change.SetCollateralRatio? || change.SetDefaultUtilizationCap? || change.SetPaused?
      modifies this`config
      ensures Ran(PoolRules.Configure(old(State()), env.State(), caller, change), r, State(), env.State())
    {
      var _ :- RequireAdmin(State(), caller);
      if change.SetCollateralRatio? { var _ :- Check(ValidRatio(change.bps), InvalidConfig); }
      if change.SetDefaultUtilizationCap? { var _ :- Check(ValidCap(change.bps), InvalidConfig); }
      var c :- LoadConfig(State());
      match change {
        case SetAgentRegistry(registry) => c := c.(registry := registry);
        case SetCollateralRatio(bps) => c := c.(collateralRatioBps := bps);
        case SetDefaultUtilizationCap(bps) => c := c.(defaultUtilizationCapBps := bps);
        case SetPaused(paused) => c := c.(paused := paused);
      }
      config := Some(c);
      return Ok(());
    }

    method OpenRegion(env: Ledger, region: Symbol, bps: u32) returns (r: Result<(), LiquidityError>)
      requires admin.Some?
      modifies this
      ensures Ran(PoolRules.Configure(old(State()), env.State(), old(admin.value), PoolChange.OpenRegion(region, bps)),
                  r, State(), env.State())
    {
      if region in pools { return Err(RegionAlreadyOpen); }
      var c :- LoadConfig(State());
      var cap := bps;
      if bps == 0 {
        cap := c.defaultUtilizationCapBps;
      } else if MAX_UTILIZATION_CAP_BPS < bps {
        return Err(InvalidConfig);
      }
      pools := pools[region := PoolState(region, 0, 0, 0, 0, cap, true, env.now)];
      regionList := PushUnique(regionList, region);
      stats := stats.(regionsOpened := Increment(stats.regionsOpened));
      return Ok(());
    }

    method DepositLiquidity(env: Ledger, caller: Address, provider: Address, region: Symbol, amount: i128)
      returns (r: Result<int, LiquidityError>)
      modifies this, env`book
      ensures Ran(PoolRules.DepositLiquidity(old(State()), old(env.State()), caller, provider, region, amount),
                  r, State(), env.State())
    {
      var _ :- Demand(caller == provider);
      var _ :- Check(0 < amount, InvalidAmount);
      var c :- LoadConfig(State());
      var _ :- Check(!c.paused, Paused);
      var state :- LoadPool(State(), region);
      var _ :- Check(state.active, RegionInactive);
      var minted :- SharesFor(state, amount);
      var _ :- Check(0 < minted, ZeroShares);
      var _ :- env.Transfer(c.token, provider, POOL, amount);
      r := BookDeposit(env, provider, state, amount, minted);
    }

    method BookDeposit(env: Ledger, provider: Address, loaded: PoolState, amount: int, minted: int)
      returns (r: Result<int, LiquidityError>)
      modifies this
      ensures Ran(PoolRules.BookDeposit(old(State()), env.State(), provider, loaded, amount, minted), r, State(), env.State())
    {
      var state := loaded;
      var position := Position(provider, state.region);
      var previous := LookupOr(shares, position, 0);
      var held :- Plain(previous + minted);
      shares := shares[position := held];

      var deposited :- Checked(state.totalDeposited + amount, Overflow);
      state := state.(totalDeposited := deposited);
      var total :- Checked(state.totalShares + minted, Overflow);
      state := state.(totalShares := total);
      if previous == 0 {
        state := state.(depositorCount := Increment(state.depositorCount));
      }
      state := state.(updatedAt := env.now);
      pools := pools[state.region := state];
      stats := stats.(totalDeposits := Increment(stats.totalDeposits));
      return Ok(minted);
    }

    method WithdrawLiquidity(env: Ledger, caller: Address, provider: Address, region: Symbol, burned: i128)
      returns (r: Result<int, LiquidityError>)
      modifies this, env`book
      ensures Ran(PoolRules.WithdrawLiquidity(old(State()), old(env.State()), caller, provider, region, burned),
                  r, State(), env.State())
    {
      var _ :- Demand(caller == provider);
      var _ :- Check(0 < burned, InvalidAmount);
      var c :- LoadConfig(State());
      var _ :- Check(!c.paused, Paused);
      var state :- LoadPool(State(), region);
      var held := LookupOr(shares, Position(provider, region), 0);
      var _ :- Check(burned <= held, InsufficientShares);
      var redeemed :- AmountFor(state, burned);
      var available :- state.Available();
      var _ :- Check(redeemed <= available, InsufficientLiquidity);
      var _ :- env.Transfer(c.token, POOL, provider, redeemed);
      r := BookWithdrawal(env, provider, state, redeemed, burned);
    }

    method BookWithdrawal(env: Ledger, provider: Address, loaded: PoolState, redeemed: int, burned: int)
      returns (r: Result<int, LiquidityError>)
      modifies this
      ensures Ran(PoolRules.BookWithdrawal(old(State()), env.State(), provider, loaded, redeemed, burned), r, State(), env.State())
    {
      var state := loaded;
      var position := Position(provider, state.region);
      var held :- Plain(LookupOr(shares, position, 0) - burned);
      shares := shares[position := held];

      var deposited :- Plain(state.totalDeposited - redeemed);
      state := state.(totalDeposited := deposited);
      var remaining :- Plain(state.totalShares - burned);
      state := state.(totalShares := remaining);
      if held == 0 {
        state := state.(depositorCount := Decrement(state.depositorCount));
      }
      state := state.(updatedAt := env.now);
      pools := pools[state.region := state];
      stats := stats.(totalWithdrawals := Increment(stats.totalWithdrawals));
      return Ok(redeemed);
    }

    /** `view` is what the configured registry answers, read when the rule asks for it. */
    method DrawLiquidity(env: Ledger, caller: Address, view: RegistryView, agent: Address, region: Symbol, amount: i128)
      returns (r: Result<int, LiquidityError>)
      modifies this, env`book
      ensures Ran(PoolRules.DrawLiquidity(old(State()), old(env.State()), caller, view, agent, region, amount),
                  r, State(), env.State())
    {
      var _ :- Demand(caller == agent);
      var _ :- Check(0 < amount, InvalidAmount);
      var c :- LoadConfig(State());
      var _ :- Check(!c.paused, Paused);
      var state :- LoadPool(State(), region);
      var _ :- Check(state.active, RegionInactive);
      var _ :- CheckAuthorized(view);
      var available :- state.Available();
      var _ :- Check(amount <= available, InsufficientLiquidity);
      var drawn :- DrawnAfter(state, amount);
      var exposure :- Checked(Exposure(State(), agent, region) + amount, Overflow);
      var required :- BondRequirement(c, exposure);
      var bond :- RegistryBond(view);
      var _ :- Check(required <= bond, InsufficientCollateral);
      var _ :- env.Transfer(c.token, POOL, agent, amount);
      BookDraw(env, agent, state, drawn, exposure);
      return Ok(exposure);
    }

    method BookDraw(env: Ledger, agent: Address, loaded: PoolState, drawn: int, exposure: int)
      modifies this
      ensures Done(State(), env.State(), exposure)
           == PoolRules.BookDraw(old(State()), env.State(), agent, loaded, drawn, exposure)
    {
      exposures := exposures[Position(agent, loaded.region) := exposure];
      pools := pools[loaded.region := loaded.(totalDrawn := drawn, updatedAt := env.now)];
      stats := stats.(totalDraws := Increment(stats.totalDraws));
    }

    method RepayLiquidity(env: Ledger, caller: Address, agent: Address, region: Symbol, amount: i128)
      returns (r: Result<int, LiquidityError>)
      modifies this, env`book
      ensures Ran(PoolRules.RepayLiquidity(old(State()), old(env.State()), caller, agent, region, amount),
                  r, State(), env.State())
    {
      var _ :- Demand(caller == agent);
      var _ :- Check(0 < amount, InvalidAmount);
      var c :- LoadConfig(State());
      var state :- LoadPool(State(), region);
      var exposure := Exposure(State(), agent, region);
      var _ :- Check(amount <= exposure, RepaymentExceedsExposure);
      var _ :- env.Transfer(c.token, agent, POOL, amount);
      exposures := exposures[Position(agent, region) := exposure - amount];
      var drawn :- Plain(state.totalDrawn - amount);
      pools := pools[region := state.(totalDrawn := drawn, updatedAt := env.now)];
      return Ok(exposure - amount);
    }
  }
}
