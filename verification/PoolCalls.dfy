/** Every call to the pool on sound worlds: exactly when it succeeds, and exactly what it then leaves. */
module PoolCalls {
  import opened Prelude
  import opened Chain
  import opened Network
  import opened Custody
  import opened Standing
  import D = Draws
  import S = Shares
  import P = PoolRules

  /** The settings an admin may choose between. */
  predicate RatioAllowed(bps: nat) { 10_000 <= bps <= 100_000 }
  predicate CapAllowed(bps: nat) { 0 < bps <= 9_500 }

  predicate MaySet(p: P.PoolContractState, change: P.PoolChange) {
    match change
    case SetCollateralRatio(bps) => RatioAllowed(bps)
    case SetDefaultUtilizationCap(bps) => CapAllowed(bps)
    case SetUtilizationCap(region, bps) => region in p.pools && CapAllowed(bps)
    case SetRegionActive(region, _) => region in p.pools
    case OpenRegion(region, bps) => region !in p.pools && bps <= 9_500
    case _ => true
  }

  /** A pool that lends and takes deposits in a region. */
  predicate OpenIn(p: P.PoolContractState, region: Symbol) {
    p.config.Some? && !p.config.value.paused && region in p.pools && p.pools[region].active
  }

  /** A deposit: into an open region, of tokens the provider has, as long as totals and the share product fit. */
  predicate MayDeposit(p: P.PoolContractState, book: Book, provider: Address, region: Symbol, amount: int) {
    && OpenIn(p, region)
    && 0 < amount <= Balance(book, p.config.value.token, provider)
    && p.pools[region].totalDeposited + amount <= I128_MAX
    && amount * p.pools[region].totalDeposited <= I128_MAX
  }

  predicate MayRedeem(p: P.PoolContractState, provider: Address, region: Symbol, shares: int) {
    && p.config.Some? && !p.config.value.paused && region in p.pools
    && 0 < shares <= P.ShareBalance(p, provider, region)
    && shares <= p.pools[region].totalDeposited - p.pools[region].totalDrawn
    && shares * p.pools[region].totalDeposited <= I128_MAX
  }

  /** The bond a draw is tested against, where there is one. */
  function BondBehind(w: World, answer: P.RegistryView, agent: Address): int
    requires w.pool.config.Some?
  {
    if w.pool.config.value.registry == REGISTRY then (if agent in w.registry.agents then w.registry.agents[agent].bond else 0)
    else if answer.bond.Answered? then answer.bond.value
    else 0
  }

  /** A draw: by an agent with standing in the region, with room under its cap and under the agent's bond for the totals it leads to. */
  predicate MayDraw(w: World, answer: P.RegistryView, agent: Address, region: Symbol, amount: int) {
    && OpenIn(w.pool, region) && 0 < amount
    && D.RoomInRegion(w.pool.pools[region], w.pool.pools[region].totalDrawn + amount)
    && var bond := BondBehind(w, answer, agent);
    && MayDrawOn(w, answer, agent, region, bond)
    && D.CoveredBy(w.pool.config.value, P.Exposure(w.pool, agent, region) + amount, bond)
  }

  predicate MayRepay(p: P.PoolContractState, book: Book, agent: Address, region: Symbol, amount: int) {
    && p.config.Some?
    && 0 < amount <= P.Exposure(p, agent, region)
    && amount <= Balance(book, p.config.value.token, agent)
  }

  /** When a call goes through, in no particular order. */
  predicate May(w: World, caller: Address, foreign: Foreign, call: PoolCall) {
    match call
    case InitializePool(admin, _, _, ratio, cap) => w.pool.admin.None? && caller == admin && RatioAllowed(ratio) && CapAllowed(cap)
    case ConfigurePool(change) => w.pool.admin == Some(caller) && MaySet(w.pool, change)
    case DepositLiquidity(provider, region, amount) => caller == provider && MayDeposit(w.pool, w.ledger.book, provider, region, amount)
    case WithdrawLiquidity(provider, region, shares) => caller == provider && MayRedeem(w.pool, provider, region, shares)
    case DrawLiquidity(agent, region, amount) => caller == agent && MayDraw(w, foreign.registry, agent, region, amount)
    case RepayLiquidity(agent, region, amount) => caller == agent && MayRepay(w.pool, w.ledger.book, agent, region, amount)
  }

  lemma SetsExactly(p: P.PoolContractState, ledger: LedgerState, caller: Address, change: P.PoolChange)
    requires P.PoolInv(p)
    ensures P.Configure(p, ledger, caller, change).Ok? <==> p.admin == Some(caller) && MaySet(p, change)
  {
  }

  lemma DepositsExactly(p: P.PoolContractState, ledger: LedgerState, caller: Address, provider: Address, region: Symbol, amount: i128)
    requires P.PoolInv(p) && Sound(ledger.book)
    ensures P.DepositLiquidity(p, ledger, caller, provider, region, amount).Ok?
        <==> caller == provider && MayDeposit(p, ledger.book, provider, region, amount)
  {
    if region in p.pools && p.config.Some? && 0 < amount {
      assert P.RegionSound(p, region);
      P.OneForOne(p, region, amount);
      P.StakeWithinTotal(p.shares, P.Position(provider, region));
      DepositFollows(p, ledger, caller, provider, region, amount);
    }
  }

  lemma DepositFollows(p: P.PoolContractState, ledger: LedgerState, caller: Address, provider: Address, region: Symbol, amount: i128)
    requires Sound(ledger.book) && p.config.Some? && region in p.pools && 0 < amount && p.pools[region].region == region
    requires 0 <= P.ShareBalance(p, provider, region) <= p.pools[region].totalShares == p.pools[region].totalDeposited
    requires var deposited := p.pools[region].totalDeposited;
             P.SharesFor(p.pools[region], amount)
             == if deposited == 0 || amount * deposited <= I128_MAX then Ok(amount) else Err(P.Overflow)
    ensures P.DepositLiquidity(p, ledger, caller, provider, region, amount).Ok?
        <==> caller == provider && MayDeposit(p, ledger.book, provider, region, amount)
  {
    MovedIsSound(ledger.book, p.config.value.token, provider, POOL, amount);
  }

  lemma DrawPaid(p: P.PoolContractState, ledger: LedgerState, agent: Address, region: Symbol, amount: int)
    requires S.Backed(p, ledger) && p.config.Some? && region in p.pools && 0 < amount
    requires amount <= p.pools[region].totalDeposited - p.pools[region].totalDrawn
    ensures Moved(ledger.book, p.config.value.token, POOL, agent, amount).Some?
  {
    S.FloatIsThere(p, ledger, region);
    MovedIsSound(ledger.book, p.config.value.token, POOL, agent, amount);
  }

  /** The registry's word is a yes with a bond exactly when the agent may draw on that bond. */
  lemma ViewIsStanding(w: World, answer: P.RegistryView, agent: Address, region: Symbol)
    requires w.pool.config.Some?
    ensures var view, bond := AskRegistry(w.registry, w.pool, answer, agent, region), BondBehind(w, answer, agent);
            && (view.authorized == P.Answered(true) && view.bond.Answered? <==> MayDrawOn(w, answer, agent, region, bond))
            && (MayDrawOn(w, answer, agent, region, bond) ==> view.bond == P.Answered(bond))
  {
    RegistryAnswers(w.registry, agent, region, "");
  }

  /** What is drawable at the pool's word from the registry is what may be drawn. */
  lemma DrawableExactly(w: World, caller: Address, answer: P.RegistryView, agent: Address, region: Symbol, amount: int)
    requires S.Backed(w.pool, w.ledger) && 0 < amount
    ensures D.Drawable(w.pool, w.ledger, caller, AskRegistry(w.registry, w.pool, answer, agent, region), agent, region, amount)
        <==> caller == agent && MayDraw(w, answer, agent, region, amount)
  {
    if caller == agent && OpenIn(w.pool, region) {
      ViewIsStanding(w, answer, agent, region);
      if amount <= w.pool.pools[region].totalDeposited - w.pool.pools[region].totalDrawn {
        DrawPaid(w.pool, w.ledger, agent, region, amount);
      }
    }
  }

  lemma DrawsExactly(w: World, caller: Address, answer: P.RegistryView, agent: Address, region: Symbol, amount: i128)
    requires S.Backed(w.pool, w.ledger)
    ensures P.DrawLiquidity(w.pool, w.ledger, caller, AskRegistry(w.registry, w.pool, answer, agent, region), agent, region, amount).Ok?
        <==> caller == agent && MayDraw(w, answer, agent, region, amount)
  {
    if 0 < amount {
      D.SoundPoolIsSoundFor(w.pool, agent, region);
      D.DrawsExactly(w.pool, w.ledger, caller, AskRegistry(w.registry, w.pool, answer, agent, region), agent, region, amount);
      DrawableExactly(w, caller, answer, agent, region, amount);
    }
  }

  lemma CallsExactly(w: World, caller: Address, foreign: Foreign, call: PoolCall)
    requires S.Backed(w.pool, w.ledger)
    ensures CallPool(w, caller, foreign, call).Some? <==> May(w, caller, foreign, call)
  {
    match call
    case InitializePool(_, _, _, _, _) =>
    case ConfigurePool(change) => SetsExactly(w.pool, w.ledger, caller, change);
    case DepositLiquidity(provider, region, amount) => DepositsExactly(w.pool, w.ledger, caller, provider, region, amount);
    case WithdrawLiquidity(provider, region, shares) =>
      if 0 < shares {
        S.RedeemsExactly(w.pool, w.ledger, caller, provider, region, shares);
      }
    case DrawLiquidity(agent, region, amount) => DrawsExactly(w, caller, foreign.registry, agent, region, amount);
    case RepayLiquidity(agent, region, amount) => D.RepaysExactly(w.pool, w.ledger, caller, agent, region, amount);
  }

  lemma MayInTransaction(w: World, txHash: string, caller: Address, foreign: Foreign, call: PoolCall)
    ensures May(InTransaction(w, txHash), caller, foreign, call) <==> May(w, caller, foreign, call)
  {
    if call.DrawLiquidity? && w.pool.config.Some? {
      assert MayDrawOn(InTransaction(w, txHash), foreign.registry, call.agent, call.region, BondBehind(w, foreign.registry, call.agent))
          == MayDrawOn(w, foreign.registry, call.agent, call.region, BondBehind(w, foreign.registry, call.agent));
    }
  }

  /** On every sound world, and runs lead to no other, a call to the pool succeeds exactly when it may. */
  lemma PoolCallsExactly(w: World, i: Invocation)
    requires Inv(w) && i.call.ToPool?
    ensures Succeeds(w, i) <==> May(w, i.Caller(), i.foreign, i.call.pool)
  {
    var started := InTransaction(w, i.txHash);
    StartKeepsInv(w, i.txHash);
    S.SoundWorldIsBacked(started);
    CallsExactly(started, i.Caller(), i.foreign, i.call.pool);
    MayInTransaction(w, i.txHash, i.Caller(), i.foreign, i.call.pool);
  }

  /* ------------------------------ what a call leaves ------------------------------ */

  /** The setting a change names, and no other. */
  predicate SetTo(p: P.PoolContractState, now: nat, change: P.PoolChange, next: P.PoolContractState)
    requires p.config.Some? && MaySet(p, change)
  {
    var config := p.config.value;
    match change
    case SetAdmin(admin) => next == p.(admin := Some(admin))
    case SetAgentRegistry(registry) => next == p.(config := Some(config.(registry := registry)))
    case SetCollateralRatio(bps) => next == p.(config := Some(config.(collateralRatioBps := bps)))
    case SetDefaultUtilizationCap(bps) => next == p.(config := Some(config.(defaultUtilizationCapBps := bps)))
    case SetPaused(paused) => next == p.(config := Some(config.(paused := paused)))
    case SetUtilizationCap(region, bps) =>
      next == p.(pools := p.pools[region := p.pools[region].(utilizationCapBps := bps, updatedAt := now)])
    case SetRegionActive(region, active) =>
      next == p.(pools := p.pools[region := p.pools[region].(active := active, updatedAt := now)])
    case OpenRegion(region, bps) =>
      var cap := if bps == 0 then config.defaultUtilizationCapBps else bps;
      next == p.(pools := p.pools[region := P.PoolState(region, 0, 0, 0, 0, cap, true, now)],
                 regionList := if region in p.regionList then p.regionList else p.regionList + [region],
                 stats := p.stats.(regionsOpened := Increment(p.stats.regionsOpened)))
  }

  /** A provider's shares and the region's deposits and shares move by the same figure; the depositor count follows the holding. */
  predicate SharesMoved(p: P.PoolContractState, now: nat, provider: Address, region: Symbol, change: int, stats: P.LiquidityStats,
                        next: P.PoolContractState)
    requires region in p.pools
  {
    var s, held := p.pools[region], P.ShareBalance(p, provider, region);
    next == p.(pools := p.pools[region := s.(totalDeposited := s.totalDeposited + change, totalShares := s.totalShares + change,
                                             depositorCount := if held == 0 then Increment(s.depositorCount)
                                                               else if held + change == 0 then Decrement(s.depositorCount)
                                                               else s.depositorCount,
                                             updatedAt := now)],
               shares := p.shares[P.Position(provider, region) := held + change],
               stats := stats)
  }

  /** An agent's exposure and the region's drawn total move by the same figure. */
  predicate ExposureMoved(p: P.PoolContractState, now: nat, agent: Address, region: Symbol, change: int, stats: P.LiquidityStats,
                          next: P.PoolContractState)
    requires region in p.pools
  {
    var s := p.pools[region];
    next == p.(pools := p.pools[region := s.(totalDrawn := s.totalDrawn + change, updatedAt := now)],
               exposures := p.exposures[P.Position(agent, region) := P.Exposure(p, agent, region) + change],
               stats := stats)
  }

  /** The pool after a call that went through. */
  ghost predicate Leaves(p: P.PoolContractState, now: nat, call: PoolCall, next: P.PoolContractState) {
    match call
    case InitializePool(admin, registry, token, ratio, cap) =>
      next == p.(admin := Some(admin), config := Some(P.PoolConfig(registry, token, ratio, cap, false)), stats := P.LiquidityStats(0, 0, 0, 0))
    case ConfigurePool(change) => p.config.Some? && MaySet(p, change) && SetTo(p, now, change, next)
    case DepositLiquidity(provider, region, amount) =>
      region in p.pools && SharesMoved(p, now, provider, region, amount, p.stats.(totalDeposits := Increment(p.stats.totalDeposits)), next)
    case WithdrawLiquidity(provider, region, shares) =>
      var taken: int := shares;
      region in p.pools && SharesMoved(p, now, provider, region, -taken, p.stats.(totalWithdrawals := Increment(p.stats.totalWithdrawals)), next)
    case DrawLiquidity(agent, region, amount) =>
      region in p.pools && ExposureMoved(p, now, agent, region, amount, p.stats.(totalDraws := Increment(p.stats.totalDraws)), next)
    case RepayLiquidity(agent, region, amount) =>
      var repaid: int := amount;
      region in p.pools && ExposureMoved(p, now, agent, region, -repaid, p.stats, next)
  }

  /** What a call pays: deposits and repayments in, redemptions and draws out, one token for one share. */
  predicate Pays(p: P.PoolContractState, before: Book, call: PoolCall, book: Book) {
    match call
    case DepositLiquidity(provider, _, amount) => p.config.Some? && Moved(before, p.config.value.token, provider, POOL, amount) == Some(book)
    case WithdrawLiquidity(provider, _, shares) => p.config.Some? && Moved(before, p.config.value.token, POOL, provider, shares) == Some(book)
    case DrawLiquidity(agent, _, amount) => p.config.Some? && Moved(before, p.config.value.token, POOL, agent, amount) == Some(book)
    case RepayLiquidity(agent, _, amount) => p.config.Some? && Moved(before, p.config.value.token, agent, POOL, amount) == Some(book)
    case _ => book == before
  }

  /** A call and what came of it, in the pool and on the ledger. */
  ghost predicate Left(p: P.PoolContractState, ledger: LedgerState, call: PoolCall, next: P.PoolContractState, after: LedgerState) {
    Leaves(p, ledger.now, call, next) && Pays(p, ledger.book, call, after.book) && after == ledger.(book := after.book)
  }

  lemma SettingLeaves(p: P.PoolContractState, ledger: LedgerState, caller: Address, change: P.PoolChange)
    requires P.PoolInv(p) && P.Configure(p, ledger, caller, change).Ok?
    ensures var done := P.Configure(p, ledger, caller, change).value;
            Left(p, ledger, ConfigurePool(change), done.state, done.ledger)
  {
  }

  lemma DepositLeaves(p: P.PoolContractState, ledger: LedgerState, caller: Address, provider: Address, region: Symbol, amount: i128)
    requires P.PoolInv(p) && P.DepositLiquidity(p, ledger, caller, provider, region, amount).Ok?
    ensures var done := P.DepositLiquidity(p, ledger, caller, provider, region, amount).value;
            Left(p, ledger, DepositLiquidity(provider, region, amount), done.state, done.ledger)
  {
    P.DepositSteps(p, ledger, caller, provider, region, amount);
    assert P.RegionSound(p, region);
    P.StakeWithinTotal(p.shares, P.Position(provider, region));
    BookedDepositLeaves(p, ledger.Move<P.LiquidityError>(p.config.value.token, provider, POOL, amount).value, provider, region, amount);
  }

  lemma BookedDepositLeaves(p: P.PoolContractState, ledger: LedgerState, provider: Address, region: Symbol, amount: int)
    requires region in p.pools && p.pools[region].region == region
    requires 0 < amount && 0 <= P.ShareBalance(p, provider, region)
    requires P.BookDeposit(p, ledger, provider, p.pools[region], amount, amount).Ok?
    ensures var done := P.BookDeposit(p, ledger, provider, p.pools[region], amount, amount).value;
            && done.ledger == ledger
            && SharesMoved(p, ledger.now, provider, region, amount, p.stats.(totalDeposits := Increment(p.stats.totalDeposits)), done.state)
  {
  }

  lemma RedemptionLeaves(p: P.PoolContractState, ledger: LedgerState, caller: Address, provider: Address, region: Symbol, shares: i128)
    requires P.PoolInv(p) && P.WithdrawLiquidity(p, ledger, caller, provider, region, shares).Ok?
    ensures var done := P.WithdrawLiquidity(p, ledger, caller, provider, region, shares).value;
            Left(p, ledger, WithdrawLiquidity(provider, region, shares), done.state, done.ledger)
  {
    P.WithdrawSteps(p, ledger, caller, provider, region, shares);
    assert P.RegionSound(p, region);
    BookedRedemptionLeaves(p, ledger.Move<P.LiquidityError>(p.config.value.token, POOL, provider, shares).value, provider, region, shares);
  }

  lemma BookedRedemptionLeaves(p: P.PoolContractState, ledger: LedgerState, provider: Address, region: Symbol, shares: int)
    requires region in p.pools && p.pools[region].region == region
    requires 0 < shares <= P.ShareBalance(p, provider, region)
    requires P.BookWithdrawal(p, ledger, provider, p.pools[region], shares, shares).Ok?
    ensures var done := P.BookWithdrawal(p, ledger, provider, p.pools[region], shares, shares).value;
            && done.ledger == ledger
            && SharesMoved(p, ledger.now, provider, region, -shares,
                           p.stats.(totalWithdrawals := Increment(p.stats.totalWithdrawals)), done.state)
  {
  }

  lemma DrawLeaves(p: P.PoolContractState, ledger: LedgerState, caller: Address, view: P.RegistryView,
                   agent: Address, region: Symbol, amount: i128)
    requires P.PoolInv(p) && P.DrawLiquidity(p, ledger, caller, view, agent, region, amount).Ok?
    ensures var done := P.DrawLiquidity(p, ledger, caller, view, agent, region, amount).value;
            Left(p, ledger, DrawLiquidity(agent, region, amount), done.state, done.ledger)
  {
    D.DrawLeads(p, ledger, caller, view, agent, region, amount);
    assert P.RegionSound(p, region);
    DrawnLeaves(p, ledger, agent, region, amount, P.DrawLiquidity(p, ledger, caller, view, agent, region, amount).value);
  }

  lemma DrawnLeaves(p: P.PoolContractState, ledger: LedgerState, agent: Address, region: Symbol, amount: i128,
                    done: Done<P.PoolContractState, int>)
    requires D.DrawnTo(p, ledger, agent, region, amount, done) && p.pools[region].region == region
    ensures Left(p, ledger, DrawLiquidity(agent, region, amount), done.state, done.ledger)
  {
  }

  lemma RepaymentLeaves(p: P.PoolContractState, ledger: LedgerState, caller: Address, agent: Address, region: Symbol, amount: i128)
    requires P.RepayLiquidity(p, ledger, caller, agent, region, amount).Ok?
    ensures var done := P.RepayLiquidity(p, ledger, caller, agent, region, amount).value;
            Left(p, ledger, RepayLiquidity(agent, region, amount), done.state, done.ledger)
  {
  }

  lemma CallLeaves(w: World, caller: Address, foreign: Foreign, call: PoolCall)
    requires P.PoolInv(w.pool) && CallPool(w, caller, foreign, call).Some?
    ensures var next := CallPool(w, caller, foreign, call).value;
            Left(w.pool, w.ledger, call, next.pool, next.ledger) && next == w.(pool := next.pool, ledger := next.ledger)
  {
    match call
    case InitializePool(_, _, _, _, _) =>
    case ConfigurePool(change) => SettingLeaves(w.pool, w.ledger, caller, change);
    case DepositLiquidity(provider, region, amount) => DepositLeaves(w.pool, w.ledger, caller, provider, region, amount);
    case WithdrawLiquidity(provider, region, shares) => RedemptionLeaves(w.pool, w.ledger, caller, provider, region, shares);
    case DrawLiquidity(agent, region, amount) =>
      DrawLeaves(w.pool, w.ledger, caller, AskRegistry(w.registry, w.pool, foreign.registry, agent, region), agent, region, amount);
    case RepayLiquidity(agent, region, amount) => RepaymentLeaves(w.pool, w.ledger, caller, agent, region, amount);
  }

  /** And then it leaves exactly this of the pool and of the balances, and nothing else changes. */
  lemma PoolCallsLeave(w: World, i: Invocation)
    requires P.PoolInv(w.pool) && i.call.ToPool? && Succeeds(w, i)
    ensures var next := Run(w, i);
            && Left(w.pool, w.ledger.(txHash := i.txHash), i.call.pool, next.pool, next.ledger)
            && next == w.(pool := next.pool, ledger := next.ledger)
  {
    CallLeaves(InTransaction(w, i.txHash), i.Caller(), i.foreign, i.call.pool);
  }
}
