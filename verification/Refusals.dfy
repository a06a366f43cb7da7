/** A refusal tells the truth: whatever error a call gives on a sound world, the thing it names is so. */
module Refusals {
  import opened Prelude
  import opened Totals
  import opened Chain
  import opened Network
  import opened Custody
  import opened Standing
  import Settlement
  import D = Draws
  import H = RegistryHistory
  import PC = PoolCalls
  import RC = RegistryCalls
  import S = Shares
  import C = ComplianceRules
  import R = RegistryRules
  import E = EscrowRules
  import P = PoolRules

  /* ------------------------------ the escrow ------------------------------ */

  predicate CreationRefused(w: World, gate: E.GateAnswer, call: EscrowCall, error: E.EscrowError)
    requires call.CreateTransfer?
  {
    if error == E.NotInitialized then w.escrow.config.None?
    else
      && w.escrow.config.Some?
      && var config, now := w.escrow.config.value, w.ledger.now;
      match error
      case Paused => config.paused
      case InvalidAmount => call.amount <= 0
      case InvalidExpiry => call.expiry <= now
      case ExpiryTooFar => config.maxExpirySecs < call.expiry - now
      case ComplianceRefused =>
        if config.hook == HOOK then w.hook.escrow.None? || !C.Permitted(w.hook, now, call.sender, call.amount, call.corridor)
        else gate == E.Refused
      case ComplianceCallFailed =>
        if config.hook == HOOK then w.hook.escrow.Some? && w.hook.escrow != Some(ESCROW) else gate == E.Unreachable
      case Overflow => I128_MAX < w.escrow.stats.volumeLocked + call.amount
      case _ => false
  }

  lemma CreationRefusalIsTrue(w: World, gate: E.GateAnswer, call: EscrowCall)
    requires C.HookInv(w.hook) && 0 <= w.escrow.stats.volumeLocked && call.CreateTransfer?
    ensures var r := E.CreateTransfer(w.escrow, w.hook, w.ledger, call.sender, gate, call.sender, call.amount, call.token,
                                      call.claimHash, call.corridor, call.expiry);
            r.Err? ==> CreationRefused(w, gate, call, r.error)
  {
    if w.escrow.config.Some? && 0 < call.amount {
      GateRefusalIsTrue(w, gate, call);
      LockRefusalIsTrue(w.escrow, w.ledger, E.NewTransfer(w.escrow, w.ledger.now, call.sender, call.amount, call.token,
                                                          call.claimHash, call.corridor, call.expiry));
    }
  }

  lemma GateRefusalIsTrue(w: World, gate: E.GateAnswer, call: EscrowCall)
    requires C.HookInv(w.hook) && w.escrow.config.Some? && call.CreateTransfer? && 0 < call.amount
    ensures var r := E.CommitVolume(w.escrow.config.value, w.hook, w.ledger, gate, call.sender, call.amount, call.corridor);
            r.Err? ==> (r.error == E.ComplianceRefused || r.error == E.ComplianceCallFailed) && CreationRefused(w, gate, call, r.error)
  {
    C.EvaluateDecides(w.hook, w.ledger.now, call.sender, call.amount, call.corridor);
  }

  lemma LockRefusalIsTrue(e: E.EscrowState, ledger: LedgerState, t: E.Transfer)
    requires 0 <= e.stats.volumeLocked && 0 < t.amount
    ensures var r := E.LockFunds(e, ledger, t); r.Err? ==> r.error == E.Overflow && I128_MAX < e.stats.volumeLocked + t.amount
  {
  }

  predicate ReturnRefused(w: World, call: EscrowCall, error: E.EscrowError)
    requires call.CancelTransfer? || call.RefundExpired?
  {
    if error == E.TransferNotFound then call.id !in w.escrow.transfers
    else
      && call.id in w.escrow.transfers
      && var t := w.escrow.transfers[call.id];
      match error
      case Unauthorized => call.CancelTransfer? && t.sender != call.sender
      case TransferNotPending => t.status != E.Pending
      case TransferNotExpired => call.RefundExpired? && w.ledger.now <= t.expiry
      case _ => false
  }

  lemma ReturnRefusalIsTrue(w: World, call: EscrowCall)
    requires call.CancelTransfer? || call.RefundExpired?
    ensures var r := if call.CancelTransfer? then E.CancelTransfer(w.escrow, w.ledger, call.sender, call.sender, call.id)
                     else E.RefundExpired(w.escrow, w.ledger, call.id);
            r.Err? ==> ReturnRefused(w, call, r.error)
  {
  }

  predicate ClaimRefused(w: World, answer: E.AgentAnswer, call: EscrowCall, error: E.EscrowError)
    requires call.ClaimTransfer?
  {
    if error == E.NotInitialized then w.escrow.config.None?
    else if error == E.TransferNotFound then call.id !in w.escrow.transfers
    else
      && w.escrow.config.Some? && call.id in w.escrow.transfers
      && var t, here := w.escrow.transfers[call.id], w.escrow.config.value.registry == REGISTRY;
      match error
      case TransferNotPending => t.status != E.Pending
      case TransferExpired => t.expiry < w.ledger.now
      case SenderCannotClaim => t.sender == call.agent
      case InvalidClaimCode => w.sha256(call.code) != t.claimHash
      case AgentNotAuthorized => if here then !StandsFor(w.registry, call.agent, t.corridor) else answer == E.Denied
      case RegistryCallFailed => !here && answer == E.NoAnswer
      case Overflow => !Settlement.ClaimFits(w.escrow, t)
      case _ => false
  }

  lemma ClaimRefusalIsTrue(w: World, answer: E.AgentAnswer, call: EscrowCall)
    requires Settlement.Funded(w) && call.ClaimTransfer? && call.agent.Account?
    ensures var r := E.ClaimTransfer(w.escrow, w.ledger, call.agent, w.sha256,
                                     AskAgent(w.registry, w.escrow, answer, call.agent, call.id), call.agent, call.id, call.code);
            r.Err? ==> ClaimRefused(w, answer, call, r.error)
  {
    if w.escrow.config.Some? && Settlement.Pending(w, call.id) {
      Settlement.SettleClaimSucceedsExactly(w, call.id, call.agent);
      AgentRefusalIsTrue(w, answer, call.agent, call.id);
      ClaimOverflows(w.escrow, w.ledger, w.escrow.config.value, w.escrow.transfers[call.id], call.agent);
    }
  }

  lemma AgentRefusalIsTrue(w: World, answer: E.AgentAnswer, agent: Address, id: nat)
    requires w.escrow.config.Some? && id in w.escrow.transfers
    ensures var r, here := E.CheckAgent(AskAgent(w.registry, w.escrow, answer, agent, id)), w.escrow.config.value.registry == REGISTRY;
            !r.Abort? && (r.Fail? ==> match r.error
              case AgentNotAuthorized =>
                if here then !StandsFor(w.registry, agent, w.escrow.transfers[id].corridor) else answer == E.Denied
              case RegistryCallFailed => !here && answer == E.NoAnswer
              case _ => false)
  {
    RegistryAnswers(w.registry, agent, "", w.escrow.transfers[id].corridor);
  }

  /** Settling a checked claim can fail only by overflowing. */
  lemma ClaimOverflows(e: E.EscrowState, ledger: LedgerState, config: E.EscrowConfig, t: E.Transfer, agent: Address)
    ensures var r := E.SettleClaim(e, ledger, config, t, agent); r.Err? ==> r.error == E.Overflow
  {
  }

  /* ------------------------------ the registry ------------------------------ */

  predicate RegistrationRefused(w: World, call: RegistryCall, error: R.RegistryError)
    requires call.RegisterAgent?
  {
    var r := w.registry;
    match error
    case InvalidAmount => call.bond <= 0
    case UnknownRegion => call.region !in r.regions
    case RegionInactive => call.region in r.regions && !r.regions[call.region].active
    case BondBelowMinimum => call.region in r.regions && call.bond < r.regions[call.region].minBond
    case AgentAlreadyRegistered => call.agent in r.agents && r.agents[call.agent].status != R.Revoked
    case Overflow => I128_MAX < r.stats.totalBonded + call.bond
    case _ => false
  }

  lemma RegistrationRefusalIsTrue(w: World, call: RegistryCall)
    requires R.RegistryInv(w.registry) && call.RegisterAgent?
    ensures var r := R.RegisterAgent(w.registry, w.ledger, call.agent, call.agent, call.region, call.bond);
            r.Err? ==> RegistrationRefused(w, call, r.error)
  {
    TotalNonNegative(w.registry.agents, R.BondOf());
  }

  /** For a call that moves bond or status, made by whoever may make it. */
  ghost predicate RecordCallRefused(w: World, call: RegistryCall, error: R.RegistryError)
    requires call.WithdrawBond? || call.AuthorizeAgent? || call.SuspendAgent? || call.RevokeAgent? || call.SlashAgent?
  {
    var r := w.registry;
    if error == R.AgentNotRegistered then call.agent !in r.agents
    else if error == R.InvalidAmount then (call.WithdrawBond? || call.SlashAgent?) && call.amount <= 0
    else
      && call.agent in r.agents
      && var record := r.agents[call.agent];
      && record.region in r.regions
      && var region := r.regions[record.region];
      match error
      case BondLockedWhileAuthorized => call.WithdrawBond? && record.status == R.Authorized
      case InsufficientBond => call.WithdrawBond? && record.bond < call.amount
      case SlashExceedsBond => call.SlashAgent? && record.bond < call.amount
      case InvalidStatusTransition =>
        if call.AuthorizeAgent? then record.status == R.Authorized || record.status == R.Revoked else record.status == R.Revoked
      case RegionInactive => call.AuthorizeAgent? && !region.active
      case BondBelowMinimum => call.AuthorizeAgent? && record.bond < region.minBond
      case RegionFull => call.AuthorizeAgent? && !RC.SeesRoom(r, record.region)
      case Overflow => call.SlashAgent? && I128_MAX < r.stats.totalSlashed + call.amount
      case _ => false
  }

  lemma WithdrawalRefusalIsTrue(w: World, call: RegistryCall)
    requires R.RegistryInv(w.registry) && call.WithdrawBond?
    ensures var r := R.WithdrawBond(w.registry, w.ledger, call.agent, call.agent, call.amount);
            r.Err? ==> RecordCallRefused(w, call, r.error)
  {
  }

  lemma AuthorizationRefusalIsTrue(w: World, call: RegistryCall, admin: Address)
    requires R.RegistryInv(w.registry) && call.AuthorizeAgent? && w.registry.admin == Some(admin)
    ensures var r := R.AuthorizeAgent(w.registry, w.ledger, admin, call.agent);
            r.Err? ==> RecordCallRefused(w, call, r.error)
  {
    if H.FitForAuthorization(w.registry, admin, call.agent) {
      H.RegionFullExactly(w.registry, w.ledger, admin, call.agent);
    }
  }

  lemma DemotionRefusalIsTrue(w: World, call: RegistryCall, admin: Address)
    requires R.RegistryInv(w.registry) && (call.SuspendAgent? || call.RevokeAgent?) && w.registry.admin == Some(admin)
    ensures var r := R.Demote(w.registry, w.ledger, admin, call.agent, if call.SuspendAgent? then R.Suspended else R.Revoked);
            r.Err? ==> RecordCallRefused(w, call, r.error)
  {
  }

  lemma SlashRefusalIsTrue(w: World, call: RegistryCall, admin: Address)
    requires R.RecordsSound(w.registry) && w.registry.bondToken.Some? && w.registry.treasury.Some? && 0 <= w.registry.stats.totalSlashed
    requires call.SlashAgent? && w.registry.admin == Some(admin)
    ensures var r := R.SlashAgent(w.registry, w.ledger, admin, call.agent, call.amount);
            r.Err? ==> RecordCallRefused(w, call, r.error)
  {
  }

  /* ------------------------------ the pool ------------------------------ */

  /** What every call to a region asks first. */
  predicate RegionRefused(p: P.PoolContractState, region: Symbol, amount: int, error: P.LiquidityError) {
    match error
    case NotInitialized => p.config.None?
    case UnknownRegion => region !in p.pools
    case InvalidAmount => amount <= 0
    case Paused => p.config.Some? && p.config.value.paused
    case _ => false
  }

  predicate DepositRefused(p: P.PoolContractState, region: Symbol, amount: int, error: P.LiquidityError) {
    || RegionRefused(p, region, amount, error)
    || (region in p.pools
        && var s := p.pools[region];
        match error
        case RegionInactive => !s.active
        case Overflow => I128_MAX < s.totalDeposited + amount || I128_MAX < amount * s.totalDeposited
        case _ => false)
  }

  lemma DepositRefusalIsTrue(p: P.PoolContractState, ledger: LedgerState, provider: Address, region: Symbol, amount: i128)
    requires P.PoolInv(p)
    ensures var r := P.DepositLiquidity(p, ledger, provider, provider, region, amount);
            r.Err? ==> DepositRefused(p, region, amount, r.error)
  {
    if region in p.pools && 0 < amount {
      assert P.RegionSound(p, region);
      MintRefusalIsTrue(p.pools[region], amount);
      forall l: LedgerState ensures var r := P.BookDeposit(p, l, provider, p.pools[region], amount, amount);
                                    r.Err? ==> r.error == P.Overflow && I128_MAX < p.pools[region].totalDeposited + amount
      {
        BookingRefusalIsTrue(p, l, provider, p.pools[region], amount);
      }
    }
  }

  lemma MintRefusalIsTrue(s: P.PoolState, amount: int)
    requires 0 <= s.totalDeposited == s.totalShares && 0 < amount
    ensures var r := P.SharesFor(s, amount);
            if r.Ok? then r.value == amount else r == Err(P.Overflow) && I128_MAX < amount * s.totalDeposited
  {
    if 0 < s.totalDeposited {
      P.ScaledBack(amount, s.totalDeposited);
    }
  }

  lemma BookingRefusalIsTrue(p: P.PoolContractState, ledger: LedgerState, provider: Address, s: P.PoolState, amount: int)
    requires 0 <= s.totalDeposited == s.totalShares && 0 < amount
    ensures var r := P.BookDeposit(p, ledger, provider, s, amount, amount);
            r.Err? ==> r.error == P.Overflow && I128_MAX < s.totalDeposited + amount
  {
  }

  predicate RedemptionRefused(p: P.PoolContractState, provider: Address, region: Symbol, shares: int, error: P.LiquidityError) {
    || RegionRefused(p, region, shares, error)
    || (region in p.pools
        && var s := p.pools[region];
        match error
        case InsufficientShares => P.ShareBalance(p, provider, region) < shares
        case InsufficientLiquidity => s.totalDeposited - s.totalDrawn < shares
        case Overflow => I128_MAX < shares * s.totalDeposited
        case _ => false)
  }

  lemma SharesAreOut(p: P.PoolContractState, provider: Address, region: Symbol)
    requires P.PoolInv(p) && region in p.pools && 0 < P.ShareBalance(p, provider, region)
    ensures 0 < p.pools[region].totalDeposited == p.pools[region].totalShares
  {
    assert P.RegionSound(p, region);
    P.StakeWithinTotal(p.shares, P.Position(provider, region));
  }

  lemma RedemptionRefusalIsTrue(p: P.PoolContractState, ledger: LedgerState, provider: Address, region: Symbol, shares: i128)
    requires P.PoolInv(p)
    ensures var r := P.WithdrawLiquidity(p, ledger, provider, provider, region, shares);
            r.Err? ==> RedemptionRefused(p, provider, region, shares, r.error)
  {
    if region in p.pools && 0 < P.ShareBalance(p, provider, region) {
      SharesAreOut(p, provider, region);
    }
    RedemptionRefusalFollows(p, ledger, provider, region, shares);
  }

  lemma RedemptionRefusalFollows(p: P.PoolContractState, ledger: LedgerState, provider: Address, region: Symbol, shares: i128)
    requires region in p.pools && 0 < P.ShareBalance(p, provider, region) ==> 0 < p.pools[region].totalDeposited == p.pools[region].totalShares
    ensures var r := P.WithdrawLiquidity(p, ledger, provider, provider, region, shares);
            r.Err? ==> RedemptionRefused(p, provider, region, shares, r.error)
  {
    if region in p.pools && 0 < shares <= P.ShareBalance(p, provider, region) {
      RedeemRefusalIsTrue(p.pools[region], shares);
    }
  }

  lemma RedeemRefusalIsTrue(s: P.PoolState, shares: int)
    requires 0 < s.totalDeposited == s.totalShares && 0 < shares
    ensures var r := P.AmountFor(s, shares);
            if r.Ok? then r.value == shares else r == Err(P.Overflow) && I128_MAX < shares * s.totalDeposited
  {
    P.ScaledBack(shares, s.totalDeposited);
  }

  predicate RepaymentRefused(p: P.PoolContractState, agent: Address, region: Symbol, amount: int, error: P.LiquidityError) {
    || (error != P.Paused && RegionRefused(p, region, amount, error))
    || (error == P.RepaymentExceedsExposure && P.Exposure(p, agent, region) < amount)
  }

  lemma RepaymentRefusalIsTrue(p: P.PoolContractState, ledger: LedgerState, agent: Address, region: Symbol, amount: i128)
    ensures var r := P.RepayLiquidity(p, ledger, agent, agent, region, amount);
            r.Err? ==> RepaymentRefused(p, agent, region, amount, r.error)
  {
  }

  /** What a draw is refused for: the region, the agent's standing, the float, the cap, the bond, or a product that does not fit. */
  predicate DrawRefused(w: World, answer: P.RegistryView, agent: Address, region: Symbol, amount: int, error: P.LiquidityError) {
    || RegionRefused(w.pool, region, amount, error)
    || (w.pool.config.Some? && region in w.pool.pools
        && var s, config := w.pool.pools[region], w.pool.config.value;
        var here, exposure := config.registry == REGISTRY, P.Exposure(w.pool, agent, region) + amount;
        match error
        case RegionInactive => !s.active
        case AgentNotAuthorized => if here then !StandsIn(w.registry, agent, region) else answer.authorized == P.Answered(false)
        case RegistryCallFailed => !here && (answer.authorized.NoAnswer? || answer.bond.NoAnswer?)
        case InsufficientLiquidity => s.totalDeposited - s.totalDrawn < amount
        case UtilizationCapExceeded => s.utilizationCapBps * s.totalDeposited < (s.totalDrawn + amount) * 10_000
        case InsufficientCollateral => PC.BondBehind(w, answer, agent) * 10_000 < exposure * config.collateralRatioBps
        case Overflow => I128_MAX < exposure || I128_MAX < exposure * config.collateralRatioBps
        case _ => false)
  }

  /** The cap is what refuses a draw inside the float. */
  lemma CapRefusalIsTrue(s: P.PoolState, amount: int)
    requires 0 < amount && 0 <= s.totalDrawn && s.totalDrawn + amount <= s.totalDeposited <= I128_MAX
    ensures var r := P.DrawnAfter(s, amount);
            r.Err? ==> r.error == P.UtilizationCapExceeded && s.utilizationCapBps * s.totalDeposited < (s.totalDrawn + amount) * 10_000
  {
    var utilization := Quotient((s.totalDrawn + amount) * 10_000, s.totalDeposited);
    P.ShareOfWhole(s.totalDrawn + amount, s.totalDeposited);
    ScaleOrder(s.utilizationCapBps + 1, utilization, s.totalDeposited);
    Distributes(s.utilizationCapBps, 1, s.totalDeposited);
  }

  lemma BondRefusalIsTrue(config: P.PoolConfig, exposure: int, bond: int)
    requires 0 <= exposure
    ensures var r, ratio := P.BondRequirement(config, exposure), config.collateralRatioBps;
            && !r.Trap?
            && (r.Err? ==> r.error == P.Overflow && I128_MAX < exposure * ratio)
            && (r.Ok? && bond < r.value ==> bond * 10_000 < exposure * ratio)
  {
    ScaleOrder(0, config.collateralRatioBps, exposure);
  }

  /** Once region, standing and float allow a draw, cap and bond decide. */
  predicate PastFloat(p: P.PoolContractState, view: P.RegistryView, region: Symbol, amount: int) {
    && PC.OpenIn(p, region) && view.authorized == P.Answered(true)
    && 0 < amount <= p.pools[region].totalDeposited - p.pools[region].totalDrawn
  }

  lemma EarlyDrawRefusalIsTrue(w: World, answer: P.RegistryView, agent: Address, region: Symbol, amount: i128)
    requires P.PoolInv(w.pool)
    requires !PastFloat(w.pool, AskRegistry(w.registry, w.pool, answer, agent, region), region, amount)
    ensures var r := P.DrawLiquidity(w.pool, w.ledger, agent, AskRegistry(w.registry, w.pool, answer, agent, region), agent, region, amount);
            r.Err? ==> DrawRefused(w, answer, agent, region, amount, r.error)
  {
    RegistryAnswers(w.registry, agent, region, "");
  }

  /** The refusals left to a draw that is past the float, at the pool's own word. */
  predicate LateRefused(p: P.PoolContractState, view: P.RegistryView, agent: Address, region: Symbol, amount: int, error: P.LiquidityError)
    requires p.config.Some? && region in p.pools
  {
    var s, exposure, ratio := p.pools[region], P.Exposure(p, agent, region) + amount, p.config.value.collateralRatioBps;
    match error
    case UtilizationCapExceeded => s.utilizationCapBps * s.totalDeposited < (s.totalDrawn + amount) * 10_000
    case RegistryCallFailed => view.bond.NoAnswer?
    case InsufficientCollateral => view.bond.Answered? && view.bond.value * 10_000 < exposure * ratio
    case Overflow => I128_MAX < exposure || I128_MAX < exposure * ratio
    case _ => false
  }

  lemma LateDrawRefusalIsTrue(p: P.PoolContractState, ledger: LedgerState, view: P.RegistryView, agent: Address, region: Symbol, amount: i128)
    requires D.SoundFor(p, agent, region) && PastFloat(p, view, region, amount)
    ensures var r := P.DrawLiquidity(p, ledger, agent, view, agent, region, amount);
            r.Err? ==> LateRefused(p, view, agent, region, amount, r.error)
  {
    CapRefusalIsTrue(p.pools[region], amount);
    BondRefusalIsTrue(p.config.value, P.Exposure(p, agent, region) + amount, if view.bond.Answered? then view.bond.value else 0);
  }

  lemma LateIsRefused(w: World, answer: P.RegistryView, agent: Address, region: Symbol, amount: int, r: P.PoolResult<int>)
    requires w.pool.config.Some? && region in w.pool.pools
    requires r.Err? ==> LateRefused(w.pool, AskRegistry(w.registry, w.pool, answer, agent, region), agent, region, amount, r.error)
    ensures r.Err? ==> DrawRefused(w, answer, agent, region, amount, r.error)
  {
    RegistryAnswers(w.registry, agent, region, "");
  }

  lemma DrawRefusalIsTrue(w: World, answer: P.RegistryView, agent: Address, region: Symbol, amount: i128)
    requires P.PoolInv(w.pool)
    ensures var r := P.DrawLiquidity(w.pool, w.ledger, agent, AskRegistry(w.registry, w.pool, answer, agent, region), agent, region, amount);
            r.Err? ==> DrawRefused(w, answer, agent, region, amount, r.error)
  {
    var view := AskRegistry(w.registry, w.pool, answer, agent, region);
    if PastFloat(w.pool, view, region, amount) {
      D.SoundPoolIsSoundFor(w.pool, agent, region);
      LateDrawRefusalIsTrue(w.pool, w.ledger, view, agent, region, amount);
      LateIsRefused(w, answer, agent, region, amount, P.DrawLiquidity(w.pool, w.ledger, agent, view, agent, region, amount));
    } else {
      EarlyDrawRefusalIsTrue(w, answer, agent, region, amount);
    }
  }
}
