/** Every call to the registry on the worlds runs lead to: exactly when it succeeds, and exactly what it then leaves. */
module RegistryCalls {
  import opened Prelude
  import opened Totals
  import opened Chain
  import opened Network
  import opened Custody
  import H = RegistryHistory
  import R = RegistryRules

  /** What a setter asks beyond its signature. */
  predicate MaySet(r: R.RegistryState, change: R.RegistryChange) {
    match change
    case SetAdmin(_) => true
    case SetTreasury(_) => true
    case AddRegion(region, minBond, _) => 0 <= minBond && region !in r.regions
    case SetMinBond(region, minBond) => 0 <= minBond && region in r.regions
    case SetRegionActive(region, _) => region in r.regions
    case MapCorridor(_, region) => region in r.regions
  }

  /** A registration: by the agent itself, new or revoked, into an open region whose minimum its bond meets and its account covers. */
  predicate MayRegister(r: R.RegistryState, book: Book, agent: Address, region: Symbol, bond: int) {
    && region in r.regions && r.regions[region].active
    && 0 < bond && r.regions[region].minBond <= bond
    && (agent in r.agents ==> r.agents[agent].status == R.Revoked)
    && r.bondToken.Some? && bond <= Balance(book, r.bondToken.value, agent)
    && r.stats.totalBonded + bond <= I128_MAX
  }

  predicate MayTopUp(r: R.RegistryState, book: Book, agent: Address, amount: int) {
    && agent in r.agents && 0 < amount
    && r.bondToken.Some? && amount <= Balance(book, r.bondToken.value, agent)
    && r.stats.totalBonded + amount <= I128_MAX
  }

  /** Room under the cap, as the scan of the region's index sees it: no cap, or fewer settling and strays than it allows. */
  ghost predicate SeesRoom(r: R.RegistryState, region: Symbol)
    requires region in r.regions
  {
    var max := r.regions[region].maxAgents;
    max == 0 || R.SettlingIn(r, region) + R.Strays(r.agents, R.RegionIndex(r, region), region) < max
  }

  /** When a call goes through, in no particular order. */
  ghost predicate May(r: R.RegistryState, book: Book, caller: Address, call: RegistryCall) {
    match call
    case InitializeRegistry(admin, _, _) => r.admin.None? && caller == admin
    case ConfigureRegistry(change) => r.admin == Some(caller) && MaySet(r, change)
    case RegisterAgent(agent, region, bond) => caller == agent && MayRegister(r, book, agent, region, bond)
    case TopUpBond(agent, amount) => caller == agent && MayTopUp(r, book, agent, amount)
    case WithdrawBond(agent, amount) =>
      caller == agent && agent in r.agents && r.agents[agent].status != R.Authorized && 0 < amount <= r.agents[agent].bond
    case AuthorizeAgent(agent) => H.FitForAuthorization(r, caller, agent) && SeesRoom(r, r.agents[agent].region)
    case SuspendAgent(agent) => r.admin == Some(caller) && agent in r.agents && r.agents[agent].status != R.Revoked
    case RevokeAgent(agent) => r.admin == Some(caller) && agent in r.agents && r.agents[agent].status != R.Revoked
    case SlashAgent(agent, amount) =>
      && r.admin == Some(caller) && agent in r.agents && 0 < amount <= r.agents[agent].bond
      && r.stats.totalSlashed + amount <= I128_MAX
  }

  lemma SetsExactly(r: R.RegistryState, ledger: LedgerState, caller: Address, change: R.RegistryChange)
    ensures R.Configure(r, ledger, caller, change).Ok? <==> r.admin == Some(caller) && MaySet(r, change)
  {
  }

  lemma RegistersExactly(r: R.RegistryState, ledger: LedgerState, caller: Address, agent: Address, region: Symbol, bond: i128)
    requires R.RegistryInv(r) && Sound(ledger.book)
    ensures R.RegisterAgent(r, ledger, caller, agent, region, bond).Ok?
        <==> caller == agent && MayRegister(r, ledger.book, agent, region, bond)
  {
    TotalNonNegative(r.agents, R.BondOf());
    if r.bondToken.Some? {
      MovedIsSound(ledger.book, r.bondToken.value, agent, REGISTRY, bond);
    }
  }

  lemma TopsUpExactly(r: R.RegistryState, ledger: LedgerState, caller: Address, agent: Address, amount: i128)
    requires R.RegistryInv(r) && Sound(ledger.book)
    ensures R.TopUpBond(r, ledger, caller, agent, amount).Ok? <==> caller == agent && MayTopUp(r, ledger.book, agent, amount)
  {
    if agent in r.agents {
      TotalCovers(r.agents, R.BondOf(), agent);
      MovedIsSound(ledger.book, r.bondToken.value, agent, REGISTRY, amount);
    }
  }

  lemma AuthorizesExactly(r: R.RegistryState, ledger: LedgerState, caller: Address, agent: Address)
    requires R.RegistryInv(r)
    ensures R.AuthorizeAgent(r, ledger, caller, agent).Ok?
        <==> H.FitForAuthorization(r, caller, agent) && SeesRoom(r, r.agents[agent].region)
  {
    if H.FitForAuthorization(r, caller, agent) {
      H.RegionFullExactly(r, ledger, caller, agent);
    }
  }

  lemma SlashesExactly(w: World, caller: Address, agent: Address, amount: i128)
    requires Inv(w)
    ensures R.SlashAgent(w.registry, w.ledger, caller, agent, amount).Ok? <==>
      && w.registry.admin == Some(caller) && agent in w.registry.agents && 0 < amount <= w.registry.agents[agent].bond
      && w.registry.stats.totalSlashed + amount <= I128_MAX
  {
    if agent in w.registry.agents && 0 < amount <= w.registry.agents[agent].bond {
      H.BondIsHeld(w, agent);
      HeldBondIsSlashed(w.registry, w.ledger, caller, agent, amount);
    }
  }

  lemma HeldBondIsSlashed(r: R.RegistryState, ledger: LedgerState, caller: Address, agent: Address, amount: i128)
    requires Sound(ledger.book) && R.RecordsSound(r) && agent in r.agents && r.bondToken.Some? && r.treasury.Some?
    requires 0 < amount <= r.agents[agent].bond <= r.stats.totalBonded <= I128_MAX && 0 <= r.stats.totalSlashed
    requires r.agents[agent].bond <= Balance(ledger.book, r.bondToken.value, REGISTRY)
    ensures R.SlashAgent(r, ledger, caller, agent, amount).Ok?
        <==> r.admin == Some(caller) && r.stats.totalSlashed + amount <= I128_MAX
  {
    MovedIsSound(ledger.book, r.bondToken.value, REGISTRY, r.treasury.value, amount);
  }

  lemma DemotesExactly(r: R.RegistryState, ledger: LedgerState, caller: Address, agent: Address, to: R.AgentStatus)
    requires to == R.Suspended || to == R.Revoked
    ensures R.Demote(r, ledger, caller, agent, to).Ok?
        <==> r.admin == Some(caller) && agent in r.agents && r.agents[agent].status != R.Revoked
  {
  }

  lemma BondCallsExactly(w: World, caller: Address, call: RegistryCall)
    requires Inv(w) && (call.RegisterAgent? || call.TopUpBond? || call.WithdrawBond? || call.SlashAgent?)
    ensures CallRegistry(w, caller, call).Some? <==> May(w.registry, w.ledger.book, caller, call)
  {
    match call
    case RegisterAgent(agent, region, bond) => RegistersExactly(w.registry, w.ledger, caller, agent, region, bond);
    case TopUpBond(agent, amount) => TopsUpExactly(w.registry, w.ledger, caller, agent, amount);
    case WithdrawBond(agent, amount) => H.WithdrawBondExactly(w, caller, agent, amount);
    case SlashAgent(agent, amount) => SlashesExactly(w, caller, agent, amount);
  }

  lemma CallsExactly(w: World, caller: Address, call: RegistryCall)
    requires Inv(w)
    ensures CallRegistry(w, caller, call).Some? <==> May(w.registry, w.ledger.book, caller, call)
  {
    match call
    case InitializeRegistry(_, _, _) =>
    case ConfigureRegistry(change) => SetsExactly(w.registry, w.ledger, caller, change);
    case AuthorizeAgent(agent) => AuthorizesExactly(w.registry, w.ledger, caller, agent);
    case SuspendAgent(agent) => DemotesExactly(w.registry, w.ledger, caller, agent, R.Suspended);
    case RevokeAgent(agent) => DemotesExactly(w.registry, w.ledger, caller, agent, R.Revoked);
    case _ => BondCallsExactly(w, caller, call);
  }

  /** On every sound world, and runs lead to no other, a call to the registry succeeds exactly when it may. */
  lemma RegistryCallsExactly(w: World, i: Invocation)
    requires Inv(w) && i.call.ToRegistry?
    ensures Succeeds(w, i) <==> May(w.registry, w.ledger.book, i.Caller(), i.call.registry)
  {
    StartKeepsInv(w, i.txHash);
    CallsExactly(InTransaction(w, i.txHash), i.Caller(), i.call.registry);
  }

  /* ------------------------------ what a call leaves ------------------------------ */

  predicate SetTo(r: R.RegistryState, change: R.RegistryChange, next: R.RegistryState)
    requires MaySet(r, change)
  {
    match change
    case SetAdmin(admin) => next == r.(admin := Some(admin))
    case SetTreasury(treasury) => next == r.(treasury := Some(treasury))
    case AddRegion(region, minBond, maxAgents) =>
      next == r.(regions := r.regions[region := R.RegionConfig(region, minBond, maxAgents, true)],
                 regionList := if region in r.regionList then r.regionList else r.regionList + [region])
    case SetMinBond(region, minBond) => next == r.(regions := r.regions[region := r.regions[region].(minBond := minBond)])
    case SetRegionActive(region, active) => next == r.(regions := r.regions[region := r.regions[region].(active := active)])
    case MapCorridor(corridor, region) => next == r.(corridorRegions := r.corridorRegions[corridor := region])
  }

  /** The record a registration leaves: pending, with this bond alone; a returning agent keeps its slashes and its first date. */
  function Registered(r: R.RegistryState, now: nat, agent: Address, region: Symbol, bond: int): R.Agent
    requires r.bondToken.Some?
  {
    var known := agent in r.agents;
    R.Agent(agent, region, r.bondToken.value, bond, R.Pending,
            if known then r.agents[agent].slashCount else 0, if known then r.agents[agent].registeredAt else now, now)
  }

  predicate RegisteredAs(r: R.RegistryState, now: nat, agent: Address, region: Symbol, bond: int, next: R.RegistryState)
    requires r.bondToken.Some?
  {
    var list := if region in r.regionAgents then r.regionAgents[region] else [];
    next == r.(agents := r.agents[agent := Registered(r, now, agent, region, bond)],
               regionAgents := r.regionAgents[region := if agent in list then list else list + [agent]],
               stats := r.stats.(totalAgents := if agent in r.agents then r.stats.totalAgents else Increment(r.stats.totalAgents),
                                 totalBonded := r.stats.totalBonded + bond))
  }

  /** One record's bond moves by `change`, and the total with it. */
  predicate BondMoved(r: R.RegistryState, now: nat, agent: Address, change: int, next: R.RegistryState)
    requires agent in r.agents
  {
    next == r.(agents := r.agents[agent := r.agents[agent].(bond := r.agents[agent].bond + change, updatedAt := now)],
               stats := r.stats.(totalBonded := r.stats.totalBonded + change))
  }

  /** One record's status becomes `to`, and the count of authorized agents follows it. */
  predicate StatusMoved(r: R.RegistryState, now: nat, agent: Address, to: R.AgentStatus, next: R.RegistryState)
    requires agent in r.agents
  {
    var was := r.agents[agent].status == R.Authorized;
    next == r.(agents := r.agents[agent := r.agents[agent].(status := to, updatedAt := now)],
               stats := r.stats.(authorizedAgents :=
                 if was && to != R.Authorized then Decrement(r.stats.authorizedAgents)
                 else if !was && to == R.Authorized then Increment(r.stats.authorizedAgents)
                 else r.stats.authorizedAgents))
  }

  /** Slashed by an amount: suspended exactly if authorized and now below the region's minimum. */
  predicate SlashedBy(r: R.RegistryState, now: nat, agent: Address, amount: int, next: R.RegistryState)
    requires agent in r.agents && r.agents[agent].region in r.regions
  {
    var before := r.agents[agent];
    var short := before.status == R.Authorized && before.bond - amount < r.regions[before.region].minBond;
    next == r.(agents := r.agents[agent := before.(bond := before.bond - amount, status := if short then R.Suspended else before.status,
                                                   slashCount := Increment(before.slashCount), updatedAt := now)],
               stats := r.stats.(authorizedAgents := if short then Decrement(r.stats.authorizedAgents) else r.stats.authorizedAgents,
                                 totalBonded := r.stats.totalBonded - amount, totalSlashed := r.stats.totalSlashed + amount))
  }

  /** The registry after a call that went through. */
  ghost predicate Leaves(w: World, caller: Address, call: RegistryCall, next: R.RegistryState)
    requires R.RecordsSound(w.registry) && May(w.registry, w.ledger.book, caller, call)
  {
    var r, now := w.registry, w.ledger.now;
    match call
    case InitializeRegistry(admin, token, treasury) =>
      next == r.(admin := Some(admin), bondToken := Some(token), treasury := Some(treasury), stats := R.RegistryStats(0, 0, 0, 0))
    case ConfigureRegistry(change) => SetTo(r, change, next)
    case RegisterAgent(agent, region, bond) => RegisteredAs(r, now, agent, region, bond, next)
    case TopUpBond(agent, amount) => BondMoved(r, now, agent, amount, next)
    case WithdrawBond(agent, amount) => BondMoved(r, now, agent, -amount, next)
    case AuthorizeAgent(agent) => StatusMoved(r, now, agent, R.Authorized, next)
    case SuspendAgent(agent) => StatusMoved(r, now, agent, R.Suspended, next)
    case RevokeAgent(agent) => StatusMoved(r, now, agent, R.Revoked, next)
    case SlashAgent(agent, amount) => SlashedBy(r, now, agent, amount, next)
  }

  /** What a call pays, from whom and to whom: bonds in and out, slashes to the treasury, and otherwise nothing. */
  ghost predicate Pays(w: World, call: RegistryCall, book: Book) {
    var r, before := w.registry, w.ledger.book;
    match call
    case RegisterAgent(agent, _, bond) => r.bondToken.Some? && Moved(before, r.bondToken.value, agent, REGISTRY, bond) == Some(book)
    case TopUpBond(agent, amount) => r.bondToken.Some? && Moved(before, r.bondToken.value, agent, REGISTRY, amount) == Some(book)
    case WithdrawBond(agent, amount) => r.bondToken.Some? && Moved(before, r.bondToken.value, REGISTRY, agent, amount) == Some(book)
    case SlashAgent(_, amount) =>
      r.bondToken.Some? && r.treasury.Some? && Moved(before, r.bondToken.value, REGISTRY, r.treasury.value, amount) == Some(book)
    case _ => book == before
  }

  lemma RegistrationLeaves(w: World, caller: Address, call: RegistryCall)
    requires R.RecordsSound(w.registry) && call.RegisterAgent? && May(w.registry, w.ledger.book, caller, call)
    requires CallRegistry(w, caller, call).Some?
    ensures var next := CallRegistry(w, caller, call).value;
            Leaves(w, caller, call, next.registry) && Pays(w, call, next.ledger.book)
  {
    R.RegisterEffect(w.registry, w.ledger, caller, call.agent, call.region, call.bond);
  }

  lemma SlashLeaves(w: World, caller: Address, call: RegistryCall)
    requires R.RecordsSound(w.registry) && call.SlashAgent? && May(w.registry, w.ledger.book, caller, call)
    requires CallRegistry(w, caller, call).Some?
    ensures var next := CallRegistry(w, caller, call).value;
            Leaves(w, caller, call, next.registry) && Pays(w, call, next.ledger.book)
  {
    R.SlashEffect(w.registry, w.ledger, caller, call.agent, call.amount);
  }

  lemma CallLeaves(w: World, caller: Address, call: RegistryCall)
    requires R.RecordsSound(w.registry) && May(w.registry, w.ledger.book, caller, call)
    requires CallRegistry(w, caller, call).Some?
    ensures var next := CallRegistry(w, caller, call).value;
            Leaves(w, caller, call, next.registry) && Pays(w, call, next.ledger.book)
  {
    match call
    case RegisterAgent(_, _, _) => RegistrationLeaves(w, caller, call);
    case SlashAgent(_, _) => SlashLeaves(w, caller, call);
    case ConfigureRegistry(change) => SettingLeaves(w.registry, w.ledger, caller, change);
    case _ =>
  }

  lemma SettingLeaves(r: R.RegistryState, ledger: LedgerState, caller: Address, change: R.RegistryChange)
    requires MaySet(r, change) && R.Configure(r, ledger, caller, change).Ok?
    ensures var done := R.Configure(r, ledger, caller, change).value;
            SetTo(r, change, done.state) && done.ledger == ledger
  {
  }

  lemma ElseUntouched(w: World, caller: Address, call: RegistryCall)
    requires CallRegistry(w, caller, call).Some?
    ensures var next := CallRegistry(w, caller, call).value;
            next == w.(registry := next.registry, ledger := w.ledger.(book := next.ledger.book))
  {
  }

  /** And then it leaves exactly this of the registry and of the balances, and nothing else changes. */
  lemma RegistryCallsLeave(w: World, i: Invocation)
    requires Inv(w) && i.call.ToRegistry? && Succeeds(w, i)
    ensures May(w.registry, w.ledger.book, i.Caller(), i.call.registry)
    ensures var next := Run(w, i);
            && Leaves(w, i.Caller(), i.call.registry, next.registry) && Pays(w, i.call.registry, next.ledger.book)
            && next == w.(registry := next.registry, ledger := w.ledger.(txHash := i.txHash, book := next.ledger.book))
  {
    RegistryCallsExactly(w, i);
    CallLeaves(InTransaction(w, i.txHash), i.Caller(), i.call.registry);
    ElseUntouched(InTransaction(w, i.txHash), i.Caller(), i.call.registry);
  }
}
