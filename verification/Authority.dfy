/**
 Who can change what: settings and the standing of agents move only by an admin's call, attestations
 by an operator's, and what a holder owns only by the holder's own signature.
 */
module Authority {
  import opened Prelude
  import opened Chain
  import opened Network
  import opened Custody
  import opened Standing
  import RC = RegistryCalls
  import HC = HookCalls
  import EC = EscrowCalls
  import PC = PoolCalls
  import H = RegistryHistory
  import Settlement
  import C = ComplianceRules
  import R = RegistryRules
  import E = EscrowRules
  import P = PoolRules

  /** A transaction signed by this address. */
  predicate SignedBy(a: Action, x: Address) { a.Invoke? && a.invocation.Caller() == x }

  /** Signed by the admin; before there is one, by whoever initializes the contract. */
  predicate SignedByAdmin(a: Action, admin: Option<Address>) {
    a.Invoke? && (admin.None? || admin == Some(a.invocation.Caller()))
  }

  /* ------------------------------ one step, contract by contract ------------------------------ */

  /** A step leaves the registry alone, or is a call to it that goes through. */
  ghost predicate RegistryStep(w: World, a: Action, next: R.RegistryState) {
    next == w.registry
    || (a.Invoke? && a.invocation.call.ToRegistry? && R.RecordsSound(w.registry)
        && var caller, call := a.invocation.Caller(), a.invocation.call.registry;
           RC.May(w.registry, w.ledger.book, caller, call) && RC.Leaves(w, caller, call, next))
  }

  lemma StepsOfRegistry(w: World, a: Action)
    requires Inv(w)
    ensures RegistryStep(w, a, Step(w, a).registry)
  {
    if a.Invoke? && Succeeds(w, a.invocation) {
      if a.invocation.call.ToRegistry? {
        RC.RegistryCallsLeave(w, a.invocation);
      } else {
        H.OthersKeepRegistry(InTransaction(w, a.invocation.txHash), a.invocation);
      }
    }
  }

  /** A step leaves the hook alone, or is a call to it that goes through, or a creation that commits to it. */
  ghost predicate HookStep(w: World, a: Action, next: C.HookState) {
    next == w.hook
    || (a.Invoke? && a.invocation.call.ToHook?
        && HC.May(w.hook, w.ledger.now, a.invocation.Caller(), a.invocation.call.hook)
        && HC.Leaves(w.hook, w.ledger.now, a.invocation.call.hook, next))
    || (a.Invoke? && a.invocation.call.ToEscrow? && a.invocation.call.escrow.CreateTransfer?
        && var call := a.invocation.call.escrow;
           call.sender == a.invocation.Caller() && HC.Committed(w.hook, w.ledger.now, call.sender, call.amount, call.corridor, next))
  }

  lemma CreationStepsHook(w: World, i: Invocation)
    requires E.EscrowInv(w.escrow) && C.HookInv(w.hook) && i.call.ToEscrow? && Succeeds(w, i)
    ensures HookStep(w, Invoke(i), Run(w, i).hook)
  {
    var started := InTransaction(w, i.txHash);
    var fee := EC.EscrowCallsLeave(w, i);
    if i.call.escrow.CreateTransfer? {
      var call := i.call.escrow;
      E.CreateEffect(w.escrow, w.hook, started.ledger, i.Caller(), i.foreign.gate, call.sender, call.amount, call.token,
                     call.claimHash, call.corridor, call.expiry);
    }
  }

  lemma StepsOfHook(w: World, a: Action)
    requires Inv(w)
    ensures HookStep(w, a, Step(w, a).hook)
  {
    if a.Invoke? && Succeeds(w, a.invocation) {
      match a.invocation.call
      case ToEscrow(_) => CreationStepsHook(w, a.invocation);
      case ToHook(_) =>
        HC.HookCallsExactly(w, a.invocation);
        HC.HookCallsLeave(w, a.invocation);
      case ToRegistry(_) => RC.ElseUntouched(InTransaction(w, a.invocation.txHash), a.invocation.Caller(), a.invocation.call.registry);
      case ToPool(_) => PC.PoolCallsLeave(w, a.invocation);
    }
  }

  /** A step leaves the pool alone, or is a call to it that goes through. */
  ghost predicate PoolStep(w: World, a: Action, next: P.PoolContractState) {
    next == w.pool
    || (a.Invoke? && a.invocation.call.ToPool?
        && PC.May(w, a.invocation.Caller(), a.invocation.foreign, a.invocation.call.pool)
        && PC.Leaves(w.pool, w.ledger.now, a.invocation.call.pool, next))
  }

  lemma StepsOfPool(w: World, a: Action)
    requires Inv(w)
    ensures PoolStep(w, a, Step(w, a).pool)
  {
    if a.Invoke? && Succeeds(w, a.invocation) {
      match a.invocation.call
      case ToEscrow(_) => var fee := EC.EscrowCallsLeave(w, a.invocation);
      case ToHook(_) => HC.HookCallsLeave(w, a.invocation);
      case ToRegistry(_) => RC.ElseUntouched(InTransaction(w, a.invocation.txHash), a.invocation.Caller(), a.invocation.call.registry);
      case ToPool(_) =>
        PC.PoolCallsExactly(w, a.invocation);
        PC.PoolCallsLeave(w, a.invocation);
    }
  }

  /* ------------------------------ settings ------------------------------ */

  predicate SameRegistrySettings(r: R.RegistryState, s: R.RegistryState) {
    s == r.(agents := s.agents, regionAgents := s.regionAgents, stats := s.stats)
  }

  predicate SameHookSettings(h: C.HookState, k: C.HookState) {
    k == h.(attestations := k.attestations, volumes := k.volumes, stats := k.stats)
  }

  predicate SameEscrowSettings(e: E.EscrowState, f: E.EscrowState) { f.admin == e.admin && f.config == e.config }

  predicate SamePoolSettings(p: P.PoolContractState, q: P.PoolContractState) {
    && q.admin == p.admin && q.config == p.config && q.regionList == p.regionList && q.pools.Keys == p.pools.Keys
    && forall g :: g in p.pools ==>
         q.pools[g].active == p.pools[g].active && q.pools[g].utilizationCapBps == p.pools[g].utilizationCapBps
  }

  lemma RegistryStepSets(w: World, a: Action, next: R.RegistryState)
    requires RegistryStep(w, a, next)
    ensures !SameRegistrySettings(w.registry, next) ==> SignedByAdmin(a, w.registry.admin)
  {
  }

  lemma HookStepSets(w: World, a: Action, next: C.HookState)
    requires HookStep(w, a, next)
    ensures !SameHookSettings(w.hook, next) ==> SignedByAdmin(a, w.hook.admin)
  {
  }

  lemma PoolStepSets(w: World, a: Action, next: P.PoolContractState)
    requires PoolStep(w, a, next)
    ensures !SamePoolSettings(w.pool, next) ==> SignedByAdmin(a, w.pool.admin)
  {
  }

  lemma EscrowCallKeepsSettings(w: World, i: Invocation)
    requires Inv(w) && i.call.ToEscrow? && Succeeds(w, i)
    ensures !SameEscrowSettings(w.escrow, Run(w, i).escrow) ==> SignedByAdmin(Invoke(i), w.escrow.admin)
  {
    EC.EscrowCallsExactly(w, i);
    var fee := EC.EscrowCallsLeave(w, i);
    EscrowCallSets(InTransaction(w, i.txHash), i.Caller(), i.foreign, i.call.escrow, fee, Run(w, i));
  }

  lemma EscrowCallSets(w: World, caller: Address, foreign: Foreign, call: EscrowCall, fee: int, next: World)
    requires EC.Left(w, call, fee, next)
    requires call.InitializeEscrow? ==> w.escrow.admin.None?
    requires call.ConfigureEscrow? ==> w.escrow.admin == Some(caller)
    ensures !SameEscrowSettings(w.escrow, next.escrow) ==> w.escrow.admin.None? || w.escrow.admin == Some(caller)
  {
  }

  lemma EscrowSettingsNeedAdmin(w: World, a: Action)
    requires Inv(w)
    ensures !SameEscrowSettings(w.escrow, Step(w, a).escrow) ==> SignedByAdmin(a, w.escrow.admin)
  {
    if a.Invoke? && Succeeds(w, a.invocation) {
      match a.invocation.call
      case ToEscrow(_) => EscrowCallKeepsSettings(w, a.invocation);
      case ToHook(_) => HC.HookCallsLeave(w, a.invocation);
      case ToRegistry(_) => RC.ElseUntouched(InTransaction(w, a.invocation.txHash), a.invocation.Caller(), a.invocation.call.registry);
      case ToPool(_) => PC.PoolCallsLeave(w, a.invocation);
    }
  }

  /** Nothing any admin sets is set otherwise. */
  ghost predicate SameSettings(w: World, v: World) {
    && SameRegistrySettings(w.registry, v.registry) && SameHookSettings(w.hook, v.hook)
    && SameEscrowSettings(w.escrow, v.escrow) && SamePoolSettings(w.pool, v.pool)
  }

  predicate NoAdminSigns(w: World, a: Action) {
    !SignedByAdmin(a, w.registry.admin) && !SignedByAdmin(a, w.hook.admin)
    && !SignedByAdmin(a, w.escrow.admin) && !SignedByAdmin(a, w.pool.admin)
  }

  lemma StepKeepsSettings(w: World, before: World, a: Action)
    requires Inv(before) && SameSettings(w, before) && NoAdminSigns(w, a)
    ensures SameSettings(w, Step(before, a))
  {
    var next := Step(before, a);
    StepsOfRegistry(before, a);
    RegistryStepSets(before, a, next.registry);
    StepsOfHook(before, a);
    HookStepSets(before, a, next.hook);
    StepsOfPool(before, a);
    PoolStepSets(before, a, next.pool);
    EscrowSettingsNeedAdmin(before, a);
  }

  /** Only admins set: a run in which no admin signs leaves every setting of the four contracts as it was. */
  lemma {:induction false} OnlyAdminsSet(w: World, actions: seq<Action>)
    requires Inv(w) && forall k :: 0 <= k < |actions| ==> NoAdminSigns(w, actions[k])
    ensures SameSettings(w, After(w, actions))
    decreases |actions|
  {
    if actions != [] {
      var init := actions[..|actions| - 1];
      OnlyAdminsSet(w, init);
      RunKeepsInv(w, init);
      StepKeepsSettings(w, After(w, init), actions[|actions| - 1]);
    }
  }

  /* ------------------------------ the standing of agents ------------------------------ */

  /** The moves an admin can make with a status. */
  predicate AdminMoves(before: R.AgentStatus, after: R.AgentStatus) {
    match after
    case Pending => false
    case Authorized => before == R.Pending || before == R.Suspended
    case Suspended => before != R.Revoked
    case Revoked => before != R.Revoked
  }

  /**
   An agent's record: opened by the agent itself; its status moved by the admin, along the lifecycle,
   or by the agent out of a revocation; its bond raised by the agent, and lowered by the agent or by
   the admin's slash; its region chosen when the agent registers.
   */
  ghost predicate RecordMoves(w: World, a: Action, agent: Address, s: R.RegistryState) {
    var r := w.registry;
    var own, admin := SignedBy(a, agent), a.Invoke? && r.admin == Some(a.invocation.Caller());
    if agent !in r.agents then agent in s.agents ==> own && s.agents[agent].status == R.Pending
    else
      && agent in s.agents
      && var before, after := r.agents[agent], s.agents[agent];
         var again := own && before.status == R.Revoked && after.status == R.Pending;
      && (after.status != before.status ==> again || (admin && AdminMoves(before.status, after.status)))
      && (after.bond != before.bond ==> own || (admin && after.bond < before.bond))
      && (after.region != before.region ==> again)
  }

  lemma RecordsMoveByRule(w: World, a: Action, agent: Address)
    requires Inv(w)
    ensures RecordMoves(w, a, agent, Step(w, a).registry)
  {
    StepsOfRegistry(w, a);
    RegistryStepMoves(w, a, agent, Step(w, a).registry);
  }

  lemma RegistryStepMoves(w: World, a: Action, agent: Address, next: R.RegistryState)
    requires RegistryStep(w, a, next)
    ensures RecordMoves(w, a, agent, next)
  {
    if next != w.registry {
      var caller, call := a.invocation.Caller(), a.invocation.call.registry;
      if Subject(call) == Some(agent) {
        SubjectMoves(w, caller, call, agent, next);
      } else {
        OthersStay(w, caller, call, agent, next);
      }
    }
  }

  /** The agent whose record a call writes. */
  function Subject(call: RegistryCall): Option<Address> {
    match call
    case RegisterAgent(agent, _, _) => Some(agent)
    case TopUpBond(agent, _) => Some(agent)
    case WithdrawBond(agent, _) => Some(agent)
    case AuthorizeAgent(agent) => Some(agent)
    case SuspendAgent(agent) => Some(agent)
    case RevokeAgent(agent) => Some(agent)
    case SlashAgent(agent, _) => Some(agent)
    case _ => None
  }

  lemma OthersStay(w: World, caller: Address, call: RegistryCall, agent: Address, next: R.RegistryState)
    requires R.RecordsSound(w.registry) && RC.May(w.registry, w.ledger.book, caller, call) && RC.Leaves(w, caller, call, next)
    requires Subject(call) != Some(agent)
    ensures Lookup(next.agents, agent) == Lookup(w.registry.agents, agent)
  {
  }

  /** The call that writes an agent's record writes this. */
  lemma SubjectMoves(w: World, caller: Address, call: RegistryCall, agent: Address, next: R.RegistryState)
    requires R.RecordsSound(w.registry) && RC.May(w.registry, w.ledger.book, caller, call) && RC.Leaves(w, caller, call, next)
    requires Subject(call) == Some(agent)
    ensures agent in next.agents
    ensures var after := next.agents[agent];
            && (after.status == R.Authorized && !R.Settles(w.registry.agents, agent) ==> call.AuthorizeAgent?)
            && if call.RegisterAgent? then caller == agent && after.status == R.Pending
                 && (agent in w.registry.agents ==> w.registry.agents[agent].status == R.Revoked)
            else
              && agent in w.registry.agents
              && var before := w.registry.agents[agent];
              && after.region == before.region
              && (after.status != before.status ==> w.registry.admin == Some(caller) && AdminMoves(before.status, after.status))
              && (after.bond != before.bond ==> caller == agent || (w.registry.admin == Some(caller) && after.bond < before.bond))
  {
  }

  /** An agent comes to settle only by the admin's authorization of that very agent. */
  predicate Authorizes(a: Action, agent: Address) {
    a.Invoke? && a.invocation.call == ToRegistry(AuthorizeAgent(agent))
  }

  lemma OnlyAuthorizationAuthorizes(w: World, a: Action, agent: Address)
    requires Inv(w) && !R.Settles(w.registry.agents, agent) && !Authorizes(a, agent)
    ensures !R.Settles(Step(w, a).registry.agents, agent)
  {
    StepsOfRegistry(w, a);
    RegistryStepAuthorizes(w, a, agent, Step(w, a).registry);
  }

  lemma RegistryStepAuthorizes(w: World, a: Action, agent: Address, next: R.RegistryState)
    requires RegistryStep(w, a, next) && !R.Settles(w.registry.agents, agent) && !Authorizes(a, agent)
    ensures !R.Settles(next.agents, agent)
  {
    if next != w.registry {
      var caller, call := a.invocation.Caller(), a.invocation.call.registry;
      if Subject(call) == Some(agent) {
        SubjectMoves(w, caller, call, agent, next);
      } else {
        OthersStay(w, caller, call, agent, next);
      }
    }
  }

  lemma {:induction false} StaysUnauthorized(w: World, actions: seq<Action>, agent: Address)
    requires Inv(w) && !R.Settles(w.registry.agents, agent)
    requires forall k :: 0 <= k < |actions| ==> !Authorizes(actions[k], agent)
    ensures !R.Settles(After(w, actions).registry.agents, agent)
    decreases |actions|
  {
    if actions != [] {
      var init := actions[..|actions| - 1];
      StaysUnauthorized(w, init, agent);
      RunKeepsInv(w, init);
      OnlyAuthorizationAuthorizes(After(w, init), actions[|actions| - 1], agent);
    }
  }

  predicate Reopens(a: Action, region: Symbol) {
    a.Invoke? && a.invocation.call == ToRegistry(ConfigureRegistry(R.SetRegionActive(region, true)))
  }

  predicate Shut(r: R.RegistryState, region: Symbol) { region in r.regions && !r.regions[region].active }

  lemma OnlyReopeningReopens(w: World, a: Action, region: Symbol)
    requires Inv(w) && Shut(w.registry, region) && !Reopens(a, region)
    ensures Shut(Step(w, a).registry, region)
  {
    StepsOfRegistry(w, a);
    RegistryStepReopens(w, a, region, Step(w, a).registry);
  }

  lemma RegistryStepReopens(w: World, a: Action, region: Symbol, next: R.RegistryState)
    requires RegistryStep(w, a, next) && Shut(w.registry, region) && !Reopens(a, region)
    ensures Shut(next, region)
  {
    if next != w.registry && !a.invocation.call.registry.ConfigureRegistry? {
      OnlySettersMoveRegions(w, a.invocation.Caller(), a.invocation.call.registry, next);
    }
  }

  lemma OnlySettersMoveRegions(w: World, caller: Address, call: RegistryCall, next: R.RegistryState)
    requires R.RecordsSound(w.registry) && RC.May(w.registry, w.ledger.book, caller, call) && RC.Leaves(w, caller, call, next)
    requires !call.ConfigureRegistry?
    ensures next.regions == w.registry.regions
  {
  }

  lemma {:induction false} StaysShut(w: World, actions: seq<Action>, region: Symbol)
    requires Inv(w) && Shut(w.registry, region)
    requires forall k :: 0 <= k < |actions| ==> !Reopens(actions[k], region)
    ensures Shut(After(w, actions).registry, region)
    decreases |actions|
  {
    if actions != [] {
      var init := actions[..|actions| - 1];
      StaysShut(w, init, region);
      RunKeepsInv(w, init);
      OnlyReopeningReopens(After(w, init), actions[|actions| - 1], region);
    }
  }

  /** A claim or a draw that the deployed registry decides. */
  predicate DecidedHere(w: World, i: Invocation) {
    match i.call
    case ToEscrow(ClaimTransfer(_, _, _)) => w.escrow.config.Some? && w.escrow.config.value.registry == REGISTRY
    case ToPool(DrawLiquidity(_, _, _)) => w.pool.config.Some? && w.pool.config.value.registry == REGISTRY
    case _ => false
  }

  /** The region a claim or a draw takes place in, if there is one. */
  function Place(w: World, call: Call): Option<Symbol> {
    match call
    case ToEscrow(ClaimTransfer(_, id, _)) =>
      if id in w.escrow.transfers then Lookup(w.registry.corridorRegions, w.escrow.transfers[id].corridor) else None
    case ToPool(DrawLiquidity(_, region, _)) => Some(region)
    case _ => None
  }

  /** Whoever claims or draws by the deployed registry stands in the very region it takes place in. */
  lemma SettlingNeedsStanding(w: World, i: Invocation)
    requires Inv(w) && DecidedHere(w, i) && Succeeds(w, i)
    ensures Place(w, i.call).Some? && StandsIn(w.registry, i.Caller(), Place(w, i.call).value)
  {
    match i.call {
      case ToEscrow(_) => EC.EscrowCallsExactly(w, i);
      case ToPool(_) => PC.PoolCallsExactly(w, i);
    }
  }

  /** So an agent settles in at most one region: two claims or draws of its that would both go through take place in the same. */
  lemma OneRegionEach(w: World, i: Invocation, j: Invocation)
    requires Inv(w) && DecidedHere(w, i) && DecidedHere(w, j) && Succeeds(w, i) && Succeeds(w, j) && i.Caller() == j.Caller()
    ensures Place(w, i.call) == Place(w, j.call)
  {
    SettlingNeedsStanding(w, i);
    SettlingNeedsStanding(w, j);
  }

  /** The admin takes an agent's standing away. */
  predicate Demotes(call: Call, agent: Address) {
    call == ToRegistry(SuspendAgent(agent)) || call == ToRegistry(RevokeAgent(agent))
  }

  /** After its suspension or revocation an agent claims and draws nowhere, until the admin authorizes it again. */
  lemma DemotedSettlesNowhere(w: World, d: Invocation, agent: Address, actions: seq<Action>, i: Invocation)
    requires Inv(w) && Succeeds(w, d) && Demotes(d.call, agent)
    requires forall k :: 0 <= k < |actions| ==> !Authorizes(actions[k], agent)
    requires DecidedHere(After(Run(w, d), actions), i) && i.Caller() == agent
    ensures !Succeeds(After(Run(w, d), actions), i)
  {
    var demoted := Run(w, d);
    assert Step(w, Invoke(d)) == demoted;
    StepKeeps(w, Invoke(d));
    RC.RegistryCallsLeave(w, d);
    assert !R.Settles(demoted.registry.agents, agent);
    UnauthorizedSettlesNowhere(demoted, agent, actions, i);
  }

  lemma UnauthorizedSettlesNowhere(w: World, agent: Address, actions: seq<Action>, i: Invocation)
    requires Inv(w) && !R.Settles(w.registry.agents, agent)
    requires forall k :: 0 <= k < |actions| ==> !Authorizes(actions[k], agent)
    requires DecidedHere(After(w, actions), i) && i.Caller() == agent
    ensures !Succeeds(After(w, actions), i)
  {
    StaysUnauthorized(w, actions, agent);
    RunKeepsInv(w, actions);
    if Succeeds(After(w, actions), i) {
      SettlingNeedsStanding(After(w, actions), i);
    }
  }

  /** While a region is shut nobody claims or draws in it. */
  lemma ShutRegionSettlesNothing(w: World, region: Symbol, actions: seq<Action>, i: Invocation)
    requires Inv(w) && Shut(w.registry, region)
    requires forall k :: 0 <= k < |actions| ==> !Reopens(actions[k], region)
    requires DecidedHere(After(w, actions), i) && Place(After(w, actions), i.call) == Some(region)
    ensures !Succeeds(After(w, actions), i)
  {
    StaysShut(w, actions, region);
    RunKeepsInv(w, actions);
    if Succeeds(After(w, actions), i) {
      SettlingNeedsStanding(After(w, actions), i);
    }
  }
}
