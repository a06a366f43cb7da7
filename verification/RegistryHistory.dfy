/**
 The registry over whole runs: where every posted bond went, what a re-registration leaves
 behind for good, and how the region cap and its scan behave.
 */
module RegistryHistory {
  import opened Prelude
  import opened Totals
  import opened Chain
  import opened Network
  import opened Custody
  import R = RegistryRules

  /** What one call did with bond: posted, taken back, slashed, or dropped from its owner's record. */
  datatype BondFlow = BondFlow(posted: int, withdrawn: int, slashed: int, dropped: int) {
    function Plus(more: BondFlow): BondFlow {
      BondFlow(posted + more.posted, withdrawn + more.withdrawn, slashed + more.slashed, dropped + more.dropped)
    }

    predicate NonNegative() { 0 <= posted && 0 <= withdrawn && 0 <= slashed && 0 <= dropped }
  }

  const NO_FLOW := BondFlow(0, 0, 0, 0)

  /** Read off the call alone, and off the old record of an agent who registers again. */
  function FlowOfCall(r: R.RegistryState, call: RegistryCall): BondFlow {
    match call
    case RegisterAgent(agent, _, bond) => BondFlow(bond, 0, 0, R.Bond(r, agent))
    case TopUpBond(_, amount) => BondFlow(amount, 0, 0, 0)
    case WithdrawBond(_, amount) => BondFlow(0, amount, 0, 0)
    case SlashAgent(_, amount) => BondFlow(0, 0, amount, 0)
    case _ => NO_FLOW
  }

  function FlowOfStep(w: World, a: Action): BondFlow {
    match a
    case Invoke(i) => if i.call.ToRegistry? && Succeeds(w, i) then FlowOfCall(w.registry, i.call.registry) else NO_FLOW
    case _ => NO_FLOW
  }

  ghost function FlowOfRun(w: World, actions: seq<Action>): BondFlow
    decreases |actions|
  {
    if actions == [] then NO_FLOW
    else
      var init := actions[..|actions| - 1];
      FlowOfRun(w, init).Plus(FlowOfStep(After(w, init), actions[|actions| - 1]))
  }

  /** The registry's books moved by exactly a flow, in the one bond token it was set up with. */
  ghost predicate Follows(r: R.RegistryState, next: R.RegistryState, flow: BondFlow) {
    && flow.NonNegative()
    && next.stats.totalBonded == r.stats.totalBonded + flow.posted - flow.withdrawn - flow.slashed
    && next.stats.totalSlashed == r.stats.totalSlashed + flow.slashed
    && R.Leftover(next) == R.Leftover(r) + flow.dropped
    && (r.bondToken.Some? ==> next.bondToken == r.bondToken)
  }

  lemma RegisterFlows(r: R.RegistryState, ledger: LedgerState, caller: Address, agent: Address, region: Symbol, bond: i128)
    requires R.RegistryInv(r) && R.RegisterAgent(r, ledger, caller, agent, region, bond).Ok?
    ensures Follows(r, R.RegisterAgent(r, ledger, caller, agent, region, bond).value.state, BondFlow(bond, 0, 0, R.Bond(r, agent)))
  {
    R.RegisterEffect(r, ledger, caller, agent, region, bond);
    R.RegisterKeepsInv(r, ledger, caller, agent, region, bond);
  }

  lemma TopUpFlows(r: R.RegistryState, ledger: LedgerState, caller: Address, agent: Address, amount: i128)
    requires R.RegistryInv(r) && R.TopUpBond(r, ledger, caller, agent, amount).Ok?
    ensures Follows(r, R.TopUpBond(r, ledger, caller, agent, amount).value.state, BondFlow(amount, 0, 0, 0))
  {
    R.TopUpKeepsInv(r, ledger, caller, agent, amount);
  }

  lemma WithdrawFlows(r: R.RegistryState, ledger: LedgerState, caller: Address, agent: Address, amount: i128)
    requires R.RegistryInv(r) && R.WithdrawBond(r, ledger, caller, agent, amount).Ok?
    ensures Follows(r, R.WithdrawBond(r, ledger, caller, agent, amount).value.state, BondFlow(0, amount, 0, 0))
  {
    R.WithdrawKeepsInv(r, ledger, caller, agent, amount);
  }

  lemma SlashFlows(r: R.RegistryState, ledger: LedgerState, caller: Address, agent: Address, amount: i128)
    requires R.RegistryInv(r) && R.SlashAgent(r, ledger, caller, agent, amount).Ok?
    ensures Follows(r, R.SlashAgent(r, ledger, caller, agent, amount).value.state, BondFlow(0, 0, amount, 0))
  {
    R.SlashEffect(r, ledger, caller, agent, amount);
    R.SlashKeepsInv(r, ledger, caller, agent, amount);
  }

  lemma AuthorizeFlows(r: R.RegistryState, ledger: LedgerState, caller: Address, agent: Address)
    requires R.RegistryInv(r) && R.AuthorizeAgent(r, ledger, caller, agent).Ok?
    ensures Follows(r, R.AuthorizeAgent(r, ledger, caller, agent).value.state, NO_FLOW)
  {
    R.AuthorizeKeepsInv(r, ledger, caller, agent);
  }

  lemma DemoteFlows(r: R.RegistryState, ledger: LedgerState, caller: Address, agent: Address, to: R.AgentStatus)
    requires to == R.Suspended || to == R.Revoked
    requires R.RegistryInv(r) && R.Demote(r, ledger, caller, agent, to).Ok?
    ensures Follows(r, R.Demote(r, ledger, caller, agent, to).value.state, NO_FLOW)
  {
    R.DemoteKeepsInv(r, ledger, caller, agent, to);
  }

  lemma RegistryCallFlows(w: World, caller: Address, call: RegistryCall)
    requires R.RegistryInv(w.registry) && CallRegistry(w, caller, call).Some?
    ensures Follows(w.registry, CallRegistry(w, caller, call).value.registry, FlowOfCall(w.registry, call))
  {
    match call
    case RegisterAgent(agent, region, bond) => RegisterFlows(w.registry, w.ledger, caller, agent, region, bond);
    case TopUpBond(agent, amount) => TopUpFlows(w.registry, w.ledger, caller, agent, amount);
    case WithdrawBond(agent, amount) => WithdrawFlows(w.registry, w.ledger, caller, agent, amount);
    case SlashAgent(agent, amount) => SlashFlows(w.registry, w.ledger, caller, agent, amount);
    case ConfigureRegistry(change) => R.ConfigureFrame(w.registry, w.ledger, caller, change);
    case InitializeRegistry(_, _, _) =>
    case AuthorizeAgent(agent) => AuthorizeFlows(w.registry, w.ledger, caller, agent);
    case SuspendAgent(agent) => DemoteFlows(w.registry, w.ledger, caller, agent, R.Suspended);
    case RevokeAgent(agent) => DemoteFlows(w.registry, w.ledger, caller, agent, R.Revoked);
  }

  /** Calls to the other contracts leave the registry alone. */
  lemma OthersKeepRegistry(w: World, i: Invocation)
    requires !i.call.ToRegistry? && Dispatch(w, i.Caller(), i.foreign, i.call).Some?
    ensures Dispatch(w, i.Caller(), i.foreign, i.call).value.registry == w.registry
  {
  }

  lemma StepFlows(w: World, a: Action)
    requires R.RegistryInv(w.registry)
    ensures Follows(w.registry, Step(w, a).registry, FlowOfStep(w, a))
  {
    if a.Invoke? && Succeeds(w, a.invocation) {
      var i, started := a.invocation, InTransaction(w, a.invocation.txHash);
      if i.call.ToRegistry? {
        RegistryCallFlows(started, i.Caller(), i.call.registry);
      } else {
        OthersKeepRegistry(started, i);
      }
    }
  }

  lemma {:induction false} RunFlows(w: World, actions: seq<Action>)
    requires Inv(w)
    ensures Follows(w.registry, After(w, actions).registry, FlowOfRun(w, actions))
    decreases |actions|
  {
    if actions != [] {
      var init := actions[..|actions| - 1];
      RunFlows(w, init);
      RunKeepsInv(w, init);
      StepFlows(After(w, init), actions[|actions| - 1]);
    }
  }

  lemma RegistryStaysSound(start: World, actions: seq<Action>)
    requires Inv(start)
    ensures R.RegistryInv(After(start, actions).registry)
  {
    RunKeepsInv(start, actions);
  }

  /** Where all posted bond is, and what the records show of what is held. */
  ghost predicate Conserved(r: R.RegistryState, flow: BondFlow) {
    && flow.posted == r.stats.totalBonded + flow.withdrawn + r.stats.totalSlashed
    && r.stats.totalBonded == Total(r.agents, R.BondOf()) + flow.dropped
    && (forall a :: a in r.agents ==> 0 <= r.agents[a].bond)
  }

  /**
   Every bond ever posted is still counted as held, was withdrawn, or was slashed; what is held
   is the agents' current bonds plus exactly what re-registrations dropped, and no bond is negative.
   */
  lemma BondIsConserved(start: World, actions: seq<Action>)
    requires Inv(start) && start.registry == R.BLANK_REGISTRY
    ensures Conserved(After(start, actions).registry, FlowOfRun(start, actions))
  {
    RunFlows(start, actions);
    RegistryStaysSound(start, actions);
    FlowsFromBlank(After(start, actions).registry, FlowOfRun(start, actions));
  }

  lemma FlowsFromBlank(r: R.RegistryState, flow: BondFlow)
    requires R.RegistryInv(r) && Follows(R.BLANK_REGISTRY, r, flow)
    ensures Conserved(r, flow)
  {
  }

  /** What a re-registration drops is never paid out again, whatever happens afterwards. */
  lemma DroppedBondIsTrapped(w: World, actions: seq<Action>)
    requires Inv(w) && w.registry.bondToken.Some?
    ensures var after := After(w, actions);
            && R.Leftover(w.registry) <= R.Leftover(after.registry)
            && after.registry.bondToken.Some?
            && R.Leftover(w.registry) <= Balance(after.ledger.book, after.registry.bondToken.value, REGISTRY)
  {
    RunFlows(w, actions);
    RunKeepsInv(w, actions);
    LeftoverIsHeld(After(w, actions));
  }

  lemma LeftoverIsHeld(w: World)
    requires Inv(w) && w.registry.bondToken.Some?
    ensures R.Leftover(w.registry) <= Balance(w.ledger.book, w.registry.bondToken.value, REGISTRY)
  {
    assert R.RecordsSound(w.registry);
    TotalNonNegative(w.registry.agents, R.BondOf());
    assert 0 <= Excess(w, REGISTRY, w.registry.bondToken.value);
  }

  /* ------------------------------ exactly when a bond can be claimed ------------------------------ */

  /** Any one recorded bond is a part of what the registry counts and holds. */
  lemma BondIsHeld(w: World, agent: Address)
    requires R.RegistryInv(w.registry) && Solvent(w) && agent in w.registry.agents
    ensures w.registry.bondToken.Some?
    ensures var bond := w.registry.agents[agent].bond;
            && 0 <= bond <= w.registry.stats.totalBonded <= I128_MAX
            && bond <= Balance(w.ledger.book, w.registry.bondToken.value, REGISTRY)
  {
    TotalCovers(w.registry.agents, R.BondOf(), agent);
    assert 0 <= Excess(w, REGISTRY, w.registry.bondToken.value);
  }

  lemma HeldBondIsPaid(r: R.RegistryState, ledger: LedgerState, agent: Address, amount: i128)
    requires Sound(ledger.book) && agent in r.agents && r.bondToken.Some?
    requires 0 < amount <= r.agents[agent].bond <= r.stats.totalBonded <= I128_MAX
    requires r.agents[agent].bond <= Balance(ledger.book, r.bondToken.value, REGISTRY)
    requires r.agents[agent].status != R.Authorized
    ensures R.WithdrawBond(r, ledger, agent, agent, amount).Ok?
  {
    MovedIsSound(ledger.book, r.bondToken.value, REGISTRY, agent, amount);
  }

  /** The recorded bond is claimable exactly by its agent while not authorized: the payment itself can never fail. */
  lemma WithdrawBondExactly(w: World, caller: Address, agent: Address, amount: i128)
    requires Inv(w)
    ensures R.WithdrawBond(w.registry, w.ledger, caller, agent, amount).Ok? <==>
      && caller == agent && agent in w.registry.agents
      && w.registry.agents[agent].status != R.Authorized
      && 0 < amount <= w.registry.agents[agent].bond
  {
    if caller == agent && agent in w.registry.agents {
      BondIsHeld(w, agent);
      if w.registry.agents[agent].status != R.Authorized && 0 < amount <= w.registry.agents[agent].bond {
        HeldBondIsPaid(w.registry, w.ledger, agent, amount);
      }
    }
  }

  /** A registration leaves something behind exactly when the agent still has bond on record: the condition is read off `get_bond`. */
  lemma RegistrationDropsNothingExactly(r: R.RegistryState, ledger: LedgerState, caller: Address, agent: Address, region: Symbol, bond: i128)
    requires R.RegistryInv(r) && R.RegisterAgent(r, ledger, caller, agent, region, bond).Ok?
    ensures var next := R.RegisterAgent(r, ledger, caller, agent, region, bond).value.state;
            R.Leftover(next) == R.Leftover(r) <==> R.Bond(r, agent) == 0
  {
    R.RegisterKeepsInv(r, ledger, caller, agent, region, bond);
  }

  lemma WithdrawingAllLeavesNone(r: R.RegistryState, ledger: LedgerState, agent: Address)
    requires R.RegistryInv(r) && 0 < R.Bond(r, agent) <= I128_MAX
    requires R.WithdrawBond(r, ledger, agent, agent, R.Bond(r, agent)).Ok?
    ensures var next := R.WithdrawBond(r, ledger, agent, agent, R.Bond(r, agent)).value.state;
            R.RegistryInv(next) && R.Bond(next, agent) == 0 && R.Leftover(next) == R.Leftover(r)
  {
    R.WithdrawKeepsInv(r, ledger, agent, agent, R.Bond(r, agent));
  }

  /** Withdrawing first avoids the loss: it always succeeds for a revoked agent, and then nothing is left to drop. */
  lemma WithdrawingFirstAvoidsTheLoss(w: World, agent: Address, region: Symbol, bond: i128, later: LedgerState)
    requires Inv(w) && agent in w.registry.agents && w.registry.agents[agent].status == R.Revoked
    requires 0 < R.Bond(w.registry, agent) <= I128_MAX
    ensures var all: i128 := R.Bond(w.registry, agent);
            var withdrawn := R.WithdrawBond(w.registry, w.ledger, agent, agent, all);
            && withdrawn.Ok?
            && var r := withdrawn.value.state;
               var registered := R.RegisterAgent(r, later, agent, agent, region, bond);
               registered.Ok? ==> R.Leftover(registered.value.state) == R.Leftover(w.registry)
  {
    var all: i128 := R.Bond(w.registry, agent);
    WithdrawBondExactly(w, agent, agent, all);
    WithdrawingAllLeavesNone(w.registry, w.ledger, agent);
    var r := R.WithdrawBond(w.registry, w.ledger, agent, agent, all).value.state;
    if R.RegisterAgent(r, later, agent, agent, region, bond).Ok? {
      RegistrationDropsNothingExactly(r, later, agent, agent, region, bond);
    }
  }

  /* ------------------------------ caps and counters ------------------------------ */

  /** A region's cap, the counters and the index, as a reader of the contract would want them. */
  ghost predicate RegionsInOrder(r: R.RegistryState) {
    && (forall g :: g in r.regions && 0 < r.regions[g].maxAgents ==> R.SettlingIn(r, g) <= r.regions[g].maxAgents)
    && (|r.agents| <= U32_MAX ==>
          && r.stats.totalAgents == |r.agents|
          && r.stats.authorizedAgents == Total(r.agents, R.AuthorizedOne()))
    && (forall a :: a in r.agents ==> r.agents[a].region in r.regions && a in R.RegionIndex(r, r.agents[a].region))
    && (forall g :: NoDuplicates(R.RegionIndex(r, g)))
  }

  /** In every run the cap bounds the authorized agents of each region, and the counters are exact. */
  lemma RegionsInOrderOverRuns(start: World, actions: seq<Action>)
    requires Inv(start)
    ensures RegionsInOrder(After(start, actions).registry)
  {
    RegistryStaysSound(start, actions);
    SoundRegistryIsInOrder(After(start, actions).registry);
  }

  lemma SoundRegistryIsInOrder(r: R.RegistryState)
    requires R.RegistryInv(r)
    ensures RegionsInOrder(r)
  {
  }

  /** The other checks an authorization makes, all but the cap. */
  predicate FitForAuthorization(r: R.RegistryState, caller: Address, agent: Address) {
    && r.admin == Some(caller)
    && agent in r.agents && (r.agents[agent].status == R.Pending || r.agents[agent].status == R.Suspended)
    && r.agents[agent].region in r.regions
    && r.regions[r.agents[agent].region].active
    && r.regions[r.agents[agent].region].minBond <= r.agents[agent].bond
  }

  /**
   When a fit agent is refused for want of room: exactly when the cap is reached by those
   settling in the region together with the strays its index still lists.
   */
  lemma RegionFullExactly(r: R.RegistryState, ledger: LedgerState, caller: Address, agent: Address)
    requires R.RecordsSound(r) && R.IndexesSound(r) && FitForAuthorization(r, caller, agent)
    ensures var region := r.agents[agent].region;
            var max, strays := r.regions[region].maxAgents, R.Strays(r.agents, R.RegionIndex(r, region), region);
            && (R.AuthorizeAgent(r, ledger, caller, agent) == Err(R.RegionFull)
                <==> 0 < max <= R.SettlingIn(r, region) + strays)
            && (R.AuthorizeAgent(r, ledger, caller, agent).Ok? <==> !(0 < max <= R.SettlingIn(r, region) + strays))
  {
    R.ScanOvercountsByStrays(r, r.agents[agent].region);
  }

  /* ------------------------------ a full region with nobody in it ------------------------------ */

  const TOKEN := Contract(9)

  /** Two regions, "x" with a cap of one, and two funded agents. */
  const OPENING: seq<Action> :=
    [Signed(0, ToRegistry(InitializeRegistry(Account(0), TOKEN, Account(0)))),
     Signed(0, ToRegistry(ConfigureRegistry(R.AddRegion("x", 1, 1)))),
     Signed(0, ToRegistry(ConfigureRegistry(R.AddRegion("y", 1, 0)))),
     Mint(TOKEN, Account(1), 2),
     Mint(TOKEN, Account(2), 1)]

  /** Agent 1 registers in "x", is revoked, comes back in "y" and is authorized there; agent 2 registers in "x". */
  const MOVING: seq<Action> :=
    [Signed(1, ToRegistry(RegisterAgent(Account(1), "x", 1))),
     Signed(0, ToRegistry(RevokeAgent(Account(1)))),
     Signed(1, ToRegistry(RegisterAgent(Account(1), "y", 1))),
     Signed(0, ToRegistry(AuthorizeAgent(Account(1)))),
     Signed(2, ToRegistry(RegisterAgent(Account(2), "x", 1)))]

  /** The two regions set up, this much bond held, and this much left in the agents' accounts. */
  ghost predicate SetUp(w: World, bonded: int, first: int, second: int) {
    && w.registry.admin == Some(Account(0)) && w.registry.bondToken == Some(TOKEN)
    && w.registry.regions == map["x" := R.RegionConfig("x", 1, 1, true), "y" := R.RegionConfig("y", 1, 0, true)]
    && w.registry.stats.totalBonded == bonded == Balance(w.ledger.book, TOKEN, REGISTRY)
    && Balance(w.ledger.book, TOKEN, Account(1)) == first && Balance(w.ledger.book, TOKEN, Account(2)) == second
  }

  ghost predicate Opened(w: World) {
    SetUp(w, 0, 2, 1) && w.registry.agents == map[] && w.registry.regionAgents == map[]
  }

  lemma RegistryOpens(w: World)
    requires w.registry == R.BLANK_REGISTRY && w.ledger.book == map[]
    ensures var w1 := Step(Step(Step(w, OPENING[0]), OPENING[1]), OPENING[2]);
            Opened(Step(Step(w1, OPENING[3]), OPENING[4]))
  {
    var w1 := Step(w, OPENING[0]);
    var w2 := Step(w1, OPENING[1]);
    var w3 := Step(w2, OPENING[2]);
    assert Supply(map[], TOKEN) == 0;
    SupplyAfter(map[], Holding(TOKEN, Account(1)), 2, TOKEN);
    var w4 := Step(w3, OPENING[3]);
    assert w4.ledger.book == map[Holding(TOKEN, Account(1)) := 2];
  }

  /** Agent 1's record, and which regions list it. */
  ghost predicate Alone(r: R.RegistryState, status: R.AgentStatus, region: Symbol, inY: seq<Address>) {
    && r.agents.Keys == {Account(1)}
    && r.agents[Account(1)].address == Account(1) && r.agents[Account(1)].bond == 1
    && r.agents[Account(1)].status == status && r.agents[Account(1)].region == region
    && R.RegionIndex(r, "x") == [Account(1)] && R.RegionIndex(r, "y") == inY
  }

  lemma RegistersInX(w: World)
    requires Opened(w)
    ensures var next := Step(w, MOVING[0]);
            SetUp(next, 1, 1, 1) && Alone(next.registry, R.Pending, "x", [])
  {
  }

  lemma IsRevoked(w: World)
    requires SetUp(w, 1, 1, 1) && Alone(w.registry, R.Pending, "x", [])
    ensures var next := Step(w, MOVING[1]);
            SetUp(next, 1, 1, 1) && Alone(next.registry, R.Revoked, "x", [])
  {
  }

  lemma ComesBackInY(w: World)
    requires SetUp(w, 1, 1, 1) && Alone(w.registry, R.Revoked, "x", [])
    ensures var next := Step(w, MOVING[2]);
            SetUp(next, 2, 0, 1) && Alone(next.registry, R.Pending, "y", [Account(1)])
  {
  }

  lemma IsAuthorizedInY(w: World)
    requires SetUp(w, 2, 0, 1) && Alone(w.registry, R.Pending, "y", [Account(1)])
    ensures var next := Step(w, MOVING[3]);
            SetUp(next, 2, 0, 1) && Alone(next.registry, R.Authorized, "y", [Account(1)])
  {
  }

  /** Agent 1 authorized in "y" and still listed under "x", where agent 2 waits. */
  ghost predicate Stray(r: R.RegistryState) {
    && r.agents.Keys == {Account(1), Account(2)}
    && r.agents[Account(1)].region == "y" && r.agents[Account(1)].status == R.Authorized && r.agents[Account(1)].bond == 1
    && r.agents[Account(2)].region == "x" && r.agents[Account(2)].status == R.Pending && r.agents[Account(2)].bond == 1
    && R.RegionIndex(r, "x") == [Account(1), Account(2)]
  }

  lemma AnotherRegistersInX(w: World)
    requires SetUp(w, 2, 0, 1) && Alone(w.registry, R.Authorized, "y", [Account(1)])
    ensures var next := Step(w, MOVING[4]);
            SetUp(next, 3, 0, 0) && Stray(next.registry)
  {
    assert R.RegisterAgent(w.registry, InTransaction(w, "").ledger, Account(2), Account(2), "x", 1).Ok?;
  }

  /** Nobody settles in "x", and yet its cap of one refuses the agent who waits there. */
  lemma StrayFillsRegion(r: R.RegistryState, ledger: LedgerState)
    requires Stray(r) && r.admin == Some(Account(0)) && "x" in r.regions && r.regions["x"] == R.RegionConfig("x", 1, 1, true)
    ensures R.SettlingIn(r, "x") == 0
    ensures R.AuthorizeAgent(r, ledger, Account(0), Account(2)) == Err(R.RegionFull)
  {
    TotalZero(r.agents, R.AuthorizedIn("x"));
    var list := [Account(1), Account(2)];
    assert list[..1] == [Account(1)] && list[..1][..0] == [];
    assert R.CountSettling(r.agents, list[..1]) == 1;
  }

  lemma AgentStrays(w: World)
    requires Opened(w)
    ensures var next := Step(Step(Step(Step(Step(w, MOVING[0]), MOVING[1]), MOVING[2]), MOVING[3]), MOVING[4]);
            SetUp(next, 3, 0, 0) && Stray(next.registry)
  {
    var w5 := Step(w, MOVING[0]);
    var w6 := Step(w5, MOVING[1]);
    var w7 := Step(w6, MOVING[2]);
    RegistersInX(w);
    IsRevoked(w5);
    ComesBackInY(w6);
    IsAuthorizedInY(w7);
    AnotherRegistersInX(Step(w7, MOVING[3]));
  }

  lemma MovedAwayLeadsToStray(start: World)
    requires Blank(start)
    ensures SetUp(After(start, OPENING + MOVING), 3, 0, 0) && Stray(After(start, OPENING + MOVING).registry)
  {
    AfterFiveMore(start, [], OPENING);
    AfterFiveMore(start, OPENING, MOVING);
    assert [] + OPENING == OPENING;
    RegistryOpens(start);
    AgentStrays(After(start, OPENING));
  }

  /** A region can be full with nobody in it: after this run, from any start, the cap of "x" refuses its only candidate. */
  lemma EmptyRegionCanBeFull(start: World)
    requires Blank(start)
    ensures var w := After(start, OPENING + MOVING);
            && FitForAuthorization(w.registry, Account(0), Account(2)) && w.registry.agents[Account(2)].region == "x"
            && R.SettlingIn(w.registry, "x") == 0
            && R.AuthorizeAgent(w.registry, w.ledger, Account(0), Account(2)) == Err(R.RegionFull)
  {
    MovedAwayLeadsToStray(start);
    StrayFillsRegion(After(start, OPENING + MOVING).registry, After(start, OPENING + MOVING).ledger);
  }

  /** Agent 1 has posted 2 and has 1 on record; the registry holds 3 for records that add up to 2. */
  ghost predicate OneLeftBehind(r: R.RegistryState) {
    R.Bond(r, Account(1)) == 1 && r.stats.totalBonded == 3 && R.Leftover(r) == 1
  }

  lemma StrayLeavesOneBehind(r: R.RegistryState)
    requires Stray(r) && r.stats.totalBonded == 3
    ensures OneLeftBehind(r)
  {
    TotalTake(r.agents, R.BondOf(), Account(1));
    TotalTake(r.agents - {Account(1)}, R.BondOf(), Account(2));
    assert r.agents - {Account(1)} - {Account(2)} == map[];
  }

  /**
   The loss is real: in that run agent 1 loses 1 of the 2 it posted, and what is left behind stays
   behind after every run from there.
   */
  lemma ReturningAgentLosesBond(start: World, actions: seq<Action>)
    requires Blank(start)
    ensures var w := After(start, OPENING + MOVING);
            OneLeftBehind(w.registry) && R.Leftover(w.registry) <= R.Leftover(After(w, actions).registry)
  {
    MovedAwayLeadsToStray(start);
    BlankRunsAreSound(start, OPENING + MOVING);
    StrayBondStays(After(start, OPENING + MOVING), actions);
  }

  lemma StrayBondStays(w: World, actions: seq<Action>)
    requires Inv(w) && Stray(w.registry) && w.registry.stats.totalBonded == 3
    ensures OneLeftBehind(w.registry) && R.Leftover(w.registry) <= R.Leftover(After(w, actions).registry)
  {
    StrayLeavesOneBehind(w.registry);
    RunFlows(w, actions);
  }

  lemma AfterFiveMore(w: World, actions: seq<Action>, more: seq<Action>)
    requires |more| == 5
    ensures After(w, actions + more)
         == Step(Step(Step(Step(Step(After(w, actions), more[0]), more[1]), more[2]), more[3]), more[4])
  {
    var a1 := actions + [more[0]];
    var a2 := a1 + [more[1]];
    var a3 := a2 + [more[2]];
    var a4 := a3 + [more[3]];
    assert actions + more == a4 + [more[4]];
    AfterOneMore(w, actions, more[0]);
    AfterOneMore(w, a1, more[1]);
    AfterOneMore(w, a2, more[2]);
    AfterOneMore(w, a3, more[3]);
    AfterOneMore(w, a4, more[4]);
  }
}
