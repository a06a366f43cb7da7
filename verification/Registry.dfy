/** The agent registry: bonds, lifecycle, regions and their caps. */
module RegistryRules {
  import opened Prelude
  import opened Totals
  import opened Chain

  datatype AgentStatus = Pending | Authorized | Suspended | Revoked {
    predicate CanSettle() { Authorized? }
    predicate BondIsWithdrawable() { !Authorized? }
  }

  datatype Agent = Agent(
    address: Address, region: Symbol, bondToken: Address, bond: int, status: AgentStatus,
    slashCount: nat, registeredAt: nat, updatedAt: nat)

  datatype RegionConfig = RegionConfig(region: Symbol, minBond: int, maxAgents: u32, active: bool) {
    predicate AcceptsBond(bond: int) { minBond <= bond }
  }

  datatype RegistryStats = RegistryStats(totalAgents: nat, authorizedAgents: nat, totalBonded: int, totalSlashed: int)

  datatype RegistryError =
    | NotInitialized | AlreadyInitialized | InvalidAmount | UnknownRegion | RegionInactive | RegionFull
    | BondBelowMinimum | AgentAlreadyRegistered | AgentNotRegistered | InsufficientBond
    | BondLockedWhileAuthorized | InvalidStatusTransition | RegionAlreadyExists | SlashExceedsBond | Overflow

  datatype RegistryState = RegistryState(
    admin: Option<Address>, bondToken: Option<Address>, treasury: Option<Address>, stats: RegistryStats,
    regionList: seq<Symbol>, regions: map<Symbol, RegionConfig>, regionAgents: map<Symbol, seq<Address>>,
    corridorRegions: map<Symbol, Symbol>, agents: map<Address, Agent>)

  const BLANK_REGISTRY :=
    RegistryState(None, None, None, RegistryStats(0, 0, 0, 0), [], map[], map[], map[], map[])

  type RegistryResult<T> = Result<Done<RegistryState, T>, RegistryError>

  /** Only the configured operator gets past; any other caller traps. */
  function RequireAdmin(r: RegistryState, caller: Address): Outcome<RegistryError> {
    match r.admin
    case None => Fail(NotInitialized)
    case Some(admin) => Demand(caller == admin)
  }

  function LoadAgent(r: RegistryState, agent: Address): Result<Agent, RegistryError> {
    Lookup(r.agents, agent).OkOr(AgentNotRegistered)
  }

  function LoadRegion(r: RegistryState, region: Symbol): Result<RegionConfig, RegistryError> {
    Lookup(r.regions, region).OkOr(UnknownRegion)
  }

  function RegionIndex(r: RegistryState, region: Symbol): seq<Address> {
    LookupOr(r.regionAgents, region, [])
  }

  predicate Settles(agents: map<Address, Agent>, a: Address) {
    a in agents && agents[a].status == Authorized
  }

  /** How many of the listed addresses hold an authorized record, whatever its region. */
  function CountSettling(agents: map<Address, Agent>, list: seq<Address>): nat {
    if list == [] then 0
    else CountSettling(agents, list[..|list| - 1]) + (if Settles(agents, list[|list| - 1]) then 1 else 0)
  }

  function IsAuthorizedIn(r: RegistryState, agent: Address, region: Symbol): bool {
    match Lookup(r.agents, agent)
    case Some(record) =>
      && record.status.CanSettle()
      && Lookup(r.regions, region).Or(false, (c: RegionConfig) => c.active)
      && record.region == region
    case None => false
  }

  function IsAuthorizedForCorridor(r: RegistryState, agent: Address, corridor: Symbol): bool {
    match Lookup(r.corridorRegions, corridor)
    case Some(region) => IsAuthorizedIn(r, agent, region)
    case None => false
  }

  function Bond(r: RegistryState, agent: Address): int {
    Lookup(r.agents, agent).Or(0, (record: Agent) => record.bond)
  }

  function Initialize(r: RegistryState, ledger: LedgerState, caller: Address,
                      admin: Address, bondToken: Address, treasury: Address): RegistryResult<()>
  {
    var _ :- Check(r.admin.None?, AlreadyInitialized);
    var _ :- Demand(caller == admin);
    Ok(Done(r.(admin := Some(admin), bondToken := Some(bondToken), treasury := Some(treasury),
               stats := BLANK_REGISTRY.stats), ledger, ()))
  }

  /** The admin's setters. */
  datatype RegistryChange =
    | SetAdmin(admin: Address)
    | SetTreasury(treasury: Address)
    | AddRegion(region: Symbol, minBond: i128, maxAgents: u32)
    | SetMinBond(region: Symbol, minBond: i128)
    | SetRegionActive(region: Symbol, active: bool)
    | MapCorridor(corridor: Symbol, region: Symbol)

  function Configure(r: RegistryState, ledger: LedgerState, caller: Address, change: RegistryChange): RegistryResult<()> {
    var _ :- RequireAdmin(r, caller);
    match change
    case SetAdmin(next) => Ok(Done(r.(admin := Some(next)), ledger, ()))
    case SetTreasury(treasury) => Ok(Done(r.(treasury := Some(treasury)), ledger, ()))
    case AddRegion(region, minBond, maxAgents) =>
      var _ :- Check(0 <= minBond, InvalidAmount);
      var _ :- Check(region !in r.regions, RegionAlreadyExists);
      var config := RegionConfig(region, minBond, maxAgents, true);
      Ok(Done(r.(regions := r.regions[region := config], regionList := PushUnique(r.regionList, region)), ledger, ()))
    case SetMinBond(region, minBond) =>
      var _ :- Check(0 <= minBond, InvalidAmount);
      var config :- LoadRegion(r, region);
      Ok(Done(r.(regions := r.regions[region := config.(minBond := minBond)]), ledger, ()))
    case SetRegionActive(region, active) =>
      var config :- LoadRegion(r, region);
      Ok(Done(r.(regions := r.regions[region := config.(active := active)]), ledger, ()))
    case MapCorridor(corridor, region) =>
      var _ :- LoadRegion(r, region);
      Ok(Done(r.(corridorRegions := r.corridorRegions[corridor := region]), ledger, ()))
  }

  /**
   The record a registration starts from. A revoked agent may start over, and its old bond does
   not count: the record restarts at zero. (The check that the record's bond token is the
   configured one cannot fail, since the record is built with it.)
   */
  function FreshRecord(r: RegistryState, now: nat, agent: Address, region: Symbol, token: Address): Result<Agent, RegistryError> {
    match Lookup(r.agents, agent)
    case Some(previous) =>
      var _ :- Check(previous.status == Revoked, AgentAlreadyRegistered);
      Ok(Agent(agent, region, token, 0, Pending, previous.slashCount, previous.registeredAt, now))
    case None => Ok(Agent(agent, region, token, 0, Pending, 0, now, now))
  }

  function RegisterAgent(r: RegistryState, ledger: LedgerState, caller: Address,
                         agent: Address, region: Symbol, bond: i128): RegistryResult<Agent>
  {
    var _ :- Demand(caller == agent);
    var _ :- Check(0 < bond, InvalidAmount);
    var config :- LoadRegion(r, region);
    var _ :- Check(config.active, RegionInactive);
    var _ :- Check(config.AcceptsBond(bond), BondBelowMinimum);
    var token :- r.bondToken.OkOr(NotInitialized);
    var blank :- FreshRecord(r, ledger.now, agent, region, token);
    var ledger' :- ledger.Move(token, agent, REGISTRY, bond);
    Enrol(r, ledger', blank, bond)
  }

  /** Books a posted bond: the record, the region's index, and the totals. */
  function Enrol(r: RegistryState, ledger: LedgerState, blank: Agent, bond: i128): RegistryResult<Agent> {
    var posted :- Checked(blank.bond + bond, Overflow);
    var agent, record := blank.address, blank.(bond := posted, updatedAt := ledger.now);
    var bonded :- Checked(r.stats.totalBonded + bond, Overflow);
    var total := if agent in r.agents then r.stats.totalAgents else Increment(r.stats.totalAgents);
    Ok(Done(r.(agents := r.agents[agent := record],
               regionAgents := r.regionAgents[record.region := PushUnique(RegionIndex(r, record.region), agent)],
               stats := r.stats.(totalAgents := total, totalBonded := bonded)),
            ledger, record))
  }

  function TopUpBond(r: RegistryState, ledger: LedgerState, caller: Address, agent: Address, amount: i128): RegistryResult<int> {
    var _ :- Demand(caller == agent);
    var _ :- Check(0 < amount, InvalidAmount);
    var record :- LoadAgent(r, agent);
    var token :- r.bondToken.OkOr(NotInitialized);
    var ledger' :- ledger.Move(token, agent, REGISTRY, amount);
    var bond :- Checked(record.bond + amount, Overflow);
    var bonded :- Checked(r.stats.totalBonded + amount, Overflow);
    Ok(Done(r.(agents := r.agents[agent := record.(bond := bond, updatedAt := ledger.now)],
               stats := r.stats.(totalBonded := bonded)),
            ledger', bond))
  }

  function WithdrawBond(r: RegistryState, ledger: LedgerState, caller: Address, agent: Address, amount: i128): RegistryResult<int> {
    var _ :- Demand(caller == agent);
    var _ :- Check(0 < amount, InvalidAmount);
    var record :- LoadAgent(r, agent);
    var _ :- Check(record.status.BondIsWithdrawable(), BondLockedWhileAuthorized);
    var _ :- Check(amount <= record.bond, InsufficientBond);
    var token :- r.bondToken.OkOr(NotInitialized);
    var ledger' :- ledger.Move(token, REGISTRY, agent, amount);
    var bonded :- Plain(r.stats.totalBonded - amount);
    Ok(Done(r.(agents := r.agents[agent := record.(bond := record.bond - amount, updatedAt := ledger.now)],
               stats := r.stats.(totalBonded := bonded)),
            ledger', record.bond - amount))
  }

  /** Stores the record in its new status and keeps the authorized counter in step. */
  function ApplyTransition(r: RegistryState, now: nat, record: Agent, to: AgentStatus): RegistryState {
    var counter :=
      if record.status == Authorized && to != Authorized then Decrement(r.stats.authorizedAgents)
      else if record.status != Authorized && to == Authorized then Increment(r.stats.authorizedAgents)
      else r.stats.authorizedAgents;
    r.(agents := r.agents[record.address := record.(status := to, updatedAt := now)],
       stats := r.stats.(authorizedAgents := counter))
  }

  function AuthorizeAgent(r: RegistryState, ledger: LedgerState, caller: Address, agent: Address): RegistryResult<()> {
    var _ :- RequireAdmin(r, caller);
    var record :- LoadAgent(r, agent);
    var _ :- Check(record.status.Pending? || record.status.Suspended?, InvalidStatusTransition);
    var config :- LoadRegion(r, record.region);
    var _ :- Check(config.active, RegionInactive);
    var _ :- Check(config.AcceptsBond(record.bond), BondBelowMinimum);
    var _ :- Check(config.maxAgents == 0 || Shown(CountSettling(r.agents, RegionIndex(r, record.region))) < config.maxAgents, RegionFull);
    Ok(Done(ApplyTransition(r, ledger.now, record, Authorized), ledger, ()))
  }

  /** `suspend_agent` and `revoke_agent`: the same guard, a different target status. */
  function Demote(r: RegistryState, ledger: LedgerState, caller: Address, agent: Address, to: AgentStatus): RegistryResult<()>
    requires to == Suspended || to == Revoked
  {
    var _ :- RequireAdmin(r, caller);
    var record :- LoadAgent(r, agent);
    var _ :- Check(record.status != Revoked, InvalidStatusTransition);
    Ok(Done(ApplyTransition(r, ledger.now, record, to), ledger, ()))
  }

  /** Whether an authorized agent's bond is below what its region asks. */
  function Underwater(r: RegistryState, record: Agent): Result<bool, RegistryError> {
    if record.status != Authorized then Ok(false)
    else
      var config :- LoadRegion(r, record.region);
      Ok(!config.AcceptsBond(record.bond))
  }

  /** The record with its bond cut. */
  function CutBond(r: RegistryState, agent: Address, amount: i128): Result<Agent, RegistryError> {
    var record :- LoadAgent(r, agent);
    var _ :- Check(amount <= record.bond, SlashExceedsBond);
    Ok(record.(bond := record.bond - amount, slashCount := Increment(record.slashCount)))
  }

  /** Takes from the bond; an authorized agent left below its region's minimum is suspended. */
  function SlashAgent(r: RegistryState, ledger: LedgerState, caller: Address, agent: Address, amount: i128): RegistryResult<int> {
    var _ :- RequireAdmin(r, caller);
    var _ :- Check(0 < amount, InvalidAmount);
    var cut :- CutBond(r, agent, amount);
    var treasury :- r.treasury.OkOr(NotInitialized);
    TakeSlash(r, ledger, agent, cut, treasury, amount)
  }

  function TakeSlash(r: RegistryState, ledger: LedgerState, agent: Address, cut: Agent, treasury: Address, amount: i128)
    : RegistryResult<int>
  {
    var stored :- StoreSlashed(r, ledger.now, agent, cut);
    PaySlash(stored, ledger, treasury, amount)
  }

  /** Stores a slashed record, suspending an authorized agent its bond no longer carries. */
  function StoreSlashed(r: RegistryState, now: nat, agent: Address, cut: Agent): Result<RegistryState, RegistryError> {
    var underwater :- Underwater(r, cut);
    var base := if underwater then ApplyTransition(r, now, cut, Suspended) else r;
    var status := if underwater then Suspended else cut.status;
    Ok(base.(agents := base.agents[agent := cut.(status := status, updatedAt := now)]))
  }

  /** The slash's money side: the amount goes to the treasury and comes off the books. */
  function PaySlash(r: RegistryState, ledger: LedgerState, treasury: Address, amount: i128): RegistryResult<int> {
    var token :- r.bondToken.OkOr(NotInitialized);
    var ledger' :- ledger.Move(token, REGISTRY, treasury, amount);
    var bonded :- Plain(r.stats.totalBonded - amount);
    var slashed :- Checked(r.stats.totalSlashed + amount, Overflow);
    Ok(Done(r.(stats := r.stats.(totalBonded := bonded, totalSlashed := slashed)), ledger', amount))
  }

  /* ------------------------------ invariants ------------------------------ */

  function AuthorizedOne(): (Address, Agent) -> int {
    (a: Address, record: Agent) => if record.status == Authorized then 1 else 0
  }

  function AuthorizedIn(region: Symbol): (Address, Agent) -> int {
    (a: Address, record: Agent) => if record.status == Authorized && record.region == region then 1 else 0
  }

  function BondOf(): (Address, Agent) -> int {
    (a: Address, record: Agent) => record.bond
  }

  /** Agents now allowed to settle in a region: what the cap is meant to bound. */
  ghost function SettlingIn(r: RegistryState, region: Symbol): int {
    Total(r.agents, AuthorizedIn(region))
  }

  /** Bond the contract counts as held that no agent's record shows any more. */
  ghost function Leftover(r: RegistryState): int {
    r.stats.totalBonded - Total(r.agents, BondOf())
  }

  ghost predicate RecordsSound(r: RegistryState) {
    forall a :: a in r.agents ==>
      && r.agents[a].address == a
      && 0 <= r.agents[a].bond
      && r.agents[a].region in r.regions
      && a in RegionIndex(r, r.agents[a].region)
  }

  ghost predicate IndexesSound(r: RegistryState) {
    forall g :: g in r.regionAgents ==> NoDuplicates(r.regionAgents[g])
  }

  ghost predicate RegionsSound(r: RegistryState) {
    forall g :: g in r.regions ==>
      && r.regions[g].region == g
      && (0 < r.regions[g].maxAgents ==> SettlingIn(r, g) <= r.regions[g].maxAgents)
  }

  ghost predicate CountersSound(r: RegistryState) {
    && r.stats.totalAgents == Shown(|r.agents|)
    && (|r.agents| <= U32_MAX ==> r.stats.authorizedAgents == Total(r.agents, AuthorizedOne()))
    && 0 <= Leftover(r)
    && r.stats.totalBonded <= I128_MAX
    && 0 <= r.stats.totalSlashed
  }

  ghost predicate RegistryInv(r: RegistryState) {
    && RecordsSound(r) && IndexesSound(r) && RegionsSound(r) && CountersSound(r)
    && (r.admin.None? ==> r == BLANK_REGISTRY)
    && (r.admin.Some? ==> r.bondToken.Some? && r.treasury.Some?)
  }

  /** What replacing one record does to each total. */
  lemma PutAgent(r: RegistryState, a: Address, record: Agent)
    ensures var agents := r.agents[a := record];
            && Total(agents, BondOf()) == Total(r.agents, BondOf()) - (if a in r.agents then r.agents[a].bond else 0) + record.bond
            && Total(agents, AuthorizedOne()) == Total(r.agents, AuthorizedOne())
                 - (if Settles(r.agents, a) then 1 else 0) + (if record.status == Authorized then 1 else 0)
            && |agents| == |r.agents| + (if a in r.agents then 0 else 1)
  {
    TotalPut(r.agents, BondOf(), a, record);
    TotalPut(r.agents, AuthorizedOne(), a, record);
    assert r.agents[a := record].Keys == r.agents.Keys + {a};
    assert |r.agents.Keys| == |r.agents|;
  }

  lemma PutAgentIn(r: RegistryState, a: Address, record: Agent, g: Symbol)
    ensures Total(r.agents[a := record], AuthorizedIn(g)) == SettlingIn(r, g)
              - (if Settles(r.agents, a) && r.agents[a].region == g then 1 else 0)
              + (if record.status == Authorized && record.region == g then 1 else 0)
  {
    TotalPut(r.agents, AuthorizedIn(g), a, record);
  }

  /** Authorized agents the list names whose record has moved to another region. */
  function Strays(agents: map<Address, Agent>, list: seq<Address>, region: Symbol): nat {
    if list == [] then 0
    else
      var last := list[|list| - 1];
      Strays(agents, list[..|list| - 1], region)
        + (if Settles(agents, last) && agents[last].region != region then 1 else 0)
  }

  lemma {:induction false} CountIgnoresOthers(agents: map<Address, Agent>, list: seq<Address>, a: Address, region: Symbol)
    requires a !in list
    ensures CountSettling(agents - {a}, list) == CountSettling(agents, list)
    ensures Strays(agents - {a}, list, region) == Strays(agents, list, region)
  {
    if list != [] {
      CountIgnoresOthers(agents, list[..|list| - 1], a, region);
    }
  }

  /**
   The scan of a region's index counts the agents settling there, plus those it still lists
   who have since moved away and been authorized elsewhere.
   */
  lemma {:induction false} CountSplits(agents: map<Address, Agent>, list: seq<Address>, region: Symbol)
    requires NoDuplicates(list)
    requires forall a :: a in agents && agents[a].region == region ==> a in list || !Settles(agents, a)
    ensures CountSettling(agents, list) == Total(agents, AuthorizedIn(region)) + Strays(agents, list, region)
    decreases |list|
  {
    if list == [] {
      TotalZero(agents, AuthorizedIn(region));
    } else {
      var init, last := list[..|list| - 1], list[|list| - 1];
      assert list == init + [last];
      assert last !in init;
      CountIgnoresOthers(agents, init, last, region);
      CountSplits(agents - {last}, init, region);
      if last in agents {
        TotalTake(agents, AuthorizedIn(region), last);
      } else {
        assert agents - {last} == agents;
      }
    }
  }

  /** On sound states that holds of every region's own index. */
  lemma ScanOvercountsByStrays(r: RegistryState, region: Symbol)
    requires RecordsSound(r) && IndexesSound(r)
    ensures CountSettling(r.agents, RegionIndex(r, region))
         == SettlingIn(r, region) + Strays(r.agents, RegionIndex(r, region), region)
  {
    CountSplits(r.agents, RegionIndex(r, region), region);
  }

  /* ------------------------------ preservation ------------------------------ */

  function BondBefore(r: RegistryState, a: Address): int { if a in r.agents then r.agents[a].bond else 0 }

  /** The counters after storing one record, as `CountersSound` needs them. */
  ghost predicate CountersFollow(r: RegistryState, next: RegistryState, a: Address, record: Agent) {
    && next.stats.totalAgents == (if a in r.agents then r.stats.totalAgents else Increment(r.stats.totalAgents))
    && next.stats.authorizedAgents ==
         (if Settles(r.agents, a) && record.status != Authorized then Decrement(r.stats.authorizedAgents)
          else if !Settles(r.agents, a) && record.status == Authorized then Increment(r.stats.authorizedAgents)
          else r.stats.authorizedAgents)
    && next.stats.totalBonded - r.stats.totalBonded >= record.bond - BondBefore(r, a)
    && next.stats.totalBonded <= I128_MAX
    && r.stats.totalSlashed <= next.stats.totalSlashed
  }

  /** `next` is `r` with one record stored, and the record listed in its region's index. */
  ghost predicate Stores(r: RegistryState, next: RegistryState, a: Address, record: Agent) {
    && next == r.(agents := r.agents[a := record], regionAgents := next.regionAgents, stats := next.stats)
    && IndexesSound(next)
    && (forall g, b :: b in RegionIndex(r, g) ==> b in RegionIndex(next, g))
    && record.address == a && 0 <= record.bond && record.region in r.regions
    && a in RegionIndex(next, record.region)
  }

  /** An authorized record is either not newly so, or found room under its region's cap. */
  ghost predicate RoomFor(r: RegistryState, a: Address, record: Agent)
    requires record.region in r.regions
  {
    record.status == Authorized ==>
      || (Settles(r.agents, a) && r.agents[a].region == record.region)
      || r.regions[record.region].maxAgents == 0
      || SettlingIn(r, record.region) < r.regions[record.region].maxAgents
  }

  lemma StoreKeepsRegions(r: RegistryState, next: RegistryState, a: Address, record: Agent)
    requires RegionsSound(r) && Stores(r, next, a, record) && RoomFor(r, a, record)
    ensures RegionsSound(next)
  {
    forall g | g in r.regions && 0 < r.regions[g].maxAgents
      ensures SettlingIn(next, g) <= r.regions[g].maxAgents
    {
      PutAgentIn(r, a, record, g);
    }
  }

  lemma AuthorizedWithin(agents: map<Address, Agent>)
    ensures 0 <= Total(agents, AuthorizedOne()) <= |agents|
    ensures forall a :: Settles(agents, a) ==> 1 <= Total(agents, AuthorizedOne())
  {
    var one := (k: Address, v: Agent) => 1;
    TotalOrdered(agents, AuthorizedOne(), one);
    TotalOnes(agents, one);
    TotalNonNegative(agents, AuthorizedOne());
    forall a | Settles(agents, a) ensures 1 <= Total(agents, AuthorizedOne()) {
      TotalCovers(agents, AuthorizedOne(), a);
    }
  }

  lemma StoreKeepsCounters(r: RegistryState, next: RegistryState, a: Address, record: Agent)
    requires CountersSound(r) && next.agents == r.agents[a := record]
    requires CountersFollow(r, next, a, record)
    ensures CountersSound(next)
    ensures Leftover(next) - Leftover(r) == next.stats.totalBonded - r.stats.totalBonded - record.bond + BondBefore(r, a)
  {
    PutAgent(r, a, record);
    AuthorizedWithin(r.agents);
    AuthorizedWithin(next.agents);
  }

  /** Storing one record keeps the invariant, if an authorization found room under the cap. */
  lemma StoreKeepsInv(r: RegistryState, next: RegistryState, a: Address, record: Agent)
    requires RegistryInv(r) && r.admin.Some?
    requires Stores(r, next, a, record) && RoomFor(r, a, record) && CountersFollow(r, next, a, record)
    ensures RegistryInv(next)
    ensures Leftover(next) - Leftover(r) == next.stats.totalBonded - r.stats.totalBonded - record.bond + BondBefore(r, a)
  {
    StoreKeepsRegions(r, next, a, record);
    StoreKeepsCounters(r, next, a, record);
  }

  /** What the registry owes in a token: all the bond it counts as held. */
  function Owed(r: RegistryState, token: Address): int {
    if r.bondToken == Some(token) then r.stats.totalBonded else 0
  }

  lemma InitializeKeepsInv(r: RegistryState, ledger: LedgerState, caller: Address, admin: Address, token: Address, treasury: Address)
    requires RegistryInv(r)
    requires Initialize(r, ledger, caller, admin, token, treasury).Ok?
    ensures RegistryInv(Initialize(r, ledger, caller, admin, token, treasury).value.state)
  {
  }

  /** A region may be added, or changed in anything but its cap. */
  lemma PutRegionKeepsInv(r: RegistryState, g: Symbol, config: RegionConfig, list: seq<Symbol>)
    requires RegistryInv(r) && r.admin.Some?
    requires config.region == g && (g in r.regions ==> config.maxAgents == r.regions[g].maxAgents)
    ensures RegistryInv(r.(regions := r.regions[g := config], regionList := list))
  {
    var next := r.(regions := r.regions[g := config], regionList := list);
    assert RecordsSound(next);
    if g !in r.regions {
      TotalZero(r.agents, AuthorizedIn(g));
    }
    forall k | k in next.regions && 0 < next.regions[k].maxAgents
      ensures SettlingIn(next, k) <= next.regions[k].maxAgents
    {
      assert SettlingIn(next, k) == SettlingIn(r, k);
    }
    assert RegionsSound(next);
    assert Leftover(next) == Leftover(r);
  }

  lemma ConfigureKeepsInv(r: RegistryState, ledger: LedgerState, caller: Address, change: RegistryChange)
    requires RegistryInv(r)
    requires Configure(r, ledger, caller, change).Ok?
    ensures RegistryInv(Configure(r, ledger, caller, change).value.state)
  {
    var next := Configure(r, ledger, caller, change).value.state;
    match change
    case AddRegion(g, _, _) => PutRegionKeepsInv(r, g, next.regions[g], next.regionList);
    case SetMinBond(g, _) => PutRegionKeepsInv(r, g, next.regions[g], next.regionList);
    case SetRegionActive(g, _) => PutRegionKeepsInv(r, g, next.regions[g], next.regionList);
    case _ => WiringKeepsInv(r, next);
  }

  /** Who administers, where slashes go and which corridor means which region play no part in it. */
  lemma WiringKeepsInv(r: RegistryState, next: RegistryState)
    requires RegistryInv(r) && r.admin.Some? && next.admin.Some? && next.treasury.Some?
    requires next == r.(admin := next.admin, treasury := next.treasury, corridorRegions := next.corridorRegions)
    ensures RegistryInv(next)
  {
    assert RecordsSound(next) && IndexesSound(next);
    assert forall g :: SettlingIn(next, g) == SettlingIn(r, g);
    assert Leftover(next) == Leftover(r);
  }

  /** The setters touch no record, no counter, no token. */
  lemma ConfigureFrame(r: RegistryState, ledger: LedgerState, caller: Address, change: RegistryChange)
    requires Configure(r, ledger, caller, change).Ok?
    ensures var done := Configure(r, ledger, caller, change).value;
            && done.ledger == ledger
            && done.state == r.(admin := done.state.admin, treasury := done.state.treasury, regionList := done.state.regionList,
                                regions := done.state.regions, corridorRegions := done.state.corridorRegions)
  {
  }

  lemma PushKeepsIndexes(r: RegistryState, g: Symbol, a: Address)
    requires IndexesSound(r)
    ensures var next := r.(regionAgents := r.regionAgents[g := PushUnique(RegionIndex(r, g), a)]);
            && IndexesSound(next)
            && a in RegionIndex(next, g)
            && (forall k, b :: b in RegionIndex(r, k) ==> b in RegionIndex(next, k))
  {
  }

  /** What a successful registration does, entry by entry. */
  lemma RegisterEffect(r: RegistryState, ledger: LedgerState, caller: Address, agent: Address, region: Symbol, bond: i128)
    requires RegisterAgent(r, ledger, caller, agent, region, bond).Ok?
    ensures var done := RegisterAgent(r, ledger, caller, agent, region, bond).value;
            && caller == agent && 0 < bond && region in r.regions && r.bondToken.Some?
            && ledger.Move(r.bondToken.value, agent, REGISTRY, bond) == Result<LedgerState, RegistryError>.Ok(done.ledger)
            && done.value.address == agent && done.value.region == region
            && done.value.bond == bond && done.value.status == Pending
            && (agent in r.agents ==> r.agents[agent].status == Revoked)
            && r.stats.totalBonded + bond <= I128_MAX
            && done.state == r.(
                 agents := r.agents[agent := done.value],
                 regionAgents := r.regionAgents[region := PushUnique(RegionIndex(r, region), agent)],
                 stats := r.stats.(
                   totalAgents := if agent in r.agents then r.stats.totalAgents else Increment(r.stats.totalAgents),
                   totalBonded := r.stats.totalBonded + bond))
  {
  }

  lemma RegisteredKeepsInv(r: RegistryState, next: RegistryState, record: Agent)
    requires RegistryInv(r) && r.bondToken.Some?
    requires record.region in r.regions && 0 < record.bond && record.status == Pending
    requires !Settles(r.agents, record.address)
    requires r.stats.totalBonded + record.bond <= I128_MAX
    requires next == r.(
               agents := r.agents[record.address := record],
               regionAgents := r.regionAgents[record.region := PushUnique(RegionIndex(r, record.region), record.address)],
               stats := r.stats.(
                 totalAgents := if record.address in r.agents then r.stats.totalAgents else Increment(r.stats.totalAgents),
                 totalBonded := r.stats.totalBonded + record.bond))
    ensures RegistryInv(next)
    ensures Leftover(next) == Leftover(r) + BondBefore(r, record.address)
  {
    PushKeepsIndexes(r, record.region, record.address);
    StoreKeepsInv(r, next, record.address, record);
  }

  /** A registration adds its bond to the books; what a returning agent left behind stays in them. */
  lemma RegisterKeepsInv(r: RegistryState, ledger: LedgerState, caller: Address, agent: Address, region: Symbol, bond: i128)
    requires RegistryInv(r)
    requires RegisterAgent(r, ledger, caller, agent, region, bond).Ok?
    ensures var done := RegisterAgent(r, ledger, caller, agent, region, bond).value;
            RegistryInv(done.state) && Leftover(done.state) == Leftover(r) + BondBefore(r, agent)
  {
    RegisterEffect(r, ledger, caller, agent, region, bond);
    var done := RegisterAgent(r, ledger, caller, agent, region, bond).value;
    RegisteredKeepsInv(r, done.state, done.value);
  }

  lemma TopUpKeepsInv(r: RegistryState, ledger: LedgerState, caller: Address, agent: Address, amount: i128)
    requires RegistryInv(r)
    requires TopUpBond(r, ledger, caller, agent, amount).Ok?
    ensures var done := TopUpBond(r, ledger, caller, agent, amount).value;
            && RegistryInv(done.state)
            && Leftover(done.state) == Leftover(r)
            && done.state.stats.totalBonded == r.stats.totalBonded + amount
            && caller == agent && 0 < amount
            && ledger.Move(r.bondToken.value, agent, REGISTRY, amount) == Result<LedgerState, RegistryError>.Ok(done.ledger)
  {
    var done := TopUpBond(r, ledger, caller, agent, amount).value;
    StoreKeepsInv(r, done.state, agent, done.state.agents[agent]);
  }

  lemma WithdrawKeepsInv(r: RegistryState, ledger: LedgerState, caller: Address, agent: Address, amount: i128)
    requires RegistryInv(r)
    requires WithdrawBond(r, ledger, caller, agent, amount).Ok?
    ensures var done := WithdrawBond(r, ledger, caller, agent, amount).value;
            && RegistryInv(done.state)
            && Leftover(done.state) == Leftover(r)
            && done.state.stats.totalBonded == r.stats.totalBonded - amount
            && caller == agent && 0 < amount
            && ledger.Move(r.bondToken.value, REGISTRY, agent, amount) == Result<LedgerState, RegistryError>.Ok(done.ledger)
  {
    var done := WithdrawBond(r, ledger, caller, agent, amount).value;
    StoreKeepsInv(r, done.state, agent, done.state.agents[agent]);
  }

  /** The cap is checked on a count that can only be too high, so passing it leaves room. */
  lemma AuthorizeKeepsInv(r: RegistryState, ledger: LedgerState, caller: Address, agent: Address)
    requires RegistryInv(r)
    requires AuthorizeAgent(r, ledger, caller, agent).Ok?
    ensures var done := AuthorizeAgent(r, ledger, caller, agent).value;
            RegistryInv(done.state) && done.ledger == ledger && Leftover(done.state) == Leftover(r)
            && done.state.stats.totalBonded == r.stats.totalBonded
  {
    var done := AuthorizeAgent(r, ledger, caller, agent).value;
    ScanOvercountsByStrays(r, r.agents[agent].region);
    StoreKeepsInv(r, done.state, agent, done.state.agents[agent]);
  }

  lemma DemoteKeepsInv(r: RegistryState, ledger: LedgerState, caller: Address, agent: Address, to: AgentStatus)
    requires RegistryInv(r)
    requires to == Suspended || to == Revoked
    requires Demote(r, ledger, caller, agent, to).Ok?
    ensures var done := Demote(r, ledger, caller, agent, to).value;
            RegistryInv(done.state) && done.ledger == ledger && Leftover(done.state) == Leftover(r)
            && done.state.stats.totalBonded == r.stats.totalBonded
  {
    var done := Demote(r, ledger, caller, agent, to).value;
    StoreKeepsInv(r, done.state, agent, done.state.agents[agent]);
  }

  /**
   What a successful slash does: the bond shrinks by the amount, the slash is counted, and an
   authorized agent is suspended exactly when what is left is below its region's minimum; any other
   status stays.
   */
  lemma SlashEffect(r: RegistryState, ledger: LedgerState, caller: Address, agent: Address, amount: i128)
    requires RecordsSound(r)
    requires SlashAgent(r, ledger, caller, agent, amount).Ok?
    ensures var done := SlashAgent(r, ledger, caller, agent, amount).value;
            && 0 < amount && agent in r.agents && amount <= r.agents[agent].bond
            && r.bondToken.Some? && r.treasury.Some?
            && ledger.Move(r.bondToken.value, REGISTRY, r.treasury.value, amount) == Result<LedgerState, RegistryError>.Ok(done.ledger)
            && agent in done.state.agents
            && var record := done.state.agents[agent];
            && record == r.agents[agent].(bond := r.agents[agent].bond - amount, status := record.status,
                                          slashCount := if r.agents[agent].slashCount < 0xffff_ffff then r.agents[agent].slashCount + 1
                                                        else 0xffff_ffff,
                                          updatedAt := ledger.now)
            && record.region in r.regions
            && record.status == (if r.agents[agent].status == Authorized && record.bond < r.regions[record.region].minBond
                                 then Suspended else r.agents[agent].status)
            && done.state == r.(agents := r.agents[agent := record],
                                stats := r.stats.(
                                  authorizedAgents := if record.status == r.agents[agent].status then r.stats.authorizedAgents
                                                      else Decrement(r.stats.authorizedAgents),
                                  totalBonded := r.stats.totalBonded - amount,
                                  totalSlashed := r.stats.totalSlashed + amount))
  {
  }

  lemma SlashedKeepsInv(r: RegistryState, next: RegistryState, a: Address, record: Agent, amount: int)
    requires RegistryInv(r) && r.bondToken.Some?
    requires 0 < amount && a in r.agents && amount <= r.agents[a].bond
    requires record.address == a && record.region == r.agents[a].region && record.bond == r.agents[a].bond - amount
    requires record.status == r.agents[a].status || (r.agents[a].status == Authorized && record.status == Suspended)
    requires next == r.(agents := r.agents[a := record],
                        stats := r.stats.(
                          authorizedAgents := if record.status == r.agents[a].status then r.stats.authorizedAgents
                                              else Decrement(r.stats.authorizedAgents),
                          totalBonded := r.stats.totalBonded - amount,
                          totalSlashed := r.stats.totalSlashed + amount))
    ensures RegistryInv(next)
    ensures Leftover(next) == Leftover(r)
  {
    StoreKeepsInv(r, next, a, record);
  }

  lemma SlashKeepsInv(r: RegistryState, ledger: LedgerState, caller: Address, agent: Address, amount: i128)
    requires RegistryInv(r)
    requires SlashAgent(r, ledger, caller, agent, amount).Ok?
    ensures var done := SlashAgent(r, ledger, caller, agent, amount).value;
            RegistryInv(done.state) && Leftover(done.state) == Leftover(r)
  {
    SlashEffect(r, ledger, caller, agent, amount);
    var done := SlashAgent(r, ledger, caller, agent, amount).value;
    SlashedKeepsInv(r, done.state, agent, done.state.agents[agent], amount);
  }
}
