/** The agent registry contract. */
module RegistryContract {
  import opened Prelude
  import opened Chain
  import opened RegistryRules

  class AgentRegistry {
    var admin: Option<Address>
    var bondToken: Option<Address>
    var treasury: Option<Address>
    var stats: RegistryStats
    var regionList: seq<Symbol>
    var regions: map<Symbol, RegionConfig>
    var regionAgents: map<Symbol, seq<Address>>
    var corridorRegions: map<Symbol, Symbol>
    var agents: map<Address, Agent>

    constructor (start: RegistryState)
      ensures State() == start
    {
      admin, bondToken, treasury, stats := start.admin, start.bondToken, start.treasury, start.stats;
      regionList, regions, regionAgents := start.regionList, start.regions, start.regionAgents;
      corridorRegions, agents := start.corridorRegions, start.agents;
    }

    function State(): RegistryState
      reads this
    {
      RegistryState(admin, bondToken, treasury, stats, regionList, regions, regionAgents, corridorRegions, agents)
    }

    method Restore(start: RegistryState)
      modifies this
      ensures State() == start
    {
      admin, bondToken, treasury, stats := start.admin, start.bondToken, start.treasury, start.stats;
      regionList, regions, regionAgents := start.regionList, start.regions, start.regionAgents;
      corridorRegions, agents := start.corridorRegions, start.agents;
    }

    method Initialize(env: Ledger, caller: Address, newAdmin: Address, token: Address, slashedTo: Address)
      returns (r: Result<(), RegistryError>)
      modifies this
      ensures Ran(RegistryRules.Initialize(old(State()), env.State(), caller, newAdmin, token, slashedTo), r, State(), env.State())
    {
      if admin.Some? { return Err(AlreadyInitialized); }
      var _ :- Demand(caller == newAdmin);
      admin := Some(newAdmin);
      bondToken := Some(token);
      treasury := Some(slashedTo);
      stats := RegistryStats(0, 0, 0, 0);
      return Ok(());
    }

    method Configure(env: Ledger, caller: Address, change: RegistryChange) returns (r: Result<(), RegistryError>)
      modifies this
      ensures Ran(RegistryRules.Configure(old(State()), env.State(), caller, change), r, State(), env.State())
    {
      var _ :- RequireAdmin(State(), caller);
      match change {
        case SetAdmin(next) => admin := Some(next);
        case SetTreasury(next) => treasury := Some(next);
        case AddRegion(region, minBond, maxAgents) =>
          var _ :- Check(0 <= minBond, InvalidAmount);
          var _ :- Check(region !in regions, RegionAlreadyExists);
          regions := regions[region := RegionConfig(region, minBond, maxAgents, true)];
          regionList := PushUnique(regionList, region);
        case SetMinBond(region, minBond) =>
          var _ :- Check(0 <= minBond, InvalidAmount);
          var config :- LoadRegion(State(), region);
          regions := regions[region := config.(minBond := minBond)];
        case SetRegionActive(region, active) =>
          var config :- LoadRegion(State(), region);
          regions := regions[region := config.(active := active)];
        case MapCorridor(corridor, region) =>
          var _ :- LoadRegion(State(), region);
          corridorRegions := corridorRegions[corridor := region];
      }
      return Ok(());
    }

    method RegisterAgent(env: Ledger, caller: Address, agent: Address, region: Symbol, bond: i128)
      returns (r: Result<Agent, RegistryError>)
      modifies this, env`book
      ensures Ran(RegistryRules.RegisterAgent(old(State()), old(env.State()), caller, agent, region, bond), r, State(), env.State())
    {
      var _ :- Demand(caller == agent);
      var _ :- Check(0 < bond, InvalidAmount);
      var config :- LoadRegion(State(), region);
      var _ :- Check(config.active, RegionInactive);
      var _ :- Check(config.AcceptsBond(bond), BondBelowMinimum);
      var token :- bondToken.OkOr(NotInitialized);
      var record :- FreshRecord(State(), env.now, agent, region, token);
      var _ :- env.Transfer(token, agent, REGISTRY, bond);
      r := Enrol(env, record, bond);
    }

    method Enrol(env: Ledger, blank: Agent, bond: i128) returns (r: Result<Agent, RegistryError>)
      modifies this
      ensures Ran(RegistryRules.Enrol(old(State()), env.State(), blank, bond), r, State(), env.State())
    {
      var isNew := blank.address !in agents;
      var posted :- Checked(blank.bond + bond, Overflow);
      var record := blank.(bond := posted, updatedAt := env.now);
      agents := agents[record.address := record];
      PushRegionAgent(record.region, record.address);
      if isNew {
        stats := stats.(totalAgents := Increment(stats.totalAgents));
      }
      var bonded :- Checked(stats.totalBonded + bond, Overflow);
      stats := stats.(totalBonded := bonded);
      return Ok(record);
    }

    /** Reads a region's index, adds the agent once, and writes it back. */
    method PushRegionAgent(region: Symbol, agent: Address)
      modifies this`regionAgents
      ensures regionAgents == old(regionAgents)[region := PushUnique(RegionIndex(old(State()), region), agent)]
    {
      var list := RegionIndex(State(), region);
      if agent !in list {
        list := list + [agent];
      }
      regionAgents := regionAgents[region := list];
    }

    method TopUpBond(env: Ledger, caller: Address, agent: Address, amount: i128) returns (r: Result<int, RegistryError>)
      modifies this, env`book
      ensures Ran(RegistryRules.TopUpBond(old(State()), old(env.State()), caller, agent, amount), r, State(), env.State())
    {
      var _ :- Demand(caller == agent);
      var _ :- Check(0 < amount, InvalidAmount);
      var record :- LoadAgent(State(), agent);
      var token :- bondToken.OkOr(NotInitialized);
      var _ :- env.Transfer(token, agent, REGISTRY, amount);
      var bond :- Checked(record.bond + amount, Overflow);
      agents := agents[agent := record.(bond := bond, updatedAt := env.now)];
      var bonded :- Checked(stats.totalBonded + amount, Overflow);
      stats := stats.(totalBonded := bonded);
      return Ok(bond);
    }

    method WithdrawBond(env: Ledger, caller: Address, agent: Address, amount: i128) returns (r: Result<int, RegistryError>)
      modifies this, env`book
      ensures Ran(RegistryRules.WithdrawBond(old(State()), old(env.State()), caller, agent, amount), r, State(), env.State())
    {
      var _ :- Demand(caller == agent);
      var _ :- Check(0 < amount, InvalidAmount);
      var record :- LoadAgent(State(), agent);
      var _ :- Check(record.status.BondIsWithdrawable(), BondLockedWhileAuthorized);
      var _ :- Check(amount <= record.bond, InsufficientBond);
      var token :- bondToken.OkOr(NotInitialized);
      var _ :- env.Transfer(token, REGISTRY, agent, amount);
      var bond := record.bond - amount;
      agents := agents[agent := record.(bond := bond, updatedAt := env.now)];
      var bonded :- Plain(stats.totalBonded - amount);
      stats := stats.(totalBonded := bonded);
      return Ok(bond);
    }

    /** Scans a region's index and counts the authorized records it names. */
    method CountAuthorized(region: Symbol) returns (count: nat)
      ensures count == Shown(CountSettling(agents, RegionIndex(State(), region)))
    {
      var list := RegionIndex(State(), region);
      count := 0;
      for i := 0 to |list|
        invariant count == Shown(CountSettling(agents, list[..i]))
      {
        assert list[..i + 1][..i] == list[..i];
        if list[i] in agents {
          if agents[list[i]].status == Authorized {
            count := Increment(count);
          }
        }
      }
      assert list[..|list|] == list;
    }

    method ApplyTransition(env: Ledger, record: Agent, to: AgentStatus)
      modifies this`agents, this`stats
      ensures State() == RegistryRules.ApplyTransition(old(State()), env.now, record, to)
    {
      agents := agents[record.address := record.(status := to, updatedAt := env.now)];
      if record.status == Authorized && to != Authorized {
        stats := stats.(authorizedAgents := Decrement(stats.authorizedAgents));
      } else if record.status != Authorized && to == Authorized {
        stats := stats.(authorizedAgents := Increment(stats.authorizedAgents));
      }
    }

    method AuthorizeAgent(env: Ledger, caller: Address, agent: Address) returns (r: Result<(), RegistryError>)
      modifies this
      ensures Ran(RegistryRules.AuthorizeAgent(old(State()), env.State(), caller, agent), r, State(), env.State())
    {
      var _ :- RequireAdmin(State(), caller);
      var record :- LoadAgent(State(), agent);
      var _ :- Check(record.status.Pending? || record.status.Suspended?, InvalidStatusTransition);
      var config :- LoadRegion(State(), record.region);
      var _ :- Check(config.active, RegionInactive);
      var _ :- Check(config.AcceptsBond(record.bond), BondBelowMinimum);
      if 0 < config.maxAgents {
        var count := CountAuthorized(record.region);
        if config.maxAgents <= count { return Err(RegionFull); }
      }
      ApplyTransition(env, record, Authorized);
      return Ok(());
    }

    method SuspendAgent(env: Ledger, caller: Address, agent: Address) returns (r: Result<(), RegistryError>)
      modifies this
      ensures Ran(Demote(old(State()), env.State(), caller, agent, Suspended), r, State(), env.State())
    {
      var _ :- RequireAdmin(State(), caller);
      var record :- LoadAgent(State(), agent);
      if record.status == Revoked { return Err(InvalidStatusTransition); }
      ApplyTransition(env, record, Suspended);
      return Ok(());
    }

    method RevokeAgent(env: Ledger, caller: Address, agent: Address) returns (r: Result<(), RegistryError>)
      modifies this
      ensures Ran(Demote(old(State()), env.State(), caller, agent, Revoked), r, State(), env.State())
    {
      var _ :- RequireAdmin(State(), caller);
      var record :- LoadAgent(State(), agent);
      if record.status == Revoked { return Err(InvalidStatusTransition); }
      ApplyTransition(env, record, Revoked);
      return Ok(());
    }

    /** A forced suspension stores the record once through the transition and once more after it. */
    method StoreSlashed(env: Ledger, agent: Address, cut: Agent) returns (r: Result<(), RegistryError>)
      modifies this`agents, this`stats
      ensures match RegistryRules.StoreSlashed(old(State()), env.now, agent, cut)
              case Ok(next) => r == Ok(()) && State() == next
              case Err(e) => r == Err(e)
              case Trap => r == Trap
    {
      var record := cut;
      if record.status == Authorized {
        var config :- LoadRegion(State(), record.region);
        if !config.AcceptsBond(record.bond) {
          ApplyTransition(env, record, Suspended);
          record := record.(status := Suspended);
        }
      }
      record := record.(updatedAt := env.now);
      agents := agents[agent := record];
      return Ok(());
    }

    method SlashAgent(env: Ledger, caller: Address, agent: Address, amount: i128) returns (r: Result<int, RegistryError>)
      modifies this, env`book
      ensures Ran(RegistryRules.SlashAgent(old(State()), old(env.State()), caller, agent, amount), r, State(), env.State())
    {
      var _ :- RequireAdmin(State(), caller);
      var _ :- Check(0 < amount, InvalidAmount);
      var cut :- CutBond(State(), agent, amount);
      var slashedTo :- treasury.OkOr(NotInitialized);
      r := TakeSlash(env, agent, cut, slashedTo, amount);
    }

    method TakeSlash(env: Ledger, agent: Address, cut: Agent, slashedTo: Address, amount: i128) returns (r: Result<int, RegistryError>)
      modifies this, env`book
      ensures Ran(RegistryRules.TakeSlash(old(State()), old(env.State()), agent, cut, slashedTo, amount), r, State(), env.State())
    {
      var _ :- StoreSlashed(env, agent, cut);
      r := PaySlash(env, slashedTo, amount);
    }

    method PaySlash(env: Ledger, slashedTo: Address, amount: i128) returns (r: Result<int, RegistryError>)
      modifies this`stats, env`book
      ensures Ran(RegistryRules.PaySlash(old(State()), old(env.State()), slashedTo, amount), r, State(), env.State())
    {
      var token :- bondToken.OkOr(NotInitialized);
      var _ :- env.Transfer(token, REGISTRY, slashedTo, amount);
      var bonded :- Plain(stats.totalBonded - amount);
      var slashed :- Checked(stats.totalSlashed + amount, Overflow);
      stats := stats.(totalBonded := bonded, totalSlashed := slashed);
      return Ok(amount);
    }
  }
}
