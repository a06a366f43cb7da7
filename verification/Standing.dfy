/**
 Who may settle: an agent settles in the one region its record names, while that record is
 authorized and the region active, and nowhere else.
 */
module Standing {
  import opened Prelude
  import opened Chain
  import opened Network
  import R = RegistryRules
  import E = EscrowRules
  import P = PoolRules

  /** An authorized record that names the region, and the region active. */
  predicate StandsIn(r: R.RegistryState, agent: Address, region: Symbol) {
    && agent in r.agents && r.agents[agent].status == R.Authorized && r.agents[agent].region == region
    && region in r.regions && r.regions[region].active
  }

  /** Standing in the region a corridor ends in. */
  predicate StandsFor(r: R.RegistryState, agent: Address, corridor: Symbol) {
    corridor in r.corridorRegions && StandsIn(r, agent, r.corridorRegions[corridor])
  }

  /** What the registry answers is the agent's standing and its recorded bond. */
  lemma RegistryAnswers(r: R.RegistryState, agent: Address, region: Symbol, corridor: Symbol)
    ensures R.IsAuthorizedIn(r, agent, region) <==> StandsIn(r, agent, region)
    ensures R.IsAuthorizedForCorridor(r, agent, corridor) <==> StandsFor(r, agent, corridor)
    ensures R.Bond(r, agent) == if agent in r.agents then r.agents[agent].bond else 0
  {
  }

  /** Who may claim: by the deployed registry an agent with standing, by any other whoever it allows. */
  predicate MayClaim(w: World, answer: E.AgentAnswer, agent: Address, corridor: Symbol)
    requires w.escrow.config.Some?
  {
    if w.escrow.config.value.registry == REGISTRY then StandsFor(w.registry, agent, corridor) else answer == E.Allowed
  }

  lemma AskAgentExactly(w: World, answer: E.AgentAnswer, agent: Address, id: nat)
    requires w.escrow.config.Some? && id in w.escrow.transfers
    ensures AskAgent(w.registry, w.escrow, answer, agent, id) == E.Allowed
        <==> MayClaim(w, answer, agent, w.escrow.transfers[id].corridor)
  {
    RegistryAnswers(w.registry, agent, "", w.escrow.transfers[id].corridor);
  }

  /** Who may draw, and against what bond. */
  predicate MayDrawOn(w: World, answer: P.RegistryView, agent: Address, region: Symbol, bond: int)
    requires w.pool.config.Some?
  {
    if w.pool.config.value.registry == REGISTRY then StandsIn(w.registry, agent, region) && bond == w.registry.agents[agent].bond
    else answer == P.RegistryView(P.Answered(true), P.Answered(bond))
  }

  lemma AskRegistryExactly(w: World, answer: P.RegistryView, agent: Address, region: Symbol, bond: int)
    requires w.pool.config.Some?
    ensures AskRegistry(w.registry, w.pool, answer, agent, region) == P.RegistryView(P.Answered(true), P.Answered(bond))
        <==> MayDrawOn(w, answer, agent, region, bond)
  {
    RegistryAnswers(w.registry, agent, region, "");
  }
}
