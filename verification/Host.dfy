/** The Soroban host, running the contracts as objects: a failed call leaves no trace. */
module Host {
  import opened Prelude
  import opened Chain
  import opened Network
  import ComplianceContract
  import RegistryContract
  import EscrowContract
  import PoolContract
  import C = ComplianceRules
  import R = RegistryRules
  import E = EscrowRules
  import P = PoolRules

  class SorobanHost {
    const sha256: Bytes32 -> Bytes32
    const env: Ledger
    const registry: RegistryContract.AgentRegistry
    const hook: ComplianceContract.ComplianceHook
    const escrow: EscrowContract.RemitEscrow
    const pool: PoolContract.LiquidityPool

    constructor (start: World)
      ensures State() == start
      ensures fresh(env) && fresh(registry) && fresh(hook) && fresh(escrow) && fresh(pool)
    {
      sha256 := start.sha256;
      env := new Ledger(start.ledger);
      registry := new RegistryContract.AgentRegistry(start.registry);
      hook := new ComplianceContract.ComplianceHook(start.hook);
      escrow := new EscrowContract.RemitEscrow(start.escrow);
      pool := new PoolContract.LiquidityPool(start.pool);
    }

    function State(): World
      reads this, env, registry, hook, escrow, pool
    {
      World(env.State(), registry.State(), hook.State(), escrow.State(), pool.State(), sha256)
    }

    /** Runs one transaction; on any failure every contract and every balance is put back. */
    method Invoke(i: Invocation) returns (ok: bool)
      modifies env, registry, hook, escrow, pool
      ensures ok == Succeeds(old(State()), i)
      ensures State() == Run(old(State()), i)
    {
      var before := State();
      env.txHash := i.txHash;
      match i.call {
        case ToEscrow(call) => ok := CallEscrow(i.Caller(), i.foreign, call);
        case ToHook(call) => ok := CallHook(i.Caller(), call);
        case ToRegistry(call) => ok := CallRegistry(i.Caller(), call);
        case ToPool(call) => ok := CallPool(i.Caller(), i.foreign, call);
      }
      if !ok {
        env.Restore(before.ledger);
        registry.Restore(before.registry);
        hook.Restore(before.hook);
        escrow.Restore(before.escrow);
        pool.Restore(before.pool);
      }
    }

    /** A dispatched call ran as its rule says, if it succeeded at all. */
    twostate predicate Followed(ok: bool, rule: Option<World>)
      reads this, env, registry, hook, escrow, pool
    {
      ok == rule.Some? && (ok ==> State() == rule.value)
    }

    method CallEscrow(caller: Address, foreign: Foreign, call: EscrowCall) returns (ok: bool)
      modifies env, hook, escrow
      ensures Followed(ok, Network.CallEscrow(old(State()), caller, foreign, call))
    {
      match call {
        case InitializeEscrow(admin, registryAddress, hookAddress, treasury, feeBps, secs) =>
          var r := escrow.Initialize(env, caller, admin, registryAddress, hookAddress, treasury, feeBps, secs);
          return r.Ok?;
        case ConfigureEscrow(change) =>
          var r := escrow.Configure(env, caller, change);
          return r.Ok?;
        case CreateTransfer(sender, amount, token, claimHash, corridor, expiry) =>
          var r := escrow.CreateTransfer(env, hook, caller, foreign.gate, sender, amount, token, claimHash, corridor, expiry);
          return r.Ok?;
        case CancelTransfer(sender, id) =>
          var r := escrow.CancelTransfer(env, caller, sender, id);
          return r.Ok?;
        case ClaimTransfer(agent, id, code) =>
          var answer := AskAgent(registry.State(), escrow.State(), foreign.agent, agent, id);
          var r := escrow.ClaimTransfer(env, caller, sha256, answer, agent, id, code);
          return r.Ok?;
        case RefundExpired(id) =>
          var r := escrow.RefundExpired(env, id);
          return r.Ok?;
      }
    }

    method CallHook(caller: Address, call: HookCall) returns (ok: bool)
      modifies hook
      ensures Followed(ok, Network.CallHook(old(State()), caller, call))
    {
      match call {
        case InitializeHook(admin) =>
          var r := hook.Initialize(env, caller, admin);
          return r.Ok?;
        case ConfigureHook(change) =>
          var r := hook.Configure(env, caller, change);
          return r.Ok?;
        case PublishAttestation(attester, subject, tier, hash, region, provider, expiresAt) =>
          var r := hook.PublishAttestation(env, caller, attester, subject, tier, hash, region, provider, expiresAt);
          return r.Ok?;
        case RevokeAttestation(attester, subject) =>
          var r := hook.RevokeAttestation(env, caller, attester, subject);
          return r.Ok?;
        case CommitTransfer(sender, amount, corridor) =>
          var r := hook.CommitTransfer(env, caller, sender, amount, corridor);
          return r.Ok?;
      }
    }

    method CallRegistry(caller: Address, call: RegistryCall) returns (ok: bool)
      modifies env, registry
      ensures Followed(ok, Network.CallRegistry(old(State()), caller, call))
    {
      match call {
        case InitializeRegistry(admin, token, treasury) =>
          var r := registry.Initialize(env, caller, admin, token, treasury);
          return r.Ok?;
        case ConfigureRegistry(change) =>
          var r := registry.Configure(env, caller, change);
          return r.Ok?;
        case RegisterAgent(agent, region, bond) =>
          var r := registry.RegisterAgent(env, caller, agent, region, bond);
          return r.Ok?;
        case TopUpBond(agent, amount) =>
          var r := registry.TopUpBond(env, caller, agent, amount);
          return r.Ok?;
        case WithdrawBond(agent, amount) =>
          var r := registry.WithdrawBond(env, caller, agent, amount);
          return r.Ok?;
        case _ => ok := CallLifecycle(caller, call);
      }
    }

    /** The admin's decisions about one agent. */
    method CallLifecycle(caller: Address, call: RegistryCall) returns (ok: bool)
      requires call.AuthorizeAgent? || call.SuspendAgent? || call.RevokeAgent? || call.SlashAgent?
      modifies env, registry
      ensures Followed(ok, Network.CallRegistry(old(State()), caller, call))
    {
      match call {
        case AuthorizeAgent(agent) =>
          var r := registry.AuthorizeAgent(env, caller, agent);
          return r.Ok?;
        case SuspendAgent(agent) =>
          var r := registry.SuspendAgent(env, caller, agent);
          return r.Ok?;
        case RevokeAgent(agent) =>
          var r := registry.RevokeAgent(env, caller, agent);
          return r.Ok?;
        case SlashAgent(agent, amount) =>
          var r := registry.SlashAgent(env, caller, agent, amount);
          return r.Ok?;
      }
    }

    method CallPool(caller: Address, foreign: Foreign, call: PoolCall) returns (ok: bool)
      modifies env, pool
      ensures Followed(ok, Network.CallPool(old(State()), caller, foreign, call))
    {
      match call {
        case InitializePool(admin, registryAddress, token, ratio, cap) =>
          var r := pool.Initialize(env, caller, admin, registryAddress, token, ratio, cap);
          return r.Ok?;
        case ConfigurePool(change) =>
          var r := pool.Configure(env, caller, change);
          return r.Ok?;
        case DepositLiquidity(provider, region, amount) =>
          var r := pool.DepositLiquidity(env, caller, provider, region, amount);
          return r.Ok?;
        case WithdrawLiquidity(provider, region, shares) =>
          var r := pool.WithdrawLiquidity(env, caller, provider, region, shares);
          return r.Ok?;
        case DrawLiquidity(agent, region, amount) =>
          var view := AskRegistry(registry.State(), pool.State(), foreign.registry, agent, region);
          var r := pool.DrawLiquidity(env, caller, view, agent, region, amount);
          return r.Ok?;
        case RepayLiquidity(agent, region, amount) =>
          var r := pool.RepayLiquidity(env, caller, agent, region, amount);
          return r.Ok?;
      }
    }
  }
}
