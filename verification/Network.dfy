/**
 The four contracts as one transactional system: calls, the steps of the world around them,
 and the host that runs a call to the end or takes all of it back.
 */
module Network {
  import opened Prelude
  import opened Chain
  import C = ComplianceRules
  import R = RegistryRules
  import E = EscrowRules
  import P = PoolRules

  /** Everything on chain; `sha256` is the hash of FIPS 180-4, left uninterpreted. */
  datatype World = World(
    ledger: LedgerState, registry: R.RegistryState, hook: C.HookState, escrow: E.EscrowState,
    pool: P.PoolContractState, sha256: Bytes32 -> Bytes32)

  datatype EscrowCall =
    | InitializeEscrow(admin: Address, registry: Address, hook: Address, treasury: Address, feeBps: u32, maxExpirySecs: nat)
    | ConfigureEscrow(change: E.EscrowChange)
    | CreateTransfer(sender: Address, amount: i128, token: Address, claimHash: Bytes32, corridor: Symbol, expiry: nat)
    | CancelTransfer(sender: Address, id: nat)
    | ClaimTransfer(agent: Address, id: nat, code: Bytes32)
    | RefundExpired(id: nat)

  datatype HookCall =
    | InitializeHook(admin: Address)
    | ConfigureHook(change: C.HookChange)
    | PublishAttestation(attester: Address, subject: Address, tier: C.KycTier, hash: Bytes32, region: Symbol, provider: Symbol, expiresAt: nat)
    | RevokeAttestation(attester: Address, subject: Address)
    | CommitTransfer(sender: Address, amount: int, corridor: Symbol)

  datatype RegistryCall =
    | InitializeRegistry(admin: Address, bondToken: Address, treasury: Address)
    | ConfigureRegistry(change: R.RegistryChange)
    | RegisterAgent(agent: Address, region: Symbol, bond: i128)
    | TopUpBond(agent: Address, amount: i128)
    | WithdrawBond(agent: Address, amount: i128)
    | AuthorizeAgent(agent: Address)
    | SuspendAgent(agent: Address)
    | RevokeAgent(agent: Address)
    | SlashAgent(agent: Address, amount: i128)

  datatype PoolCall =
    | InitializePool(admin: Address, registry: Address, token: Address, ratio: u32, cap: u32)
    | ConfigurePool(change: P.PoolChange)
    | DepositLiquidity(provider: Address, region: Symbol, amount: i128)
    | WithdrawLiquidity(provider: Address, region: Symbol, shares: i128)
    | DrawLiquidity(agent: Address, region: Symbol, amount: i128)
    | RepayLiquidity(agent: Address, region: Symbol, amount: i128)

  datatype Call =
    | ToEscrow(escrow: EscrowCall)
    | ToHook(hook: HookCall)
    | ToRegistry(registry: RegistryCall)
    | ToPool(pool: PoolCall)

  /** What hooks and registries outside the model would answer, should a contract be pointed at one. */
  datatype Foreign = Foreign(gate: E.GateAnswer, agent: E.AgentAnswer, registry: P.RegistryView)

  /** A call signed by an account; contracts never sign, they only authorize the calls they make. */
  datatype Invocation = Invocation(signer: nat, txHash: string, foreign: Foreign, call: Call) {
    function Caller(): Address { Account(signer) }
  }

  /** The claimant's standing, as the registry the escrow is pointed at reports it. */
  function AskAgent(registry: R.RegistryState, escrow: E.EscrowState, foreign: E.AgentAnswer, agent: Address, id: nat): E.AgentAnswer {
    if escrow.config.Some? && escrow.config.value.registry == REGISTRY && id in escrow.transfers then
      if R.IsAuthorizedForCorridor(registry, agent, escrow.transfers[id].corridor) then E.Allowed else E.Denied
    else foreign
  }

  /** The drawing agent's standing and bond, as the registry the pool is pointed at reports them. */
  function AskRegistry(registry: R.RegistryState, pool: P.PoolContractState, foreign: P.RegistryView, agent: Address, region: Symbol)
    : P.RegistryView
  {
    if pool.config.Some? && pool.config.value.registry == REGISTRY then
      P.RegistryView(P.Answered(R.IsAuthorizedIn(registry, agent, region)), P.Answered(R.Bond(registry, agent)))
    else foreign
  }

  function InEscrow<T>(w: World, r: E.EscrowResult<T>): Option<World> {
    if r.Ok? then Some(w.(escrow := r.value.state, ledger := r.value.ledger)) else None
  }

  function InHook<T>(w: World, r: C.HookResult<T>): Option<World> {
    if r.Ok? then Some(w.(hook := r.value.state, ledger := r.value.ledger)) else None
  }

  function InRegistry<T>(w: World, r: R.RegistryResult<T>): Option<World> {
    if r.Ok? then Some(w.(registry := r.value.state, ledger := r.value.ledger)) else None
  }

  function InPool<T>(w: World, r: P.PoolResult<T>): Option<World> {
    if r.Ok? then Some(w.(pool := r.value.state, ledger := r.value.ledger)) else None
  }

  /** The world after a call to the escrow, or nothing if the call fails. */
  function CallEscrow(w: World, caller: Address, foreign: Foreign, call: EscrowCall): Option<World> {
    match call
    case InitializeEscrow(admin, registry, hook, treasury, feeBps, secs) =>
      InEscrow(w, E.Initialize(w.escrow, w.ledger, caller, admin, registry, hook, treasury, feeBps, secs))
    case ConfigureEscrow(change) => InEscrow(w, E.Configure(w.escrow, w.ledger, caller, change))
    case CreateTransfer(sender, amount, token, claimHash, corridor, expiry) =>
      (match E.CreateTransfer(w.escrow, w.hook, w.ledger, caller, foreign.gate, sender, amount, token, claimHash, corridor, expiry)
       case Ok(done) => Some(w.(escrow := done.state.escrow, hook := done.state.hook, ledger := done.ledger))
       case _ => None)
    case CancelTransfer(sender, id) => InEscrow(w, E.CancelTransfer(w.escrow, w.ledger, caller, sender, id))
    case ClaimTransfer(agent, id, code) =>
      var answer := AskAgent(w.registry, w.escrow, foreign.agent, agent, id);
      InEscrow(w, E.ClaimTransfer(w.escrow, w.ledger, caller, w.sha256, answer, agent, id, code))
    case RefundExpired(id) => InEscrow(w, E.RefundExpired(w.escrow, w.ledger, id))
  }

  function CallHook(w: World, caller: Address, call: HookCall): Option<World> {
    match call
    case InitializeHook(admin) => InHook(w, C.Initialize(w.hook, w.ledger, caller, admin))
    case ConfigureHook(change) => InHook(w, C.Configure(w.hook, w.ledger, caller, change))
    case PublishAttestation(attester, subject, tier, hash, region, provider, expiresAt) =>
      InHook(w, C.PublishAttestation(w.hook, w.ledger, caller, attester, subject, tier, hash, region, provider, expiresAt))
    case RevokeAttestation(attester, subject) => InHook(w, C.RevokeAttestation(w.hook, w.ledger, caller, attester, subject))
    case CommitTransfer(sender, amount, corridor) =>
      InHook(w, C.CommitTransfer(w.hook, w.ledger, caller, sender, amount, corridor))
  }

  function CallRegistry(w: World, caller: Address, call: RegistryCall): Option<World> {
    match call
    case InitializeRegistry(admin, token, treasury) =>
      InRegistry(w, R.Initialize(w.registry, w.ledger, caller, admin, token, treasury))
    case ConfigureRegistry(change) => InRegistry(w, R.Configure(w.registry, w.ledger, caller, change))
    case RegisterAgent(agent, region, bond) => InRegistry(w, R.RegisterAgent(w.registry, w.ledger, caller, agent, region, bond))
    case TopUpBond(agent, amount) => InRegistry(w, R.TopUpBond(w.registry, w.ledger, caller, agent, amount))
    case WithdrawBond(agent, amount) => InRegistry(w, R.WithdrawBond(w.registry, w.ledger, caller, agent, amount))
    case AuthorizeAgent(agent) => InRegistry(w, R.AuthorizeAgent(w.registry, w.ledger, caller, agent))
    case SuspendAgent(agent) => InRegistry(w, R.Demote(w.registry, w.ledger, caller, agent, R.Suspended))
    case RevokeAgent(agent) => InRegistry(w, R.Demote(w.registry, w.ledger, caller, agent, R.Revoked))
    case SlashAgent(agent, amount) => InRegistry(w, R.SlashAgent(w.registry, w.ledger, caller, agent, amount))
  }

  function CallPool(w: World, caller: Address, foreign: Foreign, call: PoolCall): Option<World> {
    match call
    case InitializePool(admin, registry, token, ratio, cap) =>
      InPool(w, P.Initialize(w.pool, w.ledger, caller, admin, registry, token, ratio, cap))
    case ConfigurePool(change) => InPool(w, P.Configure(w.pool, w.ledger, caller, change))
    case DepositLiquidity(provider, region, amount) =>
      InPool(w, P.DepositLiquidity(w.pool, w.ledger, caller, provider, region, amount))
    case WithdrawLiquidity(provider, region, shares) =>
      InPool(w, P.WithdrawLiquidity(w.pool, w.ledger, caller, provider, region, shares))
    case DrawLiquidity(agent, region, amount) =>
      var view := AskRegistry(w.registry, w.pool, foreign.registry, agent, region);
      InPool(w, P.DrawLiquidity(w.pool, w.ledger, caller, view, agent, region, amount))
    case RepayLiquidity(agent, region, amount) =>
      InPool(w, P.RepayLiquidity(w.pool, w.ledger, caller, agent, region, amount))
  }

  function Dispatch(w: World, caller: Address, foreign: Foreign, call: Call): Option<World> {
    match call
    case ToEscrow(c) => CallEscrow(w, caller, foreign, c)
    case ToHook(c) => CallHook(w, caller, c)
    case ToRegistry(c) => CallRegistry(w, caller, c)
    case ToPool(c) => CallPool(w, caller, foreign, c)
  }

  function InTransaction(w: World, txHash: string): World {
    w.(ledger := w.ledger.(txHash := txHash))
  }

  /** A transaction: the call's whole effect, or none of it. */
  function Run(w: World, i: Invocation): World {
    match Dispatch(InTransaction(w, i.txHash), i.Caller(), i.foreign, i.call)
    case Some(after) => after
    case None => w
  }

  /** Whether a transaction goes through. */
  predicate Succeeds(w: World, i: Invocation) {
    Dispatch(InTransaction(w, i.txHash), i.Caller(), i.foreign, i.call).Some?
  }

  /** What can happen: a transaction, the next ledger, an account paying out of its own pocket, an issuer minting. */
  datatype Action =
    | Invoke(invocation: Invocation)
    | CloseLedger(seconds: nat)
    | Pay(from: nat, token: Address, to: Address, amount: int)
    | Mint(token: Address, to: Address, amount: int)

  ghost function Step(w: World, a: Action): World {
    match a
    case Invoke(i) => Run(w, i)
    case CloseLedger(seconds) => w.(ledger := w.ledger.(now := w.ledger.now + seconds, sequence := w.ledger.sequence + 1))
    case Pay(from, token, to, amount) =>
      (match Moved(w.ledger.book, token, Account(from), to, amount)
       case Some(book) => w.(ledger := w.ledger.(book := book))
       case None => w)
    case Mint(token, to, amount) =>
      if amount < 0 || I128_MAX < Supply(w.ledger.book, token) + amount then w
      else w.(ledger := w.ledger.(book := w.ledger.book[Holding(token, to) := Balance(w.ledger.book, token, to) + amount]))
  }

  /** The world a sequence of actions leads to. */
  ghost function After(w: World, actions: seq<Action>): World {
    if actions == [] then w else Step(After(w, actions[..|actions| - 1]), actions[|actions| - 1])
  }

  lemma AfterOneMore(w: World, actions: seq<Action>, a: Action)
    ensures After(w, actions + [a]) == Step(After(w, actions), a)
  {
    assert (actions + [a])[..|actions|] == actions;
  }

  /** For runs that stay inside the four contracts: nothing foreign answers. */
  const SILENT := Foreign(E.Refused, E.NoAnswer, P.RegistryView(P.NoAnswer, P.NoAnswer))

  function Signed(signer: nat, call: Call): Action {
    Invoke(Invocation(signer, "", SILENT, call))
  }

  /** A world before anything is initialized: empty books, no events, blank contracts, at any time. */
  predicate Blank(w: World) {
    && w.ledger.book == map[] && w.ledger.events == []
    && w.registry == R.BLANK_REGISTRY && w.hook == C.BLANK_HOOK && w.escrow == E.BLANK_ESCROW && w.pool == P.BLANK_POOL
  }
}
