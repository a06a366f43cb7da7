/**
 Every contract's invariant over every run, and custody: each contract always holds at least
 what it owes in every token, and exactly that unless somebody gave it something extra.
 */
module Custody {
  import opened Prelude
  import opened Totals
  import opened Chain
  import opened Network
  import C = ComplianceRules
  import R = RegistryRules
  import E = EscrowRules
  import P = PoolRules

  /** The contracts that hold other people's tokens. */
  predicate Custodian(x: Address) { x == REGISTRY || x == ESCROW || x == POOL }

  /** What a custodian owes in a token: pending transfers, bonds, or undrawn float. */
  ghost function Owes(w: World, x: Address, token: Address): int {
    if x == REGISTRY then R.Owed(w.registry, token)
    else if x == ESCROW then E.Owed(w.escrow, token)
    else if x == POOL then P.Owed(w.pool, token)
    else 0
  }

  /** What a custodian holds beyond what it owes. */
  ghost function Excess(w: World, x: Address, token: Address): int {
    Balance(w.ledger.book, token, x) - Owes(w, x, token)
  }

  ghost predicate Solvent(w: World) {
    forall x, token :: Custodian(x) ==> 0 <= Excess(w, x, token)
  }

  /** Only accounts sign, so only accounts send. */
  ghost predicate SendersSign(e: E.EscrowState) {
    forall id :: id in e.transfers ==> e.transfers[id].sender.Account?
  }

  ghost predicate Inv(w: World) {
    && Sound(w.ledger.book)
    && R.RegistryInv(w.registry)
    && C.HookInv(w.hook)
    && E.EscrowInv(w.escrow)
    && SendersSign(w.escrow)
    && P.PoolInv(w.pool)
    && Solvent(w)
  }

  /**
   The only ways a custodian can gain more than its own bookkeeping says: somebody pays or mints
   to it, or it is named as the treasury that fees or slashed bonds are paid to.
   */
  predicate Gift(w: World, a: Action, x: Address) {
    match a
    case Pay(_, _, to, _) => to == x
    case Mint(_, to, _) => to == x
    case CloseLedger(_) => false
    case Invoke(i) =>
      || (i.call.ToEscrow? && i.call.escrow.ClaimTransfer? && w.escrow.config.Some? && w.escrow.config.value.treasury == x)
      || (i.call.ToRegistry? && i.call.registry.SlashAgent? && w.registry.treasury == Some(x))
  }

  /** No custodian's excess shrinks, and none grows without a gift. */
  ghost predicate ExcessKept(w: World, next: World, a: Action) {
    forall x, token :: Custodian(x) ==>
      && Excess(w, x, token) <= Excess(next, x, token)
      && (!Gift(w, a, x) ==> Excess(next, x, token) == Excess(w, x, token))
  }

  /** What a token move leaves of soundness and of every balance. */
  lemma MoveShifts(ledger: LedgerState, token: Address, from: Address, to: Address, amount: int, next: LedgerState)
    requires Sound(ledger.book)
    requires Moved(ledger.book, token, from, to, amount) == Some(next.book)
    ensures Sound(next.book) && 0 <= amount
    ensures forall t, h :: Balance(next.book, t, h) == Balance(ledger.book, t, h) + (if t == token then Delta(h, from, to, amount) else 0)
  {
    MovedIsSound(ledger.book, token, from, to, amount);
    MovedBalances(ledger.book, token, from, to, amount);
  }

  /** One payment between custodian `x` and an account, matched by the change in what `x` owes. */
  lemma PaymentKeepsExcess(w: World, next: World, a: Action, x: Address, token: Address, from: Address, to: Address, amount: int)
    requires Sound(w.ledger.book) && Custodian(x)
    requires Moved(w.ledger.book, token, from, to, amount) == Some(next.ledger.book)
    requires (from == x && to.Account?) || (from.Account? && to == x)
    requires forall y, t :: Custodian(y) ==>
               Owes(next, y, t) == Owes(w, y, t) + (if y == x && t == token then Delta(x, from, to, amount) else 0)
    ensures Sound(next.ledger.book) && ExcessKept(w, next, a)
  {
    MoveShifts(w.ledger, token, from, to, amount, next.ledger);
  }

  lemma QuietKeepsExcess(w: World, next: World, a: Action)
    requires Sound(w.ledger.book) && next.ledger.book == w.ledger.book
    requires forall y, t :: Custodian(y) ==> Owes(next, y, t) == Owes(w, y, t)
    ensures Sound(next.ledger.book) && ExcessKept(w, next, a)
  {
  }

  /* ------------------------------ the escrow ------------------------------ */

  /** A payment between the escrow and an account, matched by what is pending. */
  lemma EscrowPayment(w: World, next: World, a: Action, token: Address, from: Address, to: Address, amount: int)
    requires Sound(w.ledger.book)
    requires next.registry == w.registry && next.pool == w.pool
    requires Moved(w.ledger.book, token, from, to, amount) == Some(next.ledger.book)
    requires (from == ESCROW && to.Account?) || (from.Account? && to == ESCROW)
    requires forall t :: E.Owed(next.escrow, t)
                      == E.Owed(w.escrow, t) + (if t == token then Delta(ESCROW, from, to, amount) else 0)
    ensures Sound(next.ledger.book) && ExcessKept(w, next, a)
  {
    PaymentKeepsExcess(w, next, a, ESCROW, token, from, to, amount);
  }

  /** The part of the invariant a call to the escrow relies on. */
  ghost predicate EscrowReady(w: World) {
    Sound(w.ledger.book) && E.EscrowInv(w.escrow) && SendersSign(w.escrow) && C.HookInv(w.hook)
  }

  /** What is kept by one call to the escrow. */
  ghost predicate EscrowCallKeeps(w: World, next: World, a: Action) {
    && Sound(next.ledger.book)
    && E.EscrowInv(next.escrow)
    && SendersSign(next.escrow)
    && C.HookInv(next.hook)
    && next.registry == w.registry && next.pool == w.pool
    && ExcessKept(w, next, a)
  }

  lemma CreateKeeps(w: World, caller: Address, foreign: Foreign, call: EscrowCall, a: Action)
    requires EscrowReady(w) && caller.Account? && call.CreateTransfer? && CallEscrow(w, caller, foreign, call).Some?
    ensures EscrowCallKeeps(w, CallEscrow(w, caller, foreign, call).value, a)
  {
    var next := CallEscrow(w, caller, foreign, call).value;
    E.CreateEffect(w.escrow, w.hook, w.ledger, caller, foreign.gate, call.sender, call.amount, call.token,
                   call.claimHash, call.corridor, call.expiry);
    var t := E.NewTransfer(w.escrow, w.ledger.now, call.sender, call.amount, call.token, call.claimHash, call.corridor, call.expiry);
    E.RecordCreationKeepsInv(w.escrow, t);
    if w.escrow.config.value.hook == HOOK {
      C.CommitEffect(w.hook, w.ledger, ESCROW, call.sender, call.amount, call.corridor);
    }
    EscrowPayment(w, next, a, call.token, call.sender, ESCROW, call.amount);
  }

  /** Cancelling and refunding give exactly the held amount back to its sender. */
  lemma ReturnKeeps(w: World, next: World, a: Action, id: nat, status: E.TransferStatus)
    requires EscrowReady(w) && id in w.escrow.transfers
    requires next.registry == w.registry && next.pool == w.pool && next.hook == w.hook
    requires E.Settles(w.escrow, next.escrow, E.Returned(w.escrow.transfers[id], status, w.ledger.now), 0)
    requires var t := w.escrow.transfers[id];
             Moved(w.ledger.book, t.token, ESCROW, t.sender, t.amount) == Some(next.ledger.book)
    ensures EscrowCallKeeps(w, next, a)
  {
    var t := w.escrow.transfers[id];
    E.SettlesKeepsInv(w.escrow, next.escrow, E.Returned(t, status, w.ledger.now), 0);
    EscrowPayment(w, next, a, t.token, ESCROW, t.sender, t.amount);
  }

  /** A claim's two payments are the amount between them; a fee paid to a custodian is a gift to it. */
  lemma ClaimPayments(w: World, next: World, a: Action, t: E.Transfer, agent: Address, payout: int, treasury: Address, fee: int)
    requires Sound(w.ledger.book) && agent.Account? && 0 <= fee && 0 <= payout && fee + payout == t.amount
    requires next.registry == w.registry && next.pool == w.pool
    requires E.PayClaim(w.ledger, t.token, agent, payout, treasury, fee).Ok?
    requires next.ledger.book == E.PayClaim(w.ledger, t.token, agent, payout, treasury, fee).value.book
    requires forall token :: E.Owed(next.escrow, token) == E.Owed(w.escrow, token) - (if t.token == token then t.amount else 0)
    requires forall x :: Custodian(x) && treasury == x ==> Gift(w, a, x)
    ensures Sound(next.ledger.book) && ExcessKept(w, next, a)
  {
    var paid := w.ledger.Move<E.EscrowError>(t.token, ESCROW, agent, payout).value;
    MoveShifts(w.ledger, t.token, ESCROW, agent, payout, paid);
    if fee != 0 {
      MoveShifts(paid, t.token, ESCROW, treasury, fee, next.ledger);
    }
  }

  lemma ClaimKeeps(w: World, caller: Address, foreign: Foreign, call: EscrowCall, a: Action)
    requires EscrowReady(w) && caller.Account? && call.ClaimTransfer? && CallEscrow(w, caller, foreign, call).Some?
    requires forall x :: w.escrow.config.Some? && w.escrow.config.value.treasury == x ==> Gift(w, a, x)
    ensures EscrowCallKeeps(w, CallEscrow(w, caller, foreign, call).value, a)
  {
    var next := CallEscrow(w, caller, foreign, call).value;
    var answer := AskAgent(w.registry, w.escrow, foreign.agent, call.agent, call.id);
    E.ClaimEffect(w.escrow, w.ledger, caller, w.sha256, answer, call.agent, call.id, call.code);
    var receipt := E.ClaimTransfer(w.escrow, w.ledger, caller, w.sha256, answer, call.agent, call.id, call.code).value.value;
    var t := w.escrow.transfers[call.id];
    var settled := t.(status := E.Claimed, settledAt := w.ledger.now, claimedBy := Some(call.agent));
    E.SettlesKeepsInv(w.escrow, next.escrow, settled, receipt.fee);
    ClaimPayments(w, next, a, t, call.agent, receipt.payout, w.escrow.config.value.treasury, receipt.fee);
  }

  lemma EscrowCallKeepsAll(w: World, caller: Address, foreign: Foreign, call: EscrowCall, a: Action)
    requires EscrowReady(w) && caller.Account? && CallEscrow(w, caller, foreign, call).Some?
    requires call.ClaimTransfer? ==> forall x :: w.escrow.config.Some? && w.escrow.config.value.treasury == x ==> Gift(w, a, x)
    ensures EscrowCallKeeps(w, CallEscrow(w, caller, foreign, call).value, a)
  {
    var next := CallEscrow(w, caller, foreign, call).value;
    match call
    case InitializeEscrow(admin, registry, hook, treasury, feeBps, secs) =>
      E.InitializeKeepsInv(w.escrow, w.ledger, caller, admin, registry, hook, treasury, feeBps, secs);
      QuietKeepsExcess(w, next, a);
    case ConfigureEscrow(change) =>
      E.ConfigureKeepsInv(w.escrow, w.ledger, caller, change);
      QuietKeepsExcess(w, next, a);
    case CreateTransfer(_, _, _, _, _, _) => CreateKeeps(w, caller, foreign, call, a);
    case CancelTransfer(sender, id) =>
      E.CancelEffect(w.escrow, w.ledger, caller, sender, id);
      ReturnKeeps(w, next, a, id, E.Cancelled);
    case ClaimTransfer(_, _, _) => ClaimKeeps(w, caller, foreign, call, a);
    case RefundExpired(id) =>
      E.RefundEffect(w.escrow, w.ledger, id);
      ReturnKeeps(w, next, a, id, E.Refunded);
  }

  /* ------------------------------ the registry ------------------------------ */

  ghost predicate RegistryCallKeeps(w: World, next: World, a: Action) {
    && Sound(next.ledger.book)
    && R.RegistryInv(next.registry)
    && next.escrow == w.escrow && next.hook == w.hook && next.pool == w.pool
    && ExcessKept(w, next, a)
  }

  /** A bond posted or taken back moves the registry's balance and its books together. */
  lemma RegistryPayment(w: World, next: World, a: Action, token: Address, from: Address, to: Address, amount: int)
    requires Sound(w.ledger.book)
    requires next.escrow == w.escrow && next.pool == w.pool
    requires w.registry.bondToken == next.registry.bondToken == Some(token)
    requires Moved(w.ledger.book, token, from, to, amount) == Some(next.ledger.book)
    requires (from == REGISTRY && to.Account?) || (from.Account? && to == REGISTRY)
    requires next.registry.stats.totalBonded == w.registry.stats.totalBonded + Delta(REGISTRY, from, to, amount)
    ensures Sound(next.ledger.book) && ExcessKept(w, next, a)
  {
    PaymentKeepsExcess(w, next, a, REGISTRY, token, from, to, amount);
  }

  lemma SlashPayment(w: World, next: World, a: Action, token: Address, treasury: Address, amount: int)
    requires Sound(w.ledger.book)
    requires next.escrow == w.escrow && next.pool == w.pool
    requires w.registry.bondToken == next.registry.bondToken == Some(token)
    requires Moved(w.ledger.book, token, REGISTRY, treasury, amount) == Some(next.ledger.book)
    requires next.registry.stats.totalBonded == w.registry.stats.totalBonded - amount
    requires forall x :: Custodian(x) && treasury == x ==> Gift(w, a, x)
    ensures Sound(next.ledger.book) && ExcessKept(w, next, a)
  {
    MoveShifts(w.ledger, token, REGISTRY, treasury, amount, next.ledger);
  }

  lemma RegisterKeeps(w: World, caller: Address, agent: Address, region: Symbol, bond: i128, a: Action)
    requires Sound(w.ledger.book) && R.RegistryInv(w.registry) && caller.Account?
    requires R.RegisterAgent(w.registry, w.ledger, caller, agent, region, bond).Ok?
    ensures RegistryCallKeeps(w, InRegistry(w, R.RegisterAgent(w.registry, w.ledger, caller, agent, region, bond)).value, a)
  {
    R.RegisterKeepsInv(w.registry, w.ledger, caller, agent, region, bond);
    R.RegisterEffect(w.registry, w.ledger, caller, agent, region, bond);
    var next := InRegistry(w, R.RegisterAgent(w.registry, w.ledger, caller, agent, region, bond)).value;
    RegistryPayment(w, next, a, w.registry.bondToken.value, agent, REGISTRY, bond);
  }

  lemma TopUpKeeps(w: World, caller: Address, agent: Address, amount: i128, a: Action)
    requires Sound(w.ledger.book) && R.RegistryInv(w.registry) && caller.Account?
    requires R.TopUpBond(w.registry, w.ledger, caller, agent, amount).Ok?
    ensures RegistryCallKeeps(w, InRegistry(w, R.TopUpBond(w.registry, w.ledger, caller, agent, amount)).value, a)
  {
    R.TopUpKeepsInv(w.registry, w.ledger, caller, agent, amount);
    var next := InRegistry(w, R.TopUpBond(w.registry, w.ledger, caller, agent, amount)).value;
    RegistryPayment(w, next, a, w.registry.bondToken.value, agent, REGISTRY, amount);
  }

  lemma WithdrawBondKeeps(w: World, caller: Address, agent: Address, amount: i128, a: Action)
    requires Sound(w.ledger.book) && R.RegistryInv(w.registry) && caller.Account?
    requires R.WithdrawBond(w.registry, w.ledger, caller, agent, amount).Ok?
    ensures RegistryCallKeeps(w, InRegistry(w, R.WithdrawBond(w.registry, w.ledger, caller, agent, amount)).value, a)
  {
    R.WithdrawKeepsInv(w.registry, w.ledger, caller, agent, amount);
    var next := InRegistry(w, R.WithdrawBond(w.registry, w.ledger, caller, agent, amount)).value;
    RegistryPayment(w, next, a, w.registry.bondToken.value, REGISTRY, agent, amount);
  }

  lemma SlashKeeps(w: World, caller: Address, agent: Address, amount: i128, a: Action)
    requires Sound(w.ledger.book) && R.RegistryInv(w.registry)
    requires R.SlashAgent(w.registry, w.ledger, caller, agent, amount).Ok?
    requires forall x :: w.registry.treasury == Some(x) ==> Gift(w, a, x)
    ensures RegistryCallKeeps(w, InRegistry(w, R.SlashAgent(w.registry, w.ledger, caller, agent, amount)).value, a)
  {
    R.SlashKeepsInv(w.registry, w.ledger, caller, agent, amount);
    R.SlashEffect(w.registry, w.ledger, caller, agent, amount);
    var next := InRegistry(w, R.SlashAgent(w.registry, w.ledger, caller, agent, amount)).value;
    SlashPayment(w, next, a, w.registry.bondToken.value, w.registry.treasury.value, amount);
  }

  /** Calls that move no token: setup, settings and the agent lifecycle. */
  lemma RegistryQuiet(w: World, next: World, a: Action)
    requires Sound(w.ledger.book) && R.RegistryInv(next.registry)
    requires next == w.(registry := next.registry)
    requires forall t :: R.Owed(next.registry, t) == R.Owed(w.registry, t)
    ensures RegistryCallKeeps(w, next, a)
  {
    QuietKeepsExcess(w, next, a);
  }

  lemma RegistrySetupKeeps(w: World, caller: Address, call: RegistryCall, a: Action)
    requires Sound(w.ledger.book) && R.RegistryInv(w.registry) && CallRegistry(w, caller, call).Some?
    requires call.InitializeRegistry? || call.ConfigureRegistry?
    ensures RegistryCallKeeps(w, CallRegistry(w, caller, call).value, a)
  {
    match call {
      case InitializeRegistry(admin, bondToken, treasury) =>
        R.InitializeKeepsInv(w.registry, w.ledger, caller, admin, bondToken, treasury);
      case ConfigureRegistry(change) =>
        R.ConfigureKeepsInv(w.registry, w.ledger, caller, change);
        R.ConfigureFrame(w.registry, w.ledger, caller, change);
    }
    RegistryQuiet(w, CallRegistry(w, caller, call).value, a);
  }

  lemma AuthorizeKeeps(w: World, caller: Address, agent: Address, a: Action)
    requires Sound(w.ledger.book) && R.RegistryInv(w.registry)
    requires R.AuthorizeAgent(w.registry, w.ledger, caller, agent).Ok?
    ensures RegistryCallKeeps(w, InRegistry(w, R.AuthorizeAgent(w.registry, w.ledger, caller, agent)).value, a)
  {
    R.AuthorizeKeepsInv(w.registry, w.ledger, caller, agent);
    RegistryQuiet(w, InRegistry(w, R.AuthorizeAgent(w.registry, w.ledger, caller, agent)).value, a);
  }

  lemma DemoteKeeps(w: World, caller: Address, agent: Address, to: R.AgentStatus, a: Action)
    requires Sound(w.ledger.book) && R.RegistryInv(w.registry)
    requires to == R.Suspended || to == R.Revoked
    requires R.Demote(w.registry, w.ledger, caller, agent, to).Ok?
    ensures RegistryCallKeeps(w, InRegistry(w, R.Demote(w.registry, w.ledger, caller, agent, to)).value, a)
  {
    R.DemoteKeepsInv(w.registry, w.ledger, caller, agent, to);
    RegistryQuiet(w, InRegistry(w, R.Demote(w.registry, w.ledger, caller, agent, to)).value, a);
  }

  lemma RegistryCallKeepsAll(w: World, caller: Address, call: RegistryCall, a: Action)
    requires Sound(w.ledger.book) && R.RegistryInv(w.registry) && caller.Account? && CallRegistry(w, caller, call).Some?
    requires call.SlashAgent? ==> forall x :: w.registry.treasury == Some(x) ==> Gift(w, a, x)
    ensures RegistryCallKeeps(w, CallRegistry(w, caller, call).value, a)
  {
    match call
    case RegisterAgent(agent, region, bond) => RegisterKeeps(w, caller, agent, region, bond, a);
    case TopUpBond(agent, amount) => TopUpKeeps(w, caller, agent, amount, a);
    case WithdrawBond(agent, amount) => WithdrawBondKeeps(w, caller, agent, amount, a);
    case SlashAgent(agent, amount) => SlashKeeps(w, caller, agent, amount, a);
    case InitializeRegistry(_, _, _) => RegistrySetupKeeps(w, caller, call, a);
    case ConfigureRegistry(_) => RegistrySetupKeeps(w, caller, call, a);
    case AuthorizeAgent(agent) => AuthorizeKeeps(w, caller, agent, a);
    case SuspendAgent(agent) => DemoteKeeps(w, caller, agent, R.Suspended, a);
    case RevokeAgent(agent) => DemoteKeeps(w, caller, agent, R.Revoked, a);
  }

  /* ------------------------------ the pool ------------------------------ */

  ghost predicate PoolCallKeeps(w: World, next: World, a: Action) {
    && Sound(next.ledger.book)
    && P.PoolInv(next.pool)
    && next.escrow == w.escrow && next.hook == w.hook && next.registry == w.registry
    && ExcessKept(w, next, a)
  }

  lemma PoolPayment(w: World, next: World, a: Action, from: Address, to: Address, amount: int)
    requires Sound(w.ledger.book) && w.pool.config.Some?
    requires next.escrow == w.escrow && next.registry == w.registry && next.pool.config == w.pool.config
    requires Moved(w.ledger.book, w.pool.config.value.token, from, to, amount) == Some(next.ledger.book)
    requires (from == POOL && to.Account?) || (from.Account? && to == POOL)
    requires Total(next.pool.pools, P.UndrawnFloat()) == Total(w.pool.pools, P.UndrawnFloat()) + Delta(POOL, from, to, amount)
    ensures Sound(next.ledger.book) && ExcessKept(w, next, a)
  {
    PaymentKeepsExcess(w, next, a, POOL, w.pool.config.value.token, from, to, amount);
  }

  lemma DepositKeeps(w: World, caller: Address, provider: Address, region: Symbol, amount: i128, a: Action)
    requires Sound(w.ledger.book) && P.PoolInv(w.pool) && caller.Account?
    requires P.DepositLiquidity(w.pool, w.ledger, caller, provider, region, amount).Ok?
    ensures PoolCallKeeps(w, InPool(w, P.DepositLiquidity(w.pool, w.ledger, caller, provider, region, amount)).value, a)
  {
    P.DepositKeepsInv(w.pool, w.ledger, caller, provider, region, amount);
    P.DepositEffect(w.pool, w.ledger, caller, provider, region, amount);
    PoolPayment(w, InPool(w, P.DepositLiquidity(w.pool, w.ledger, caller, provider, region, amount)).value, a, provider, POOL, amount);
  }

  lemma WithdrawKeeps(w: World, caller: Address, provider: Address, region: Symbol, shares: i128, a: Action)
    requires Sound(w.ledger.book) && P.PoolInv(w.pool) && caller.Account?
    requires P.WithdrawLiquidity(w.pool, w.ledger, caller, provider, region, shares).Ok?
    ensures PoolCallKeeps(w, InPool(w, P.WithdrawLiquidity(w.pool, w.ledger, caller, provider, region, shares)).value, a)
  {
    P.WithdrawKeepsInv(w.pool, w.ledger, caller, provider, region, shares);
    P.WithdrawEffect(w.pool, w.ledger, caller, provider, region, shares);
    PoolPayment(w, InPool(w, P.WithdrawLiquidity(w.pool, w.ledger, caller, provider, region, shares)).value, a, POOL, provider, shares);
  }

  lemma DrawKeeps(w: World, caller: Address, view: P.RegistryView, agent: Address, region: Symbol, amount: i128, a: Action)
    requires Sound(w.ledger.book) && P.PoolInv(w.pool) && caller.Account?
    requires P.DrawLiquidity(w.pool, w.ledger, caller, view, agent, region, amount).Ok?
    ensures PoolCallKeeps(w, InPool(w, P.DrawLiquidity(w.pool, w.ledger, caller, view, agent, region, amount)).value, a)
  {
    P.DrawKeepsInv(w.pool, w.ledger, caller, view, agent, region, amount);
    P.DrawEffect(w.pool, w.ledger, caller, view, agent, region, amount);
    PoolPayment(w, InPool(w, P.DrawLiquidity(w.pool, w.ledger, caller, view, agent, region, amount)).value, a, POOL, agent, amount);
  }

  lemma RepayKeeps(w: World, caller: Address, agent: Address, region: Symbol, amount: i128, a: Action)
    requires Sound(w.ledger.book) && P.PoolInv(w.pool) && caller.Account?
    requires P.RepayLiquidity(w.pool, w.ledger, caller, agent, region, amount).Ok?
    ensures PoolCallKeeps(w, InPool(w, P.RepayLiquidity(w.pool, w.ledger, caller, agent, region, amount)).value, a)
  {
    P.RepayKeepsInv(w.pool, w.ledger, caller, agent, region, amount);
    P.RepayEffect(w.pool, w.ledger, caller, agent, region, amount);
    PoolPayment(w, InPool(w, P.RepayLiquidity(w.pool, w.ledger, caller, agent, region, amount)).value, a, agent, POOL, amount);
  }

  lemma PoolQuietCallKeeps(w: World, caller: Address, foreign: Foreign, call: PoolCall, a: Action)
    requires Sound(w.ledger.book) && P.PoolInv(w.pool) && CallPool(w, caller, foreign, call).Some?
    requires call.InitializePool? || call.ConfigurePool?
    ensures PoolCallKeeps(w, CallPool(w, caller, foreign, call).value, a)
  {
    match call {
      case InitializePool(admin, registry, token, ratio, cap) =>
        P.InitializeKeepsInv(w.pool, w.ledger, caller, admin, registry, token, ratio, cap);
      case ConfigurePool(change) =>
        P.ConfigureKeepsInv(w.pool, w.ledger, caller, change);
        P.ConfigureFrame(w.pool, w.ledger, caller, change);
    }
    QuietKeepsExcess(w, CallPool(w, caller, foreign, call).value, a);
  }

  lemma PoolCallKeepsAll(w: World, caller: Address, foreign: Foreign, call: PoolCall, a: Action)
    requires Sound(w.ledger.book) && P.PoolInv(w.pool) && caller.Account? && CallPool(w, caller, foreign, call).Some?
    ensures PoolCallKeeps(w, CallPool(w, caller, foreign, call).value, a)
  {
    match call
    case DepositLiquidity(provider, region, amount) => DepositKeeps(w, caller, provider, region, amount, a);
    case WithdrawLiquidity(provider, region, shares) => WithdrawKeeps(w, caller, provider, region, shares, a);
    case DrawLiquidity(agent, region, amount) =>
      DrawKeeps(w, caller, AskRegistry(w.registry, w.pool, foreign.registry, agent, region), agent, region, amount, a);
    case RepayLiquidity(agent, region, amount) => RepayKeeps(w, caller, agent, region, amount, a);
    case _ => PoolQuietCallKeeps(w, caller, foreign, call, a);
  }

  /* ------------------------------ every run ------------------------------ */

  /** The part of a call that the escrow, hook, registry and pool each keep, put together. */
  lemma DispatchKeeps(w: World, i: Invocation, a: Action)
    requires Inv(w) && Dispatch(w, i.Caller(), i.foreign, i.call).Some?
    requires a == Invoke(i)
    ensures var next := Dispatch(w, i.Caller(), i.foreign, i.call).value;
            Inv(next) && ExcessKept(w, next, a)
  {
    var next := Dispatch(w, i.Caller(), i.foreign, i.call).value;
    match i.call {
      case ToEscrow(call) => EscrowCallKeepsAll(w, i.Caller(), i.foreign, call, a);
      case ToRegistry(call) => RegistryCallKeepsAll(w, i.Caller(), call, a);
      case ToPool(call) => PoolCallKeepsAll(w, i.Caller(), i.foreign, call, a);
      case ToHook(call) =>
        HookCallKeeps(w, i.Caller(), call);
        QuietKeepsExcess(w, next, a);
    }
    KeptExcessKeepsSolvency(w, next, a);
  }

  lemma HookCallKeeps(w: World, caller: Address, call: HookCall)
    requires C.HookInv(w.hook) && CallHook(w, caller, call).Some?
    ensures var next := CallHook(w, caller, call).value;
            C.HookInv(next.hook) && next == w.(hook := next.hook)
  {
    match call
    case ConfigureHook(change) => C.ConfigureKeepsInv(w.hook, w.ledger, caller, change);
    case CommitTransfer(sender, amount, corridor) => C.CommitEffect(w.hook, w.ledger, caller, sender, amount, corridor);
    case _ =>
  }

  /** Solvency follows from kept excess. */
  lemma KeptExcessKeepsSolvency(w: World, next: World, a: Action)
    requires Solvent(w) && ExcessKept(w, next, a)
    ensures Solvent(next)
  {
    forall x, token | Custodian(x) ensures 0 <= Excess(next, x, token) {
      assert Excess(w, x, token) <= Excess(next, x, token);
    }
  }

  /** When only balances change, what is owed does not. */
  lemma BalancesOnly(w: World, next: World, a: Action)
    requires Sound(w.ledger.book) && next == w.(ledger := next.ledger)
    requires forall x, token :: Custodian(x) ==>
               && Balance(w.ledger.book, token, x) <= Balance(next.ledger.book, token, x)
               && (!Gift(w, a, x) ==> Balance(next.ledger.book, token, x) == Balance(w.ledger.book, token, x))
    ensures ExcessKept(w, next, a)
  {
    assert forall x, token :: Owes(next, x, token) == Owes(w, x, token);
  }

  lemma OutsidePaymentKeeps(w: World, from: nat, token: Address, to: Address, amount: int)
    requires Sound(w.ledger.book) && Moved(w.ledger.book, token, Account(from), to, amount).Some?
    ensures var a := Pay(from, token, to, amount);
            Sound(Step(w, a).ledger.book) && ExcessKept(w, Step(w, a), a)
  {
    var a := Pay(from, token, to, amount);
    MoveShifts(w.ledger, token, Account(from), to, amount, Step(w, a).ledger);
    BalancesOnly(w, Step(w, a), a);
  }

  lemma MintKeeps(w: World, token: Address, to: Address, amount: int)
    requires Sound(w.ledger.book) && 0 <= amount && Supply(w.ledger.book, token) + amount <= I128_MAX
    ensures var a := Mint(token, to, amount);
            Sound(Step(w, a).ledger.book) && ExcessKept(w, Step(w, a), a)
  {
    var a := Mint(token, to, amount);
    var h, total := Holding(token, to), Balance(w.ledger.book, token, to) + amount;
    var book := w.ledger.book[h := total];
    BalanceWithinSupply(w.ledger.book, token, to);
    forall t ensures Supply(book, t) <= I128_MAX {
      SupplyAfter(w.ledger.book, h, total, t);
    }
    assert Step(w, a) == w.(ledger := w.ledger.(book := book));
    BalancesOnly(w, Step(w, a), a);
  }

  lemma TransactionKeeps(w: World, i: Invocation)
    requires Inv(w)
    ensures Inv(Run(w, i)) && ExcessKept(w, Run(w, i), Invoke(i))
  {
    if Succeeds(w, i) {
      var started := InTransaction(w, i.txHash);
      StartKeepsInv(w, i.txHash);
      DispatchKeeps(started, i, Invoke(i));
      ExcessKeptFromStart(w, started, Run(w, i), Invoke(i));
    }
  }

  lemma ExcessKeptFromStart(w: World, started: World, next: World, a: Action)
    requires ExcessKept(started, next, a) && started == w.(ledger := started.ledger)
    requires forall x, token :: Excess(started, x, token) == Excess(w, x, token)
    ensures ExcessKept(w, next, a)
  {
    assert forall x :: Gift(started, a, x) == Gift(w, a, x);
  }

  lemma StartKeepsInv(w: World, txHash: string)
    requires Inv(w)
    ensures Inv(InTransaction(w, txHash))
    ensures forall x, token :: Excess(InTransaction(w, txHash), x, token) == Excess(w, x, token)
  {
    assert forall x, token :: Excess(InTransaction(w, txHash), x, token) == Excess(w, x, token);
  }

  /** Every step keeps the invariant; no step lets a custodian's excess shrink. */
  lemma StepKeeps(w: World, a: Action)
    requires Inv(w)
    ensures Inv(Step(w, a)) && ExcessKept(w, Step(w, a), a)
  {
    match a
    case Invoke(i) => TransactionKeeps(w, i);
    case CloseLedger(_) =>
      BalancesOnly(w, Step(w, a), a);
      KeptExcessKeepsSolvency(w, Step(w, a), a);
    case Pay(from, token, to, amount) =>
      if Moved(w.ledger.book, token, Account(from), to, amount).Some? {
        OutsidePaymentKeeps(w, from, token, to, amount);
        KeptExcessKeepsSolvency(w, Step(w, a), a);
      }
    case Mint(token, to, amount) =>
      if 0 <= amount && Supply(w.ledger.book, token) + amount <= I128_MAX {
        MintKeeps(w, token, to, amount);
        KeptExcessKeepsSolvency(w, Step(w, a), a);
      }
  }

  /** A starting point for runs: sound, and every custodian holding exactly what it owes. */
  ghost predicate Balanced(w: World) {
    Inv(w) && forall x, token :: Custodian(x) ==> Excess(w, x, token) == 0
  }

  lemma BlankIsBalanced(w: World)
    requires Blank(w)
    ensures Balanced(w)
  {
    BlankEscrowIsSound();
    BlankContractsAreSound();
    BlankHasNoExcessAnywhere(w);
    BlankBookIsSound(w);
  }

  lemma BlankBookIsSound(w: World)
    requires Blank(w)
    ensures Sound(w.ledger.book) && SendersSign(w.escrow)
  {
    assert forall token :: Supply(w.ledger.book, token) == 0;
  }

  lemma BlankHasNoExcessAnywhere(w: World)
    requires Blank(w)
    ensures Solvent(w) && forall x, token :: Custodian(x) ==> Excess(w, x, token) == 0
  {
    forall x, token ensures Excess(w, x, token) == 0 {
      BlankHasNoExcess(w, x, token);
    }
  }

  lemma BlankEscrowIsSound()
    ensures E.EscrowInv(E.BLANK_ESCROW)
  {
    BlankCountersAreSound();
    forall sender ensures E.ListSound(E.BLANK_ESCROW, sender, LookupOr(E.BLANK_ESCROW.senderTransfers, sender, [])) {
    }
    assert E.RecordsSound(E.BLANK_ESCROW);
  }

  lemma BlankCountersAreSound()
    ensures E.CountersSound(E.BLANK_ESCROW)
  {
    assert E.Count(E.BLANK_ESCROW, E.Claimed) == E.Count(E.BLANK_ESCROW, E.Refunded) == E.Count(E.BLANK_ESCROW, E.Cancelled) == 0;
    assert Total(E.BLANK_ESCROW.transfers, E.PendingAmount()) == Total(E.BLANK_ESCROW.transfers, E.ClaimedAmount()) == 0;
  }

  lemma BlankContractsAreSound()
    ensures R.RegistryInv(R.BLANK_REGISTRY) && C.HookInv(C.BLANK_HOOK) && P.PoolInv(P.BLANK_POOL)
  {
    assert R.CountersSound(R.BLANK_REGISTRY);
  }

  lemma BlankHasNoExcess(w: World, x: Address, token: Address)
    requires Blank(w)
    ensures Excess(w, x, token) == 0
  {
    assert E.Owed(E.BLANK_ESCROW, token) == 0;
  }

  /** Every run keeps every invariant: custody, counters, indexes, caps, totals. */
  lemma {:induction false} RunKeepsInv(w: World, actions: seq<Action>)
    requires Inv(w)
    ensures Inv(After(w, actions))
    decreases |actions|
  {
    if actions != [] {
      RunKeepsInv(w, actions[..|actions| - 1]);
      StepKeeps(After(w, actions[..|actions| - 1]), actions[|actions| - 1]);
    }
  }

  /** From a blank world nothing else need be assumed. */
  lemma BlankRunsAreSound(w: World, actions: seq<Action>)
    requires Blank(w)
    ensures Inv(After(w, actions))
  {
    BlankIsBalanced(w);
    RunKeepsInv(w, actions);
  }

  /** No gift to `x` anywhere along a run. */
  ghost predicate Ungifted(w: World, actions: seq<Action>, x: Address)
    decreases |actions|
  {
    actions == []
    || (Ungifted(w, actions[..|actions| - 1], x) && !Gift(After(w, actions[..|actions| - 1]), actions[|actions| - 1], x))
  }

  /** The surplus of a custodian along a run: never falling, and level where there are no gifts. */
  lemma {:induction false} ExcessAlongRun(w: World, actions: seq<Action>, x: Address, token: Address)
    requires Inv(w) && Custodian(x)
    ensures Excess(w, x, token) <= Excess(After(w, actions), x, token)
    ensures Ungifted(w, actions, x) ==> Excess(After(w, actions), x, token) == Excess(w, x, token)
    decreases |actions|
  {
    if actions != [] {
      var init, last := actions[..|actions| - 1], actions[|actions| - 1];
      ExcessAlongRun(w, init, x, token);
      RunKeepsInv(w, init);
      var before := After(w, init);
      StepKeeps(before, last);
      assert After(w, actions) == Step(before, last);
      assert ExcessKept(before, Step(before, last), last);
      assert Excess(before, x, token) <= Excess(Step(before, last), x, token);
    }
  }

  /**
   Custody over whole runs: in every token each custodian holds at least what it owes, and
   without gifts it holds exactly what it owes.
   */
  lemma CustodyOverRuns(start: World, actions: seq<Action>, x: Address, token: Address)
    requires Balanced(start) && Custodian(x)
    ensures var w := After(start, actions);
            && Owes(w, x, token) <= Balance(w.ledger.book, token, x)
            && (Ungifted(start, actions, x) ==> Balance(w.ledger.book, token, x) == Owes(w, x, token))
  {
    ExcessAlongRun(start, actions, x, token);
    assert Excess(start, x, token) == 0;
  }
}
