/**
 What belongs to whom: balances, shares, exposures, daily limits and attestations move only by the
 signature of the one they belong to, or of whoever attests.
 */
module Holdings {
  import opened Prelude
  import opened Chain
  import opened Network
  import opened Custody
  import opened Authority
  import RC = RegistryCalls
  import HC = HookCalls
  import EC = EscrowCalls
  import PC = PoolCalls
  import Settlement
  import C = ComplianceRules
  import E = EscrowRules
  import P = PoolRules

  /** Signed by this address, or paid out of its own pocket. */
  predicate By(a: Action, x: Address) {
    SignedBy(a, x) || (a.Pay? && Account(a.from) == x)
  }

  /** A move takes only from its payer. */
  lemma MoveTakesFromPayer(book: Book, token: Address, from: Address, to: Address, amount: int, x: Address, t: Address)
    requires Moved(book, token, from, to, amount).Some? && x != from
    ensures Balance(book, t, x) <= Balance(Moved(book, token, from, to, amount).value, t, x)
  {
    MovedBalances(book, token, from, to, amount);
  }

  lemma RegistryCallTakes(w: World, i: Invocation, x: Address, token: Address)
    requires Inv(w) && i.call.ToRegistry? && Succeeds(w, i) && x.Account? && i.Caller() != x
    ensures Balance(w.ledger.book, token, x) <= Balance(Run(w, i).ledger.book, token, x)
  {
    RC.RegistryCallsLeave(w, i);
    RegistryPaymentTakes(w, i.Caller(), i.call.registry, Run(w, i).ledger.book, x, token);
  }

  lemma RegistryPaymentTakes(w: World, caller: Address, call: RegistryCall, book: Book, x: Address, token: Address)
    requires RC.May(w.registry, w.ledger.book, caller, call) && RC.Pays(w, call, book) && x.Account? && caller != x
    ensures Balance(w.ledger.book, token, x) <= Balance(book, token, x)
  {
    match call
    case RegisterAgent(agent, _, bond) => MoveTakesFromPayer(w.ledger.book, w.registry.bondToken.value, agent, REGISTRY, bond, x, token);
    case TopUpBond(agent, amount) => MoveTakesFromPayer(w.ledger.book, w.registry.bondToken.value, agent, REGISTRY, amount, x, token);
    case WithdrawBond(agent, amount) => MoveTakesFromPayer(w.ledger.book, w.registry.bondToken.value, REGISTRY, agent, amount, x, token);
    case SlashAgent(_, amount) =>
      MoveTakesFromPayer(w.ledger.book, w.registry.bondToken.value, REGISTRY, w.registry.treasury.value, amount, x, token);
    case _ =>
  }

  lemma PoolCallTakes(w: World, i: Invocation, x: Address, token: Address)
    requires Inv(w) && i.call.ToPool? && Succeeds(w, i) && x.Account? && i.Caller() != x
    ensures Balance(w.ledger.book, token, x) <= Balance(Run(w, i).ledger.book, token, x)
  {
    PC.PoolCallsExactly(w, i);
    PC.PoolCallsLeave(w, i);
    PoolPaymentTakes(w, i.Caller(), i.foreign, i.call.pool, Run(w, i).ledger.book, x, token);
  }

  lemma PoolPaymentTakes(w: World, caller: Address, foreign: Foreign, call: PoolCall, book: Book, x: Address, token: Address)
    requires PC.May(w, caller, foreign, call) && PC.Pays(w.pool, w.ledger.book, call, book) && x.Account? && caller != x
    ensures Balance(w.ledger.book, token, x) <= Balance(book, token, x)
  {
    match call
    case DepositLiquidity(provider, _, amount) => MoveTakesFromPayer(w.ledger.book, w.pool.config.value.token, provider, POOL, amount, x, token);
    case WithdrawLiquidity(provider, _, shares) => MoveTakesFromPayer(w.ledger.book, w.pool.config.value.token, POOL, provider, shares, x, token);
    case DrawLiquidity(agent, _, amount) => MoveTakesFromPayer(w.ledger.book, w.pool.config.value.token, POOL, agent, amount, x, token);
    case RepayLiquidity(agent, _, amount) => MoveTakesFromPayer(w.ledger.book, w.pool.config.value.token, agent, POOL, amount, x, token);
    case _ =>
  }

  /** Settling pays out of the escrow and out of nobody else. */
  lemma SharesOnlyGive(before: Book, after: Book, t: E.Transfer, fee: int, treasury: Option<Address>, x: Address, token: Address)
    requires Settlement.SharesPaid(before, after, t, fee, treasury) && x != ESCROW && 0 <= fee <= t.amount
    ensures Balance(before, token, x) <= Balance(after, token, x)
  {
  }

  lemma EscrowCallTakes(w: World, i: Invocation, x: Address, token: Address)
    requires Inv(w) && i.call.ToEscrow? && Succeeds(w, i) && x.Account? && i.Caller() != x
    ensures Balance(w.ledger.book, token, x) <= Balance(Run(w, i).ledger.book, token, x)
  {
    EC.EscrowCallsExactly(w, i);
    var fee := EC.EscrowCallsLeave(w, i);
    EscrowPaymentTakes(InTransaction(w, i.txHash), i.Caller(), i.call.escrow, fee, Run(w, i), x, token);
  }

  lemma EscrowPaymentTakes(w: World, caller: Address, call: EscrowCall, fee: int, next: World, x: Address, token: Address)
    requires E.EscrowInv(w.escrow) && EC.Left(w, call, fee, next) && x.Account? && caller != x
    requires call.CreateTransfer? ==> call.sender == caller
    ensures Balance(w.ledger.book, token, x) <= Balance(next.ledger.book, token, x)
  {
    if call.CreateTransfer? {
      MoveTakesFromPayer(w.ledger.book, call.token, call.sender, ESCROW, call.amount, x, token);
    } else if Settlement.Settling(call) {
      var t := next.escrow.transfers[call.id];
      assert E.RecordSound(w.escrow.transfers[call.id]);
      if call.ClaimTransfer? {
        FeeStaysBelow(t.amount, w.escrow.config.value.feeBps, fee);
      }
      SharesOnlyGive(w.ledger.book, next.ledger.book, t, fee, Settlement.Treasury(w.escrow), x, token);
    }
  }

  lemma FeeStaysBelow(amount: int, feeBps: nat, fee: int)
    requires 0 < amount && feeBps <= 500 && EC.FeeOn(amount, feeBps, fee)
    ensures 0 <= fee <= amount
  {
    ScaleOrder(0, feeBps, amount);
    ScaleOrder(feeBps, 500, amount);
  }

  /** No step takes a token from an account that does not sign it or pay it. */
  lemma NobodyPaysForAnother(w: World, a: Action, x: Address, token: Address)
    requires Inv(w) && x.Account? && !By(a, x)
    ensures Balance(w.ledger.book, token, x) <= Balance(Step(w, a).ledger.book, token, x)
  {
    match a
    case Invoke(i) =>
      if Succeeds(w, i) {
        match i.call
        case ToEscrow(_) => EscrowCallTakes(w, i, x, token);
        case ToHook(_) => HC.HookCallsLeave(w, i);
        case ToRegistry(_) => RegistryCallTakes(w, i, x, token);
        case ToPool(_) => PoolCallTakes(w, i, x, token);
      }
    case CloseLedger(_) =>
    case Pay(from, t, to, amount) =>
      if Moved(w.ledger.book, t, Account(from), to, amount).Some? {
        MoveTakesFromPayer(w.ledger.book, t, Account(from), to, amount, x, token);
      }
    case Mint(_, _, _) =>
  }

  /** Nor does one touch its shares or its exposures. */
  lemma StakesMoveByTheirHolder(w: World, a: Action, x: Address, region: Symbol)
    requires Inv(w) && !SignedBy(a, x)
    ensures P.ShareBalance(Step(w, a).pool, x, region) == P.ShareBalance(w.pool, x, region)
    ensures P.Exposure(Step(w, a).pool, x, region) == P.Exposure(w.pool, x, region)
  {
    StepsOfPool(w, a);
    PoolStepKeepsStakes(w, a, Step(w, a).pool, x, region);
  }

  lemma PoolStepKeepsStakes(w: World, a: Action, next: P.PoolContractState, x: Address, region: Symbol)
    requires PoolStep(w, a, next) && !SignedBy(a, x)
    ensures P.ShareBalance(next, x, region) == P.ShareBalance(w.pool, x, region)
    ensures P.Exposure(next, x, region) == P.Exposure(w.pool, x, region)
  {
  }

  /** Nobody but the sender, or an account the hook takes for its escrow, uses up a sender's daily limit. */
  lemma LimitsAreUsedByTheirSender(w: World, a: Action, b: C.Bucket)
    requires Inv(w) && !SignedBy(a, b.sender) && (w.hook.escrow.Some? ==> !SignedBy(a, w.hook.escrow.value))
    ensures LookupOr(Step(w, a).hook.volumes, b, 0) == LookupOr(w.hook.volumes, b, 0)
  {
    StepsOfHook(w, a);
    HookStepKeepsBucket(w, a, Step(w, a).hook, b);
  }

  lemma HookStepKeepsBucket(w: World, a: Action, next: C.HookState, b: C.Bucket)
    requires HookStep(w, a, next) && !SignedBy(a, b.sender) && (w.hook.escrow.Some? ==> !SignedBy(a, w.hook.escrow.value))
    ensures LookupOr(next.volumes, b, 0) == LookupOr(w.hook.volumes, b, 0)
  {
  }

  /** An attestation is published, replaced or revoked only by an operator the hook knows. */
  lemma AttestationsNeedAnOperator(w: World, a: Action, subject: Address)
    requires Inv(w) && Lookup(Step(w, a).hook.attestations, subject) != Lookup(w.hook.attestations, subject)
    ensures a.Invoke? && a.invocation.Caller() in w.hook.operators && w.hook.operators[a.invocation.Caller()]
  {
    StepsOfHook(w, a);
    HookStepAttests(w, a, Step(w, a).hook, subject);
  }

  lemma HookStepAttests(w: World, a: Action, next: C.HookState, subject: Address)
    requires HookStep(w, a, next) && Lookup(next.attestations, subject) != Lookup(w.hook.attestations, subject)
    ensures a.Invoke? && a.invocation.Caller() in w.hook.operators && w.hook.operators[a.invocation.Caller()]
  {
  }

  /** What one holder has on the ledger and in the pool: nothing less, and nothing else. */
  ghost predicate Keeps(w: World, v: World, x: Address) {
    && (forall token :: Balance(w.ledger.book, token, x) <= Balance(v.ledger.book, token, x))
    && (forall region :: P.ShareBalance(v.pool, x, region) == P.ShareBalance(w.pool, x, region))
    && (forall region :: P.Exposure(v.pool, x, region) == P.Exposure(w.pool, x, region))
  }

  lemma StepKeepsHolder(w: World, a: Action, x: Address)
    requires Inv(w) && x.Account? && !By(a, x)
    ensures Keeps(w, Step(w, a), x)
  {
    forall token ensures Balance(w.ledger.book, token, x) <= Balance(Step(w, a).ledger.book, token, x) {
      NobodyPaysForAnother(w, a, x, token);
    }
    forall region
      ensures P.ShareBalance(Step(w, a).pool, x, region) == P.ShareBalance(w.pool, x, region)
      ensures P.Exposure(Step(w, a).pool, x, region) == P.Exposure(w.pool, x, region)
    {
      StakesMoveByTheirHolder(w, a, x, region);
    }
  }

  lemma KeepsOn(w: World, mid: World, v: World, x: Address)
    requires Keeps(w, mid, x) && Keeps(mid, v, x)
    ensures Keeps(w, v, x)
  {
  }

  /** Over any run, an account that signs nothing and pays nothing loses no token, no share and takes on no debt. */
  lemma {:induction false} SilentHoldersLoseNothing(w: World, actions: seq<Action>, x: Address)
    requires Inv(w) && x.Account? && forall k :: 0 <= k < |actions| ==> !By(actions[k], x)
    ensures Keeps(w, After(w, actions), x)
    decreases |actions|
  {
    if actions != [] {
      var init, last := actions[..|actions| - 1], actions[|actions| - 1];
      SilentHoldersLoseNothing(w, init, x);
      RunKeepsInv(w, init);
      StepKeepsHolder(After(w, init), last, x);
      KeepsOn(w, After(w, init), Step(After(w, init), last), x);
    }
  }
}
