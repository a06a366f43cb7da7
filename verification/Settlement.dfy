/**
 The life of a transfer over whole runs: it settles at most once, for exactly its amount, and
 its money can always be got out.
 */
module Settlement {
  import opened Prelude
  import opened Totals
  import opened Chain
  import opened Network
  import opened Custody
  import opened Standing
  import E = EscrowRules
  import C = ComplianceRules
  import P = PoolRules

  predicate Pending(w: World, id: nat) {
    id in w.escrow.transfers && w.escrow.transfers[id].status == E.Pending
  }

  /** Every record of one world lives on in the next, changed at most from pending to settled. */
  ghost predicate Evolved(before: E.EscrowState, after: E.EscrowState) {
    forall id :: id in before.transfers ==>
      id in after.transfers && E.Evolves(before.transfers[id], after.transfers[id])
  }

  /** At most one pending transfer is settled by a step, and then nothing else about the records changes. */
  ghost predicate SettlesOnly(before: E.EscrowState, after: E.EscrowState, id: nat) {
    && id in before.transfers && id in after.transfers
    && after.transfers == before.transfers[id := after.transfers[id]]
  }

  predicate Settling(call: EscrowCall) { call.CancelTransfer? || call.RefundExpired? || call.ClaimTransfer? }

  /** Setting up and configuring touch no record and no token. */
  lemma SetupIsQuiet(w: World, caller: Address, foreign: Foreign, call: EscrowCall)
    requires CallEscrow(w, caller, foreign, call).Some?
    requires call.InitializeEscrow? || call.ConfigureEscrow?
    ensures var next := CallEscrow(w, caller, foreign, call).value;
            && next.escrow.transfers == w.escrow.transfers
            && next == w.(escrow := next.escrow)
  {
    match call
    case InitializeEscrow(admin, registry, hook, treasury, feeBps, secs) =>
      E.InitializeIsQuiet(w.escrow, w.ledger, caller, admin, registry, hook, treasury, feeBps, secs);
    case ConfigureEscrow(change) => E.ConfigureIsQuiet(w.escrow, w.ledger, caller, change);
  }

  /** Calls that settle nothing leave every existing record as it is. */
  lemma OpeningCallKeepsRecords(w: World, caller: Address, foreign: Foreign, call: EscrowCall)
    requires E.EscrowInv(w.escrow) && CallEscrow(w, caller, foreign, call).Some? && !Settling(call)
    ensures var next := CallEscrow(w, caller, foreign, call).value;
            && (forall id :: id in w.escrow.transfers ==>
                  id in next.escrow.transfers && next.escrow.transfers[id] == w.escrow.transfers[id])
            && next.ledger.now == w.ledger.now
  {
    match call
    case InitializeEscrow(admin, registry, hook, treasury, feeBps, secs) =>
      E.InitializeKeepsInv(w.escrow, w.ledger, caller, admin, registry, hook, treasury, feeBps, secs);
    case ConfigureEscrow(change) => E.ConfigureKeepsInv(w.escrow, w.ledger, caller, change);
    case CreateTransfer(sender, amount, token, claimHash, corridor, expiry) =>
      E.CreateEffect(w.escrow, w.hook, w.ledger, caller, foreign.gate, sender, amount, token, claimHash, corridor, expiry);
  }

  /** A settling call settles the one pending transfer it names, and leaves the clock alone. */
  lemma SettlingCallSettles(w: World, caller: Address, foreign: Foreign, call: EscrowCall) returns (fee: int)
    requires E.EscrowInv(w.escrow) && CallEscrow(w, caller, foreign, call).Some? && Settling(call)
    ensures var next := CallEscrow(w, caller, foreign, call).value;
            && call.id in w.escrow.transfers && call.id in next.escrow.transfers
            && next.escrow.transfers[call.id].id == call.id
            && E.Settles(w.escrow, next.escrow, next.escrow.transfers[call.id], fee)
            && (call.ClaimTransfer? <==> next.escrow.transfers[call.id].status == E.Claimed)
            && next.ledger.now == w.ledger.now
  {
    match call
    case CancelTransfer(sender, id) =>
      E.CancelEffect(w.escrow, w.ledger, caller, sender, id);
      fee := 0;
    case ClaimTransfer(agent, id, code) =>
      var answer := AskAgent(w.registry, w.escrow, foreign.agent, agent, id);
      E.ClaimEffect(w.escrow, w.ledger, caller, w.sha256, answer, agent, id, code);
      fee := E.ClaimTransfer(w.escrow, w.ledger, caller, w.sha256, answer, agent, id, code).value.value.fee;
    case RefundExpired(id) =>
      E.RefundEffect(w.escrow, w.ledger, id);
      fee := 0;
  }

  lemma EscrowCallEvolves(w: World, caller: Address, foreign: Foreign, call: EscrowCall)
    requires E.EscrowInv(w.escrow) && CallEscrow(w, caller, foreign, call).Some?
    ensures var next := CallEscrow(w, caller, foreign, call).value;
            && Evolved(w.escrow, next.escrow)
            && next.ledger.now == w.ledger.now
            && (forall id :: Pending(w, id) && !Pending(next, id) ==>
                  Settling(call) && call.id == id && SettlesOnly(w.escrow, next.escrow, id))
  {
    if Settling(call) {
      var fee := SettlingCallSettles(w, caller, foreign, call);
    } else {
      OpeningCallKeepsRecords(w, caller, foreign, call);
    }
  }

  /** Calls to the other contracts leave the escrow's records alone. */
  lemma DispatchEvolves(w: World, i: Invocation)
    requires E.EscrowInv(w.escrow) && Dispatch(w, i.Caller(), i.foreign, i.call).Some?
    ensures var next := Dispatch(w, i.Caller(), i.foreign, i.call).value;
            && Evolved(w.escrow, next.escrow)
            && next.ledger.now == w.ledger.now
            && (!i.call.ToEscrow? ==> next.escrow == w.escrow)
            && (forall id :: Pending(w, id) && !Pending(next, id) ==> SettlesOnly(w.escrow, next.escrow, id))
  {
    match i.call
    case ToEscrow(call) => EscrowCallEvolves(w, i.Caller(), i.foreign, call);
    case ToHook(call) => HookKeepsRecords(w, i.Caller(), call);
    case ToRegistry(call) => RegistryKeepsClock(w, i.Caller(), call);
    case ToPool(call) => PoolKeepsClock(w, i.Caller(), i.foreign, call);
  }

  lemma StepEvolves(w: World, a: Action)
    requires E.EscrowInv(w.escrow)
    ensures Evolved(w.escrow, Step(w, a).escrow)
    ensures w.ledger.now <= Step(w, a).ledger.now
    ensures Step(w, a).escrow != w.escrow ==> a.Invoke? && a.invocation.call.ToEscrow?
    ensures forall id :: Pending(w, id) && !Pending(Step(w, a), id) ==> SettlesOnly(w.escrow, Step(w, a).escrow, id)
  {
    match a
    case Invoke(i) =>
      if Succeeds(w, i) {
        DispatchEvolves(InTransaction(w, i.txHash), i);
      }
    case _ =>
  }

  lemma HookKeepsRecords(w: World, caller: Address, call: HookCall)
    requires CallHook(w, caller, call).Some?
    ensures CallHook(w, caller, call).value == w.(hook := CallHook(w, caller, call).value.hook)
  {
  }

  lemma RegistryKeepsClock(w: World, caller: Address, call: RegistryCall)
    requires CallRegistry(w, caller, call).Some?
    ensures CallRegistry(w, caller, call).value.escrow == w.escrow
    ensures CallRegistry(w, caller, call).value.ledger == w.ledger.(book := CallRegistry(w, caller, call).value.ledger.book)
  {
  }

  lemma PoolKeepsClock(w: World, caller: Address, foreign: Foreign, call: PoolCall)
    requires CallPool(w, caller, foreign, call).Some?
    ensures CallPool(w, caller, foreign, call).value.escrow == w.escrow
    ensures CallPool(w, caller, foreign, call).value.ledger == w.ledger.(book := CallPool(w, caller, foreign, call).value.ledger.book)
  {
    match call
    case DepositLiquidity(provider, region, amount) => DepositKeepsClock(w.pool, w.ledger, caller, provider, region, amount);
    case WithdrawLiquidity(provider, region, shares) => RedemptionKeepsClock(w.pool, w.ledger, caller, provider, region, shares);
    case DrawLiquidity(agent, region, amount) =>
      P.DrawSteps(w.pool, w.ledger, caller, AskRegistry(w.registry, w.pool, foreign.registry, agent, region), agent, region, amount);
    case RepayLiquidity(agent, region, amount) => RepaymentKeepsClock(w.pool, w.ledger, caller, agent, region, amount);
    case _ =>
  }

  lemma RepaymentKeepsClock(p: P.PoolContractState, ledger: LedgerState, caller: Address, agent: Address, region: Symbol, amount: i128)
    requires P.RepayLiquidity(p, ledger, caller, agent, region, amount).Ok?
    ensures var next := P.RepayLiquidity(p, ledger, caller, agent, region, amount).value.ledger;
            next == ledger.(book := next.book)
  {
  }

  lemma DepositKeepsClock(p: P.PoolContractState, ledger: LedgerState, caller: Address, provider: Address, region: Symbol, amount: i128)
    requires P.DepositLiquidity(p, ledger, caller, provider, region, amount).Ok?
    ensures var next := P.DepositLiquidity(p, ledger, caller, provider, region, amount).value.ledger;
            next == ledger.(book := next.book)
  {
  }

  lemma RedemptionKeepsClock(p: P.PoolContractState, ledger: LedgerState, caller: Address, provider: Address, region: Symbol, shares: i128)
    requires P.WithdrawLiquidity(p, ledger, caller, provider, region, shares).Ok?
    ensures var next := P.WithdrawLiquidity(p, ledger, caller, provider, region, shares).value.ledger;
            next == ledger.(book := next.book)
  {
  }

  /**
   Settle once, over every run: what identifies a transfer never changes, and once it has left
   Pending its record is final.
   */
  lemma {:induction false} TransfersSettleOnce(w: World, actions: seq<Action>)
    requires Inv(w)
    ensures Evolved(w.escrow, After(w, actions).escrow)
    ensures w.ledger.now <= After(w, actions).ledger.now
    decreases |actions|
  {
    if actions != [] {
      var init := actions[..|actions| - 1];
      TransfersSettleOnce(w, init);
      RunKeepsInv(w, init);
      OneMoreStepEvolves(w, After(w, init), actions[|actions| - 1]);
    }
  }

  lemma OneMoreStepEvolves(w: World, before: World, a: Action)
    requires E.EscrowInv(before.escrow) && Evolved(w.escrow, before.escrow) && w.ledger.now <= before.ledger.now
    ensures Evolved(w.escrow, Step(before, a).escrow) && w.ledger.now <= Step(before, a).ledger.now
  {
    StepEvolves(before, a);
  }

  /* ------------------------------ exact payment ------------------------------ */

  /** The call an action makes to settle transfer `id`, if it makes one. */
  predicate SettlesById(a: Action, id: nat) {
    a.Invoke? && a.invocation.call.ToEscrow? && Settling(a.invocation.call.escrow) && a.invocation.call.escrow.id == id
  }

  /** What leaves the escrow, in the transfer's own token, in a step that cancels, claims or refunds it by id; failed ones move nothing. */
  ghost function PaidInStep(w: World, a: Action, id: nat): int {
    if SettlesById(a, id) && id in w.escrow.transfers then
      var token := w.escrow.transfers[id].token;
      Balance(w.ledger.book, token, ESCROW) - Balance(Step(w, a).ledger.book, token, ESCROW)
    else 0
  }

  ghost function PaidOut(w: World, actions: seq<Action>, id: nat): int
    decreases |actions|
  {
    if actions == [] then 0
    else
      var init := actions[..|actions| - 1];
      PaidOut(w, init, id) + PaidInStep(After(w, init), actions[|actions| - 1], id)
  }

  /** Fees always go to somebody other than the escrow itself. */
  ghost predicate FeesLeave(w: World, actions: seq<Action>)
    decreases |actions|
  {
    actions == []
    || (var init := actions[..|actions| - 1];
        && FeesLeave(w, init)
        && var config := After(w, init).escrow.config;
        && (config.Some? ==> config.value.treasury != ESCROW))
  }

  /** Settling one transfer takes exactly its amount off what the escrow owes in its token. */
  lemma SettlingReducesOwed(before: E.EscrowState, after: E.EscrowState, id: nat)
    requires SettlesOnly(before, after, id)
    requires before.transfers[id].IsPending() && !after.transfers[id].IsPending()
    ensures var t := before.transfers[id];
            E.Owed(after, t.token) == E.Owed(before, t.token) - t.amount
  {
    E.PutTransfer(before, id, after.transfers[id]);
  }

  /** A settling call goes through only for a pending transfer, which it settles. */
  lemma SettlesOnlyPending(w: World, a: Action, id: nat)
    requires E.EscrowInv(w.escrow) && SettlesById(a, id)
    ensures if Succeeds(w, a.invocation) then Pending(w, id) && !Pending(Step(w, a), id) else Step(w, a) == w
  {
    if Succeeds(w, a.invocation) {
      var i := a.invocation;
      var fee := SettlingCallSettles(InTransaction(w, i.txHash), i.Caller(), i.foreign, i.call.escrow);
    }
  }

  lemma PaymentMatchesRecords(w: World, next: World, a: Action, id: nat)
    requires Pending(w, id) && !Pending(next, id) && SettlesOnly(w.escrow, next.escrow, id)
    requires ExcessKept(w, next, a) && a.Invoke? && a.invocation.call.ToEscrow?
    requires w.escrow.config.Some? ==> w.escrow.config.value.treasury != ESCROW
    ensures var token := w.escrow.transfers[id].token;
            Balance(w.ledger.book, token, ESCROW) - Balance(next.ledger.book, token, ESCROW) == w.escrow.transfers[id].amount
  {
    SettlingReducesOwed(w.escrow, next.escrow, id);
    var token := w.escrow.transfers[id].token;
    assert Excess(next, ESCROW, token) == Excess(w, ESCROW, token);
  }

  /** A step pays for a transfer exactly when it settles it, and then exactly its amount. */
  lemma StepPaysWhenSettling(w: World, a: Action, id: nat)
    requires Inv(w) && id in w.escrow.transfers
    requires w.escrow.config.Some? ==> w.escrow.config.value.treasury != ESCROW
    ensures PaidInStep(w, a, id) == if Pending(w, id) && !Pending(Step(w, a), id) then w.escrow.transfers[id].amount else 0
  {
    if SettlesById(a, id) {
      SettlesOnlyPending(w, a, id);
      if Succeeds(w, a.invocation) {
        SettlingStepPays(w, a, id);
      }
    } else {
      OthersSettleNothing(w, a, id);
    }
  }

  lemma SettlingStepPays(w: World, a: Action, id: nat)
    requires Inv(w) && SettlesById(a, id) && Pending(w, id) && !Pending(Step(w, a), id)
    requires w.escrow.config.Some? ==> w.escrow.config.value.treasury != ESCROW
    ensures PaidInStep(w, a, id) == w.escrow.transfers[id].amount
  {
    StepKeeps(w, a);
    StepEvolves(w, a);
    PaymentMatchesRecords(w, Step(w, a), a, id);
  }

  /** No other action settles it. */
  lemma OthersSettleNothing(w: World, a: Action, id: nat)
    requires E.EscrowInv(w.escrow) && !SettlesById(a, id)
    ensures Pending(w, id) ==> Pending(Step(w, a), id)
  {
    if Pending(w, id) && a.Invoke? && Succeeds(w, a.invocation) {
      var i, started := a.invocation, InTransaction(w, a.invocation.txHash);
      DispatchEvolves(started, i);
      if i.call.ToEscrow? {
        EscrowCallEvolves(started, i.Caller(), i.foreign, i.call.escrow);
      }
    }
  }

  /** What should have been paid out for a transfer by the time a world is reached: its amount once it is no longer pending. */
  ghost function Due(w: World, after: World, id: nat): int
    requires id in w.escrow.transfers
  {
    if Pending(after, id) then 0 else w.escrow.transfers[id].amount
  }

  /**
   Over a whole run the steps that name a transfer pay out exactly its amount once it has settled,
   and nothing before or after: a second cancellation, claim or refund moves nothing.
   */
  lemma {:induction false} PaidExactlyOnce(w: World, actions: seq<Action>, id: nat)
    requires Inv(w) && Pending(w, id) && FeesLeave(w, actions)
    ensures PaidOut(w, actions, id) == Due(w, After(w, actions), id)
    decreases |actions|
  {
    if actions != [] {
      var init, last := actions[..|actions| - 1], actions[|actions| - 1];
      PaidExactlyOnce(w, init, id);
      PaymentAfter(w, init, last, id);
    }
  }

  lemma PaymentAfter(w: World, actions: seq<Action>, a: Action, id: nat)
    requires Inv(w) && Pending(w, id)
    requires var config := After(w, actions).escrow.config; config.Some? ==> config.value.treasury != ESCROW
    ensures var before := After(w, actions);
            Due(w, before, id) + PaidInStep(before, a, id) == Due(w, Step(before, a), id)
  {
    RunKeepsInv(w, actions);
    TransfersSettleOnce(w, actions);
    OneMorePayment(w, After(w, actions), a, id);
  }

  lemma OneMorePayment(w: World, before: World, a: Action, id: nat)
    requires Inv(before) && Pending(w, id) && Evolved(w.escrow, before.escrow)
    requires before.escrow.config.Some? ==> before.escrow.config.value.treasury != ESCROW
    ensures Due(w, before, id) + PaidInStep(before, a, id) == Due(w, Step(before, a), id)
  {
    assert E.Evolves(w.escrow.transfers[id], before.escrow.transfers[id]);
    StepPaysWhenSettling(before, a, id);
    StepEvolves(before, a);
    assert E.Evolves(before.escrow.transfers[id], Step(before, a).escrow.transfers[id]);
  }

  /* ------------------------------ who is paid ------------------------------ */

  /** What a settled transfer brings a holder: the sender its amount back, or the claimant the amount less the fee and the treasury the fee. */
  function Share(t: E.Transfer, fee: int, treasury: Option<Address>, holder: Address): int {
    (if t.status == E.Claimed
     then (if t.claimedBy == Some(holder) then t.amount - fee else 0) + (if treasury == Some(holder) then fee else 0)
     else if holder == t.sender then t.amount else 0)
    - (if holder == ESCROW then t.amount else 0)
  }

  function Treasury(e: E.EscrowState): Option<Address> {
    match e.config
    case Some(config) => Some(config.treasury)
    case None => None
  }

  /** Every balance in every token moves by exactly its share, and by nothing else. */
  ghost predicate SharesPaid(before: Book, after: Book, t: E.Transfer, fee: int, treasury: Option<Address>) {
    forall token, holder :: Balance(after, token, holder)
      == Balance(before, token, holder) + (if token == t.token then Share(t, fee, treasury, holder) else 0)
  }

  lemma ReturnSharesPaid(before: Book, after: Book, t: E.Transfer, fee: int, treasury: Option<Address>)
    requires t.status != E.Claimed && Moved(before, t.token, ESCROW, t.sender, t.amount) == Some(after)
    ensures SharesPaid(before, after, t, fee, treasury)
  {
    MovedBalances(before, t.token, ESCROW, t.sender, t.amount);
  }

  lemma ClaimSharesPaid(ledger: LedgerState, t: E.Transfer, payout: int, treasury: Address, fee: int)
    requires t.status == E.Claimed && t.claimedBy.Some? && 0 <= fee && fee + payout == t.amount
    requires E.PayClaim(ledger, t.token, t.claimedBy.value, payout, treasury, fee).Ok?
    ensures SharesPaid(ledger.book, E.PayClaim(ledger, t.token, t.claimedBy.value, payout, treasury, fee).value.book, t, fee, Some(treasury))
  {
    MovedBalances(ledger.book, t.token, ESCROW, t.claimedBy.value, payout);
    var paid := Moved(ledger.book, t.token, ESCROW, t.claimedBy.value, payout).value;
    if 0 < fee {
      MovedBalances(paid, t.token, ESCROW, treasury, fee);
    }
  }

  /** Paying out announces nothing of its own. */
  lemma PaysAnnouncesNothing(ledger: LedgerState, token: Address, agent: Address, payout: int, treasury: Address, fee: int)
    requires E.PayClaim(ledger, token, agent, payout, treasury, fee).Ok?
    ensures E.PayClaim(ledger, token, agent, payout, treasury, fee).value
         == ledger.(book := E.PayClaim(ledger, token, agent, payout, treasury, fee).value.book)
  {
  }

  lemma CallPaysShares(w: World, caller: Address, foreign: Foreign, call: EscrowCall)
    requires E.EscrowInv(w.escrow) && CallEscrow(w, caller, foreign, call).Some? && Settling(call)
    ensures var next := CallEscrow(w, caller, foreign, call).value;
            && call.id in next.escrow.transfers
            && SharesPaid(w.ledger.book, next.ledger.book, next.escrow.transfers[call.id],
                          next.escrow.stats.feesCollected - w.escrow.stats.feesCollected, Treasury(w.escrow))
  {
    var next := CallEscrow(w, caller, foreign, call).value;
    match call
    case CancelTransfer(sender, id) =>
      E.CancelEffect(w.escrow, w.ledger, caller, sender, id);
      ReturnSharesPaid(w.ledger.book, next.ledger.book, next.escrow.transfers[id], 0, Treasury(w.escrow));
    case RefundExpired(id) =>
      E.RefundEffect(w.escrow, w.ledger, id);
      ReturnSharesPaid(w.ledger.book, next.ledger.book, next.escrow.transfers[id], 0, Treasury(w.escrow));
    case ClaimTransfer(agent, id, code) =>
      var answer := AskAgent(w.registry, w.escrow, foreign.agent, agent, id);
      E.ClaimEffect(w.escrow, w.ledger, caller, w.sha256, answer, agent, id, code);
      var receipt := E.ClaimTransfer(w.escrow, w.ledger, caller, w.sha256, answer, agent, id, code).value.value;
      ClaimSharesPaid(w.ledger, next.escrow.transfers[id], receipt.payout, w.escrow.config.value.treasury, receipt.fee);
  }

  /**
   The step that settles a transfer pays the sender, or the claimant and the treasury, exactly the
   amount between them, out of the escrow; no other balance moves in any token.
   */
  lemma SettlementReachesItsOwners(w: World, a: Action, id: nat)
    requires E.EscrowInv(w.escrow) && SettlesById(a, id) && Succeeds(w, a.invocation)
    ensures var next := Step(w, a);
            && id in next.escrow.transfers
            && SharesPaid(w.ledger.book, next.ledger.book, next.escrow.transfers[id],
                          next.escrow.stats.feesCollected - w.escrow.stats.feesCollected, Treasury(w.escrow))
  {
    var i := a.invocation;
    CallPaysShares(InTransaction(w, i.txHash), i.Caller(), i.foreign, i.call.escrow);
  }

  /** The fee never takes more than 5% of what settled, whatever fees were set along the way. */
  lemma FeesWithinCapOverRuns(w: World, actions: seq<Action>)
    requires Inv(w)
    ensures var stats := After(w, actions).escrow.stats;
            0 <= 10_000 * stats.feesCollected <= 500 * stats.volumeSettled
  {
    RunKeepsInv(w, actions);
  }

  /** Every counter and volume the escrow shows agrees with its records, after every run. */
  lemma StatsAgreeWithRecords(w: World, actions: seq<Action>)
    requires Inv(w)
    ensures StatsAgree(After(w, actions).escrow)
  {
    RunKeepsInv(w, actions);
    RecordsGiveStats(After(w, actions).escrow);
  }

  ghost predicate StatsAgree(e: E.EscrowState) {
    && e.stats.volumeLocked == Total(e.transfers, E.PendingAmount())
    && e.stats.volumeSettled == Total(e.transfers, E.ClaimedAmount())
    && e.stats.created == Shown(e.lastId)
    && (e.lastId <= U32_MAX ==>
          e.stats.created == e.stats.claimed + e.stats.refunded + e.stats.cancelled + E.Count(e, E.Pending))
  }

  lemma RecordsGiveStats(e: E.EscrowState)
    requires E.RecordsSound(e) && E.CountersSound(e)
    ensures StatsAgree(e)
  {
    E.StatusesPartition(e);
    E.CountsNonNegative(e);
  }

  /** After every run, claims were made in time, refunds only once it had run out, and nobody claimed from themselves. */
  lemma SettledOnTheRightSide(w: World, actions: seq<Action>, id: nat)
    requires Inv(w) && id in After(w, actions).escrow.transfers
    ensures E.RecordSound(After(w, actions).escrow.transfers[id])
  {
    RunKeepsInv(w, actions);
    RecordIsSound(After(w, actions).escrow, id);
  }

  lemma RecordIsSound(e: E.EscrowState, id: nat)
    requires E.EscrowInv(e) && id in e.transfers
    ensures E.RecordSound(e.transfers[id])
  {
  }

  /** After every run, a sender's list is exactly that sender's transfers, oldest first. */
  lemma SenderListsAgree(w: World, actions: seq<Action>, sender: Address)
    requires Inv(w)
    ensures var e := After(w, actions).escrow;
            E.ListSound(e, sender, LookupOr(e.senderTransfers, sender, []))
  {
    RunKeepsInv(w, actions);
    assert E.ListsSound(After(w, actions).escrow);
  }

  /* ------------------------------ no trapped funds ------------------------------ */

  /** What paying a transfer out rests on: sound books, sound records, and an escrow that covers them. */
  ghost predicate Funded(w: World) {
    && Sound(w.ledger.book)
    && E.RecordsSound(w.escrow) && E.CountersSound(w.escrow)
    && (w.escrow.config.Some? ==> w.escrow.config.value.feeBps <= 500)
    && (forall token :: 0 <= Excess(w, ESCROW, token))
  }

  lemma SoundWorldsAreFunded(w: World)
    requires Inv(w)
    ensures Funded(w)
  {
  }

  /** The held amount is always there to be paid out, and the locked volume covers it. */
  lemma HeldAmountIsThere(w: World, id: nat)
    requires Funded(w) && Pending(w, id)
    ensures var t := w.escrow.transfers[id];
            && 0 < t.amount <= Balance(w.ledger.book, t.token, ESCROW)
            && t.amount <= w.escrow.stats.volumeLocked <= I128_MAX
  {
    var t := w.escrow.transfers[id];
    TotalCovers(w.escrow.transfers, E.PendingIn(t.token), id);
    TotalCovers(w.escrow.transfers, E.PendingAmount(), id);
    assert 0 <= Excess(w, ESCROW, t.token);
  }

  /** A pending transfer can be released: the token move and the counters go through. */
  lemma ReleaseSucceeds(w: World, id: nat, status: E.TransferStatus)
    requires Funded(w) && Pending(w, id)
    ensures E.Release(w.escrow, w.ledger, w.escrow.transfers[id], status).Ok?
    ensures InI128(w.escrow.stats.volumeLocked - w.escrow.transfers[id].amount)
  {
    var t := w.escrow.transfers[id];
    HeldAmountIsThere(w, id);
    MovedIsSound(w.ledger.book, t.token, ESCROW, t.sender, t.amount);
  }

  lemma TxHashIsNoMatter(w: World, txHash: string)
    requires Funded(w)
    ensures Funded(InTransaction(w, txHash))
  {
    assert forall token :: Excess(InTransaction(w, txHash), ESCROW, token) == Excess(w, ESCROW, token);
  }

  lemma SenderCanCancel(w: World, id: nat, i: Invocation)
    requires Funded(w) && Pending(w, id)
    requires i.Caller() == w.escrow.transfers[id].sender && i.call == ToEscrow(CancelTransfer(i.Caller(), id))
    ensures Succeeds(w, i)
  {
    TxHashIsNoMatter(w, i.txHash);
    ReleaseSucceeds(InTransaction(w, i.txHash), id, E.Cancelled);
  }

  lemma AnyoneCanRefundAfterExpiry(w: World, id: nat, i: Invocation)
    requires Funded(w) && Pending(w, id) && w.escrow.transfers[id].expiry < w.ledger.now
    requires i.call == ToEscrow(RefundExpired(id))
    ensures Succeeds(w, i)
  {
    TxHashIsNoMatter(w, i.txHash);
    ReleaseSucceeds(InTransaction(w, i.txHash), id, E.Refunded);
  }

  lemma NoClaimAfterExpiry(w: World, id: nat, i: Invocation)
    requires id in w.escrow.transfers && w.escrow.transfers[id].expiry < w.ledger.now
    requires i.call.ToEscrow? && i.call.escrow.ClaimTransfer? && i.call.escrow.id == id
    ensures !Succeeds(w, i)
  {
  }

  /**
   No trapped funds: after any run whatever (pauses, rewiring, fee changes, revoked agents), a
   transfer still pending can be cancelled by its sender, and once its expiry has passed anyone
   can refund it.
   */
  lemma NoTrappedFunds(w: World, actions: seq<Action>, id: nat, i: Invocation)
    requires Inv(w) && id in w.escrow.transfers && Pending(After(w, actions), id)
    requires var sender, expiry := w.escrow.transfers[id].sender, w.escrow.transfers[id].expiry;
             || (i.Caller() == sender && i.call == ToEscrow(CancelTransfer(sender, id)))
             || (expiry < After(w, actions).ledger.now && i.call == ToEscrow(RefundExpired(id)))
    ensures Succeeds(After(w, actions), i)
  {
    var after := After(w, actions);
    RunKeepsInv(w, actions);
    TransfersSettleOnce(w, actions);
    SoundWorldsAreFunded(after);
    assert E.Evolves(w.escrow.transfers[id], after.escrow.transfers[id]);
    if i.call == ToEscrow(RefundExpired(id)) {
      AnyoneCanRefundAfterExpiry(after, id, i);
    } else {
      SenderCanCancel(after, id, i);
    }
  }

  /** Once a transfer has expired, no claim of it succeeds in any later world. */
  lemma ExpiredIsNeverClaimed(w: World, actions: seq<Action>, id: nat, i: Invocation)
    requires Inv(w) && id in w.escrow.transfers && w.escrow.transfers[id].expiry < w.ledger.now
    requires i.call.ToEscrow? && i.call.escrow.ClaimTransfer? && i.call.escrow.id == id
    ensures !Succeeds(After(w, actions), i)
  {
    TransfersSettleOnce(w, actions);
    assert E.Evolves(w.escrow.transfers[id], After(w, actions).escrow.transfers[id]);
    NoClaimAfterExpiry(After(w, actions), id, i);
  }

  /** A quote is the claim's own split: what was quoted is what a claim that goes through pays. */
  lemma QuoteIsPaid(w: World, caller: Address, answer: E.AgentAnswer, agent: Address, id: nat, code: Bytes32)
    requires E.ClaimTransfer(w.escrow, w.ledger, caller, w.sha256, answer, agent, id, code).Ok?
    ensures var receipt := E.ClaimTransfer(w.escrow, w.ledger, caller, w.sha256, answer, agent, id, code).value.value;
            E.QuoteClaim(w.escrow, id) == Ok(E.ClaimQuote(id, receipt.gross, receipt.fee, receipt.payout))
  {
  }

  /* ------------------------------ exactly when a claim succeeds ------------------------------ */

  /** With the amount in hand both payments of a claim go through. */
  lemma BothPaymentsGoThrough(ledger: LedgerState, token: Address, agent: Address, payout: int, treasury: Address, fee: int)
    requires Sound(ledger.book) && agent.Account?
    requires 0 <= payout && 0 <= fee && payout + fee <= Balance(ledger.book, token, ESCROW)
    ensures E.PayClaim(ledger, token, agent, payout, treasury, fee).Ok?
  {
    MovedIsSound(ledger.book, token, ESCROW, agent, payout);
    MovedBalances(ledger.book, token, ESCROW, agent, payout);
    var paid := Moved(ledger.book, token, ESCROW, agent, payout).value;
    MovedIsSound(paid, token, ESCROW, treasury, fee);
  }

  /** What a claim needs beyond the right caller, code and time: arithmetic that stays in range. */
  predicate ClaimFits(e: E.EscrowState, t: E.Transfer)
    requires e.config.Some?
  {
    && t.amount * e.config.value.feeBps <= I128_MAX
    && e.stats.volumeSettled + t.amount <= I128_MAX
  }

  lemma SettleClaimSucceedsExactly(w: World, id: nat, agent: Address)
    requires Funded(w) && Pending(w, id) && agent.Account? && w.escrow.config.Some?
    ensures E.SettleClaim(w.escrow, w.ledger, w.escrow.config.value, w.escrow.transfers[id], agent).Ok?
        <==> ClaimFits(w.escrow, w.escrow.transfers[id])
  {
    var t, config := w.escrow.transfers[id], w.escrow.config.value;
    HeldAmountIsThere(w, id);
    ScaleOrder(0, config.feeBps, t.amount);
    if E.FeeFor(t.amount, config.feeBps).Ok? {
      var fee := E.FeeFor(t.amount, config.feeBps).value;
      E.FeeWithinCap(t.amount, config.feeBps);
      BothPaymentsGoThrough(w.ledger, t.token, agent, t.amount - fee, config.treasury, fee);
    }
  }

  /**
   A claim succeeds exactly when an agent other than the sender, with standing in the region the
   transfer's corridor ends in, presents the right code for a pending transfer in time, and neither
   the fee product nor the settled volume overflows: a missing token never stops it.
   */
  lemma ClaimSucceedsExactly(w: World, agent: Address, id: nat, code: Bytes32, i: Invocation)
    requires Funded(w) && i.call == ToEscrow(ClaimTransfer(agent, id, code))
    ensures Succeeds(w, i) <==>
      && i.Caller() == agent
      && w.escrow.config.Some?
      && Pending(w, id)
      && var t := w.escrow.transfers[id];
      && w.ledger.now <= t.expiry
      && t.sender != agent
      && w.sha256(code) == t.claimHash
      && MayClaim(w, i.foreign.agent, agent, t.corridor)
      && ClaimFits(w.escrow, t)
  {
    if Pending(w, id) && i.Caller() == agent && w.escrow.config.Some? {
      TxHashIsNoMatter(w, i.txHash);
      AskAgentExactly(w, i.foreign.agent, agent, id);
      SettleClaimSucceedsExactly(InTransaction(w, i.txHash), id, agent);
    }
  }

  /* ------------------------------ exactly when a creation succeeds ------------------------------ */

  /** The gate the escrow is pointed at lets the transfer through; for the deployed hook that is its policy. */
  predicate GateOpens(w: World, gate: E.GateAnswer, sender: Address, amount: int, corridor: Symbol)
    requires w.escrow.config.Some?
  {
    if w.escrow.config.value.hook == HOOK
    then w.hook.escrow == Some(ESCROW) && C.Permitted(w.hook, w.ledger.now, sender, amount, corridor)
    else gate == E.Approved
  }

  lemma GateOpensExactly(w: World, gate: E.GateAnswer, sender: Address, amount: int, corridor: Symbol)
    requires w.escrow.config.Some? && C.HookInv(w.hook) && 0 < amount
    ensures E.CommitVolume(w.escrow.config.value, w.hook, w.ledger, gate, sender, amount, corridor).Ok?
        <==> GateOpens(w, gate, sender, amount, corridor)
  {
    C.EvaluateDecides(w.hook, w.ledger.now, sender, amount, corridor);
  }

  /** What a creation needs beyond the gate: the sender's tokens, an id, and a locked volume in range. */
  predicate RoomToLock(w: World, sender: Address, amount: int, token: Address) {
    && amount <= Balance(w.ledger.book, token, sender)
    && w.escrow.lastId < U64_MAX
    && w.escrow.stats.volumeLocked + amount <= I128_MAX
  }

  lemma LocksExactly(w: World, t: E.Transfer)
    requires Sound(w.ledger.book) && E.RecordsSound(w.escrow) && E.CountersSound(w.escrow) && 0 < t.amount
    ensures E.LockFunds(w.escrow, w.ledger, t).Ok? <==> RoomToLock(w, t.sender, t.amount, t.token)
  {
    MovedIsSound(w.ledger.book, t.token, t.sender, ESCROW, t.amount);
    TotalNonNegative(w.escrow.transfers, E.PendingAmount());
  }

  /** The sender's own side of a creation. */
  predicate WellAsked(e: E.EscrowState, now: nat, caller: Address, sender: Address, amount: int, expiry: nat) {
    && caller == sender
    && e.config.Some? && !e.config.value.paused
    && 0 < amount && now < expiry && expiry - now <= e.config.value.maxExpirySecs
  }

  lemma CreatesExactly(w: World, caller: Address, gate: E.GateAnswer, sender: Address, amount: i128, token: Address,
                       claimHash: Bytes32, corridor: Symbol, expiry: nat)
    requires Sound(w.ledger.book) && E.RecordsSound(w.escrow) && E.CountersSound(w.escrow) && C.HookInv(w.hook)
    ensures E.CreateTransfer(w.escrow, w.hook, w.ledger, caller, gate, sender, amount, token, claimHash, corridor, expiry).Ok?
        <==> WellAsked(w.escrow, w.ledger.now, caller, sender, amount, expiry)
             && GateOpens(w, gate, sender, amount, corridor) && RoomToLock(w, sender, amount, token)
  {
    if WellAsked(w.escrow, w.ledger.now, caller, sender, amount, expiry) {
      GateOpensExactly(w, gate, sender, amount, corridor);
      LocksExactly(w, E.NewTransfer(w.escrow, w.ledger.now, sender, amount, token, claimHash, corridor, expiry));
    }
  }

  /**
   A creation succeeds exactly when its sender signs it, the escrow is not paused, amount and expiry
   are in bounds, the gate's policy permits it, and the sender has the tokens; beyond that only the
   id counter and the locked volume can stop it.
   */
  lemma CreateSucceedsExactly(w: World, i: Invocation)
    requires Sound(w.ledger.book) && E.RecordsSound(w.escrow) && E.CountersSound(w.escrow) && C.HookInv(w.hook)
    requires i.call.ToEscrow? && i.call.escrow.CreateTransfer?
    ensures var c := i.call.escrow;
            Succeeds(w, i) <==>
              WellAsked(w.escrow, w.ledger.now, i.Caller(), c.sender, c.amount, c.expiry)
              && GateOpens(w, i.foreign.gate, c.sender, c.amount, c.corridor) && RoomToLock(w, c.sender, c.amount, c.token)
  {
    var c, started := i.call.escrow, InTransaction(w, i.txHash);
    CreatesExactly(started, i.Caller(), i.foreign.gate, c.sender, c.amount, c.token, c.claimHash, c.corridor, c.expiry);
  }
}
