/** Every call to the escrow on sound worlds: exactly when it succeeds, and exactly what it then leaves. */
module EscrowCalls {
  import opened Prelude
  import opened Totals
  import opened Chain
  import opened Network
  import opened Custody
  import opened Standing
  import opened Settlement
  import HC = HookCalls
  import C = ComplianceRules
  import E = EscrowRules

  predicate MaySet(change: E.EscrowChange) {
    && (change.SetFeeBps? ==> change.feeBps <= 500)
    && (change.SetMaxExpiry? ==> change.maxExpirySecs != 0)
  }

  /** A claim: by an agent other than the sender, with standing where the corridor ends, in time, with the code. */
  predicate MayClaimTransfer(w: World, answer: E.AgentAnswer, agent: Address, id: nat, code: Bytes32) {
    && w.escrow.config.Some? && Pending(w, id)
    && var t := w.escrow.transfers[id];
    && t.sender != agent && w.ledger.now <= t.expiry && w.sha256(code) == t.claimHash
    && MayClaim(w, answer, agent, t.corridor)
    && ClaimFits(w.escrow, t)
  }

  /** When a call goes through, in no particular order. */
  predicate May(w: World, caller: Address, foreign: Foreign, call: EscrowCall) {
    match call
    case InitializeEscrow(admin, _, _, _, feeBps, secs) => w.escrow.admin.None? && caller == admin && feeBps <= 500 && secs != 0
    case ConfigureEscrow(change) => w.escrow.admin == Some(caller) && MaySet(change)
    case CreateTransfer(sender, amount, token, _, corridor, expiry) =>
      && WellAsked(w.escrow, w.ledger.now, caller, sender, amount, expiry)
      && GateOpens(w, foreign.gate, sender, amount, corridor) && RoomToLock(w, sender, amount, token)
    case CancelTransfer(sender, id) => caller == sender && Pending(w, id) && w.escrow.transfers[id].sender == sender
    case ClaimTransfer(agent, id, code) => caller == agent && MayClaimTransfer(w, foreign.agent, agent, id, code)
    case RefundExpired(id) => Pending(w, id) && w.escrow.transfers[id].expiry < w.ledger.now
  }

  lemma SetsExactly(e: E.EscrowState, ledger: LedgerState, caller: Address, change: E.EscrowChange)
    requires E.EscrowInv(e)
    ensures E.Configure(e, ledger, caller, change).Ok? <==> e.admin == Some(caller) && MaySet(change)
  {
  }

  lemma CancelsExactly(w: World, i: Invocation)
    requires Funded(w) && i.call.ToEscrow? && i.call.escrow.CancelTransfer?
    ensures Succeeds(w, i) <==> May(w, i.Caller(), i.foreign, i.call.escrow)
  {
    var call := i.call.escrow;
    if May(w, i.Caller(), i.foreign, call) {
      SenderCanCancel(w, call.id, i);
    }
  }

  lemma RefundsExactly(w: World, i: Invocation)
    requires Funded(w) && i.call.ToEscrow? && i.call.escrow.RefundExpired?
    ensures Succeeds(w, i) <==> May(w, i.Caller(), i.foreign, i.call.escrow)
  {
    var call := i.call.escrow;
    if May(w, i.Caller(), i.foreign, call) {
      AnyoneCanRefundAfterExpiry(w, call.id, i);
    }
  }

  lemma SetupExactly(w: World, i: Invocation)
    requires E.EscrowInv(w.escrow) && i.call.ToEscrow? && (i.call.escrow.InitializeEscrow? || i.call.escrow.ConfigureEscrow?)
    ensures Succeeds(w, i) <==> May(w, i.Caller(), i.foreign, i.call.escrow)
  {
    if i.call.escrow.ConfigureEscrow? {
      SetsExactly(w.escrow, InTransaction(w, i.txHash).ledger, i.Caller(), i.call.escrow.change);
    }
  }

  /** On every sound world, and runs lead to no other, a call to the escrow succeeds exactly when it may. */
  lemma EscrowCallsExactly(w: World, i: Invocation)
    requires Inv(w) && i.call.ToEscrow?
    ensures Succeeds(w, i) <==> May(w, i.Caller(), i.foreign, i.call.escrow)
  {
    SoundWorldsAreFunded(w);
    match i.call.escrow
    case CreateTransfer(_, _, _, _, _, _) => CreateSucceedsExactly(w, i);
    case CancelTransfer(_, _) => CancelsExactly(w, i);
    case ClaimTransfer(agent, id, code) => ClaimSucceedsExactly(w, agent, id, code, i);
    case RefundExpired(_) => RefundsExactly(w, i);
    case _ => SetupExactly(w, i);
  }

  /** A claim is quoted exactly while its transfer is pending and the fee product fits: the amount, the fee at the present rate, and the rest. */
  lemma QuotesExactly(e: E.EscrowState, id: nat)
    requires E.EscrowInv(e)
    ensures var r := E.QuoteClaim(e, id);
            && (r.Ok? <==> e.config.Some? && id in e.transfers && e.transfers[id].status == E.Pending
                           && e.transfers[id].amount * e.config.value.feeBps <= I128_MAX)
            && (r.Ok? ==> var amount, fee := e.transfers[id].amount, r.value.fee;
                          r.value == E.ClaimQuote(id, amount, fee, amount - fee) && FeeOn(amount, e.config.value.feeBps, fee))
  {
    if id in e.transfers && e.config.Some? {
      var t := e.transfers[id];
      assert E.RecordSound(t);
      TotalCovers(e.transfers, E.PendingAmount(), id);
      ScaleOrder(0, e.config.value.feeBps, t.amount);
      if E.FeeFor(t.amount, e.config.value.feeBps).Ok? {
        E.FeeWithinCap(t.amount, e.config.value.feeBps);
      }
    }
  }

  /* ------------------------------ what a call leaves ------------------------------ */

  predicate SetTo(e: E.EscrowState, change: E.EscrowChange, next: E.EscrowState)
    requires e.config.Some?
  {
    var config := e.config.value;
    match change
    case SetAdmin(admin) => next == e.(admin := Some(admin))
    case SetFeeBps(feeBps) => next == e.(config := Some(config.(feeBps := feeBps)))
    case SetTreasury(treasury) => next == e.(config := Some(config.(treasury := treasury)))
    case SetAgentRegistry(registry) => next == e.(config := Some(config.(registry := registry)))
    case SetComplianceHook(hook) => next == e.(config := Some(config.(hook := hook)))
    case SetMaxExpiry(secs) => next == e.(config := Some(config.(maxExpirySecs := secs)))
    case SetPaused(paused) => next == e.(config := Some(config.(paused := paused)))
  }

  /** A pending record under the next id, listed with its sender and counted. */
  predicate Filed(e: E.EscrowState, now: nat, sender: Address, amount: int, token: Address, claimHash: Bytes32,
                  corridor: Symbol, expiry: nat, next: E.EscrowState)
  {
    var id := e.lastId + 1;
    var list := if sender in e.senderTransfers then e.senderTransfers[sender] else [];
    next == e.(lastId := id,
               transfers := e.transfers[id := E.Transfer(id, sender, amount, token, claimHash, corridor, expiry, E.Pending, now, 0, None)],
               senderTransfers := e.senderTransfers[sender := list + [id]],
               stats := e.stats.(created := Increment(e.stats.created), volumeLocked := e.stats.volumeLocked + amount))
  }

  /** A record given back to its sender, and counted as what became of it. */
  predicate GivenBack(e: E.EscrowState, now: nat, id: nat, status: E.TransferStatus, next: E.EscrowState)
    requires id in e.transfers
  {
    var t := e.transfers[id];
    next == e.(transfers := e.transfers[id := t.(status := status, settledAt := now)],
               stats := e.stats.(refunded := if status == E.Refunded then Increment(e.stats.refunded) else e.stats.refunded,
                                 cancelled := if status == E.Cancelled then Increment(e.stats.cancelled) else e.stats.cancelled,
                                 volumeLocked := e.stats.volumeLocked - t.amount))
  }

  /** The fee on an amount: the configured share of it, rounded down. */
  predicate FeeOn(amount: int, feeBps: nat, fee: int) { 10_000 * fee <= amount * feeBps < 10_000 * (fee + 1) }

  /** A record claimed by an agent for the amount less a fee. */
  predicate ClaimedBy(e: E.EscrowState, now: nat, id: nat, agent: Address, fee: int, next: E.EscrowState)
    requires id in e.transfers
  {
    var t := e.transfers[id];
    next == e.(transfers := e.transfers[id := t.(status := E.Claimed, settledAt := now, claimedBy := Some(agent))],
               stats := e.stats.(claimed := Increment(e.stats.claimed), volumeLocked := e.stats.volumeLocked - t.amount,
                                 volumeSettled := e.stats.volumeSettled + t.amount, feesCollected := e.stats.feesCollected + fee))
  }

  /** One announcement, stamped with the ledger and the transaction. */
  predicate Announced(before: LedgerState, after: LedgerState, event: TransferEvent) {
    after == before.(book := after.book, events := before.events + [LoggedEvent(before.sequence, before.now, before.txHash, event)])
  }

  /** What a creation leaves: the record, the gate's own books, the tokens in custody, and the announcement. */
  ghost predicate CreationLeft(w: World, call: EscrowCall, next: World)
    requires call.CreateTransfer?
  {
    && w.escrow.config.Some?
    && Filed(w.escrow, w.ledger.now, call.sender, call.amount, call.token, call.claimHash, call.corridor, call.expiry, next.escrow)
    && (if w.escrow.config.value.hook == HOOK then HC.Committed(w.hook, w.ledger.now, call.sender, call.amount, call.corridor, next.hook)
        else next.hook == w.hook)
    && Moved(w.ledger.book, call.token, call.sender, ESCROW, call.amount) == Some(next.ledger.book)
    && Announced(w.ledger, next.ledger, TransferCreated(w.escrow.lastId + 1, call.sender, call.corridor, call.amount, call.token,
                                                        call.claimHash, call.expiry))
  }

  /** What settling leaves: the record, the payments, and the announcement, split by the fee for a claim. */
  ghost predicate SettlementLeft(w: World, call: EscrowCall, fee: int, next: World)
    requires Settling(call)
  {
    && call.id in w.escrow.transfers && next.hook == w.hook
    && var t := w.escrow.transfers[call.id];
    && call.id in next.escrow.transfers
    && SharesPaid(w.ledger.book, next.ledger.book, next.escrow.transfers[call.id], fee, Treasury(w.escrow))
    && match call
       case CancelTransfer(_, id) =>
         fee == 0 && GivenBack(w.escrow, w.ledger.now, id, E.Cancelled, next.escrow)
         && Announced(w.ledger, next.ledger, TransferCancelled(id, t.sender, t.corridor, t.amount))
       case RefundExpired(id) =>
         fee == 0 && GivenBack(w.escrow, w.ledger.now, id, E.Refunded, next.escrow)
         && Announced(w.ledger, next.ledger, TransferRefunded(id, t.sender, t.corridor, t.amount))
       case ClaimTransfer(agent, id, _) =>
         w.escrow.config.Some? && FeeOn(t.amount, w.escrow.config.value.feeBps, fee)
         && ClaimedBy(w.escrow, w.ledger.now, id, agent, fee, next.escrow)
         && Announced(w.ledger, next.ledger, TransferClaimed(id, agent, t.corridor, t.amount, fee, t.amount - fee))
  }

  lemma CreationLeaves(w: World, caller: Address, foreign: Foreign, call: EscrowCall)
    requires C.HookInv(w.hook) && call.CreateTransfer? && CallEscrow(w, caller, foreign, call).Some?
    ensures CreationLeft(w, call, CallEscrow(w, caller, foreign, call).value)
  {
    E.CreateEffect(w.escrow, w.hook, w.ledger, caller, foreign.gate, call.sender, call.amount, call.token,
                   call.claimHash, call.corridor, call.expiry);
    if w.escrow.config.value.hook == HOOK {
      HC.CommitLeaves(w.hook, w.ledger, ESCROW, call.sender, call.amount, call.corridor);
    }
  }

  lemma ReturnLeaves(w: World, caller: Address, foreign: Foreign, call: EscrowCall)
    requires E.EscrowInv(w.escrow) && (call.CancelTransfer? || call.RefundExpired?) && CallEscrow(w, caller, foreign, call).Some?
    ensures SettlementLeft(w, call, 0, CallEscrow(w, caller, foreign, call).value)
  {
    var next := CallEscrow(w, caller, foreign, call).value;
    match call {
      case CancelTransfer(sender, id) => E.CancelEffect(w.escrow, w.ledger, caller, sender, id);
      case RefundExpired(id) => E.RefundEffect(w.escrow, w.ledger, id);
    }
    ReturnSharesPaid(w.ledger.book, next.ledger.book, next.escrow.transfers[call.id], 0, Treasury(w.escrow));
  }

  lemma ClaimStateLeaves(e: E.EscrowState, ledger: LedgerState, caller: Address, sha256: Bytes32 -> Bytes32, answer: E.AgentAnswer,
                         agent: Address, id: nat, code: Bytes32)
    requires E.EscrowInv(e) && E.ClaimTransfer(e, ledger, caller, sha256, answer, agent, id, code).Ok?
    ensures e.config.Some? && id in e.transfers
    ensures var done := E.ClaimTransfer(e, ledger, caller, sha256, answer, agent, id, code).value;
            var t, fee := e.transfers[id], done.value.fee;
            && FeeOn(t.amount, e.config.value.feeBps, fee)
            && ClaimedBy(e, ledger.now, id, agent, fee, done.state)
            && Announced(ledger, done.ledger, TransferClaimed(id, agent, t.corridor, t.amount, fee, t.amount - fee))
            && SharesPaid(ledger.book, done.ledger.book, done.state.transfers[id], fee, Some(e.config.value.treasury))
  {
    E.ClaimEffect(e, ledger, caller, sha256, answer, agent, id, code);
    var done := E.ClaimTransfer(e, ledger, caller, sha256, answer, agent, id, code).value;
    var t, receipt := e.transfers[id], done.value;
    ClaimSharesPaid(ledger, done.state.transfers[id], receipt.payout, e.config.value.treasury, receipt.fee);
    PaysAnnouncesNothing(ledger, t.token, agent, receipt.payout, e.config.value.treasury, receipt.fee);
  }

  lemma ClaimLeaves(w: World, caller: Address, foreign: Foreign, call: EscrowCall) returns (fee: int)
    requires E.EscrowInv(w.escrow) && call.ClaimTransfer? && CallEscrow(w, caller, foreign, call).Some?
    ensures SettlementLeft(w, call, fee, CallEscrow(w, caller, foreign, call).value)
  {
    var answer := AskAgent(w.registry, w.escrow, foreign.agent, call.agent, call.id);
    ClaimStateLeaves(w.escrow, w.ledger, caller, w.sha256, answer, call.agent, call.id, call.code);
    fee := E.ClaimTransfer(w.escrow, w.ledger, caller, w.sha256, answer, call.agent, call.id, call.code).value.value.fee;
  }

  lemma SettingLeaves(e: E.EscrowState, ledger: LedgerState, caller: Address, change: E.EscrowChange)
    requires E.EscrowInv(e) && E.Configure(e, ledger, caller, change).Ok?
    ensures var done := E.Configure(e, ledger, caller, change).value;
            e.config.Some? && SetTo(e, change, done.state) && done.ledger == ledger
  {
  }

  /** What a call that went through leaves of every part of the world. */
  ghost predicate Left(w: World, call: EscrowCall, fee: int, next: World) {
    && next == w.(escrow := next.escrow, hook := next.hook, ledger := next.ledger)
    && match call
       case InitializeEscrow(admin, registry, hook, treasury, feeBps, secs) =>
         && next.escrow == w.escrow.(admin := Some(admin), config := Some(E.EscrowConfig(registry, hook, treasury, feeBps, false, secs)),
                                     stats := E.EscrowStats(0, 0, 0, 0, 0, 0, 0))
         && next.hook == w.hook && next.ledger == w.ledger
       case ConfigureEscrow(change) =>
         w.escrow.config.Some? && SetTo(w.escrow, change, next.escrow) && next.hook == w.hook && next.ledger == w.ledger
       case CreateTransfer(_, _, _, _, _, _) => CreationLeft(w, call, next)
       case _ => SettlementLeft(w, call, fee, next)
  }

  lemma CallLeaves(w: World, caller: Address, foreign: Foreign, call: EscrowCall) returns (fee: int)
    requires E.EscrowInv(w.escrow) && C.HookInv(w.hook) && CallEscrow(w, caller, foreign, call).Some?
    ensures Left(w, call, fee, CallEscrow(w, caller, foreign, call).value)
  {
    fee := 0;
    match call
    case InitializeEscrow(_, _, _, _, _, _) =>
    case ConfigureEscrow(change) => SettingLeaves(w.escrow, w.ledger, caller, change);
    case CreateTransfer(_, _, _, _, _, _) => CreationLeaves(w, caller, foreign, call);
    case ClaimTransfer(_, _, _) => fee := ClaimLeaves(w, caller, foreign, call);
    case _ => ReturnLeaves(w, caller, foreign, call);
  }

  /** And then it leaves exactly this, for the one fee its rate gives. */
  lemma EscrowCallsLeave(w: World, i: Invocation) returns (fee: int)
    requires E.EscrowInv(w.escrow) && C.HookInv(w.hook) && i.call.ToEscrow? && Succeeds(w, i)
    ensures Left(InTransaction(w, i.txHash), i.call.escrow, fee, Run(w, i))
  {
    fee := CallLeaves(InTransaction(w, i.txHash), i.Caller(), i.foreign, i.call.escrow);
  }
}
