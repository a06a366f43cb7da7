/** Every call to the compliance hook on sound states: exactly when it succeeds, and exactly what it then leaves. */
module HookCalls {
  import opened Prelude
  import opened Chain
  import opened Network
  import C = ComplianceRules

  /** Thresholds in order: no negative band, no band above the next, and a positive limit above all. */
  predicate InOrder(t: C.TierThresholds) {
    0 <= t.tier1Max <= t.tier2Max <= t.dailyLimit && 0 < t.dailyLimit
  }

  predicate MayAttest(h: C.HookState, caller: Address, attester: Address) {
    caller == attester && attester in h.operators && h.operators[attester]
  }

  /** When a call goes through, in no particular order. */
  predicate May(h: C.HookState, now: nat, caller: Address, call: HookCall) {
    match call
    case InitializeHook(admin) => h.admin.None? && caller == admin
    case ConfigureHook(change) => h.admin == Some(caller) && (change.SetTierThresholds? ==> InOrder(change.thresholds))
    case PublishAttestation(attester, _, _, _, _, _, expiresAt) => MayAttest(h, caller, attester) && now < expiresAt
    case RevokeAttestation(attester, subject) => MayAttest(h, caller, attester) && subject in h.attestations
    case CommitTransfer(sender, amount, corridor) => h.escrow == Some(caller) && C.Permitted(h, now, sender, amount, corridor)
  }

  lemma CallsExactly(w: World, caller: Address, call: HookCall)
    requires C.HookInv(w.hook)
    ensures CallHook(w, caller, call).Some? <==> May(w.hook, w.ledger.now, caller, call)
  {
    if call.CommitTransfer? {
      C.EvaluateDecides(w.hook, w.ledger.now, call.sender, call.amount, call.corridor);
    }
  }

  /** A call to the hook succeeds exactly when it may; signed by an account, a commit may only if the hook takes that account for its escrow. */
  lemma HookCallsExactly(w: World, i: Invocation)
    requires C.HookInv(w.hook) && i.call.ToHook?
    ensures Succeeds(w, i) <==> May(w.hook, w.ledger.now, i.Caller(), i.call.hook)
  {
    CallsExactly(InTransaction(w, i.txHash), i.Caller(), i.call.hook);
  }

  /* ------------------------------ what a call leaves ------------------------------ */

  predicate SetTo(h: C.HookState, change: C.HookChange, next: C.HookState) {
    match change
    case SetOperator(operator, allowed) => next == h.(operators := h.operators[operator := allowed])
    case SetEscrow(escrow) => next == h.(escrow := Some(escrow))
    case SetPaused(paused) => next == h.(paused := paused)
    case SetTierThresholds(t) =>
      next == h.(thresholds := h.thresholds[t.corridor := t],
                 corridors := if t.corridor in h.corridors then h.corridors else h.corridors + [t.corridor])
  }

  /** The subject's record is replaced whole, and counted unless a live one stood before. */
  predicate Published(h: C.HookState, now: nat, record: C.Attestation, next: C.HookState) {
    var live := record.subject in h.attestations
                && !h.attestations[record.subject].revoked && now < h.attestations[record.subject].expiresAt;
    next == h.(attestations := h.attestations[record.subject := record],
               stats := h.stats.(attestationsIssued := if live then h.stats.attestationsIssued
                                                       else Increment(h.stats.attestationsIssued)))
  }

  /** The subject's record is marked, and counted unless it was marked before. */
  predicate RevokedNow(h: C.HookState, subject: Address, next: C.HookState) {
    && subject in h.attestations
    && var record := h.attestations[subject];
       next == if record.revoked then h
               else h.(attestations := h.attestations[subject := record.(revoked := true)],
                       stats := h.stats.(attestationsRevoked := Increment(h.stats.attestationsRevoked)))
  }

  /** The amount goes into the day's bucket, and the commit is counted, once more if it is above the second band. */
  predicate Committed(h: C.HookState, now: nat, sender: Address, amount: int, corridor: Symbol, next: C.HookState) {
    && corridor in h.thresholds
    && next == h.(volumes := h.volumes[C.Bucket(sender, corridor, now / 86_400) := C.SentToday(h, now, sender, corridor) + amount],
                  stats := h.stats.(transfersCommitted := Increment(h.stats.transfersCommitted),
                                    enhancedTierTransfers := if h.thresholds[corridor].tier2Max < amount
                                                             then Increment(h.stats.enhancedTierTransfers)
                                                             else h.stats.enhancedTierTransfers))
  }

  /** The hook after a call that went through. */
  predicate Leaves(h: C.HookState, now: nat, call: HookCall, next: C.HookState) {
    match call
    case InitializeHook(admin) => next == h.(admin := Some(admin), paused := false, stats := C.ComplianceStats(0, 0, 0, 0))
    case ConfigureHook(change) => SetTo(h, change, next)
    case PublishAttestation(_, subject, tier, hash, region, provider, expiresAt) =>
      Published(h, now, C.Attestation(subject, tier, hash, region, provider, now, expiresAt, false), next)
    case RevokeAttestation(_, subject) => RevokedNow(h, subject, next)
    case CommitTransfer(sender, amount, corridor) => Committed(h, now, sender, amount, corridor, next)
  }

  lemma CommitLeaves(h: C.HookState, ledger: LedgerState, caller: Address, sender: Address, amount: int, corridor: Symbol)
    requires C.HookInv(h) && C.CommitTransfer(h, ledger, caller, sender, amount, corridor).Ok?
    ensures var done := C.CommitTransfer(h, ledger, caller, sender, amount, corridor).value;
            Committed(h, ledger.now, sender, amount, corridor, done.state) && done.ledger == ledger
  {
    assert h.thresholds[corridor].IsValid();
  }

  lemma CallLeaves(w: World, caller: Address, call: HookCall)
    requires C.HookInv(w.hook) && CallHook(w, caller, call).Some?
    ensures var next := CallHook(w, caller, call).value;
            Leaves(w.hook, w.ledger.now, call, next.hook) && next == w.(hook := next.hook)
  {
    if call.CommitTransfer? {
      CommitLeaves(w.hook, w.ledger, caller, call.sender, call.amount, call.corridor);
    }
  }

  /** And then it leaves exactly this of the hook, and nothing else changes. */
  lemma HookCallsLeave(w: World, i: Invocation)
    requires C.HookInv(w.hook) && i.call.ToHook? && Succeeds(w, i)
    ensures var next := Run(w, i);
            && Leaves(w.hook, w.ledger.now, i.call.hook, next.hook)
            && next == w.(hook := next.hook, ledger := w.ledger.(txHash := i.txHash))
  {
    CallLeaves(InTransaction(w, i.txHash), i.Caller(), i.call.hook);
  }
}
