/**
 The compliance gate: tier bands, attestations, daily buckets, and the one rule that the
 read-only check, the explanation and the committing call all project.
 */
module ComplianceRules {
  import opened Prelude
  import opened Chain

  datatype KycTier = NoTier | Standard | Enhanced {
    function Rank(): nat {
      match this
      case NoTier => 0
      case Standard => 1
      case Enhanced => 2
    }

    predicate Satisfies(required: KycTier) { Rank() >= required.Rank() }
  }

  datatype TierThresholds = TierThresholds(corridor: Symbol, tier1Max: i128, tier2Max: i128, dailyLimit: i128) {
    function RequiredTier(amount: int): KycTier {
      if amount <= tier1Max then NoTier
      else if amount <= tier2Max then Standard
      else Enhanced
    }

    predicate IsValid() {
      && 0 <= tier1Max <= tier2Max
      && 0 < dailyLimit
      && tier2Max <= dailyLimit
    }
  }

  datatype Attestation = Attestation(
    subject: Address, tier: KycTier, hash: Bytes32, region: Symbol, provider: Symbol,
    issuedAt: nat, expiresAt: nat, revoked: bool)
  {
    predicate IsLive(now: nat) { !revoked && now < expiresAt }
  }

  datatype TransferDecision = TransferDecision(
    allowed: bool, requiredTier: KycTier, heldTier: KycTier, reason: Symbol, remainingDaily: int)

  datatype ComplianceStats = ComplianceStats(
    attestationsIssued: nat, attestationsRevoked: nat, transfersCommitted: nat, enhancedTierTransfers: nat)

  datatype ComplianceError =
    | NotInitialized | AlreadyInitialized | Unauthorized | NotAnAttester | NotEscrow | InvalidAmount | UnknownCorridor
    | InvalidThresholds | TransfersPaused | AttestationMissing | AttestationExpired
    | AttestationRevoked | TierTooLow | DailyLimitExceeded | InvalidExpiry | Overflow | EscrowNotSet

  function ReasonTag(error: ComplianceError): Symbol {
    match error
    case NotInitialized => "no_init"
    case AlreadyInitialized => "inited"
    case Unauthorized => "unauth"
    case NotAnAttester => "no_attest"
    case NotEscrow => "not_escr"
    case InvalidAmount => "bad_amt"
    case UnknownCorridor => "no_corr"
    case InvalidThresholds => "bad_tier"
    case TransfersPaused => "paused"
    case AttestationMissing => "kyc_need"
    case AttestationExpired => "kyc_exp"
    case AttestationRevoked => "kyc_rev"
    case TierTooLow => "tier_low"
    case DailyLimitExceeded => "daily_cap"
    case InvalidExpiry => "exp_bad"
    case Overflow => "overflow"
    case EscrowNotSet => "no_escr"
  }

  /** A daily volume counter: one sender, one corridor, one UTC day. */
  datatype Bucket = Bucket(sender: Address, corridor: Symbol, day: nat)

  const SECONDS_PER_DAY: nat := 86_400

  function DayOf(timestamp: nat): nat { timestamp / SECONDS_PER_DAY }

  datatype HookState = HookState(
    admin: Option<Address>, paused: bool, escrow: Option<Address>, stats: ComplianceStats,
    operators: map<Address, bool>, thresholds: map<Symbol, TierThresholds>, corridors: seq<Symbol>,
    attestations: map<Address, Attestation>, volumes: map<Bucket, int>)

  const BLANK_HOOK := HookState(None, false, None, ComplianceStats(0, 0, 0, 0), map[], map[], [], map[], map[])

  function Volume(h: HookState, sender: Address, corridor: Symbol, day: nat): int {
    LookupOr(h.volumes, Bucket(sender, corridor, day), 0)
  }

  datatype Evaluation = Evaluation(requiredTier: KycTier, heldTier: KycTier, remainingDaily: int, dailyTotalAfter: int)

  /** May this transfer proceed? The one rule behind all three views. */
  function Evaluate(h: HookState, now: nat, sender: Address, amount: int, corridor: Symbol)
    : Result<Evaluation, ComplianceError>
  {
    var _ :- Check(!h.paused, TransfersPaused);
    var _ :- Check(0 < amount, InvalidAmount);
    var thresholds :- Lookup(h.thresholds, corridor).OkOr(UnknownCorridor);
    var required := thresholds.RequiredTier(amount);
    var headroom :- Checked(Volume(h, sender, corridor, DayOf(now)) + amount, Overflow);
    var _ :- Check(headroom <= thresholds.dailyLimit, DailyLimitExceeded);
    var remaining :- Plain(thresholds.dailyLimit - headroom);
    var attestation := Lookup(h.attestations, sender);
    var _ :- Check(attestation.Some? ==> !attestation.value.revoked, AttestationRevoked);
    if required == NoTier then
      Ok(Evaluation(required, attestation.Or(NoTier, (a: Attestation) => a.tier), remaining, headroom))
    else
      var record :- attestation.OkOr(AttestationMissing);
      var _ :- Check(now < record.expiresAt, AttestationExpired);
      var _ :- Check(record.tier.Satisfies(required), TierTooLow);
      Ok(Evaluation(required, record.tier, remaining, headroom))
  }

  function CheckTransferAllowed(h: HookState, now: nat, sender: Address, amount: int, corridor: Symbol)
    : Result<bool, ComplianceError>
  {
    var _ :- Evaluate(h, now, sender, amount, corridor);
    Ok(true)
  }

  function ExplainTransfer(h: HookState, now: nat, sender: Address, amount: int, corridor: Symbol)
    : Result<TransferDecision, ComplianceError>
  {
    match Evaluate(h, now, sender, amount, corridor)
    case Ok(e) => Ok(TransferDecision(true, e.requiredTier, e.heldTier, "ok", e.remainingDaily))
    case Err(error) =>
      var required := Lookup(h.thresholds, corridor).Or(NoTier, (t: TierThresholds) => t.RequiredTier(amount));
      var held := Lookup(h.attestations, sender).Or(NoTier, (a: Attestation) => a.tier);
      Ok(TransferDecision(false, required, held, ReasonTag(error), 0))
    case Trap => Trap
  }

  type HookResult<T> = Result<Done<HookState, T>, ComplianceError>

  /** Evaluate and record in one call; only the registered escrow may make it. */
  function CommitTransfer(h: HookState, ledger: LedgerState, caller: Address,
                          sender: Address, amount: int, corridor: Symbol): HookResult<int>
  {
    var escrow :- h.escrow.OkOr(EscrowNotSet);
    var _ :- Demand(caller == escrow);
    var _ :- Check(0 < amount, InvalidAmount);
    var e :- Evaluate(h, ledger.now, sender, amount, corridor);
    var stats := h.stats.(
      transfersCommitted := Increment(h.stats.transfersCommitted),
      enhancedTierTransfers := if e.requiredTier == Enhanced then Increment(h.stats.enhancedTierTransfers)
                               else h.stats.enhancedTierTransfers);
    var bucket := Bucket(sender, corridor, DayOf(ledger.now));
    Ok(Done(h.(volumes := h.volumes[bucket := e.dailyTotalAfter], stats := stats), ledger, e.dailyTotalAfter))
  }

  function RequireAdmin(h: HookState, caller: Address): Outcome<ComplianceError> {
    match h.admin
    case None => Fail(NotInitialized)
    case Some(admin) => Demand(caller == admin)
  }

  function Initialize(h: HookState, ledger: LedgerState, caller: Address, admin: Address): HookResult<()> {
    var _ :- Check(h.admin.None?, AlreadyInitialized);
    var _ :- Demand(caller == admin);
    Ok(Done(h.(admin := Some(admin), paused := false, stats := BLANK_HOOK.stats), ledger, ()))
  }

  /** The admin's setters. */
  datatype HookChange =
    | SetOperator(operator: Address, allowed: bool)
    | SetEscrow(escrow: Address)
    | SetPaused(paused: bool)
    | SetTierThresholds(thresholds: TierThresholds)

  function Configure(h: HookState, ledger: LedgerState, caller: Address, change: HookChange): HookResult<()> {
    var _ :- RequireAdmin(h, caller);
    match change
    case SetOperator(operator, allowed) => Ok(Done(h.(operators := h.operators[operator := allowed]), ledger, ()))
    case SetEscrow(escrow) => Ok(Done(h.(escrow := Some(escrow)), ledger, ()))
    case SetPaused(paused) => Ok(Done(h.(paused := paused), ledger, ()))
    case SetTierThresholds(t) =>
      var _ :- Check(t.IsValid(), InvalidThresholds);
      Ok(Done(h.(thresholds := h.thresholds[t.corridor := t], corridors := PushUnique(h.corridors, t.corridor)), ledger, ()))
  }

  function PublishAttestation(h: HookState, ledger: LedgerState, caller: Address, attester: Address, subject: Address,
                              tier: KycTier, hash: Bytes32, region: Symbol, provider: Symbol, expiresAt: nat): HookResult<()>
  {
    var _ :- Demand(caller == attester);
    var _ :- Check(LookupOr(h.operators, attester, false), NotAnAttester);
    var _ :- Check(ledger.now < expiresAt, InvalidExpiry);
    var wasLive := Lookup(h.attestations, subject).Or(false, (a: Attestation) => a.IsLive(ledger.now));
    var record := Attestation(subject, tier, hash, region, provider, ledger.now, expiresAt, false);
    var stats := if wasLive then h.stats
                 else h.stats.(attestationsIssued := Increment(h.stats.attestationsIssued));
    Ok(Done(h.(attestations := h.attestations[subject := record], stats := stats), ledger, ()))
  }

  /** Revocation; a second one for the same subject changes nothing. */
  function RevokeAttestation(h: HookState, ledger: LedgerState, caller: Address, attester: Address, subject: Address)
    : HookResult<()>
  {
    var _ :- Demand(caller == attester);
    var _ :- Check(LookupOr(h.operators, attester, false), NotAnAttester);
    var record :- Lookup(h.attestations, subject).OkOr(AttestationMissing);
    if record.revoked then Ok(Done(h, ledger, ()))
    else
      var stats := h.stats.(attestationsRevoked := Increment(h.stats.attestationsRevoked));
      Ok(Done(h.(attestations := h.attestations[subject := record.(revoked := true)], stats := stats), ledger, ()))
  }

  /** What every reachable state of the hook satisfies on its own. */
  ghost predicate HookInv(h: HookState) {
    && (forall c :: c in h.thresholds ==> h.thresholds[c].IsValid())
    && (forall b :: b in h.volumes ==> 0 <= h.volumes[b])
  }

  /** What a sender has committed in a corridor on the day of a moment. */
  function SentToday(h: HookState, now: nat, sender: Address, corridor: Symbol): int {
    var today := Bucket(sender, corridor, now / 86_400);
    if today in h.volumes then h.volumes[today] else 0
  }

  /** A tier that covers an amount: none is needed up to the first threshold, any up to the second, the highest beyond. */
  predicate TierCovers(tier: KycTier, t: TierThresholds, amount: int) {
    && (t.tier1Max < amount ==> tier != NoTier)
    && (t.tier2Max < amount ==> tier == Enhanced)
  }

  /** The policy in the sender's terms, without the order in which the rule looks things up. */
  predicate Permitted(h: HookState, now: nat, sender: Address, amount: int, corridor: Symbol) {
    && !h.paused
    && 0 < amount
    && corridor in h.thresholds
    && SentToday(h, now, sender, corridor) + amount <= h.thresholds[corridor].dailyLimit
    && (sender in h.attestations ==> !h.attestations[sender].revoked)
    && (amount <= h.thresholds[corridor].tier1Max
        || (sender in h.attestations && now < h.attestations[sender].expiresAt
            && TierCovers(h.attestations[sender].tier, h.thresholds[corridor], amount)))
  }

  /** The rule admits exactly the permitted transfers, and never traps. */
  lemma EvaluateDecides(h: HookState, now: nat, sender: Address, amount: int, corridor: Symbol)
    requires HookInv(h)
    ensures !Evaluate(h, now, sender, amount, corridor).Trap?
    ensures Evaluate(h, now, sender, amount, corridor).Ok? <==> Permitted(h, now, sender, amount, corridor)
  {
    if corridor in h.thresholds {
      assert h.thresholds[corridor].IsValid();
      assert Lookup(h.thresholds, corridor) == Some(h.thresholds[corridor]);
      assert 0 <= Volume(h, sender, corridor, DayOf(now));
    }
  }

  /** What stands in the way of a transfer, the first of whatever does; "ok" if nothing. */
  function Obstacle(h: HookState, now: nat, sender: Address, amount: int, corridor: Symbol): Symbol {
    if h.paused then "paused"
    else if amount <= 0 then "bad_amt"
    else if corridor !in h.thresholds then "no_corr"
    else if I128_MAX < SentToday(h, now, sender, corridor) + amount then "overflow"
    else if h.thresholds[corridor].dailyLimit < SentToday(h, now, sender, corridor) + amount then "daily_cap"
    else if sender in h.attestations && h.attestations[sender].revoked then "kyc_rev"
    else if amount <= h.thresholds[corridor].tier1Max then "ok"
    else if sender !in h.attestations then "kyc_need"
    else if h.attestations[sender].expiresAt <= now then "kyc_exp"
    else if !TierCovers(h.attestations[sender].tier, h.thresholds[corridor], amount) then "tier_low"
    else "ok"
  }

  /** A refused transfer is refused for the first obstacle, and one that meets none is permitted. */
  lemma EvaluateMeetsObstacle(h: HookState, now: nat, sender: Address, amount: int, corridor: Symbol)
    requires HookInv(h)
    ensures var r, obstacle := Evaluate(h, now, sender, amount, corridor), Obstacle(h, now, sender, amount, corridor);
            if r.Err? then ReasonTag(r.error) == obstacle != "ok" else r.Ok? && obstacle == "ok"
  {
    if corridor in h.thresholds {
      assert h.thresholds[corridor].IsValid();
      assert Lookup(h.thresholds, corridor) == Some(h.thresholds[corridor]);
      assert 0 <= SentToday(h, now, sender, corridor);
    }
  }

  /** The figures shown beside the reason. */
  predicate ShowsFigures(told: TransferDecision, h: HookState, now: nat, sender: Address, amount: int, corridor: Symbol) {
    && told.requiredTier == (if corridor !in h.thresholds || amount <= h.thresholds[corridor].tier1Max then NoTier
                             else if amount <= h.thresholds[corridor].tier2Max then Standard else Enhanced)
    && told.heldTier == (if sender in h.attestations then h.attestations[sender].tier else NoTier)
    && (if told.allowed
        then corridor in h.thresholds
             && told.remainingDaily == h.thresholds[corridor].dailyLimit - SentToday(h, now, sender, corridor) - amount
        else told.remainingDaily == 0)
  }

  /**
   What the sender is told: allowed exactly when nothing stands in the way, and otherwise the first
   obstacle; the tier the amount's band asks for; the tier on record, live or not; and what the limit
   leaves after the transfer, 0 for a refused one.
   */
  lemma ExplainsTheObstacle(h: HookState, now: nat, sender: Address, amount: int, corridor: Symbol)
    requires HookInv(h)
    ensures ExplainTransfer(h, now, sender, amount, corridor).Ok?
    ensures var told := ExplainTransfer(h, now, sender, amount, corridor).value;
            && told.reason == Obstacle(h, now, sender, amount, corridor)
            && (told.allowed <==> told.reason == "ok")
            && ShowsFigures(told, h, now, sender, amount, corridor)
  {
    EvaluateMeetsObstacle(h, now, sender, amount, corridor);
  }

  /**
   One rule, three views, on every state: the explanation says "allowed" exactly when the
   check says yes and exactly when the registered escrow's commit would go through; the total that
   commit records is the limit less the headroom the explanation showed; and a refusal is
   explained by the error the check raises.
   */
  lemma OneRuleThreeViews(h: HookState, ledger: LedgerState, escrow: Address, sender: Address, amount: int, corridor: Symbol)
    requires h.escrow == Some(escrow)
    ensures var check := CheckTransferAllowed(h, ledger.now, sender, amount, corridor);
            var explain := ExplainTransfer(h, ledger.now, sender, amount, corridor);
            var commit := CommitTransfer(h, ledger, escrow, sender, amount, corridor);
            && (check.Ok? <==> explain.Ok? && explain.value.allowed)
            && (check.Ok? <==> commit.Ok?)
            && (check.Ok? ==>
                  && check.value && corridor in h.thresholds
                  && commit.value.value == h.thresholds[corridor].dailyLimit - explain.value.remainingDaily
                  && Volume(commit.value.state, sender, corridor, DayOf(ledger.now)) == commit.value.value)
            && (check.Err? ==>
                  explain.Ok? && explain.value.reason == ReasonTag(check.error) && explain.value.remainingDaily == 0)
  {
  }

  /** A sender who may send an amount may send any smaller one. */
  lemma DecisionIsDownwardClosed(h: HookState, now: nat, sender: Address, amount: int, less: int, corridor: Symbol)
    requires HookInv(h)
    requires CheckTransferAllowed(h, now, sender, amount, corridor).Ok?
    requires 0 < less <= amount
    ensures CheckTransferAllowed(h, now, sender, less, corridor).Ok?
  {
    EvaluateDecides(h, now, sender, amount, corridor);
    EvaluateDecides(h, now, sender, less, corridor);
  }

  /** A commit adds its amount to the one bucket it names, within the limit, for the escrow only. */
  lemma CommitEffect(h: HookState, ledger: LedgerState, caller: Address, sender: Address, amount: int, corridor: Symbol)
    requires CommitTransfer(h, ledger, caller, sender, amount, corridor).Ok?
    ensures var done := CommitTransfer(h, ledger, caller, sender, amount, corridor).value;
            var bucket := Bucket(sender, corridor, DayOf(ledger.now));
            && h.escrow == Some(caller)
            && 0 < amount
            && done.ledger == ledger
            && done.value == LookupOr(h.volumes, bucket, 0) + amount
            && corridor in h.thresholds && done.value <= h.thresholds[corridor].dailyLimit
            && done.state == h.(volumes := h.volumes[bucket := done.value], stats := done.state.stats)
            && (HookInv(h) ==> HookInv(done.state))
  {
  }

  /**
   A published attestation gives its subject exactly its tier, until it expires: what remains to
   decide is the pause, the corridor, the limit and whether the amount's band asks for more.
   */
  lemma PublishedTierDecides(h: HookState, ledger: LedgerState, caller: Address, attester: Address, subject: Address,
                             tier: KycTier, hash: Bytes32, region: Symbol, provider: Symbol, expiresAt: nat,
                             now: nat, amount: int, corridor: Symbol)
    requires HookInv(h) && now < expiresAt
    requires PublishAttestation(h, ledger, caller, attester, subject, tier, hash, region, provider, expiresAt).Ok?
    ensures var next := PublishAttestation(h, ledger, caller, attester, subject, tier, hash, region, provider, expiresAt).value.state;
            CheckTransferAllowed(next, now, subject, amount, corridor).Ok? <==>
              && !h.paused && 0 < amount && corridor in h.thresholds
              && SentToday(h, now, subject, corridor) + amount <= h.thresholds[corridor].dailyLimit
              && TierCovers(tier, h.thresholds[corridor], amount)
  {
    var next := PublishAttestation(h, ledger, caller, attester, subject, tier, hash, region, provider, expiresAt).value.state;
    EvaluateDecides(next, now, subject, amount, corridor);
  }

  /** Once revoked, a subject is refused every transfer, whatever its size: no tier is too low to need standing. */
  lemma RevokedMaySendNothing(h: HookState, ledger: LedgerState, caller: Address, attester: Address, subject: Address,
                              now: nat, amount: int, corridor: Symbol)
    requires HookInv(h) && RevokeAttestation(h, ledger, caller, attester, subject).Ok?
    ensures var next := RevokeAttestation(h, ledger, caller, attester, subject).value.state;
            CheckTransferAllowed(next, now, subject, amount, corridor).Err?
  {
    EvaluateDecides(RevokeAttestation(h, ledger, caller, attester, subject).value.state, now, subject, amount, corridor);
  }

  lemma ConfigureKeepsInv(h: HookState, ledger: LedgerState, caller: Address, change: HookChange)
    requires HookInv(h)
    requires Configure(h, ledger, caller, change).Ok?
    ensures HookInv(Configure(h, ledger, caller, change).value.state)
  {
  }
}

/** The compliance hook contract. */
module ComplianceContract {
  import opened Prelude
  import opened Chain
  import opened ComplianceRules

  class ComplianceHook {
    var admin: Option<Address>
    var paused: bool
    var escrow: Option<Address>
    var stats: ComplianceStats
    var operators: map<Address, bool>
    var thresholds: map<Symbol, TierThresholds>
    var corridors: seq<Symbol>
    var attestations: map<Address, Attestation>
    var volumes: map<Bucket, int>

    constructor (start: HookState)
      ensures State() == start
    {
      admin, paused, escrow, stats := start.admin, start.paused, start.escrow, start.stats;
      operators, thresholds, corridors := start.operators, start.thresholds, start.corridors;
      attestations, volumes := start.attestations, start.volumes;
    }

    function State(): HookState
      reads this
    {
      HookState(admin, paused, escrow, stats, operators, thresholds, corridors, attestations, volumes)
    }

    method Restore(start: HookState)
      modifies this
      ensures State() == start
    {
      admin, paused, escrow, stats := start.admin, start.paused, start.escrow, start.stats;
      operators, thresholds, corridors := start.operators, start.thresholds, start.corridors;
      attestations, volumes := start.attestations, start.volumes;
    }

    method Initialize(env: Ledger, caller: Address, newAdmin: Address) returns (r: Result<(), ComplianceError>)
      modifies this
      ensures Ran(ComplianceRules.Initialize(old(State()), env.State(), caller, newAdmin), r, State(), env.State())
    {
      if admin.Some? { return Err(AlreadyInitialized); }
      var _ :- Demand(caller == newAdmin);
      admin := Some(newAdmin);
      paused := false;
      stats := ComplianceStats(0, 0, 0, 0);
      return Ok(());
    }

    method Configure(env: Ledger, caller: Address, change: HookChange) returns (r: Result<(), ComplianceError>)
      modifies this
      ensures Ran(ComplianceRules.Configure(old(State()), env.State(), caller, change), r, State(), env.State())
    {
      var _ :- RequireAdmin(State(), caller);
      match change {
        case SetOperator(operator, allowed) => operators := operators[operator := allowed];
        case SetEscrow(e) => escrow := Some(e);
        case SetPaused(p) => paused := p;
        case SetTierThresholds(t) =>
          var _ :- Check(t.IsValid(), InvalidThresholds);
          thresholds := thresholds[t.corridor := t];
          corridors := PushUnique(corridors, t.corridor);
      }
      return Ok(());
    }

    method PublishAttestation(env: Ledger, caller: Address, attester: Address, subject: Address, tier: KycTier,
                              hash: Bytes32, region: Symbol, provider: Symbol, expiresAt: nat)
      returns (r: Result<(), ComplianceError>)
      modifies this
      ensures Ran(ComplianceRules.PublishAttestation(old(State()), env.State(), caller, attester, subject, tier,
                                                     hash, region, provider, expiresAt),
                  r, State(), env.State())
    {
      var _ :- Demand(caller == attester);
      var _ :- Check(LookupOr(operators, attester, false), NotAnAttester);
      var _ :- Check(env.now < expiresAt, InvalidExpiry);
      var previousWasLive := subject in attestations && attestations[subject].IsLive(env.now);
      attestations := attestations[subject := Attestation(subject, tier, hash, region, provider, env.now, expiresAt, false)];
      if !previousWasLive {
        stats := stats.(attestationsIssued := Increment(stats.attestationsIssued));
      }
      return Ok(());
    }

    method RevokeAttestation(env: Ledger, caller: Address, attester: Address, subject: Address)
      returns (r: Result<(), ComplianceError>)
      modifies this
      ensures Ran(ComplianceRules.RevokeAttestation(old(State()), env.State(), caller, attester, subject),
                  r, State(), env.State())
    {
      var _ :- Demand(caller == attester);
      var _ :- Check(LookupOr(operators, attester, false), NotAnAttester);
      var record :- Lookup(attestations, subject).OkOr(AttestationMissing);
      if !record.revoked {
        attestations := attestations[subject := record.(revoked := true)];
        stats := stats.(attestationsRevoked := Increment(stats.attestationsRevoked));
      }
      return Ok(());
    }

    method CommitTransfer(env: Ledger, caller: Address, sender: Address, amount: int, corridor: Symbol)
      returns (r: Result<int, ComplianceError>)
      modifies this
      ensures Ran(ComplianceRules.CommitTransfer(old(State()), env.State(), caller, sender, amount, corridor),
                  r, State(), env.State())
    {
      var registered :- escrow.OkOr(EscrowNotSet);
      var _ :- Demand(caller == registered);
      var _ :- Check(0 < amount, InvalidAmount);
      var evaluation :- Evaluate(State(), env.now, sender, amount, corridor);
      volumes := volumes[Bucket(sender, corridor, DayOf(env.now)) := evaluation.dailyTotalAfter];
      stats := stats.(transfersCommitted := Increment(stats.transfersCommitted));
      if evaluation.requiredTier == Enhanced {
        stats := stats.(enhancedTierTransfers := Increment(stats.enhancedTierTransfers));
      }
      return Ok(evaluation.dailyTotalAfter);
    }
  }
}
