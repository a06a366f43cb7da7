/** The escrow: sender funds held against a claim hash until claimed, cancelled or refunded. */
module EscrowRules {
  import opened Prelude
  import opened Totals
  import opened Chain
  import C = ComplianceRules

  const MAX_FEE_BPS: nat := 500

  datatype TransferStatus = Pending | Claimed | Refunded | Cancelled

  datatype Transfer = Transfer(
    id: nat, sender: Address, amount: int, token: Address, claimHash: Bytes32, corridor: Symbol, expiry: nat,
    status: TransferStatus, createdAt: nat, settledAt: nat, claimedBy: Option<Address>)
  {
    predicate IsPending() { status.Pending? }
    predicate HasExpired(now: nat) { expiry < now }
  }

  datatype EscrowConfig = EscrowConfig(
    registry: Address, hook: Address, treasury: Address, feeBps: nat, paused: bool, maxExpirySecs: nat)

  datatype EscrowStats = EscrowStats(
    created: nat, claimed: nat, refunded: nat, cancelled: nat,
    volumeLocked: int, volumeSettled: int, feesCollected: int)

  datatype ClaimReceipt = ClaimReceipt(id: nat, agent: Address, gross: int, fee: int, payout: int, settledAt: nat)
  datatype ClaimQuote = ClaimQuote(id: nat, gross: int, fee: int, payout: int)

  datatype EscrowError =
    | NotInitialized | AlreadyInitialized | Unauthorized | Paused | InvalidAmount | InvalidExpiry | ExpiryTooFar
    | TransferNotFound | TransferNotPending | TransferExpired | TransferNotExpired | InvalidClaimCode
    | AgentNotAuthorized | ComplianceRefused | ComplianceCallFailed | RegistryCallFailed | FeeTooHigh
    | InvalidConfig | Overflow | SenderCannotClaim

  datatype EscrowState = EscrowState(
    admin: Option<Address>, config: Option<EscrowConfig>, stats: EscrowStats, lastId: nat,
    transfers: map<nat, Transfer>, senderTransfers: map<Address, seq<nat>>)

  const BLANK_ESCROW := EscrowState(None, None, EscrowStats(0, 0, 0, 0, 0, 0, 0), 0, map[], map[])

  type EscrowResult<T> = Result<Done<EscrowState, T>, EscrowError>

  function RequireAdmin(e: EscrowState, caller: Address): Outcome<EscrowError> {
    match e.admin
    case None => Fail(NotInitialized)
    case Some(admin) => Demand(caller == admin)
  }

  function LoadConfig(e: EscrowState): Result<EscrowConfig, EscrowError> {
    e.config.OkOr(NotInitialized)
  }

  function LoadTransfer(e: EscrowState, id: nat): Result<Transfer, EscrowError> {
    Lookup(e.transfers, id).OkOr(TransferNotFound)
  }

  /** Platform fee, rounded down in the sender's favour. */
  function FeeFor(amount: int, feeBps: nat): Result<int, EscrowError> {
    var scaled :- Checked(amount * feeBps, Overflow);
    Ok(Quotient(scaled, 10_000))
  }

  function Initialize(e: EscrowState, ledger: LedgerState, caller: Address, admin: Address, registry: Address,
                      hook: Address, treasury: Address, feeBps: u32, maxExpirySecs: nat): EscrowResult<()>
  {
    var _ :- Check(e.admin.None?, AlreadyInitialized);
    var _ :- Check(feeBps <= MAX_FEE_BPS && maxExpirySecs != 0, InvalidConfig);
    var _ :- Demand(caller == admin);
    var config := EscrowConfig(registry, hook, treasury, feeBps, false, maxExpirySecs);
    Ok(Done(e.(admin := Some(admin), config := Some(config), stats := BLANK_ESCROW.stats), ledger, ()))
  }

  /** The admin's setters. */
  datatype EscrowChange =
    | SetAdmin(admin: Address)
    | SetFeeBps(feeBps: u32)
    | SetTreasury(treasury: Address)
    | SetAgentRegistry(registry: Address)
    | SetComplianceHook(hook: Address)
    | SetMaxExpiry(maxExpirySecs: nat)
    | SetPaused(paused: bool)

  function Configure(e: EscrowState, ledger: LedgerState, caller: Address, change: EscrowChange): EscrowResult<()> {
    var _ :- RequireAdmin(e, caller);
    match change
    case SetAdmin(next) => Ok(Done(e.(admin := Some(next)), ledger, ()))
    case SetFeeBps(feeBps) =>
      var _ :- Check(feeBps <= MAX_FEE_BPS, FeeTooHigh);
      var config :- LoadConfig(e);
      Ok(Done(e.(config := Some(config.(feeBps := feeBps))), ledger, ()))
    case SetTreasury(treasury) =>
      var config :- LoadConfig(e);
      Ok(Done(e.(config := Some(config.(treasury := treasury))), ledger, ()))
    case SetAgentRegistry(registry) =>
      var config :- LoadConfig(e);
      Ok(Done(e.(config := Some(config.(registry := registry))), ledger, ()))
    case SetComplianceHook(hook) =>
      var config :- LoadConfig(e);
      Ok(Done(e.(config := Some(config.(hook := hook))), ledger, ()))
    case SetMaxExpiry(secs) =>
      var _ :- Check(secs != 0, InvalidConfig);
      var config :- LoadConfig(e);
      Ok(Done(e.(config := Some(config.(maxExpirySecs := secs))), ledger, ()))
    case SetPaused(paused) =>
      var config :- LoadConfig(e);
      Ok(Done(e.(config := Some(config.(paused := paused))), ledger, ()))
  }

  /** How a compliance gate the model cannot see answers. */
  datatype GateAnswer = Approved | Refused | Unreachable

  /**
   The gate's answer, and the hook's state after it. The deployed hook evaluates and records;
   a typed refusal and a call that could not complete are kept apart. Any other address is a
   contract outside the model, whose answer is an input.
   */
  function CommitVolume(config: EscrowConfig, hook: C.HookState, ledger: LedgerState, foreign: GateAnswer,
                        sender: Address, amount: int, corridor: Symbol): Result<C.HookState, EscrowError>
  {
    if config.hook == HOOK then
      match C.CommitTransfer(hook, ledger, ESCROW, sender, amount, corridor)
      case Ok(done) => Ok(done.state)
      case Err(_) => Err(ComplianceRefused)
      case Trap => Err(ComplianceCallFailed)
    else
      match foreign
      case Approved => Ok(hook)
      case Refused => Err(ComplianceRefused)
      case Unreachable => Err(ComplianceCallFailed)
  }

  /** A creation also moves the hook, which recorded the volume before the tokens moved. */
  datatype CreatedState = CreatedState(escrow: EscrowState, hook: C.HookState)

  function CreateTransfer(e: EscrowState, hook: C.HookState, ledger: LedgerState, caller: Address, foreign: GateAnswer,
                          sender: Address, amount: i128, token: Address, claimHash: Bytes32, corridor: Symbol, expiry: nat)
    : Result<Done<CreatedState, nat>, EscrowError>
  {
    var _ :- Demand(caller == sender);
    var config :- LoadConfig(e);
    var _ :- Check(!config.paused, Paused);
    var _ :- Check(0 < amount, InvalidAmount);
    var _ :- Check(ledger.now < expiry, InvalidExpiry);
    var _ :- Check(expiry - ledger.now <= config.maxExpirySecs, ExpiryTooFar);
    var hook' :- CommitVolume(config, hook, ledger, foreign, sender, amount, corridor);
    var done :- LockFunds(e, ledger, NewTransfer(e, ledger.now, sender, amount, token, claimHash, corridor, expiry));
    Ok(Done(CreatedState(done.state, hook'), done.ledger, done.value))
  }

  /** The record a creation files, under the next id. */
  function NewTransfer(e: EscrowState, now: nat, sender: Address, amount: int, token: Address, claimHash: Bytes32,
                       corridor: Symbol, expiry: nat): Transfer
  {
    Transfer(e.lastId + 1, sender, amount, token, claimHash, corridor, expiry, Pending, now, 0, None)
  }

  /** Pulls the tokens in, files the record and announces it; the id counter is a u64 and traps at its end. */
  function LockFunds(e: EscrowState, ledger: LedgerState, t: Transfer): EscrowResult<nat> {
    var ledger' :- ledger.Move(t.token, t.sender, ESCROW, t.amount);
    var _ :- Demand(e.lastId < U64_MAX);
    var recorded :- RecordCreation(e, t);
    var event := TransferCreated(t.id, t.sender, t.corridor, t.amount, t.token, t.claimHash, t.expiry);
    Ok(Done(recorded, ledger'.Publish(event), t.id))
  }

  /** Files a new record under the next id, indexes it by sender, and counts it. */
  function RecordCreation(e: EscrowState, t: Transfer): Result<EscrowState, EscrowError> {
    var locked :- Checked(e.stats.volumeLocked + t.amount, Overflow);
    Ok(e.(lastId := t.id,
          transfers := e.transfers[t.id := t],
          senderTransfers := e.senderTransfers[t.sender := LookupOr(e.senderTransfers, t.sender, []) + [t.id]],
          stats := e.stats.(created := Increment(e.stats.created), volumeLocked := locked)))
  }

  /** Returns held funds to the sender and records the outcome. */
  function Release(e: EscrowState, ledger: LedgerState, t: Transfer, status: TransferStatus): EscrowResult<Transfer> {
    var ledger' :- ledger.Move(t.token, ESCROW, t.sender, t.amount);
    var settled := t.(status := status, settledAt := ledger.now);
    Ok(Done(e.(transfers := e.transfers[t.id := settled]), ledger', settled))
  }

  function CancelTransfer(e: EscrowState, ledger: LedgerState, caller: Address, sender: Address, id: nat): EscrowResult<()> {
    var _ :- Demand(caller == sender);
    var t :- LoadTransfer(e, id);
    var _ :- Check(t.sender == sender, Unauthorized);
    var _ :- Check(t.IsPending(), TransferNotPending);
    var released :- Release(e, ledger, t, Cancelled);
    var locked :- Plain(e.stats.volumeLocked - t.amount);
    var stats := e.stats.(cancelled := Increment(e.stats.cancelled), volumeLocked := locked);
    Ok(Done(released.state.(stats := stats),
            released.ledger.Publish(TransferCancelled(id, t.sender, t.corridor, t.amount)), ()))
  }

  /** Open to anyone; the money goes to the recorded sender. */
  function RefundExpired(e: EscrowState, ledger: LedgerState, id: nat): EscrowResult<()> {
    var t :- LoadTransfer(e, id);
    var _ :- Check(t.IsPending(), TransferNotPending);
    var _ :- Check(t.HasExpired(ledger.now), TransferNotExpired);
    var released :- Release(e, ledger, t, Refunded);
    var locked :- Plain(e.stats.volumeLocked - t.amount);
    var stats := e.stats.(refunded := Increment(e.stats.refunded), volumeLocked := locked);
    Ok(Done(released.state.(stats := stats),
            released.ledger.Publish(TransferRefunded(id, t.sender, t.corridor, t.amount)), ()))
  }

  /** The registry's reply on the claimant; `NoAnswer` is a call that failed or could not be decoded. */
  datatype AgentAnswer = Allowed | Denied | NoAnswer

  function CheckAgent(answer: AgentAnswer): Outcome<EscrowError> {
    match answer
    case Allowed => Pass
    case Denied => Fail(AgentNotAuthorized)
    case NoAnswer => Fail(RegistryCallFailed)
  }

  function ClaimTransfer(e: EscrowState, ledger: LedgerState, caller: Address, sha256: Bytes32 -> Bytes32,
                         answer: AgentAnswer, agent: Address, id: nat, code: Bytes32): EscrowResult<ClaimReceipt>
  {
    var _ :- Demand(caller == agent);
    var config :- LoadConfig(e);
    var t :- LoadTransfer(e, id);
    var _ :- Check(t.IsPending(), TransferNotPending);
    var _ :- Check(!t.HasExpired(ledger.now), TransferExpired);
    var _ :- Check(t.sender != agent, SenderCannotClaim);
    var _ :- Check(sha256(code) == t.claimHash, InvalidClaimCode);
    var _ :- CheckAgent(answer);
    SettleClaim(e, ledger, config, t, agent)
  }

  /** Pays the agent net of the fee, pays the fee, and books the claim. */
  function SettleClaim(e: EscrowState, ledger: LedgerState, config: EscrowConfig, t: Transfer, agent: Address): EscrowResult<ClaimReceipt> {
    var fee :- FeeFor(t.amount, config.feeBps);
    var payout :- Plain(t.amount - fee);
    var paid :- PayClaim(ledger, t.token, agent, payout, config.treasury, fee);
    var booked :- BookClaim(e, t.(status := Claimed, settledAt := ledger.now, claimedBy := Some(agent)), fee);
    Ok(Done(booked, paid.Publish(TransferClaimed(t.id, agent, t.corridor, t.amount, fee, payout)),
            ClaimReceipt(t.id, agent, t.amount, fee, payout, ledger.now)))
  }

  function PayClaim(ledger: LedgerState, token: Address, agent: Address, payout: int, treasury: Address, fee: int)
    : Result<LedgerState, EscrowError>
  {
    var paid :- ledger.Move(token, ESCROW, agent, payout);
    if 0 < fee then paid.Move(token, ESCROW, treasury, fee) else Ok(paid)
  }

  function BookClaim(e: EscrowState, t: Transfer, fee: int): Result<EscrowState, EscrowError> {
    var locked :- Plain(e.stats.volumeLocked - t.amount);
    var settled :- Checked(e.stats.volumeSettled + t.amount, Overflow);
    var fees :- Checked(e.stats.feesCollected + fee, Overflow);
    Ok(e.(transfers := e.transfers[t.id := t],
          stats := e.stats.(claimed := Increment(e.stats.claimed), volumeLocked := locked,
                            volumeSettled := settled, feesCollected := fees)))
  }

  function QuoteClaim(e: EscrowState, id: nat): Result<ClaimQuote, EscrowError> {
    var config :- LoadConfig(e);
    var t :- LoadTransfer(e, id);
    var _ :- Check(t.IsPending(), TransferNotPending);
    var fee :- FeeFor(t.amount, config.feeBps);
    var payout :- Plain(t.amount - fee);
    Ok(ClaimQuote(id, t.amount, fee, payout))
  }

  /* ------------------------------ invariants ------------------------------ */

  function PendingIn(token: Address): (nat, Transfer) -> int {
    (id: nat, t: Transfer) => if t.IsPending() && t.token == token then t.amount else 0
  }

  function PendingAmount(): (nat, Transfer) -> int {
    (id: nat, t: Transfer) => if t.IsPending() then t.amount else 0
  }

  function ClaimedAmount(): (nat, Transfer) -> int {
    (id: nat, t: Transfer) => if t.status == Claimed then t.amount else 0
  }

  function Having(status: TransferStatus): (nat, Transfer) -> int {
    (id: nat, t: Transfer) => if t.status == status then 1 else 0
  }

  /** How many transfers are in a status. */
  ghost function Count(e: EscrowState, status: TransferStatus): int {
    Total(e.transfers, Having(status))
  }

  /** What the escrow owes in a token: everything pending in it. */
  ghost function Owed(e: EscrowState, token: Address): int {
    Total(e.transfers, PendingIn(token))
  }

  predicate RecordSound(t: Transfer) {
    && 0 < t.amount
    && t.createdAt < t.expiry
    && (t.IsPending() ==> t.settledAt == 0)
    && (t.status == Claimed <==> t.claimedBy.Some?)
    && (t.status == Claimed ==> t.settledAt <= t.expiry && t.claimedBy != Some(t.sender))
    && (t.status == Refunded ==> t.expiry < t.settledAt)
  }

  ghost predicate RecordsSound(e: EscrowState) {
    && (forall id :: id in e.transfers <==> 1 <= id <= e.lastId)
    && (forall id :: id in e.transfers ==> e.transfers[id].id == id && RecordSound(e.transfers[id]))
    && |e.transfers| == e.lastId
  }

  /** A sender's list holds exactly that sender's ids, oldest first. */
  ghost predicate ListSound(e: EscrowState, sender: Address, list: seq<nat>) {
    && (forall i :: 0 <= i < |list| ==> list[i] in e.transfers && e.transfers[list[i]].sender == sender)
    && (forall i, j :: 0 <= i < j < |list| ==> list[i] < list[j])
    && (forall id :: id in e.transfers && e.transfers[id].sender == sender ==> id in list)
  }

  ghost predicate ListsSound(e: EscrowState) {
    forall sender :: ListSound(e, sender, LookupOr(e.senderTransfers, sender, []))
  }

  ghost predicate CountersSound(e: EscrowState) {
    && e.stats.created == Shown(e.lastId)
    && e.stats.claimed == Shown(Count(e, Claimed))
    && e.stats.refunded == Shown(Count(e, Refunded))
    && e.stats.cancelled == Shown(Count(e, Cancelled))
    && e.stats.volumeLocked == Total(e.transfers, PendingAmount()) <= I128_MAX
    && e.stats.volumeSettled == Total(e.transfers, ClaimedAmount()) <= I128_MAX
    && 0 <= e.stats.feesCollected
    && 10_000 * e.stats.feesCollected <= 500 * e.stats.volumeSettled
  }

  ghost predicate EscrowInv(e: EscrowState) {
    && RecordsSound(e) && ListsSound(e) && CountersSound(e)
    && (e.admin.None? ==> e == BLANK_ESCROW)
    && (e.admin.Some? ==> e.config.Some? && e.config.value.feeBps <= 500)
  }

  /** A record keeps what identifies it for good, and once settled it never changes again. */
  predicate Evolves(before: Transfer, after: Transfer) {
    && after == before.(status := after.status, settledAt := after.settledAt, claimedBy := after.claimedBy)
    && (!before.IsPending() ==> after == before)
  }

  lemma PutTransfer(e: EscrowState, id: nat, t: Transfer)
    ensures var m, old', now := e.transfers, id in e.transfers, e.transfers[id := t];
            && (forall token :: Total(now, PendingIn(token)) == Total(m, PendingIn(token))
                  - (if old' then PendingIn(token)(id, m[id]) else 0) + PendingIn(token)(id, t))
            && Total(now, PendingAmount()) == Total(m, PendingAmount())
                 - (if old' then PendingAmount()(id, m[id]) else 0) + PendingAmount()(id, t)
            && Total(now, ClaimedAmount()) == Total(m, ClaimedAmount())
                 - (if old' then ClaimedAmount()(id, m[id]) else 0) + ClaimedAmount()(id, t)
            && (forall status :: Total(now, Having(status)) == Total(m, Having(status))
                  - (if old' then Having(status)(id, m[id]) else 0) + Having(status)(id, t))
  {
    forall token ensures Total(e.transfers[id := t], PendingIn(token)) == Total(e.transfers, PendingIn(token))
        - (if id in e.transfers then PendingIn(token)(id, e.transfers[id]) else 0) + PendingIn(token)(id, t)
    {
      TotalPut(e.transfers, PendingIn(token), id, t);
    }
    forall status ensures Total(e.transfers[id := t], Having(status)) == Total(e.transfers, Having(status))
        - (if id in e.transfers then Having(status)(id, e.transfers[id]) else 0) + Having(status)(id, t)
    {
      TotalPut(e.transfers, Having(status), id, t);
    }
    TotalPut(e.transfers, PendingAmount(), id, t);
    TotalPut(e.transfers, ClaimedAmount(), id, t);
  }

  lemma CountsNonNegative(e: EscrowState)
    ensures forall status :: 0 <= Count(e, status)
  {
    forall status ensures 0 <= Count(e, status) {
      TotalNonNegative(e.transfers, Having(status));
    }
  }

  /** Every transfer is in exactly one status, so created = claimed + refunded + cancelled + pending. */
  lemma StatusesPartition(e: EscrowState)
    requires RecordsSound(e)
    ensures e.lastId == Count(e, Claimed) + Count(e, Refunded) + Count(e, Cancelled) + Count(e, Pending)
  {
    var settled := (id: nat, t: Transfer) => Having(Claimed)(id, t) + Having(Refunded)(id, t);
    var open := (id: nat, t: Transfer) => Having(Cancelled)(id, t) + Having(Pending)(id, t);
    var all := (id: nat, t: Transfer) => 1;
    TotalPlus(e.transfers, Having(Claimed), Having(Refunded), settled);
    TotalPlus(e.transfers, Having(Cancelled), Having(Pending), open);
    TotalPlus(e.transfers, settled, open, all);
    TotalOnes(e.transfers, all);
  }

  lemma RecordCreationKeepsLists(e: EscrowState, next: EscrowState, t: Transfer)
    requires RecordsSound(e) && ListsSound(e) && t.id == e.lastId + 1
    requires next.transfers == e.transfers[t.id := t]
    requires next.senderTransfers == e.senderTransfers[t.sender := LookupOr(e.senderTransfers, t.sender, []) + [t.id]]
    ensures ListsSound(next)
  {
    forall sender ensures ListSound(next, sender, LookupOr(next.senderTransfers, sender, [])) {
      var before := LookupOr(e.senderTransfers, sender, []);
      assert ListSound(e, sender, before);
      if sender == t.sender {
        var list := before + [t.id];
        assert list[|list| - 1] == t.id;
        forall id | id in next.transfers && next.transfers[id].sender == sender ensures id in list {
          assert id == t.id || id in before;
        }
      }
    }
  }

  lemma RecordCreationKeepsCounters(e: EscrowState, t: Transfer)
    requires CountersSound(e) && t.id == e.lastId + 1 && t.id !in e.transfers && t.IsPending()
    requires RecordCreation(e, t).Ok?
    ensures CountersSound(RecordCreation(e, t).value)
    ensures forall token :: Owed(RecordCreation(e, t).value, token) == Owed(e, token) + (if t.token == token then t.amount else 0)
  {
    PutTransfer(e, t.id, t);
  }

  lemma FilingKeepsRecords(e: EscrowState, next: EscrowState, t: Transfer)
    requires RecordsSound(e) && t.id == e.lastId + 1 && RecordSound(t)
    requires next.lastId == t.id && next.transfers == e.transfers[t.id := t]
    ensures RecordsSound(next)
  {
    assert |next.transfers| == |e.transfers| + 1 by {
      assert t.id !in e.transfers;
      assert next.transfers.Keys == e.transfers.Keys + {t.id};
      assert |next.transfers.Keys| == |e.transfers.Keys| + 1;
    }
    forall id ensures id in next.transfers <==> 1 <= id <= next.lastId {
      assert id in next.transfers <==> id in e.transfers || id == t.id;
    }
  }

  /** Filing a sound pending record under the next id keeps the invariant. */
  lemma RecordCreationKeepsInv(e: EscrowState, t: Transfer)
    requires EscrowInv(e) && e.admin.Some?
    requires t.id == e.lastId + 1 && t.IsPending() && RecordSound(t)
    requires RecordCreation(e, t).Ok?
    ensures EscrowInv(RecordCreation(e, t).value)
    ensures forall token :: Owed(RecordCreation(e, t).value, token) == Owed(e, token) + (if t.token == token then t.amount else 0)
  {
    var next := RecordCreation(e, t).value;
    RecordCreationKeepsCounters(e, t);
    RecordCreationKeepsLists(e, next, t);
    FilingKeepsRecords(e, next, t);
  }

  /** Settling one pending record, with the matching counters. */
  ghost predicate Settles(e: EscrowState, next: EscrowState, t: Transfer, fee: int) {
    && t.id in e.transfers && e.transfers[t.id].IsPending() && !t.IsPending()
    && Evolves(e.transfers[t.id], t) && RecordSound(t)
    && next == e.(transfers := e.transfers[t.id := t], stats := next.stats)
    && next.stats == EscrowStats(
         e.stats.created,
         if t.status == Claimed then Increment(e.stats.claimed) else e.stats.claimed,
         if t.status == Refunded then Increment(e.stats.refunded) else e.stats.refunded,
         if t.status == Cancelled then Increment(e.stats.cancelled) else e.stats.cancelled,
         e.stats.volumeLocked - t.amount,
         if t.status == Claimed then e.stats.volumeSettled + t.amount else e.stats.volumeSettled,
         e.stats.feesCollected + fee)
    && next.stats.volumeSettled <= I128_MAX
    && 0 <= fee && 10_000 * fee <= (if t.status == Claimed then 500 * t.amount else 0)
  }

  lemma SettlesKeepsCounters(e: EscrowState, next: EscrowState, t: Transfer, fee: int)
    requires CountersSound(e) && Settles(e, next, t, fee)
    requires forall id :: id in e.transfers ==> RecordSound(e.transfers[id])
    ensures CountersSound(next)
    ensures forall token :: Owed(next, token) == Owed(e, token) - (if t.token == token then t.amount else 0)
  {
    PutTransfer(e, t.id, t);
    CountsNonNegative(e);
  }

  lemma SettlesKeepsInv(e: EscrowState, next: EscrowState, t: Transfer, fee: int)
    requires EscrowInv(e) && e.admin.Some? && Settles(e, next, t, fee)
    ensures EscrowInv(next)
    ensures forall token :: Owed(next, token) == Owed(e, token) - (if t.token == token then t.amount else 0)
  {
    SettlesKeepsCounters(e, next, t, fee);
    assert next.transfers.Keys == e.transfers.Keys;
    assert |next.transfers| == |e.transfers| by { assert |next.transfers.Keys| == |e.transfers.Keys|; }
    forall sender ensures ListSound(next, sender, LookupOr(next.senderTransfers, sender, [])) {
      assert ListSound(e, sender, LookupOr(e.senderTransfers, sender, []));
    }
  }

  lemma InitializeKeepsInv(e: EscrowState, ledger: LedgerState, caller: Address, admin: Address, registry: Address,
                           hook: Address, treasury: Address, feeBps: u32, maxExpirySecs: nat)
    requires EscrowInv(e)
    requires Initialize(e, ledger, caller, admin, registry, hook, treasury, feeBps, maxExpirySecs).Ok?
    ensures var next := Initialize(e, ledger, caller, admin, registry, hook, treasury, feeBps, maxExpirySecs).value.state;
            EscrowInv(next) && next.transfers == e.transfers == map[]
  {
    CountersAndListsDependOnlyOnRecords(e, Initialize(e, ledger, caller, admin, registry, hook, treasury, feeBps, maxExpirySecs).value.state);
  }

  lemma InitializeIsQuiet(e: EscrowState, ledger: LedgerState, caller: Address, admin: Address, registry: Address,
                          hook: Address, treasury: Address, feeBps: u32, maxExpirySecs: nat)
    requires Initialize(e, ledger, caller, admin, registry, hook, treasury, feeBps, maxExpirySecs).Ok?
    ensures var done := Initialize(e, ledger, caller, admin, registry, hook, treasury, feeBps, maxExpirySecs).value;
            done.ledger == ledger && done.state.transfers == e.transfers
            && done.state.config.Some? && done.state.config.value.hook == hook
  {
  }

  lemma ConfigureIsQuiet(e: EscrowState, ledger: LedgerState, caller: Address, change: EscrowChange)
    requires Configure(e, ledger, caller, change).Ok?
    ensures var done := Configure(e, ledger, caller, change).value;
            && done.ledger == ledger
            && done.state == e.(admin := done.state.admin, config := done.state.config)
  {
  }

  lemma CountersAndListsDependOnlyOnRecords(e: EscrowState, next: EscrowState)
    requires EscrowInv(e) && next == e.(admin := next.admin, config := next.config)
    ensures RecordsSound(next) && ListsSound(next) && CountersSound(next)
  {
    forall sender ensures ListSound(next, sender, LookupOr(next.senderTransfers, sender, [])) {
      assert ListSound(e, sender, LookupOr(e.senderTransfers, sender, []));
    }
  }

  lemma ConfigureKeepsInv(e: EscrowState, ledger: LedgerState, caller: Address, change: EscrowChange)
    requires EscrowInv(e)
    requires Configure(e, ledger, caller, change).Ok?
    ensures EscrowInv(Configure(e, ledger, caller, change).value.state)
    ensures Configure(e, ledger, caller, change).value.state.transfers == e.transfers
    ensures Configure(e, ledger, caller, change).value.ledger == ledger
  {
    CountersAndListsDependOnlyOnRecords(e, Configure(e, ledger, caller, change).value.state);
  }

  /** Creation: the gate first, then the tokens, then the record; any failure stops the rest. */
  lemma CreateEffect(e: EscrowState, hook: C.HookState, ledger: LedgerState, caller: Address, foreign: GateAnswer,
                     sender: Address, amount: i128, token: Address, claimHash: Bytes32, corridor: Symbol, expiry: nat)
    requires CreateTransfer(e, hook, ledger, caller, foreign, sender, amount, token, claimHash, corridor, expiry).Ok?
    ensures var done := CreateTransfer(e, hook, ledger, caller, foreign, sender, amount, token, claimHash, corridor, expiry).value;
            var t := NewTransfer(e, ledger.now, sender, amount, token, claimHash, corridor, expiry);
            var moved := ledger.Move<EscrowError>(token, sender, ESCROW, amount);
            && caller == sender && e.config.Some? && !e.config.value.paused && RecordSound(t)
            && CommitVolume(e.config.value, hook, ledger, foreign, sender, amount, corridor) == Ok(done.state.hook)
            && moved.Ok?
            && RecordCreation(e, t) == Ok(done.state.escrow)
            && done.value == t.id
            && done.ledger == moved.value.Publish(TransferCreated(t.id, sender, corridor, amount, token, claimHash, expiry))
  {
  }

  /** The settled form of a returned transfer. */
  function Returned(t: Transfer, status: TransferStatus, now: nat): Transfer {
    t.(status := status, settledAt := now)
  }

  lemma CancelEffect(e: EscrowState, ledger: LedgerState, caller: Address, sender: Address, id: nat)
    requires EscrowInv(e)
    requires CancelTransfer(e, ledger, caller, sender, id).Ok?
    ensures var done := CancelTransfer(e, ledger, caller, sender, id).value;
            && id in e.transfers
            && var t := e.transfers[id];
               var moved := ledger.Move<EscrowError>(t.token, ESCROW, t.sender, t.amount);
            && caller == sender == t.sender && moved.Ok?
            && Settles(e, done.state, Returned(t, Cancelled, ledger.now), 0)
            && done.ledger == moved.value.Publish(TransferCancelled(id, t.sender, t.corridor, t.amount))
  {
  }

  lemma RefundEffect(e: EscrowState, ledger: LedgerState, id: nat)
    requires EscrowInv(e)
    requires RefundExpired(e, ledger, id).Ok?
    ensures var done := RefundExpired(e, ledger, id).value;
            && id in e.transfers
            && var t := e.transfers[id];
               var moved := ledger.Move<EscrowError>(t.token, ESCROW, t.sender, t.amount);
            && t.HasExpired(ledger.now) && moved.Ok?
            && Settles(e, done.state, Returned(t, Refunded, ledger.now), 0)
            && done.ledger == moved.value.Publish(TransferRefunded(id, t.sender, t.corridor, t.amount))
  {
  }

  /** The fee is a share of the amount that never reaches it, and is capped at 5%. */
  lemma FeeWithinCap(amount: int, feeBps: nat)
    requires 0 < amount && feeBps <= 500 && FeeFor(amount, feeBps).Ok?
    ensures var fee := FeeFor(amount, feeBps).value;
            0 <= fee < amount && 10_000 * fee <= 500 * amount
            && 10_000 * fee <= amount * feeBps < 10_000 * (fee + 1)
  {
    ScaleOrder(feeBps, 500, amount);
  }

  /** A claim pays the agent and the treasury, out of the escrow, exactly the amount between them. */
  lemma ClaimEffect(e: EscrowState, ledger: LedgerState, caller: Address, sha256: Bytes32 -> Bytes32, answer: AgentAnswer,
                    agent: Address, id: nat, code: Bytes32)
    requires EscrowInv(e)
    requires ClaimTransfer(e, ledger, caller, sha256, answer, agent, id, code).Ok?
    ensures var done := ClaimTransfer(e, ledger, caller, sha256, answer, agent, id, code).value;
            && id in e.transfers && e.config.Some?
            && var t, fee, payout := e.transfers[id], done.value.fee, done.value.payout;
            && caller == agent != t.sender && !t.HasExpired(ledger.now)
            && sha256(code) == t.claimHash && answer == Allowed
            && 0 <= fee && 0 < payout && fee + payout == t.amount
            && 10_000 * fee <= t.amount * e.config.value.feeBps < 10_000 * (fee + 1)
            && Settles(e, done.state, t.(status := Claimed, settledAt := ledger.now, claimedBy := Some(agent)), fee)
            && PayClaim(ledger, t.token, agent, payout, e.config.value.treasury, fee).Ok?
            && done.ledger == PayClaim(ledger, t.token, agent, payout, e.config.value.treasury, fee).value
                 .Publish(TransferClaimed(id, agent, t.corridor, t.amount, fee, payout))
  {
    FeeWithinCap(e.transfers[id].amount, e.config.value.feeBps);
  }
}
