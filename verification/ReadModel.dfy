/**
 The read model against the chain: what the escrow announces along any run, folded, is exactly
 what its records say, and so is the indexer's table once a tick completes.
 */
module ReadModel {
  import opened Prelude
  import opened Chain
  import opened Network
  import opened IndexerRules
  import Custody
  import Settlement
  import CrashRecovery
  import C = ComplianceRules
  import E = EscrowRules
  import H = IndexerHistory

  function EntryOf(e: LoggedEvent): LogEntry {
    LogEntry(e.ledger, e.closedAt, e.txHash, Transferred(e.event))
  }

  /** The table that the chain's own events mean. */
  function Announced(dir: Directory, events: seq<LoggedEvent>): TransferTable {
    if events == [] then map[]
    else Project(dir, Announced(dir, events[..|events| - 1]), EntryOf(events[|events| - 1]))
  }

  /** A row says what the record says, and links the claimant where the directory has one. */
  predicate RowAgrees(dir: Directory, row: TransferRow, t: E.Transfer) {
    && t.sender in dir.users && t.corridor in dir.corridors
    && row.senderId == dir.users[t.sender]
    && row.corridor == t.corridor && row.amount == t.amount && row.token == t.token
    && row.claimHash == t.claimHash && row.expiryMillis == t.expiry * 1_000
    && row.createdAt == t.createdAt
    && row.status == t.status
    && row.settledAt == (if t.status == E.Pending then None else Some(t.settledAt))
    && row.claimedBy == t.claimedBy
    && row.agentId == (if t.claimedBy.Some? && t.claimedBy.value in dir.agents then Some(dir.agents[t.claimedBy.value]) else None)
    && (if t.status == E.Claimed
        then row.fee.Some? && row.payout.Some? && 0 <= row.fee.value && row.fee.value + row.payout.value == t.amount
        else row.fee.None? && row.payout.None?)
  }

  /** A row for every transfer of a known sender in a known corridor, for no other, each agreeing. */
  ghost predicate TableAgrees(dir: Directory, table: TransferTable, e: E.EscrowState) {
    && (forall id :: id in table <==>
          id in e.transfers && e.transfers[id].sender in dir.users && e.transfers[id].corridor in dir.corridors)
    && (forall id :: id in table ==> RowAgrees(dir, table[id], e.transfers[id]))
  }

  /** A creation whose sender or corridor the directory does not have leaves every row as it was, however far it gets. */
  lemma UnknownPartyGetsNoRow(dir: Directory, c: Source, p: Process, entry: LogEntry, index: nat)
    requires entry.body.Transferred? && entry.body.event.TransferCreated?
    requires entry.body.event.sender !in dir.users || entry.body.event.corridor !in dir.corridors
    ensures Project(dir, p.db.transfers, entry) == p.db.transfers
    ensures Persist(dir, c, p, entry, index).Database().transfers == p.db.transfers
  {
    assert WriteFirst(dir, p, entry) == Alive(p);
  }

  /** The audit row filed with an event holds it as it came, and links a transfer exactly when that transfer has a row. */
  lemma AuditRowLinks(dir: Directory, c: Source, p: Process, entry: LogEntry, index: nat)
    requires !entry.body.Undecodable? && EventKey(c, entry.ledger, index) !in p.db.audit
    requires Persist(dir, c, p, entry, index).Alive?
    ensures var db, key := Persist(dir, c, p, entry, index).process.db, EventKey(c, entry.ledger, index);
            && db.audit == p.db.audit[key := db.audit[key]]
            && db.audit[key].entry == entry
            && forall id: nat :: db.audit[key].transferId == Some(id)
                 <==> entry.body.Transferred? && entry.body.event.id == id && id in db.transfers
  {
    CrashRecovery.PersistFates(dir, c, p, entry, index);
  }

  lemma CreatedAgrees(dir: Directory, table: TransferTable, e: E.EscrowState, next: E.EscrowState, t: E.Transfer, entry: LogEntry)
    requires TableAgrees(dir, table, e) && t.id !in e.transfers && next.transfers == e.transfers[t.id := t]
    requires t.IsPending() && t.claimedBy.None? && entry.closedAt == t.createdAt
    requires entry.body == Transferred(TransferCreated(t.id, t.sender, t.corridor, t.amount, t.token, t.claimHash, t.expiry))
    ensures TableAgrees(dir, Project(dir, table, entry), next)
  {
  }

  /** The event that announces a settlement. */
  predicate Announces(event: TransferEvent, t: E.Transfer, fee: int) {
    match event
    case TransferCreated(_, _, _, _, _, _, _) => false
    case TransferClaimed(id, agent, _, _, f, payout) =>
      t.status == E.Claimed && id == t.id && t.claimedBy == Some(agent) && f == fee && f + payout == t.amount
    case TransferRefunded(id, _, _, _) => t.status == E.Refunded && id == t.id
    case TransferCancelled(id, _, _, _) => t.status == E.Cancelled && id == t.id
  }

  lemma SettledAgrees(dir: Directory, table: TransferTable, e: E.EscrowState, next: E.EscrowState, t: E.Transfer, fee: int, entry: LogEntry)
    requires TableAgrees(dir, table, e) && E.Settles(e, next, t, fee)
    requires E.RecordSound(e.transfers[t.id])
    requires entry.body.Transferred? && Announces(entry.body.event, t, fee) && entry.closedAt == t.settledAt
    ensures TableAgrees(dir, Project(dir, table, entry), next)
  {
  }

  ghost predicate Agrees(dir: Directory, w: World) {
    TableAgrees(dir, Announced(dir, w.ledger.events), w.escrow)
  }

  lemma AnnouncedOneMore(dir: Directory, events: seq<LoggedEvent>, e: LoggedEvent)
    ensures Announced(dir, events + [e]) == Project(dir, Announced(dir, events), EntryOf(e))
  {
    assert (events + [e])[..|events|] == events;
  }

  /** A creation, with the one event that announces it. */
  lemma CreationAgrees(dir: Directory, w: World, next: World, t: E.Transfer)
    requires E.RecordsSound(w.escrow) && Agrees(dir, w) && t.id == w.escrow.lastId + 1
    requires t.IsPending() && t.claimedBy.None? && t.createdAt == w.ledger.now
    requires next.escrow.transfers == w.escrow.transfers[t.id := t]
    requires next.ledger.events == w.ledger.events + [LoggedEvent(w.ledger.sequence, w.ledger.now, w.ledger.txHash,
               TransferCreated(t.id, t.sender, t.corridor, t.amount, t.token, t.claimHash, t.expiry))]
    ensures Agrees(dir, next)
  {
    var event := next.ledger.events[|w.ledger.events|];
    AnnouncedOneMore(dir, w.ledger.events, event);
    CreatedAgrees(dir, Announced(dir, w.ledger.events), w.escrow, next.escrow, t, EntryOf(event));
  }

  lemma CreateAgrees(dir: Directory, w: World, caller: Address, foreign: Foreign, call: EscrowCall)
    requires E.RecordsSound(w.escrow) && Agrees(dir, w) && call.CreateTransfer? && CallEscrow(w, caller, foreign, call).Some?
    ensures Agrees(dir, CallEscrow(w, caller, foreign, call).value)
  {
    E.CreateEffect(w.escrow, w.hook, w.ledger, caller, foreign.gate, call.sender, call.amount, call.token,
                   call.claimHash, call.corridor, call.expiry);
    var t := E.NewTransfer(w.escrow, w.ledger.now, call.sender, call.amount, call.token, call.claimHash, call.corridor, call.expiry);
    CreationAgrees(dir, w, CallEscrow(w, caller, foreign, call).value, t);
  }

  /** A settlement, with the one event that announces it. */
  lemma SettlementAgrees(dir: Directory, w: World, next: World, t: E.Transfer, fee: int, event: TransferEvent)
    requires E.RecordsSound(w.escrow) && Agrees(dir, w) && E.Settles(w.escrow, next.escrow, t, fee)
    requires Announces(event, t, fee) && t.settledAt == w.ledger.now
    requires next.ledger.events == w.ledger.events + [LoggedEvent(w.ledger.sequence, w.ledger.now, w.ledger.txHash, event)]
    ensures Agrees(dir, next)
  {
    var logged := LoggedEvent(w.ledger.sequence, w.ledger.now, w.ledger.txHash, event);
    AnnouncedOneMore(dir, w.ledger.events, logged);
    SettledAgrees(dir, Announced(dir, w.ledger.events), w.escrow, next.escrow, t, fee, EntryOf(logged));
  }

  lemma CancelAgrees(dir: Directory, w: World, caller: Address, foreign: Foreign, call: EscrowCall)
    requires E.EscrowInv(w.escrow) && Agrees(dir, w) && call.CancelTransfer? && CallEscrow(w, caller, foreign, call).Some?
    ensures Agrees(dir, CallEscrow(w, caller, foreign, call).value)
  {
    E.CancelEffect(w.escrow, w.ledger, caller, call.sender, call.id);
    var t := w.escrow.transfers[call.id];
    SettlementAgrees(dir, w, CallEscrow(w, caller, foreign, call).value, E.Returned(t, E.Cancelled, w.ledger.now), 0,
                     TransferCancelled(call.id, t.sender, t.corridor, t.amount));
  }

  lemma RefundAgrees(dir: Directory, w: World, caller: Address, foreign: Foreign, call: EscrowCall)
    requires E.EscrowInv(w.escrow) && Agrees(dir, w) && call.RefundExpired? && CallEscrow(w, caller, foreign, call).Some?
    ensures Agrees(dir, CallEscrow(w, caller, foreign, call).value)
  {
    E.RefundEffect(w.escrow, w.ledger, call.id);
    var t := w.escrow.transfers[call.id];
    SettlementAgrees(dir, w, CallEscrow(w, caller, foreign, call).value, E.Returned(t, E.Refunded, w.ledger.now), 0,
                     TransferRefunded(call.id, t.sender, t.corridor, t.amount));
  }

  lemma ClaimAgrees(dir: Directory, w: World, caller: Address, foreign: Foreign, call: EscrowCall)
    requires E.EscrowInv(w.escrow) && Agrees(dir, w) && call.ClaimTransfer? && CallEscrow(w, caller, foreign, call).Some?
    ensures Agrees(dir, CallEscrow(w, caller, foreign, call).value)
  {
    var answer := AskAgent(w.registry, w.escrow, foreign.agent, call.agent, call.id);
    E.ClaimEffect(w.escrow, w.ledger, caller, w.sha256, answer, call.agent, call.id, call.code);
    var receipt := E.ClaimTransfer(w.escrow, w.ledger, caller, w.sha256, answer, call.agent, call.id, call.code).value.value;
    var t := w.escrow.transfers[call.id];
    Settlement.PaysAnnouncesNothing(w.ledger, t.token, call.agent, receipt.payout, w.escrow.config.value.treasury, receipt.fee);
    SettlementAgrees(dir, w, CallEscrow(w, caller, foreign, call).value,
                     t.(status := E.Claimed, settledAt := w.ledger.now, claimedBy := Some(call.agent)), receipt.fee,
                     TransferClaimed(call.id, call.agent, t.corridor, t.amount, receipt.fee, receipt.payout));
  }

  lemma SetupAgrees(dir: Directory, w: World, caller: Address, foreign: Foreign, call: EscrowCall)
    requires E.EscrowInv(w.escrow) && Agrees(dir, w) && CallEscrow(w, caller, foreign, call).Some?
    requires call.InitializeEscrow? || call.ConfigureEscrow?
    ensures Agrees(dir, CallEscrow(w, caller, foreign, call).value)
  {
    Settlement.SetupIsQuiet(w, caller, foreign, call);
  }

  lemma EscrowCallAgrees(dir: Directory, w: World, caller: Address, foreign: Foreign, call: EscrowCall)
    requires E.EscrowInv(w.escrow) && Agrees(dir, w) && CallEscrow(w, caller, foreign, call).Some?
    ensures Agrees(dir, CallEscrow(w, caller, foreign, call).value)
  {
    match call
    case CreateTransfer(_, _, _, _, _, _) => CreateAgrees(dir, w, caller, foreign, call);
    case CancelTransfer(_, _) => CancelAgrees(dir, w, caller, foreign, call);
    case ClaimTransfer(_, _, _) => ClaimAgrees(dir, w, caller, foreign, call);
    case RefundExpired(_) => RefundAgrees(dir, w, caller, foreign, call);
    case _ => SetupAgrees(dir, w, caller, foreign, call);
  }

  lemma DispatchAgrees(dir: Directory, w: World, i: Invocation)
    requires E.EscrowInv(w.escrow) && Agrees(dir, w) && Dispatch(w, i.Caller(), i.foreign, i.call).Some?
    ensures Agrees(dir, Dispatch(w, i.Caller(), i.foreign, i.call).value)
  {
    match i.call
    case ToEscrow(call) => EscrowCallAgrees(dir, w, i.Caller(), i.foreign, call);
    case ToHook(call) => Settlement.HookKeepsRecords(w, i.Caller(), call);
    case ToRegistry(call) => Settlement.RegistryKeepsClock(w, i.Caller(), call);
    case ToPool(call) => Settlement.PoolKeepsClock(w, i.Caller(), i.foreign, call);
  }

  lemma StepAgrees(dir: Directory, w: World, a: Action)
    requires E.EscrowInv(w.escrow) && Agrees(dir, w)
    ensures Agrees(dir, Step(w, a))
  {
    if a.Invoke? && Succeeds(w, a.invocation) {
      DispatchAgrees(dir, InTransaction(w, a.invocation.txHash), a.invocation);
    }
  }

  /** Along every run the escrow's announcements, folded, are its records. */
  lemma {:induction false} AnnouncementsAreRecords(dir: Directory, start: World, actions: seq<Action>)
    requires Custody.Inv(start) && Agrees(dir, start)
    ensures Agrees(dir, After(start, actions))
    decreases |actions|
  {
    if actions != [] {
      var init := actions[..|actions| - 1];
      AnnouncementsAreRecords(dir, start, init);
      Custody.RunKeepsInv(start, init);
      StepAgrees(dir, After(start, init), actions[|actions| - 1]);
    }
  }

  /** The transfer events in a log, as the chain announced them. */
  function TransfersIn(log: seq<LogEntry>): seq<LoggedEvent> {
    if log == [] then []
    else
      var rest, last := TransfersIn(log[..|log| - 1]), log[|log| - 1];
      if last.body.Transferred? then rest + [LoggedEvent(last.ledger, last.closedAt, last.txHash, last.body.event)] else rest
  }

  /** Events that are only filed do not show in the table. */
  lemma {:induction false} FoldIsAnnounced(dir: Directory, log: seq<LogEntry>)
    ensures H.Fold(dir, log) == Announced(dir, TransfersIn(log))
  {
    if log != [] {
      var init, last := log[..|log| - 1], log[|log| - 1];
      FoldIsAnnounced(dir, init);
      if last.body.Transferred? {
        AnnouncedOneMore(dir, TransfersIn(init), LoggedEvent(last.ledger, last.closedAt, last.txHash, last.body.event));
      }
    }
  }

  /** The table after a completed tick is the one the chain's events mean. */
  lemma TableIsAnnounced(dir: Directory, events: seq<LoggedEvent>, logs: Logs, first: nat, attempts: seq<H.Attempt>, last: H.Attempt)
    requires H.Honest(logs) && H.Orderly(dir, logs, first, attempts + [last])
    requires TransfersIn(InRange(LogOf(logs, EscrowSource), first, last.tip)) == events
    requires H.Attempted(dir, logs, first, H.Rundown(dir, logs, first, attempts), last).Alive?
    ensures H.Rundown(dir, logs, first, attempts + [last]).transfers == Announced(dir, events)
  {
    H.TablesAfterAnyHistory(dir, logs, first, attempts, last);
    FoldIsAnnounced(dir, InRange(LogOf(logs, EscrowSource), first, last.tip));
  }

  /** The event a row was created from, and the one that settled it. */
  predicate CreatedBy(row: TransferRow, id: nat, e: LoggedEvent) {
    e.event.TransferCreated? && e.event.id == id && row.createTxHash == e.txHash
  }

  predicate SettledBy(row: TransferRow, id: nat, e: LoggedEvent) {
    && !e.event.TransferCreated? && e.event.id == id
    && row.settleTxHash == Some(e.txHash) && row.settledAt == Some(e.closedAt)
    && (e.event.TransferClaimed? ==>
          row.claimedBy == Some(e.event.agent) && row.fee == Some(e.event.fee) && row.payout == Some(e.event.payout))
  }

  /** A row names the transaction that announced its transfer and, once settled, the one that announced that. */
  ghost predicate NamesTransactions(row: TransferRow, id: nat, events: seq<LoggedEvent>) {
    && (exists k :: 0 <= k < |events| && CreatedBy(row, id, events[k]))
    && (row.settleTxHash.Some? <==> row.settledAt.Some?)
    && (row.settledAt.Some? ==> exists k :: 0 <= k < |events| && SettledBy(row, id, events[k]))
  }

  ghost predicate AllNameTransactions(table: TransferTable, events: seq<LoggedEvent>) {
    forall id :: id in table ==> NamesTransactions(table[id], id, events)
  }

  lemma OneRowIsNamed(dir: Directory, table: TransferTable, events: seq<LoggedEvent>, e: LoggedEvent, id: nat)
    requires AllNameTransactions(table, events) && id in Project(dir, table, EntryOf(e))
    ensures NamesTransactions(Project(dir, table, EntryOf(e))[id], id, events + [e])
  {
    var row, all := Project(dir, table, EntryOf(e))[id], events + [e];
    assert all[|events|] == e;
    if id in table {
      var k :| 0 <= k < |events| && CreatedBy(table[id], id, events[k]);
      assert all[k] == events[k];
      assert CreatedBy(row, id, all[k]) || CreatedBy(row, id, all[|events|]);
      if table[id].settledAt.Some? {
        var j :| 0 <= j < |events| && SettledBy(table[id], id, events[j]);
        assert all[j] == events[j];
        assert SettledBy(row, id, all[j]) || SettledBy(row, id, all[|events|]);
      } else if row.settledAt.Some? {
        assert SettledBy(row, id, all[|events|]);
      }
    } else {
      assert CreatedBy(row, id, all[|events|]);
    }
  }

  lemma {:induction false} AnnouncedNamesTransactions(dir: Directory, events: seq<LoggedEvent>)
    ensures AllNameTransactions(Announced(dir, events), events)
  {
    if events != [] {
      var init, last := events[..|events| - 1], events[|events| - 1];
      AnnouncedNamesTransactions(dir, init);
      assert events == init + [last];
      forall id | id in Announced(dir, events) ensures NamesTransactions(Announced(dir, events)[id], id, events) {
        OneRowIsNamed(dir, Announced(dir, init), init, last, id);
      }
    }
  }

  /**
   The read model agrees with the chain: after any run of the contracts and any history of the
   indexer, once a tick completes that has seen what the escrow announced, there is a row for
   each transfer of a known sender in a known corridor, for no other, and every row says what
   the record says: status, amount, claim hash, claimant, and fee plus payout equal to the amount.
   */
  lemma ReadModelAgreesWithChain(dir: Directory, start: World, actions: seq<Action>,
                                 logs: Logs, first: nat, attempts: seq<H.Attempt>, last: H.Attempt)
    requires Custody.Inv(start) && start.escrow.transfers == map[] && start.ledger.events == []
    requires H.Honest(logs) && H.Orderly(dir, logs, first, attempts + [last])
    requires TransfersIn(InRange(LogOf(logs, EscrowSource), first, last.tip)) == After(start, actions).ledger.events
    requires H.Attempted(dir, logs, first, H.Rundown(dir, logs, first, attempts), last).Alive?
    ensures TableAgrees(dir, H.Rundown(dir, logs, first, attempts + [last]).transfers, After(start, actions).escrow)
  {
    AnnouncementsAreRecords(dir, start, actions);
    TableIsAnnounced(dir, After(start, actions).ledger.events, logs, first, attempts, last);
  }

  /** And every row names the transactions on chain that created and settled its transfer, with the fee and payout announced. */
  lemma RowsNameTheirTransactions(dir: Directory, events: seq<LoggedEvent>, logs: Logs, first: nat,
                                  attempts: seq<H.Attempt>, last: H.Attempt)
    requires H.Honest(logs) && H.Orderly(dir, logs, first, attempts + [last])
    requires TransfersIn(InRange(LogOf(logs, EscrowSource), first, last.tip)) == events
    requires H.Attempted(dir, logs, first, H.Rundown(dir, logs, first, attempts), last).Alive?
    ensures AllNameTransactions(H.Rundown(dir, logs, first, attempts + [last]).transfers, events)
  {
    TableIsAnnounced(dir, events, logs, first, attempts, last);
    AnnouncedNamesTransactions(dir, events);
  }
}
