/**
 The event indexer: folds what the contracts announced into a table of transfers, with an audit
 row for each event and a cursor for each contract, in a process that may die between any two writes.
 */
module IndexerRules {
  import opened Prelude
  import opened Chain
  import E = EscrowRules

  datatype Source = EscrowSource | RegistrySource | HookSource | PoolSource

  const SOURCES := [EscrowSource, RegistrySource, HookSource, PoolSource]

  /** What the decoder makes of an event: a transfer event, one that is only filed, or nothing. */
  datatype Body = Transferred(event: TransferEvent) | Filed(topic: Symbol) | Undecodable

  datatype LogEntry = LogEntry(ledger: nat, closedAt: nat, txHash: string, body: Body)

  /** Everything each contract ever announces, in ledger order. */
  type Logs = map<Source, seq<LogEntry>>

  function LogOf(logs: Logs, c: Source): seq<LogEntry> { LookupOr(logs, c, []) }

  /** A row of the transfer table. */
  datatype TransferRow = TransferRow(
    senderId: nat, corridor: Symbol, amount: int, token: Address, claimHash: Bytes32, expiryMillis: int,
    status: E.TransferStatus, createdAt: nat, createTxHash: string,
    settledAt: Option<nat>, settleTxHash: Option<string>,
    claimedBy: Option<Address>, fee: Option<int>, payout: Option<int>, agentId: Option<nat>)

  type TransferTable = map<nat, TransferRow>

  datatype EventKey = EventKey(contract: Source, ledger: nat, index: nat)

  datatype AuditRow = AuditRow(entry: LogEntry, transferId: Option<nat>)

  datatype Db = Db(transfers: TransferTable, audit: map<EventKey, AuditRow>, cursors: map<Source, nat>)

  const EMPTY_DB := Db(map[], map[], map[])

  /** The tables the projection looks things up in. */
  datatype Directory = Directory(users: map<Address, nat>, corridors: set<Symbol>, agents: map<Address, nat>) {
    predicate Knows(sender: Address, corridor: Symbol) { sender in users && corridor in corridors }
  }

  /** Where a contract with no cursor starts: at a given ledger, or at whatever is latest. */
  datatype StartLedger = At(ledger: nat) | Latest

  const FETCH_LIMIT: nat := 200

  function InRange(log: seq<LogEntry>, from: int, to: int): seq<LogEntry> {
    if log == [] then []
    else
      var rest, last := InRange(log[..|log| - 1], from, to), log[|log| - 1];
      if from <= last.ledger <= to then rest + [last] else rest
  }

  /** One request: the first 200 events of the range; an event's index is its place in the answer. */
  function FetchEvents(log: seq<LogEntry>, from: int, to: int): seq<LogEntry> {
    var all := InRange(log, from, to);
    if FETCH_LIMIT < |all| then all[..FETCH_LIMIT] else all
  }

  function FromLedger(start: StartLedger, db: Db, c: Source, tip: nat): nat {
    if c in db.cursors then db.cursors[c] + 1
    else match start
      case At(ledger) => ledger
      case Latest => tip
  }

  /* ------------------------------ projections ------------------------------ */

  /** Insert or, for a row already there, back to pending under this transaction. */
  function ProjectCreated(dir: Directory, t: TransferTable, entry: LogEntry, event: TransferEvent): TransferTable
    requires event.TransferCreated?
  {
    if !dir.Knows(event.sender, event.corridor) then t
    else if event.id in t then t[event.id := t[event.id].(status := E.Pending, createTxHash := entry.txHash)]
    else
      t[event.id := TransferRow(dir.users[event.sender], event.corridor, event.amount, event.token, event.claimHash,
                                event.expiry * 1_000, E.Pending, entry.closedAt, entry.txHash,
                                None, None, None, None, None, None)]
  }

  function Settled(row: TransferRow, entry: LogEntry, event: TransferEvent): TransferRow
    requires !event.TransferCreated?
  {
    var closed := row.(settledAt := Some(entry.closedAt), settleTxHash := Some(entry.txHash));
    match event
    case TransferClaimed(_, agent, _, _, fee, payout) =>
      closed.(status := E.Claimed, claimedBy := Some(agent), fee := Some(fee), payout := Some(payout))
    case TransferRefunded(_, _, _, _) => closed.(status := E.Refunded)
    case TransferCancelled(_, _, _, _) => closed.(status := E.Cancelled)
  }

  /** Only a row that exists is settled. */
  function ProjectSettled(t: TransferTable, entry: LogEntry, event: TransferEvent): TransferTable
    requires !event.TransferCreated?
  {
    if event.id in t then t[event.id := Settled(t[event.id], entry, event)] else t
  }

  /** The second write of a claim: the agent's row, if there is one. */
  function LinkAgent(dir: Directory, t: TransferTable, event: TransferEvent): TransferTable {
    if event.TransferClaimed? && event.id in t && event.agent in dir.agents
    then t[event.id := t[event.id].(agentId := Some(dir.agents[event.agent]))]
    else t
  }

  function FirstWrite(dir: Directory, t: TransferTable, entry: LogEntry): TransferTable {
    match entry.body
    case Transferred(event) => if event.TransferCreated? then ProjectCreated(dir, t, entry, event) else ProjectSettled(t, entry, event)
    case _ => t
  }

  /** The whole effect of an event on the transfer table. */
  function Project(dir: Directory, t: TransferTable, entry: LogEntry): TransferTable {
    match entry.body
    case Transferred(event) => LinkAgent(dir, FirstWrite(dir, t, entry), event)
    case _ => t
  }

  /** The id to link an audit row to: only a row that exists. */
  function LinkableId(t: TransferTable, entry: LogEntry): Option<nat> {
    match entry.body
    case Transferred(event) => if event.id in t then Some(event.id) else None
    case _ => None
  }

  /* ------------------------------ a process that may die ------------------------------ */

  /** The database, and how many more writes the process lives to make. */
  datatype Process = Process(db: Db, life: nat)

  datatype Fate = Alive(process: Process) | Dead(db: Db) {
    predicate IsFailure() { Dead? }

    function PropagateFailure(): Fate
      requires Dead?
    {
      this
    }

    function Extract(): Process
      requires Alive?
    {
      process
    }

    function Database(): Db { if Dead? then db else process.db }
  }

  /** One write: it happens whole, or the process dies first. */
  function Write(p: Process, next: Db): Fate {
    if p.life == 0 then Dead(p.db) else Alive(Process(next, p.life - 1))
  }

  /** The first write of a projection, if it has one. */
  function WriteFirst(dir: Directory, p: Process, entry: LogEntry): Fate {
    match entry.body
    case Transferred(event) =>
      if (if event.TransferCreated? then dir.Knows(event.sender, event.corridor) else event.id in p.db.transfers)
      then Write(p, p.db.(transfers := FirstWrite(dir, p.db.transfers, entry)))
      else Alive(p)
    case _ => Alive(p)
  }

  function WriteSecond(dir: Directory, p: Process, entry: LogEntry): Fate {
    match entry.body
    case Transferred(event) =>
      if event.TransferClaimed? && event.id in p.db.transfers && event.agent in dir.agents
      then Write(p, p.db.(transfers := LinkAgent(dir, p.db.transfers, event)))
      else Alive(p)
    case _ => Alive(p)
  }

  /** Project first, then the audit row; an event already audited is left alone. */
  function Persist(dir: Directory, c: Source, p: Process, entry: LogEntry, index: nat): Fate {
    var key := EventKey(c, entry.ledger, index);
    if entry.body.Undecodable? || key in p.db.audit then Alive(p)
    else
      var first :- WriteFirst(dir, p, entry);
      var projected :- WriteSecond(dir, first, entry);
      Write(projected, projected.db.(audit := projected.db.audit[key := AuditRow(entry, LinkableId(projected.db.transfers, entry))]))
  }

  /** The events from `i` on. */
  function PersistFrom(dir: Directory, c: Source, p: Process, events: seq<LogEntry>, i: nat): Fate
    requires i <= |events|
    decreases |events| - i
  {
    if i == |events| then Alive(p)
    else
      var next :- Persist(dir, c, p, events[i], i);
      PersistFrom(dir, c, next, events, i + 1)
  }

  /** One contract's part of a tick: the batch, then the cursor. */
  function IndexSource(dir: Directory, start: StartLedger, logs: Logs, tip: nat, c: Source, p: Process): Fate {
    var from := FromLedger(start, p.db, c, tip);
    if tip < from then Alive(p)
    else
      var done :- PersistFrom(dir, c, p, FetchEvents(LogOf(logs, c), from, tip), 0);
      Write(done, done.db.(cursors := done.db.cursors[c := tip]))
  }

  function IndexSources(dir: Directory, start: StartLedger, logs: Logs, tip: nat, sources: seq<Source>, p: Process): Fate {
    if sources == [] then Alive(p)
    else
      var next :- IndexSource(dir, start, logs, tip, sources[0], p);
      IndexSources(dir, start, logs, tip, sources[1..], next)
  }

  function Tick(dir: Directory, start: StartLedger, logs: Logs, tip: nat, p: Process): Fate {
    IndexSources(dir, start, logs, tip, SOURCES, p)
  }
}
