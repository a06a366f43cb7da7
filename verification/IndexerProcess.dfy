/** The indexer as the process that runs: its tables change one write at a time, until it dies. */
module IndexerProcess {
  import opened Prelude
  import opened Chain
  import opened IndexerRules
  import E = EscrowRules

  class Indexer {
    const dir: Directory
    const start: StartLedger
    var transfers: TransferTable
    var audit: map<EventKey, AuditRow>
    var cursors: map<Source, nat>
    var life: nat

    constructor (dir: Directory, start: StartLedger, process: Process)
      ensures this.dir == dir && this.start == start && State() == process
    {
      this.dir, this.start := dir, start;
      transfers, audit, cursors := process.db.transfers, process.db.audit, process.db.cursors;
      life := process.life;
    }

    function State(): Process
      reads this
    {
      Process(Db(transfers, audit, cursors), life)
    }

    /** The method ran as the rule says: alive and in the rule's state, or dead with the rule's tables. */
    ghost predicate Became(fate: Fate, alive: bool)
      reads this
    {
      && alive == fate.Alive?
      && State().db == fate.Database()
      && (alive ==> State() == fate.process)
    }

    /** Whether the process dies instead of making its next write. */
    method DiesFirst() returns (dead: bool)
      modifies this`life
      ensures dead == (old(life) == 0)
      ensures life == if dead then 0 else old(life) - 1
    {
      dead := life == 0;
      if !dead { life := life - 1; }
    }

    method ProjectTransferCreated(entry: LogEntry, event: TransferEvent) returns (alive: bool)
      requires entry.body == Transferred(event) && event.TransferCreated?
      modifies this`transfers, this`life
      ensures Became(WriteFirst(dir, old(State()), entry), alive)
    {
      if event.sender !in dir.users || event.corridor !in dir.corridors { return true; }
      var dead := DiesFirst();
      if dead { return false; }
      if event.id in transfers {
        transfers := transfers[event.id := transfers[event.id].(status := E.Pending, createTxHash := entry.txHash)];
      } else {
        transfers := transfers[event.id := TransferRow(
          dir.users[event.sender], event.corridor, event.amount, event.token, event.claimHash, event.expiry * 1_000,
          E.Pending, entry.closedAt, entry.txHash, None, None, None, None, None, None)];
      }
      return true;
    }

    method ProjectTransferSettled(entry: LogEntry, event: TransferEvent) returns (alive: bool)
      requires entry.body == Transferred(event) && !event.TransferCreated?
      modifies this`transfers, this`life
      ensures var first := WriteFirst(dir, old(State()), entry);
              Became(if first.Alive? then WriteSecond(dir, first.process, entry) else first, alive)
    {
      if event.id !in transfers { return true; }
      var dead := DiesFirst();
      if dead { return false; }
      var row := transfers[event.id].(settledAt := Some(entry.closedAt), settleTxHash := Some(entry.txHash));
      match event {
        case TransferClaimed(_, agent, _, _, fee, payout) =>
          row := row.(status := E.Claimed, claimedBy := Some(agent), fee := Some(fee), payout := Some(payout));
        case TransferRefunded(_, _, _, _) => row := row.(status := E.Refunded);
        case TransferCancelled(_, _, _, _) => row := row.(status := E.Cancelled);
      }
      transfers := transfers[event.id := row];
      if event.TransferClaimed? && event.agent in dir.agents {
        dead := DiesFirst();
        if dead { return false; }
        transfers := transfers[event.id := transfers[event.id].(agentId := Some(dir.agents[event.agent]))];
      }
      return true;
    }

    method PersistEvent(c: Source, entry: LogEntry, index: nat) returns (alive: bool)
      modifies this`transfers, this`audit, this`life
      ensures Became(Persist(dir, c, old(State()), entry, index), alive)
    {
      var key := EventKey(c, entry.ledger, index);
      if entry.body.Undecodable? || key in audit { return true; }
      alive := true;
      match entry.body {
        case Transferred(event) =>
          if event.TransferCreated? {
            alive := ProjectTransferCreated(entry, event);
          } else {
            alive := ProjectTransferSettled(entry, event);
          }
        case _ =>
      }
      if !alive { return false; }
      var dead := DiesFirst();
      if dead { return false; }
      audit := audit[key := AuditRow(entry, LinkableId(transfers, entry))];
    }

    method PersistBatch(c: Source, events: seq<LogEntry>) returns (alive: bool)
      modifies this`transfers, this`audit, this`life
      ensures Became(PersistFrom(dir, c, old(State()), events, 0), alive)
    {
      for i := 0 to |events|
        invariant PersistFrom(dir, c, old(State()), events, 0) == PersistFrom(dir, c, State(), events, i)
      {
        alive := PersistEvent(c, events[i], i);
        if !alive { return false; }
      }
      return true;
    }

    method IndexContract(logs: Logs, tip: nat, c: Source) returns (alive: bool)
      modifies this
      ensures Became(IndexSource(dir, start, logs, tip, c, old(State())), alive)
    {
      var from := if c in cursors then cursors[c] + 1 else match start case At(ledger) => ledger case Latest => tip;
      if tip < from { return true; }
      alive := PersistBatch(c, FetchEvents(LogOf(logs, c), from, tip));
      if !alive { return false; }
      var dead := DiesFirst();
      if dead { return false; }
      cursors := cursors[c := tip];
    }

    /** One indexing pass across all four contracts. */
    method RunTick(logs: Logs, tip: nat) returns (alive: bool)
      modifies this
      ensures Became(Tick(dir, start, logs, tip, old(State())), alive)
    {
      for i := 0 to |SOURCES|
        invariant Tick(dir, start, logs, tip, old(State())) == IndexSources(dir, start, logs, tip, SOURCES[i..], State())
      {
        alive := IndexContract(logs, tip, SOURCES[i]);
        assert SOURCES[i..][0] == SOURCES[i] && SOURCES[i..][1..] == SOURCES[i + 1..];
        if !alive { return false; }
      }
      return true;
    }
  }
}
