/**
 What the indexer skips for good. One request returns at most 200 events and the cursor then moves
 to the tip all the same; and a contract set to start at the latest ledger starts there again
 after a crash. No later tick ever goes back for either.
 */
module Gaps {
  import opened Prelude
  import opened Chain
  import opened IndexerRules
  import opened CrashRecovery
  import E = EscrowRules
  import H = IndexerHistory

  /** A batch adds audit rows of its own contract, in ledgers from `from` on, and no others; it never moves a cursor. */
  ghost predicate AddsOnlyFrom(c: Source, from: int, db: Db, next: Db) {
    && next.cursors == db.cursors
    && (forall k: EventKey :: k in db.audit ==> k in next.audit)
    && (forall k: EventKey :: k in next.audit ==> k in db.audit || (k.contract == c && from <= k.ledger))
  }

  lemma {:induction false} BatchAddsOnly(dir: Directory, c: Source, p: Process, events: seq<LogEntry>, i: nat, from: int)
    requires i <= |events| && forall j :: 0 <= j < |events| ==> from <= events[j].ledger
    ensures AddsOnlyFrom(c, from, p.db, PersistFrom(dir, c, p, events, i).Database())
    decreases |events| - i
  {
    if i < |events| {
      PersistFates(dir, c, p, events[i], i);
      var fate := Persist(dir, c, p, events[i], i);
      if fate.Alive? {
        BatchAddsOnly(dir, c, fate.process, events, i + 1, from);
      }
    }
  }

  /** An event whose ledger its contract's cursor has already passed. */
  predicate Behind(db: Db, k: EventKey) {
    k.contract in db.cursors && k.ledger <= db.cursors[k.contract]
  }

  /** Nothing behind the cursor is recorded any more, and what is behind stays behind. */
  ghost predicate Closed(db: Db, next: Db) {
    forall k: EventKey :: Behind(db, k) ==> Behind(next, k) && (k in next.audit <==> k in db.audit)
  }

  lemma SourceIsClosed(dir: Directory, start: StartLedger, logs: Logs, tip: nat, c: Source, p: Process)
    ensures Closed(p.db, IndexSource(dir, start, logs, tip, c, p).Database())
  {
    var from := FromLedger(start, p.db, c, tip);
    if from <= tip {
      var events := FetchEvents(LogOf(logs, c), from, tip);
      RangeIsRange(LogOf(logs, c), from, tip);
      BatchAddsOnly(dir, c, p, events, 0, from);
    }
  }

  lemma {:induction false} SourcesAreClosed(dir: Directory, start: StartLedger, logs: Logs, tip: nat, sources: seq<Source>, p: Process)
    ensures Closed(p.db, IndexSources(dir, start, logs, tip, sources, p).Database())
    decreases |sources|
  {
    if sources != [] {
      SourceIsClosed(dir, start, logs, tip, sources[0], p);
      var fate := IndexSource(dir, start, logs, tip, sources[0], p);
      if fate.Alive? {
        SourcesAreClosed(dir, start, logs, tip, sources[1..], fate.process);
      }
    }
  }

  /** Later ticks at any tips, dying or not. */
  function Later(dir: Directory, start: StartLedger, logs: Logs, db: Db, attempts: seq<H.Attempt>): Db {
    if attempts == [] then db
    else
      var before, last := Later(dir, start, logs, db, attempts[..|attempts| - 1]), attempts[|attempts| - 1];
      Tick(dir, start, logs, last.tip, Process(before, last.life)).Database()
  }

  lemma {:induction false} LaterTicksAreClosed(dir: Directory, start: StartLedger, logs: Logs, db: Db, attempts: seq<H.Attempt>)
    ensures Closed(db, Later(dir, start, logs, db, attempts))
    decreases |attempts|
  {
    if attempts != [] {
      var init, last := attempts[..|attempts| - 1], attempts[|attempts| - 1];
      LaterTicksAreClosed(dir, start, logs, db, init);
      SourcesAreClosed(dir, start, logs, last.tip, SOURCES, Process(Later(dir, start, logs, db, init), last.life));
    }
  }

  /** A completed pass records an event of its range exactly when it is among the first 200. */
  lemma PassRecordsExactly(dir: Directory, start: StartLedger, logs: Logs, tip: nat, c: Source, p: Process, i: nat)
    requires Resumable(start, tip, p.db) && FromLedger(start, p.db, c, tip) <= tip
    requires IndexSource(dir, start, logs, tip, c, p).Alive?
    requires var range := InRange(LogOf(logs, c), FromLedger(start, p.db, c, tip), tip);
             i < |range| && !range[i].body.Undecodable?
    ensures var range := InRange(LogOf(logs, c), FromLedger(start, p.db, c, tip), tip);
            var db := IndexSource(dir, start, logs, tip, c, p).Database();
            && (EventKey(c, range[i].ledger, i) in db.audit <==> i < 200)
            && Behind(db, EventKey(c, range[i].ledger, i))
            && (forall k :: k in db.audit && k.contract == c && k.ledger == range[i].ledger ==> k.index < 200)
  {
    var from := FromLedger(start, p.db, c, tip);
    var events := Batch(start, logs, tip, c, p.db);
    BatchIsNew(start, logs, tip, c, p.db);
    RangeIsRange(LogOf(logs, c), from, tip);
    IngestRecords(dir, c, p.db, events, |events|);
    assert Midway(dir, c, p.db, events, 0, p.db);
    SourceResumes(dir, start, logs, tip, c, p.db, p);
  }

  /** An event beyond the limit is lost for good: neither that pass nor any later tick files anything under its place. */
  lemma BeyondTheLimitIsLost(dir: Directory, start: StartLedger, logs: Logs, tip: nat, c: Source, p: Process, i: nat,
                             attempts: seq<H.Attempt>)
    requires Resumable(start, tip, p.db) && FromLedger(start, p.db, c, tip) <= tip
    requires IndexSource(dir, start, logs, tip, c, p).Alive?
    requires var range := InRange(LogOf(logs, c), FromLedger(start, p.db, c, tip), tip);
             200 <= i < |range| && !range[i].body.Undecodable?
    ensures var range := InRange(LogOf(logs, c), FromLedger(start, p.db, c, tip), tip);
            var db := IndexSource(dir, start, logs, tip, c, p).Database();
            var later := Later(dir, start, logs, db, attempts);
            forall k :: k in later.audit && k.contract == c && k.ledger == range[i].ledger ==> k.index < 200
  {
    var range := InRange(LogOf(logs, c), FromLedger(start, p.db, c, tip), tip);
    var db := IndexSource(dir, start, logs, tip, c, p).Database();
    PassRecordsExactly(dir, start, logs, tip, c, p, i);
    LaterTicksAreClosed(dir, start, logs, db, attempts);
    assert forall k: EventKey :: k.contract == c && k.ledger == range[i].ledger ==> Behind(db, k);
  }

  /** Without a cursor and set to start at the latest ledger, whatever lies before this tip is passed over for good. */
  lemma LatestForgetsWhatItDiedOn(dir: Directory, logs: Logs, tip: nat, c: Source, p: Process, k: EventKey, attempts: seq<H.Attempt>)
    requires c !in p.db.cursors && k.contract == c && k.ledger < tip
    requires IndexSource(dir, Latest, logs, tip, c, p).Alive?
    ensures var db := IndexSource(dir, Latest, logs, tip, c, p).Database();
            k in Later(dir, Latest, logs, db, attempts).audit <==> k in p.db.audit
  {
    var events := FetchEvents(LogOf(logs, c), tip, tip);
    RangeIsRange(LogOf(logs, c), tip, tip);
    BatchAddsOnly(dir, c, p, events, 0, tip);
    LaterTicksAreClosed(dir, Latest, logs, IndexSource(dir, Latest, logs, tip, c, p).Database(), attempts);
  }

  /* ------------------------------ the row that stays behind ------------------------------ */

  /** An event that says nothing of transfer `id`. */
  predicate SaysNothing(e: LogEntry, id: nat) { e.body.Transferred? ==> e.body.event.id != id }

  predicate RowKept(t: TransferTable, u: TransferTable, id: nat) {
    (id in t <==> id in u) && (id in t ==> u[id] == t[id])
  }

  lemma EventKeepsRow(dir: Directory, c: Source, p: Process, entry: LogEntry, index: nat, id: nat)
    requires SaysNothing(entry, id)
    ensures RowKept(p.db.transfers, Persist(dir, c, p, entry, index).Database().transfers, id)
  {
    PersistFates(dir, c, p, entry, index);
  }

  lemma {:induction false} BatchKeepsRow(dir: Directory, c: Source, p: Process, events: seq<LogEntry>, i: nat, id: nat)
    requires i <= |events| && forall j :: i <= j < |events| ==> SaysNothing(events[j], id)
    ensures RowKept(p.db.transfers, PersistFrom(dir, c, p, events, i).Database().transfers, id)
    decreases |events| - i
  {
    if i < |events| {
      EventKeepsRow(dir, c, p, events[i], i, id);
      var fate := Persist(dir, c, p, events[i], i);
      if fate.Alive? {
        BatchKeepsRow(dir, c, fate.process, events, i + 1, id);
      }
    }
  }

  /** Nothing after ledger `tip` speaks of the transfer any more. */
  predicate QuietAfter(logs: Logs, tip: nat, id: nat) {
    forall i :: 0 <= i < |LogOf(logs, EscrowSource)| && tip < LogOf(logs, EscrowSource)[i].ledger ==>
      SaysNothing(LogOf(logs, EscrowSource)[i], id)
  }

  /** The escrow's cursor has passed ledger `tip`. */
  predicate Passed(db: Db, tip: nat) {
    EscrowSource in db.cursors && tip <= db.cursors[EscrowSource]
  }

  /** What a later batch holds of a contract is quiet about the transfer. */
  lemma LaterBatchIsQuiet(start: StartLedger, logs: Logs, at: nat, c: Source, db: Db, tip: nat, id: nat)
    requires H.Honest(logs) && QuietAfter(logs, tip, id) && Passed(db, tip)
    ensures forall j :: 0 <= j < |Batch(start, logs, at, c, db)| ==> SaysNothing(Batch(start, logs, at, c, db)[j], id)
  {
    var log, from := LogOf(logs, c), FromLedger(start, db, c, at);
    H.RangeWithin(log, from, at);
    RangeIsRange(log, from, at);
    forall j | 0 <= j < |Batch(start, logs, at, c, db)| ensures SaysNothing(Batch(start, logs, at, c, db)[j], id) {
      assert InRange(log, from, at)[j] in log;
    }
  }

  lemma SourceKeepsRow(dir: Directory, start: StartLedger, logs: Logs, at: nat, c: Source, p: Process, tip: nat, id: nat)
    requires H.Honest(logs) && QuietAfter(logs, tip, id) && Passed(p.db, tip)
    ensures var next := IndexSource(dir, start, logs, at, c, p).Database();
            RowKept(p.db.transfers, next.transfers, id) && Passed(next, tip)
  {
    var from := FromLedger(start, p.db, c, at);
    if from <= at {
      var events := Batch(start, logs, at, c, p.db);
      LaterBatchIsQuiet(start, logs, at, c, p.db, tip, id);
      BatchKeepsRow(dir, c, p, events, 0, id);
      RangeIsRange(LogOf(logs, c), from, at);
      BatchAddsOnly(dir, c, p, events, 0, from);
    }
  }

  lemma {:induction false} SourcesKeepRow(dir: Directory, start: StartLedger, logs: Logs, at: nat, sources: seq<Source>, p: Process,
                                          tip: nat, id: nat)
    requires H.Honest(logs) && QuietAfter(logs, tip, id) && Passed(p.db, tip)
    ensures var next := IndexSources(dir, start, logs, at, sources, p).Database();
            RowKept(p.db.transfers, next.transfers, id) && Passed(next, tip)
    decreases |sources|
  {
    if sources != [] {
      SourceKeepsRow(dir, start, logs, at, sources[0], p, tip, id);
      var fate := IndexSource(dir, start, logs, at, sources[0], p);
      if fate.Alive? {
        SourcesKeepRow(dir, start, logs, at, sources[1..], fate.process, tip, id);
      }
    }
  }

  lemma {:induction false} LaterTicksKeepRow(dir: Directory, start: StartLedger, logs: Logs, db: Db, attempts: seq<H.Attempt>, tip: nat, id: nat)
    requires H.Honest(logs) && QuietAfter(logs, tip, id) && Passed(db, tip)
    ensures var later := Later(dir, start, logs, db, attempts);
            RowKept(db.transfers, later.transfers, id) && Passed(later, tip)
    decreases |attempts|
  {
    if attempts != [] {
      var init, last := attempts[..|attempts| - 1], attempts[|attempts| - 1];
      LaterTicksKeepRow(dir, start, logs, db, init, tip, id);
      SourcesKeepRow(dir, start, logs, last.tip, SOURCES, Process(Later(dir, start, logs, db, init), last.life), tip, id);
    }
  }

  /** The announcement of a transfer the read model shows. */
  predicate Creates(dir: Directory, e: LogEntry, id: nat) {
    e.body.Transferred? && e.body.event.TransferCreated? && e.body.event.id == id
    && e.body.event.sender in dir.users && e.body.event.corridor in dir.corridors
  }

  /** None of the events from `i` on is recorded under its place. */
  predicate StillNew(c: Source, db: Db, events: seq<LogEntry>, i: nat) {
    forall j :: i <= j < |events| ==> EventKey(c, events[j].ledger, j) !in db.audit
  }

  lemma CreationShows(dir: Directory, c: Source, p: Process, entry: LogEntry, index: nat, id: nat)
    requires Creates(dir, entry, id) && EventKey(c, entry.ledger, index) !in p.db.audit
    requires Persist(dir, c, p, entry, index).Alive?
    ensures var t := Persist(dir, c, p, entry, index).process.db.transfers;
            id in t && t[id].status == E.Pending
  {
    PersistFates(dir, c, p, entry, index);
  }

  /** A batch in which only the creation speaks of a transfer leaves its row pending. */
  lemma {:induction false} BatchLeavesPending(dir: Directory, c: Source, p: Process, events: seq<LogEntry>, i: nat, at: nat, id: nat)
    requires i <= at < |events| && Creates(dir, events[at], id) && StillNew(c, p.db, events, i)
    requires forall j :: 0 <= j < |events| && j != at ==> SaysNothing(events[j], id)
    requires PersistFrom(dir, c, p, events, i).Alive?
    ensures var t := PersistFrom(dir, c, p, events, i).process.db.transfers;
            id in t && t[id].status == E.Pending
    decreases at - i
  {
    var next := Persist(dir, c, p, events[i], i).process;
    PersistFates(dir, c, p, events[i], i);
    if i < at {
      BatchLeavesPending(dir, c, next, events, i + 1, at, id);
    } else {
      CreationShows(dir, c, p, events[i], i, id);
      BatchKeepsRow(dir, c, next, events, i + 1, id);
    }
  }

  /**
   What a reader sees of it: if a pass fetches a transfer's creation and its settlement lies beyond
   the 200th event, the transfer stays pending in the table after every later tick.
   */
  lemma LostSettlementStaysPending(dir: Directory, start: StartLedger, logs: Logs, tip: nat, p: Process, at: nat, id: nat,
                                   attempts: seq<H.Attempt>)
    requires H.Honest(logs) && Resumable(start, tip, p.db) && FromLedger(start, p.db, EscrowSource, tip) <= tip
    requires IndexSource(dir, start, logs, tip, EscrowSource, p).Alive?
    requires var fetched := Batch(start, logs, tip, EscrowSource, p.db);
             && at < |fetched| && Creates(dir, fetched[at], id)
             && (forall j :: 0 <= j < |fetched| && j != at ==> SaysNothing(fetched[j], id))
    requires QuietAfter(logs, tip, id)
    ensures var db := IndexSource(dir, start, logs, tip, EscrowSource, p).Database();
            var later := Later(dir, start, logs, db, attempts);
            id in later.transfers && later.transfers[id].status == E.Pending
  {
    var fetched := Batch(start, logs, tip, EscrowSource, p.db);
    BatchIsNew(start, logs, tip, EscrowSource, p.db);
    assert StillNew(EscrowSource, p.db, fetched, 0);
    BatchLeavesPending(dir, EscrowSource, p, fetched, 0, at, id);
    var db := IndexSource(dir, start, logs, tip, EscrowSource, p).Database();
    LaterTicksKeepRow(dir, start, logs, db, attempts, tip, id);
  }

  /* ------------------------------ both happen ------------------------------ */

  const SENDER := Account(1)
  const KNOWN := Directory(map[SENDER := 7], {"c"}, map[])

  /** A creation, and in a later ledger a setting and the cancellation. */
  const CREATION := LogEntry(10, 10, "a", Transferred(TransferCreated(1, SENDER, "c", 100, Contract(9), Bytes32([]), 50)))
  const RESETTING := LogEntry(20, 20, "", Filed("esc_cfg"))
  const CANCELLATION := LogEntry(20, 20, "b", Transferred(TransferCancelled(1, SENDER, "c", 100)))

  /** The cancellation is the 201st event. */
  const CROWDED: seq<LogEntry> := [CREATION] + seq(199, _ => RESETTING) + [CANCELLATION]

  lemma {:induction false} AllInRange(log: seq<LogEntry>, from: int, to: int)
    requires forall i :: 0 <= i < |log| ==> from <= log[i].ledger <= to
    ensures InRange(log, from, to) == log
  {
    if log != [] {
      AllInRange(log[..|log| - 1], from, to);
      assert log == log[..|log| - 1] + [log[|log| - 1]];
    }
  }

  lemma CrowdedIsFetched(logs: Logs)
    requires logs == map[EscrowSource := CROWDED]
    ensures H.Honest(logs) && QuietAfter(logs, 20, 1)
    ensures Batch(At(0), logs, 20, EscrowSource, EMPTY_DB) == CROWDED[..200] && CROWDED[200] == CANCELLATION
  {
    AllInRange(CROWDED, 0, 20);
  }

  /** A cancelled transfer that the read model shows as pending, whatever later ticks do. */
  lemma CancellationIsLost(attempts: seq<H.Attempt>)
    ensures var logs: Logs := map[EscrowSource := CROWDED];
            var db := IndexSource(KNOWN, At(0), logs, 20, EscrowSource, Process(EMPTY_DB, 601)).Database();
            var later := Later(KNOWN, At(0), logs, db, attempts);
            CROWDED[200] == CANCELLATION && 1 in later.transfers && later.transfers[1].status == E.Pending
  {
    var logs: Logs := map[EscrowSource := CROWDED];
    var p := Process(EMPTY_DB, 601);
    CrowdedIsFetched(logs);
    BatchIsBounded(KNOWN, EscrowSource, p, CROWDED[..200], 0);
    LostSettlementStaysPending(KNOWN, At(0), logs, 20, p, 0, 1, attempts);
  }

  const LONE: Logs := map[EscrowSource := [CREATION]]

  /** The escrow's part of a tick that starts at the latest ledger. */
  function FirstPass(tip: nat, db: Db, life: nat): Db {
    IndexSource(KNOWN, Latest, LONE, tip, EscrowSource, Process(db, life)).Database()
  }

  lemma UnbrokenPassRecords()
    ensures EventKey(EscrowSource, 10, 0) in FirstPass(10, EMPTY_DB, 100).audit
  {
    LoneBatch(10);
    LonePassCompletes();
    PassRecordsExactly(KNOWN, Latest, LONE, 10, EscrowSource, Process(EMPTY_DB, 100), 0);
  }

  lemma LoneBatch(tip: nat)
    requires tip == 10
    ensures FromLedger(Latest, EMPTY_DB, EscrowSource, tip) == tip
    ensures InRange(LogOf(LONE, EscrowSource), tip, tip) == Batch(Latest, LONE, tip, EscrowSource, EMPTY_DB) == [CREATION]
  {
    AllInRange([CREATION], tip, tip);
  }

  lemma LonePassCompletes()
    ensures IndexSource(KNOWN, Latest, LONE, 10, EscrowSource, Process(EMPTY_DB, 100)).Alive?
  {
    LoneBatch(10);
    BatchIsBounded(KNOWN, EscrowSource, Process(EMPTY_DB, 100), [CREATION], 0);
  }

  lemma CrashedPassLeavesNothing()
    ensures FirstPass(10, EMPTY_DB, 0) == EMPTY_DB
  {
    var p := Process(EMPTY_DB, 0);
    AllInRange([CREATION], 10, 10);
    DiesAtOnce(KNOWN, EscrowSource, p, [CREATION], 1);
    assert IndexSource(KNOWN, Latest, LONE, 10, EscrowSource, p) == PersistFrom(KNOWN, EscrowSource, p, [CREATION], 0);
  }

  /** Without a write to live for, a batch that starts with a creation to show gets nowhere. */
  lemma DiesAtOnce(dir: Directory, c: Source, p: Process, events: seq<LogEntry>, id: nat)
    requires p.life == 0 && events != [] && Creates(dir, events[0], id)
    requires EventKey(c, events[0].ledger, 0) !in p.db.audit
    ensures PersistFrom(dir, c, p, events, 0) == Dead(p.db)
  {
    assert Persist(dir, c, p, events[0], 0) == Dead(p.db);
  }

  lemma NextPassCompletes()
    ensures IndexSource(KNOWN, Latest, LONE, 11, EscrowSource, Process(EMPTY_DB, 100)).Alive?
  {
    H.NothingBeyond([CREATION], 11, 11);
  }

  /**
   A first pass that died at ledger 10, and a tick at ledger 11: the creation of ledger 10, which an
   unbroken pass would have recorded, is never recorded.
   */
  lemma FirstLedgerIsLost(attempts: seq<H.Attempt>)
    ensures var db := FirstPass(11, FirstPass(10, EMPTY_DB, 0), 100);
            && EventKey(EscrowSource, 10, 0) in FirstPass(10, EMPTY_DB, 100).audit
            && EventKey(EscrowSource, 10, 0) !in Later(KNOWN, Latest, LONE, db, attempts).audit
  {
    UnbrokenPassRecords();
    CrashedPassLeavesNothing();
    NextPassCompletes();
    LatestForgetsWhatItDiedOn(KNOWN, LONE, 11, EscrowSource, Process(EMPTY_DB, 100), EventKey(EscrowSource, 10, 0), attempts);
  }
}
