/**
 Crashing between any two writes of a tick, any number of times, and then running it again leaves
 exactly the tables of a tick that never crashed. At any moment at most one event is projected
 but not recorded, and it is the next one in order, so projecting it again undoes nothing.
 */
module CrashRecovery {
  import opened Prelude
  import opened Chain
  import opened IndexerRules

  /** One event persisted without a crash. */
  function PersistClean(dir: Directory, c: Source, db: Db, entry: LogEntry, index: nat): Db {
    var key := EventKey(c, entry.ledger, index);
    if entry.body.Undecodable? || key in db.audit then db
    else
      var t := Project(dir, db.transfers, entry);
      db.(transfers := t, audit := db.audit[key := AuditRow(entry, LinkableId(t, entry))])
  }

  /** The first `n` events of a batch, persisted without a crash. */
  function Ingest(dir: Directory, c: Source, base: Db, events: seq<LogEntry>, n: nat): Db
    requires n <= |events|
  {
    if n == 0 then base else PersistClean(dir, c, Ingest(dir, c, base, events, n - 1), events[n - 1], n - 1)
  }

  /** How far a projection may have got: not at all, its first write, or all of it. */
  predicate Halfway(dir: Directory, t: TransferTable, entry: LogEntry, partial: TransferTable) {
    partial == t || partial == FirstWrite(dir, t, entry) || partial == Project(dir, t, entry)
  }

  /** Projecting again finishes the job, however far the first attempt got. */
  lemma ProjectAgain(dir: Directory, t: TransferTable, entry: LogEntry, partial: TransferTable)
    requires Halfway(dir, t, entry, partial)
    ensures Project(dir, partial, entry) == Project(dir, t, entry)
  {
  }

  /** A second attempt that also dies has got no further than one attempt can. */
  lemma HalfwayAgain(dir: Directory, t: TransferTable, entry: LogEntry, partial: TransferTable, again: TransferTable)
    requires Halfway(dir, t, entry, partial) && Halfway(dir, partial, entry, again)
    ensures Halfway(dir, t, entry, again)
  {
    ProjectAgain(dir, t, entry, partial);
  }

  /** What becomes of one event: persisted, or left halfway through its projection and unrecorded. */
  lemma PersistFates(dir: Directory, c: Source, p: Process, entry: LogEntry, index: nat)
    ensures var fate, key := Persist(dir, c, p, entry, index), EventKey(c, entry.ledger, index);
            && (fate.Alive? ==> fate.process.db == PersistClean(dir, c, p.db, entry, index))
            && (fate.Dead? ==>
                  && !entry.body.Undecodable? && key !in p.db.audit
                  && fate.db == p.db.(transfers := fate.db.transfers)
                  && Halfway(dir, p.db.transfers, entry, fate.db.transfers))
  {
  }

  /** The first `n` events are done, and the next may be halfway projected. */
  predicate Midway(dir: Directory, c: Source, base: Db, events: seq<LogEntry>, n: nat, db: Db) {
    && n <= |events|
    && var clean := Ingest(dir, c, base, events, n);
    && db == clean.(transfers := db.transfers)
    && (db.transfers == clean.transfers || (n < |events| && Halfway(dir, clean.transfers, events[n], db.transfers)))
  }

  /** None of a batch was recorded before it began. */
  predicate Unrecorded(c: Source, base: Db, events: seq<LogEntry>) {
    forall k :: k in base.audit && k.contract == c ==> forall i :: 0 <= i < |events| ==> events[i].ledger != k.ledger
  }

  lemma {:induction false} IngestRecords(dir: Directory, c: Source, base: Db, events: seq<LogEntry>, n: nat)
    requires n <= |events| && Unrecorded(c, base, events)
    ensures var db := Ingest(dir, c, base, events, n);
            && (forall i :: 0 <= i < n ==> events[i].body.Undecodable? || EventKey(c, events[i].ledger, i) in db.audit)
            && (forall i :: n <= i < |events| ==> EventKey(c, events[i].ledger, i) !in db.audit)
            && (forall k :: k in db.audit ==> k in base.audit || (k.contract == c && k.index < n && events[k.index].ledger == k.ledger))
            && db.cursors == base.cursors
  {
    if n != 0 {
      IngestRecords(dir, c, base, events, n - 1);
    }
  }

  /** From any point midway, carrying on completes the batch as if never interrupted, or stops midway again. */
  lemma {:induction false} BatchResumes(dir: Directory, c: Source, base: Db, events: seq<LogEntry>, n: nat, p: Process, i: nat)
    requires Unrecorded(c, base, events) && Midway(dir, c, base, events, n, p.db) && i <= n
    ensures var fate := PersistFrom(dir, c, p, events, i);
            && (fate.Alive? ==> fate.process.db == Ingest(dir, c, base, events, |events|))
            && (fate.Dead? ==> exists m :: Midway(dir, c, base, events, m, fate.db))
    decreases |events| - i
  {
    if i < |events| {
      IngestRecords(dir, c, base, events, n);
      PersistFates(dir, c, p, events[i], i);
      if i < n {
        BatchResumes(dir, c, base, events, n, p, i + 1);
      } else {
        EventResumes(dir, c, base, events, n, p);
        var fate := Persist(dir, c, p, events[n], n);
        if fate.Alive? {
          BatchResumes(dir, c, base, events, n + 1, fate.process, n + 1);
        }
      }
    }
  }

  /** The event that was interrupted, taken up again. */
  lemma EventResumes(dir: Directory, c: Source, base: Db, events: seq<LogEntry>, n: nat, p: Process)
    requires n < |events| && Unrecorded(c, base, events) && Midway(dir, c, base, events, n, p.db)
    ensures var fate := Persist(dir, c, p, events[n], n);
            Midway(dir, c, base, events, if fate.Alive? then n + 1 else n, fate.Database())
  {
    IngestRecords(dir, c, base, events, n);
    PersistFates(dir, c, p, events[n], n);
    var clean := Ingest(dir, c, base, events, n);
    ProjectAgain(dir, clean.transfers, events[n], p.db.transfers);
    var fate := Persist(dir, c, p, events[n], n);
    if fate.Dead? {
      HalfwayAgain(dir, clean.transfers, events[n], p.db.transfers, fate.db.transfers);
    }
  }

  /* ------------------------------ one contract's part of a tick ------------------------------ */

  function Batch(start: StartLedger, logs: Logs, tip: nat, c: Source, db: Db): seq<LogEntry> {
    FetchEvents(LogOf(logs, c), FromLedger(start, db, c, tip), tip)
  }

  /** A contract's part of a tick, without a crash. */
  function IndexClean(dir: Directory, start: StartLedger, logs: Logs, tip: nat, c: Source, db: Db): Db {
    if tip < FromLedger(start, db, c, tip) then db
    else
      var events := Batch(start, logs, tip, c, db);
      var done := Ingest(dir, c, db, events, |events|);
      done.(cursors := done.cursors[c := tip])
  }

  /** Either the whole part is done, or it stopped midway through its batch. */
  ghost predicate SourceMidway(dir: Directory, start: StartLedger, logs: Logs, tip: nat, c: Source, base: Db, db: Db) {
    || db == IndexClean(dir, start, logs, tip, c, base)
    || (FromLedger(start, base, c, tip) <= tip && exists n :: Midway(dir, c, base, Batch(start, logs, tip, c, base), n, db))
  }

  /** Between ticks every recorded event lies before the ledger its contract resumes from. */
  predicate Resumable(start: StartLedger, tip: nat, db: Db) {
    forall k :: k in db.audit ==> k.ledger < FromLedger(start, db, k.contract, tip)
  }

  lemma {:induction false} RangeIsRange(log: seq<LogEntry>, from: int, to: int)
    ensures forall i :: 0 <= i < |InRange(log, from, to)| ==> from <= InRange(log, from, to)[i].ledger <= to
  {
    if log != [] {
      RangeIsRange(log[..|log| - 1], from, to);
    }
  }

  lemma BatchIsNew(start: StartLedger, logs: Logs, tip: nat, c: Source, db: Db)
    requires Resumable(start, tip, db)
    ensures Unrecorded(c, db, Batch(start, logs, tip, c, db))
    ensures forall i :: 0 <= i < |Batch(start, logs, tip, c, db)| ==> Batch(start, logs, tip, c, db)[i].ledger <= tip
  {
    RangeIsRange(LogOf(logs, c), FromLedger(start, db, c, tip), tip);
  }

  /** What a finished part leaves: nothing recorded beyond the tip, and no other contract's cursor touched. */
  lemma IndexCleanSettles(dir: Directory, start: StartLedger, logs: Logs, tip: nat, c: Source, db: Db)
    requires Resumable(start, tip, db)
    ensures var next := IndexClean(dir, start, logs, tip, c, db);
            && Resumable(start, tip, next)
            && (tip < FromLedger(start, next, c, tip))
            && (forall d :: d != c ==> FromLedger(start, next, d, tip) == FromLedger(start, db, d, tip))
  {
    var events := Batch(start, logs, tip, c, db);
    BatchIsNew(start, logs, tip, c, db);
    IngestRecords(dir, c, db, events, |events|);
  }

  lemma MidwayKeepsCursors(dir: Directory, c: Source, base: Db, events: seq<LogEntry>, n: nat, db: Db)
    requires Unrecorded(c, base, events) && Midway(dir, c, base, events, n, db)
    ensures db.cursors == base.cursors
  {
    IngestRecords(dir, c, base, events, n);
  }

  /** A contract's part resumes from wherever it stopped. */
  lemma SourceResumes(dir: Directory, start: StartLedger, logs: Logs, tip: nat, c: Source, base: Db, p: Process)
    requires Resumable(start, tip, base) && SourceMidway(dir, start, logs, tip, c, base, p.db)
    ensures var fate := IndexSource(dir, start, logs, tip, c, p);
            && (fate.Alive? ==> fate.process.db == IndexClean(dir, start, logs, tip, c, base))
            && SourceMidway(dir, start, logs, tip, c, base, fate.Database())
  {
    IndexCleanSettles(dir, start, logs, tip, c, base);
    if p.db != IndexClean(dir, start, logs, tip, c, base) {
      var events := Batch(start, logs, tip, c, base);
      var n :| Midway(dir, c, base, events, n, p.db);
      BatchIsNew(start, logs, tip, c, base);
      MidwayKeepsCursors(dir, c, base, events, n, p.db);
      BatchResumes(dir, c, base, events, n, p, 0);
      BatchThenCursor(dir, start, logs, tip, c, base, p);
    }
  }

  lemma BatchThenCursor(dir: Directory, start: StartLedger, logs: Logs, tip: nat, c: Source, base: Db, p: Process)
    requires p.db.cursors == base.cursors && FromLedger(start, base, c, tip) <= tip
    requires var events := Batch(start, logs, tip, c, base);
             var fate := PersistFrom(dir, c, p, events, 0);
             && (fate.Alive? ==> fate.process.db == Ingest(dir, c, base, events, |events|))
             && (fate.Dead? ==> exists m :: Midway(dir, c, base, events, m, fate.db))
    ensures var fate := IndexSource(dir, start, logs, tip, c, p);
            && (fate.Alive? ==> fate.process.db == IndexClean(dir, start, logs, tip, c, base))
            && SourceMidway(dir, start, logs, tip, c, base, fate.Database())
  {
    var events := Batch(start, logs, tip, c, base);
    assert Midway(dir, c, base, events, |events|, Ingest(dir, c, base, events, |events|));
  }

  /* ------------------------------ the whole tick ------------------------------ */

  /** A tick over these contracts, without a crash. */
  function TickClean(dir: Directory, start: StartLedger, logs: Logs, tip: nat, sources: seq<Source>, db: Db): Db {
    if sources == [] then db
    else TickClean(dir, start, logs, tip, sources[1..], IndexClean(dir, start, logs, tip, sources[0], db))
  }

  /** Some contracts are done, one may be midway, and the rest have not begun. */
  ghost predicate TickMidway(dir: Directory, start: StartLedger, logs: Logs, tip: nat, sources: seq<Source>, base: Db, db: Db)
    decreases |sources|
  {
    if sources == [] then db == base
    else
      || SourceMidway(dir, start, logs, tip, sources[0], base, db)
      || TickMidway(dir, start, logs, tip, sources[1..], IndexClean(dir, start, logs, tip, sources[0], base), db)
  }

  lemma SourceMidwayKeepsOthers(dir: Directory, start: StartLedger, logs: Logs, tip: nat, c: Source, base: Db, db: Db, d: Source)
    requires Resumable(start, tip, base) && SourceMidway(dir, start, logs, tip, c, base, db) && c != d
    ensures FromLedger(start, db, d, tip) == FromLedger(start, base, d, tip)
  {
    IndexCleanSettles(dir, start, logs, tip, c, base);
    if db != IndexClean(dir, start, logs, tip, c, base) {
      var events := Batch(start, logs, tip, c, base);
      var n :| Midway(dir, c, base, events, n, db);
      BatchIsNew(start, logs, tip, c, base);
      MidwayKeepsCursors(dir, c, base, events, n, db);
    }
  }

  /** Contracts outside the list keep the ledger they resume from. */
  lemma {:induction false} TickKeepsOthers(dir: Directory, start: StartLedger, logs: Logs, tip: nat, sources: seq<Source>,
                                           base: Db, db: Db, d: Source)
    requires Resumable(start, tip, base) && TickMidway(dir, start, logs, tip, sources, base, db) && d !in sources
    ensures FromLedger(start, db, d, tip) == FromLedger(start, base, d, tip)
    decreases |sources|
  {
    if sources != [] {
      IndexCleanSettles(dir, start, logs, tip, sources[0], base);
      if SourceMidway(dir, start, logs, tip, sources[0], base, db) {
        SourceMidwayKeepsOthers(dir, start, logs, tip, sources[0], base, db, d);
      } else {
        TickKeepsOthers(dir, start, logs, tip, sources[1..], IndexClean(dir, start, logs, tip, sources[0], base), db, d);
      }
    }
  }

  /** A finished contract is passed over. */
  lemma FinishedSourceIsSkipped(dir: Directory, start: StartLedger, logs: Logs, tip: nat, c: Source, p: Process)
    requires tip < FromLedger(start, p.db, c, tip)
    ensures IndexSource(dir, start, logs, tip, c, p) == Alive(p)
  {
  }

  /** A tick resumes from wherever it stopped: it ends as if never interrupted, or stops midway again. */
  lemma {:induction false} TickResumes(dir: Directory, start: StartLedger, logs: Logs, tip: nat, sources: seq<Source>, base: Db, p: Process)
    requires NoDuplicates(sources)
    requires Resumable(start, tip, base) && TickMidway(dir, start, logs, tip, sources, base, p.db)
    ensures var fate := IndexSources(dir, start, logs, tip, sources, p);
            && (fate.Alive? ==> fate.process.db == TickClean(dir, start, logs, tip, sources, base))
            && TickMidway(dir, start, logs, tip, sources, base, fate.Database())
    decreases |sources|
  {
    if sources != [] {
      var c, rest, done := sources[0], sources[1..], IndexClean(dir, start, logs, tip, sources[0], base);
      IndexCleanSettles(dir, start, logs, tip, c, base);
      if SourceMidway(dir, start, logs, tip, c, base, p.db) {
        SourceResumes(dir, start, logs, tip, c, base, p);
        var fate := IndexSource(dir, start, logs, tip, c, p);
        if fate.Alive? {
          RestNotBegun(dir, start, logs, tip, rest, done);
          TickResumes(dir, start, logs, tip, rest, done, fate.process);
        }
      } else {
        TickKeepsOthers(dir, start, logs, tip, rest, done, p.db, c);
        FinishedSourceIsSkipped(dir, start, logs, tip, c, p);
        TickResumes(dir, start, logs, tip, rest, done, p);
      }
    }
  }

  lemma RestNotBegun(dir: Directory, start: StartLedger, logs: Logs, tip: nat, sources: seq<Source>, db: Db)
    ensures TickMidway(dir, start, logs, tip, sources, db, db)
  {
    if sources != [] {
      var events := Batch(start, logs, tip, sources[0], db);
      assert Midway(dir, sources[0], db, events, 0, db);
    }
  }

  /** Attempts at a tick, one after another, by processes that live for so many writes each. */
  function Attempts(dir: Directory, start: StartLedger, logs: Logs, tip: nat, db: Db, lives: seq<nat>): Db {
    if lives == [] then db
    else Tick(dir, start, logs, tip, Process(Attempts(dir, start, logs, tip, db, lives[..|lives| - 1]), lives[|lives| - 1])).Database()
  }

  lemma {:induction false} AttemptsLeaveMidway(dir: Directory, start: StartLedger, logs: Logs, tip: nat, db: Db, lives: seq<nat>)
    requires Resumable(start, tip, db)
    ensures TickMidway(dir, start, logs, tip, SOURCES, db, Attempts(dir, start, logs, tip, db, lives))
    decreases |lives|
  {
    if lives == [] {
      RestNotBegun(dir, start, logs, tip, SOURCES, db);
    } else {
      var init, last := lives[..|lives| - 1], lives[|lives| - 1];
      AttemptsLeaveMidway(dir, start, logs, tip, db, init);
      TickResumes(dir, start, logs, tip, SOURCES, db, Process(Attempts(dir, start, logs, tip, db, init), last));
    }
  }

  /**
   However many attempts at a tick died and wherever, the one that completes leaves every table
   (transfers, audit rows, cursors) exactly as one attempt that never died would have.
   */
  lemma CrashesLeaveNoTrace(dir: Directory, start: StartLedger, logs: Logs, tip: nat, db: Db, lives: seq<nat>, last: nat, unbroken: nat)
    requires Resumable(start, tip, db)
    requires Tick(dir, start, logs, tip, Process(Attempts(dir, start, logs, tip, db, lives), last)).Alive?
    requires Tick(dir, start, logs, tip, Process(db, unbroken)).Alive?
    ensures Tick(dir, start, logs, tip, Process(Attempts(dir, start, logs, tip, db, lives), last)).Database()
         == Tick(dir, start, logs, tip, Process(db, unbroken)).Database()
    ensures Resumable(start, tip, Tick(dir, start, logs, tip, Process(db, unbroken)).Database())
  {
    AttemptsLeaveMidway(dir, start, logs, tip, db, lives);
    TickResumes(dir, start, logs, tip, SOURCES, db, Process(Attempts(dir, start, logs, tip, db, lives), last));
    RestNotBegun(dir, start, logs, tip, SOURCES, db);
    TickResumes(dir, start, logs, tip, SOURCES, db, Process(db, unbroken));
    TickCleanSettles(dir, start, logs, tip, SOURCES, db);
  }

  lemma {:induction false} TickCleanSettles(dir: Directory, start: StartLedger, logs: Logs, tip: nat, sources: seq<Source>, db: Db)
    requires Resumable(start, tip, db)
    ensures Resumable(start, tip, TickClean(dir, start, logs, tip, sources, db))
    decreases |sources|
  {
    if sources != [] {
      IndexCleanSettles(dir, start, logs, tip, sources[0], db);
      TickCleanSettles(dir, start, logs, tip, sources[1..], IndexClean(dir, start, logs, tip, sources[0], db));
    }
  }

  /* ------------------------------ a tick is finite ------------------------------ */

  lemma {:induction false} BatchIsBounded(dir: Directory, c: Source, p: Process, events: seq<LogEntry>, i: nat)
    requires i <= |events| && 3 * (|events| - i) <= p.life
    ensures var fate := PersistFrom(dir, c, p, events, i);
            fate.Alive? && p.life - 3 * (|events| - i) <= fate.process.life
    decreases |events| - i
  {
    if i < |events| {
      BatchIsBounded(dir, c, Persist(dir, c, p, events[i], i).process, events, i + 1);
    }
  }

  lemma {:induction false} TickIsBounded(dir: Directory, start: StartLedger, logs: Logs, tip: nat, sources: seq<Source>, p: Process)
    requires 601 * |sources| <= p.life
    ensures IndexSources(dir, start, logs, tip, sources, p).Alive?
    decreases |sources|
  {
    if sources != [] {
      var c := sources[0];
      if FromLedger(start, p.db, c, tip) <= tip {
        BatchIsBounded(dir, c, p, Batch(start, logs, tip, c, p.db), 0);
      }
      TickIsBounded(dir, start, logs, tip, sources[1..], IndexSource(dir, start, logs, tip, c, p).process);
    }
  }
}
