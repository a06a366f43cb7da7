/**
 The indexer over its whole history: ticks at rising tips, dying anywhere. Once a tick completes,
 the transfer table is the fold of everything announced so far, and every event was recorded once.
 */
module IndexerHistory {
  import opened Prelude
  import opened Chain
  import opened IndexerRules
  import opened CrashRecovery

  /** The transfer table that a sequence of events means. */
  function Fold(dir: Directory, entries: seq<LogEntry>): TransferTable {
    if entries == [] then map[] else Project(dir, Fold(dir, entries[..|entries| - 1]), entries[|entries| - 1])
  }

  predicate Sorted(log: seq<LogEntry>) {
    forall i, j :: 0 <= i < j < |log| ==> log[i].ledger <= log[j].ledger
  }

  /** Only the escrow announces transfers. */
  predicate Honest(logs: Logs) {
    && (forall c :: Sorted(LogOf(logs, c)))
    && (forall c :: c != EscrowSource ==> forall i :: 0 <= i < |LogOf(logs, c)| ==> !LogOf(logs, c)[i].body.Transferred?)
  }

  lemma {:induction false} NothingBeyond(log: seq<LogEntry>, from: int, to: int)
    requires forall i :: 0 <= i < |log| ==> log[i].ledger < from
    ensures InRange(log, from, to) == []
  {
    if log != [] {
      NothingBeyond(log[..|log| - 1], from, to);
    }
  }

  /** Two ranges side by side are one. */
  lemma {:induction false} RangesJoin(log: seq<LogEntry>, from: int, mid: int, to: int)
    requires Sorted(log) && from <= mid <= to + 1
    ensures InRange(log, from, mid - 1) + InRange(log, mid, to) == InRange(log, from, to)
  {
    if log != [] {
      RangesJoin(log[..|log| - 1], from, mid, to);
      if log[|log| - 1].ledger < mid {
        NothingBeyond(log, mid, to);
        NothingBeyond(log[..|log| - 1], mid, to);
      }
    }
  }

  /** A range holds only what the log does. */
  lemma {:induction false} RangeWithin(log: seq<LogEntry>, from: int, to: int)
    ensures forall i :: 0 <= i < |InRange(log, from, to)| ==> InRange(log, from, to)[i] in log
  {
    if log != [] {
      RangeWithin(log[..|log| - 1], from, to);
    }
  }

  /* ------------------------------ one batch ------------------------------ */

  /** From ledger `from` on, exactly the first `n` events of the batch are recorded, each under its place. */
  predicate Recorded(c: Source, db: Db, from: nat, events: seq<LogEntry>, n: nat) {
    && n <= |events|
    && (forall i :: 0 <= i < n && !events[i].body.Undecodable? ==>
          EventKey(c, events[i].ledger, i) in db.audit && db.audit[EventKey(c, events[i].ledger, i)].entry == events[i])
    && (forall k :: k in db.audit && k.contract == c && from <= k.ledger ==>
          k.index < n && events[k.index].ledger == k.ledger && !events[k.index].body.Undecodable?)
  }

  /** The table is the fold of `past` and the first `n` events, but for a projection of the next one cut short. */
  predicate Projected(dir: Directory, t: TransferTable, past: seq<LogEntry>, events: seq<LogEntry>, n: nat)
    requires n <= |events|
  {
    var clean := Fold(dir, past + events[..n]);
    t == clean || (n < |events| && Halfway(dir, clean, events[n], t))
  }

  /** A batch of `c` under way: `n` events recorded; the escrow's batch also keeps the table. */
  predicate UnderWay(dir: Directory, c: Source, db: Db, from: nat, past: seq<LogEntry>, events: seq<LogEntry>, n: nat) {
    && Recorded(c, db, from, events, n)
    && (c == EscrowSource ==> Projected(dir, db.transfers, past, events, n))
  }

  /** What a batch of `c` from `from` may not touch. */
  ghost predicate Untouched(c: Source, from: nat, db: Db, next: Db) {
    && next.cursors == db.cursors
    && (c != EscrowSource ==> next.transfers == db.transfers)
    && (forall k: EventKey :: (k.contract != c || k.ledger < from) ==>
          && (k in db.audit <==> k in next.audit)
          && (k in db.audit ==> next.audit[k] == db.audit[k]))
  }

  /** A contract other than the escrow announces nothing that changes the transfer table. */
  predicate FilesOnly(c: Source, events: seq<LogEntry>) {
    c != EscrowSource ==> forall i :: 0 <= i < |events| ==> !events[i].body.Transferred?
  }

  /** One event taken up where it was left. */
  lemma EventAdvances(dir: Directory, c: Source, p: Process, from: nat, past: seq<LogEntry>, events: seq<LogEntry>, n: nat)
    requires n < |events| && from <= events[n].ledger && FilesOnly(c, events)
    requires UnderWay(dir, c, p.db, from, past, events, n)
    ensures var fate := Persist(dir, c, p, events[n], n);
            && UnderWay(dir, c, fate.Database(), from, past, events, if fate.Alive? then n + 1 else n)
            && Untouched(c, from, p.db, fate.Database())
  {
    var fate := Persist(dir, c, p, events[n], n);
    PersistFates(dir, c, p, events[n], n);
    if c == EscrowSource {
      var clean := Fold(dir, past + events[..n]);
      assert past + events[..n + 1] == (past + events[..n]) + [events[n]];
      ProjectAgain(dir, clean, events[n], p.db.transfers);
      if fate.Dead? {
        HalfwayAgain(dir, clean, events[n], p.db.transfers, fate.db.transfers);
      }
    }
  }

  lemma UntouchedTwice(c: Source, from: nat, db: Db, mid: Db, next: Db)
    requires Untouched(c, from, db, mid) && Untouched(c, from, mid, next)
    ensures Untouched(c, from, db, next)
  {
  }

  /** What is recorded is skipped. */
  lemma {:induction false} RecordedIsSkipped(dir: Directory, c: Source, p: Process, from: nat, events: seq<LogEntry>, n: nat, i: nat)
    requires Recorded(c, p.db, from, events, n) && i <= n
    ensures PersistFrom(dir, c, p, events, i) == PersistFrom(dir, c, p, events, n)
    decreases n - i
  {
    if i < n {
      assert Persist(dir, c, p, events[i], i) == Alive(p);
      RecordedIsSkipped(dir, c, p, from, events, n, i + 1);
    }
  }

  lemma {:induction false} RestAdvances(dir: Directory, c: Source, p: Process, from: nat, past: seq<LogEntry>, events: seq<LogEntry>, n: nat)
    requires UnderWay(dir, c, p.db, from, past, events, n)
    requires FilesOnly(c, events) && forall k :: 0 <= k < |events| ==> from <= events[k].ledger
    ensures var fate := PersistFrom(dir, c, p, events, n);
            && (fate.Alive? ==> UnderWay(dir, c, fate.Database(), from, past, events, |events|))
            && MidBatch(dir, c, fate.Database(), from, past, events)
            && Untouched(c, from, p.db, fate.Database())
    decreases |events| - n
  {
    if n < |events| {
      EventAdvances(dir, c, p, from, past, events, n);
      var fate := Persist(dir, c, p, events[n], n);
      if fate.Alive? {
        RestAdvances(dir, c, fate.process, from, past, events, n + 1);
        UntouchedTwice(c, from, p.db, fate.process.db, PersistFrom(dir, c, fate.process, events, n + 1).Database());
      }
    }
  }

  /* ------------------------------ one contract ------------------------------ */

  /** The events of a ledger were recorded once each, in order, under consecutive indexes from `base`; nothing else was. */
  predicate RecordedFrom(c: Source, db: Db, ledger: nat, there: seq<LogEntry>, base: nat) {
    && (forall j :: 0 <= j < |there| && !there[j].body.Undecodable? ==>
          EventKey(c, ledger, base + j) in db.audit && db.audit[EventKey(c, ledger, base + j)].entry == there[j])
    && (forall k :: k in db.audit && k.contract == c && k.ledger == ledger ==>
          base <= k.index < base + |there| && !there[k.index - base].body.Undecodable?)
  }

  ghost predicate RecordedOnce(c: Source, db: Db, ledger: nat, there: seq<LogEntry>) {
    exists base: nat :: RecordedFrom(c, db, ledger, there, base)
  }

  ghost predicate LedgerRecorded(c: Source, db: Db, log: seq<LogEntry>, ledger: nat) {
    RecordedOnce(c, db, ledger, InRange(log, ledger, ledger))
  }

  /** What came before the ledger a contract resumes from. */
  function Before(log: seq<LogEntry>, first: nat, from: nat): seq<LogEntry> {
    var last: int := from - 1;
    InRange(log, first, last)
  }

  function Resuming(first: nat, db: Db, c: Source): nat { FromLedger(At(first), db, c, 0) }

  /** Every ledger from `first` up to `from` is recorded once, and none before. */
  ghost predicate PastRecorded(log: seq<LogEntry>, first: nat, c: Source, db: Db, from: nat) {
    && (forall k :: k in db.audit && k.contract == c ==> first <= k.ledger)
    && (forall ledger: nat :: first <= ledger < from ==> LedgerRecorded(c, db, log, ledger))
  }

  ghost predicate MidBatch(dir: Directory, c: Source, db: Db, from: nat, past: seq<LogEntry>, events: seq<LogEntry>) {
    exists n: nat :: UnderWay(dir, c, db, from, past, events, n)
  }

  /** Everything before the ledger a contract resumes from is recorded once, and its current batch is under way. */
  ghost predicate Recovering(dir: Directory, log: seq<LogEntry>, first: nat, c: Source, db: Db, tip: nat) {
    var from := Resuming(first, db, c);
    && first <= from && (from == first || from <= tip + 1)
    && PastRecorded(log, first, c, db, from)
    && MidBatch(dir, c, db, from, Before(log, first, from), InRange(log, from, tip))
  }

  lemma {:induction false} EmptyRange(log: seq<LogEntry>, from: int, to: int)
    requires to < from
    ensures InRange(log, from, to) == []
  {
    if log != [] {
      EmptyRange(log[..|log| - 1], from, to);
    }
  }

  lemma RangeGrows(log: seq<LogEntry>, from: int, tip: int, later: int)
    requires Sorted(log) && tip <= later
    ensures InRange(log, from, tip) <= InRange(log, from, later)
  {
    if from <= tip {
      RangesJoin(log, from, tip + 1, later);
    } else {
      EmptyRange(log, from, tip);
    }
  }

  /** A batch under way is under way towards any later tip. */
  lemma LaterTip(dir: Directory, log: seq<LogEntry>, first: nat, c: Source, db: Db, tip: nat, later: nat)
    requires Sorted(log) && tip <= later && Recovering(dir, log, first, c, db, tip)
    ensures Recovering(dir, log, first, c, db, later)
  {
    var from := Resuming(first, db, c);
    RangeGrows(log, from, tip, later);
    MoreToCome(dir, c, db, from, Before(log, first, from), InRange(log, from, tip), InRange(log, from, later));
  }

  lemma MoreToCome(dir: Directory, c: Source, db: Db, from: nat, past: seq<LogEntry>, events: seq<LogEntry>, more: seq<LogEntry>)
    requires events <= more && MidBatch(dir, c, db, from, past, events)
    ensures MidBatch(dir, c, db, from, past, more)
  {
    var n: nat :| UnderWay(dir, c, db, from, past, events, n);
    assert events[..n] == more[..n];
    assert UnderWay(dir, c, db, from, past, more, n);
  }

  /** Writes for one contract that another does not notice. */
  ghost predicate Spares(d: Source, db: Db, next: Db) {
    && (forall c :: c != d ==> (c in db.cursors <==> c in next.cursors))
    && (forall c :: c != d && c in db.cursors ==> next.cursors[c] == db.cursors[c])
    && (d != EscrowSource ==> next.transfers == db.transfers)
    && (forall k: EventKey :: k.contract != d ==>
          && (k in db.audit <==> k in next.audit)
          && (k in db.audit ==> next.audit[k] == db.audit[k]))
  }

  /** The same audit rows of `c`, up to but not including ledger `from`. */
  ghost predicate SameBefore(c: Source, db: Db, next: Db, from: nat) {
    forall k: EventKey :: k.contract == c && k.ledger < from ==>
      && (k in db.audit <==> k in next.audit)
      && (k in db.audit ==> next.audit[k] == db.audit[k])
  }

  lemma LedgerStays(c: Source, db: Db, next: Db, from: nat, ledger: nat, there: seq<LogEntry>)
    requires SameBefore(c, db, next, from) && ledger < from && RecordedOnce(c, db, ledger, there)
    ensures RecordedOnce(c, next, ledger, there)
  {
    var base: nat :| RecordedFrom(c, db, ledger, there, base);
    assert RecordedFrom(c, next, ledger, there, base);
  }

  lemma PastStays(log: seq<LogEntry>, first: nat, c: Source, db: Db, next: Db, from: nat)
    requires PastRecorded(log, first, c, db, from) && SameBefore(c, db, next, from)
    requires forall k :: k in next.audit && k.contract == c ==> first <= k.ledger
    ensures PastRecorded(log, first, c, next, from)
  {
    forall ledger: nat | first <= ledger < from ensures LedgerRecorded(c, next, log, ledger) {
      assert LedgerRecorded(c, db, log, ledger);
      LedgerStays(c, db, next, from, ledger, InRange(log, ledger, ledger));
    }
  }

  lemma OthersStay(dir: Directory, log: seq<LogEntry>, first: nat, c: Source, d: Source, db: Db, next: Db, tip: nat)
    requires c != d && Recovering(dir, log, first, c, db, tip) && Spares(d, db, next)
    ensures Recovering(dir, log, first, c, next, tip)
  {
    var from := Resuming(first, db, c);
    assert Resuming(first, next, c) == from;
    PastStays(log, first, c, db, next, from);
    BatchStays(dir, c, d, db, next, from, Before(log, first, from), InRange(log, from, tip));
  }

  lemma BatchStays(dir: Directory, c: Source, d: Source, db: Db, next: Db, from: nat, past: seq<LogEntry>, events: seq<LogEntry>)
    requires c != d && Spares(d, db, next) && MidBatch(dir, c, db, from, past, events)
    ensures MidBatch(dir, c, next, from, past, events)
  {
    var n: nat :| UnderWay(dir, c, db, from, past, events, n);
    assert UnderWay(dir, c, next, from, past, events, n);
  }

  /** A stretch of a recorded batch that is one ledger's events is that ledger's record. */
  lemma StretchRecorded(c: Source, db: Db, from: nat, before: seq<LogEntry>, there: seq<LogEntry>, after: seq<LogEntry>, ledger: nat)
    requires from <= ledger && Recorded(c, db, from, before + there + after, |before + there + after|)
    requires forall i :: 0 <= i < |before| ==> before[i].ledger < ledger
    requires forall i :: 0 <= i < |there| ==> there[i].ledger == ledger
    requires forall i :: 0 <= i < |after| ==> ledger < after[i].ledger
    ensures RecordedOnce(c, db, ledger, there)
  {
    var events := before + there + after;
    assert forall j :: 0 <= j < |there| ==> events[|before| + j] == there[j];
    assert RecordedFrom(c, db, ledger, there, |before|);
  }

  /** When the whole batch is recorded, so is each of its ledgers. */
  lemma LedgerOfBatch(c: Source, db: Db, log: seq<LogEntry>, from: nat, tip: nat, ledger: nat)
    requires Sorted(log) && from <= ledger <= tip
    requires Recorded(c, db, from, InRange(log, from, tip), |InRange(log, from, tip)|)
    ensures LedgerRecorded(c, db, log, ledger)
  {
    RangesJoin(log, from, ledger, tip);
    RangesJoin(log, ledger, ledger + 1, tip);
    RangeIsRange(log, from, ledger - 1);
    RangeIsRange(log, ledger, ledger);
    RangeIsRange(log, ledger + 1, tip);
    var before, there, after := InRange(log, from, ledger - 1), InRange(log, ledger, ledger), InRange(log, ledger + 1, tip);
    assert InRange(log, from, tip) == before + there + after;
    StretchRecorded(c, db, from, before, there, after, ledger);
  }

  /** When the whole batch is recorded, the past reaches to the tip. */
  lemma PastExtends(log: seq<LogEntry>, first: nat, c: Source, db: Db, from: nat, tip: nat)
    requires Sorted(log) && first <= from <= tip && PastRecorded(log, first, c, db, from)
    requires Recorded(c, db, from, InRange(log, from, tip), |InRange(log, from, tip)|)
    ensures PastRecorded(log, first, c, db, tip + 1)
  {
    forall ledger: nat | first <= ledger < tip + 1 ensures LedgerRecorded(c, db, log, ledger) {
      if from <= ledger {
        LedgerOfBatch(c, db, log, from, tip, ledger);
      }
    }
  }

  lemma NextBatchIsEmpty(dir: Directory, log: seq<LogEntry>, first: nat, c: Source, db: Db, from: nat, tip: nat)
    requires Sorted(log) && first <= from <= tip
    requires UnderWay(dir, c, db, from, Before(log, first, from), InRange(log, from, tip), |InRange(log, from, tip)|)
    ensures MidBatch(dir, c, db, tip + 1, InRange(log, first, tip), InRange(log, tip + 1, tip))
  {
    var past, events := Before(log, first, from), InRange(log, from, tip);
    RangesJoin(log, first, from, tip);
    EmptyRange(log, tip + 1, tip);
    RangeIsRange(log, from, tip);
    assert past + events[..|events|] == InRange(log, first, tip);
    assert InRange(log, first, tip) + InRange(log, tip + 1, tip)[..0] == InRange(log, first, tip);
    assert UnderWay(dir, c, db, tip + 1, InRange(log, first, tip), InRange(log, tip + 1, tip), 0);
  }

  /** Saving the cursor turns a finished batch into past. */
  lemma CursorCloses(dir: Directory, log: seq<LogEntry>, first: nat, c: Source, from: nat, done: Db, tip: nat)
    requires Sorted(log) && first <= from <= tip && PastRecorded(log, first, c, done, from)
    requires UnderWay(dir, c, done, from, Before(log, first, from), InRange(log, from, tip), |InRange(log, from, tip)|)
    ensures Recovering(dir, log, first, c, done.(cursors := done.cursors[c := tip]), tip)
  {
    var next := done.(cursors := done.cursors[c := tip]);
    PastExtends(log, first, c, done, from, tip);
    PastStays(log, first, c, done, next, tip + 1);
    CursorMovesOn(dir, log, first, c, from, done, next, tip);
    assert Resuming(first, next, c) == tip + 1;
  }

  lemma CursorMovesOn(dir: Directory, log: seq<LogEntry>, first: nat, c: Source, from: nat, done: Db, next: Db, tip: nat)
    requires Sorted(log) && first <= from <= tip && next == done.(cursors := next.cursors)
    requires UnderWay(dir, c, done, from, Before(log, first, from), InRange(log, from, tip), |InRange(log, from, tip)|)
    ensures MidBatch(dir, c, next, tip + 1, Before(log, first, tip + 1), InRange(log, tip + 1, tip))
  {
    NextBatchIsEmpty(dir, log, first, c, next, from, tip);
  }

  /** Running a batch from wherever it is: it is still under way, and if it survives it is finished. */
  lemma BatchRuns(dir: Directory, log: seq<LogEntry>, first: nat, c: Source, from: nat, tip: nat, p: Process)
    requires Sorted(log) && FilesOnly(c, log) && first <= from && PastRecorded(log, first, c, p.db, from)
    requires MidBatch(dir, c, p.db, from, Before(log, first, from), InRange(log, from, tip))
    ensures var past, events := Before(log, first, from), InRange(log, from, tip);
            var fate := PersistFrom(dir, c, p, events, 0);
            && PastRecorded(log, first, c, fate.Database(), from)
            && MidBatch(dir, c, fate.Database(), from, past, events)
            && (fate.Alive? ==> UnderWay(dir, c, fate.Database(), from, past, events, |events|))
            && Untouched(c, from, p.db, fate.Database())
  {
    var past, events := Before(log, first, from), InRange(log, from, tip);
    var n: nat :| UnderWay(dir, c, p.db, from, past, events, n);
    RangeIsRange(log, from, tip);
    RangeWithin(log, from, tip);
    RecordedIsSkipped(dir, c, p, from, events, n, 0);
    RestAdvances(dir, c, p, from, past, events, n);
    BatchKeepsPast(log, first, c, p.db, PersistFrom(dir, c, p, events, 0).Database(), from, events);
  }

  /** What is left to do after the batch: the cursor. */
  lemma CursorFollows(dir: Directory, log: seq<LogEntry>, logs: Logs, first: nat, c: Source, tip: nat, p: Process)
    requires log == LogOf(logs, c) && Resuming(first, p.db, c) <= tip
    requires |InRange(log, Resuming(first, p.db, c), tip)| <= 200
    ensures var batch := PersistFrom(dir, c, p, InRange(log, Resuming(first, p.db, c), tip), 0);
            var fate := IndexSource(dir, At(first), logs, tip, c, p);
            && fate.Database() == (if fate.Alive? then batch.Database().(cursors := batch.Database().cursors[c := tip]) else batch.Database())
            && (fate.Alive? ==> batch.Alive?)
  {
  }

  /** One contract's part of a tick, alive or dead, leaves it recovering; alive, it has caught up with the tip. */
  lemma SourceAdvances(dir: Directory, log: seq<LogEntry>, logs: Logs, first: nat, c: Source, tip: nat, p: Process)
    requires log == LogOf(logs, c) && Sorted(log) && FilesOnly(c, log)
    requires Recovering(dir, log, first, c, p.db, tip)
    requires |InRange(log, Resuming(first, p.db, c), tip)| <= 200
    ensures var fate := IndexSource(dir, At(first), logs, tip, c, p);
            && Recovering(dir, log, first, c, fate.Database(), tip)
            && Spares(c, p.db, fate.Database())
            && (fate.Alive? ==> tip < Resuming(first, fate.Database(), c))
  {
    var from := Resuming(first, p.db, c);
    if from <= tip {
      BatchRuns(dir, log, first, c, from, tip, p);
      CursorFollows(dir, log, logs, first, c, tip, p);
      var batch := PersistFrom(dir, c, p, InRange(log, from, tip), 0);
      if batch.Alive? {
        CursorCloses(dir, log, first, c, from, batch.Database(), tip);
      }
    }
  }

  lemma BatchKeepsPast(log: seq<LogEntry>, first: nat, c: Source, db: Db, next: Db, from: nat, events: seq<LogEntry>)
    requires first <= from && PastRecorded(log, first, c, db, from) && Untouched(c, from, db, next)
    ensures PastRecorded(log, first, c, next, from)
  {
    forall k | k in next.audit && k.contract == c ensures first <= k.ledger {
      if k.ledger < from {
        assert k in db.audit;
      }
    }
    PastStays(log, first, c, db, next, from);
  }

  /* ------------------------------ whole ticks, over a history ------------------------------ */

  ghost predicate AllRecovering(dir: Directory, logs: Logs, first: nat, db: Db, tip: nat) {
    forall c :: Recovering(dir, LogOf(logs, c), first, c, db, tip)
  }

  /** No contract has more waiting than one request returns. */
  predicate Fits(logs: Logs, first: nat, db: Db, tip: nat, sources: seq<Source>) {
    forall c :: c in sources ==> |InRange(LogOf(logs, c), Resuming(first, db, c), tip)| <= 200
  }

  lemma OneSourceAdvances(dir: Directory, logs: Logs, first: nat, tip: nat, c: Source, p: Process)
    requires Honest(logs) && AllRecovering(dir, logs, first, p.db, tip) && Fits(logs, first, p.db, tip, [c])
    ensures var fate := IndexSource(dir, At(first), logs, tip, c, p);
            && AllRecovering(dir, logs, first, fate.Database(), tip)
            && (forall d :: d != c ==> Resuming(first, fate.Database(), d) == Resuming(first, p.db, d))
            && (fate.Alive? ==> tip < Resuming(first, fate.Database(), c))
  {
    assert c in [c];
    SourceAdvances(dir, LogOf(logs, c), logs, first, c, tip, p);
    var next := IndexSource(dir, At(first), logs, tip, c, p).Database();
    forall d ensures Recovering(dir, LogOf(logs, d), first, d, next, tip) {
      if d != c {
        OthersStay(dir, LogOf(logs, d), first, d, c, p.db, next, tip);
      }
    }
  }

  lemma FitsStill(logs: Logs, first: nat, db: Db, next: Db, tip: nat, sources: seq<Source>)
    requires sources != [] && NoDuplicates(sources) && Fits(logs, first, db, tip, sources)
    requires forall d :: d != sources[0] ==> Resuming(first, next, d) == Resuming(first, db, d)
    ensures Fits(logs, first, next, tip, sources[1..]) && NoDuplicates(sources[1..])
  {
  }

  lemma {:induction false} SourcesAdvance(dir: Directory, logs: Logs, first: nat, tip: nat, sources: seq<Source>, p: Process)
    requires NoDuplicates(sources) && Honest(logs)
    requires AllRecovering(dir, logs, first, p.db, tip) && Fits(logs, first, p.db, tip, sources)
    ensures var fate := IndexSources(dir, At(first), logs, tip, sources, p);
            && AllRecovering(dir, logs, first, fate.Database(), tip)
            && (forall d :: d !in sources ==> Resuming(first, fate.Database(), d) == Resuming(first, p.db, d))
            && (fate.Alive? ==> forall c :: c in sources ==> tip < Resuming(first, fate.Database(), c))
    decreases |sources|
  {
    if sources != [] {
      var c := sources[0];
      OneSourceAdvances(dir, logs, first, tip, c, p);
      var fate := IndexSource(dir, At(first), logs, tip, c, p);
      if fate.Alive? {
        FitsStill(logs, first, p.db, fate.process.db, tip, sources);
        SourcesAdvance(dir, logs, first, tip, sources[1..], fate.process);
      }
    }
  }

  /** A process started at some tip, that lives for so many writes. */
  datatype Attempt = Attempt(tip: nat, life: nat)

  function Attempted(dir: Directory, logs: Logs, first: nat, db: Db, a: Attempt): Fate {
    Tick(dir, At(first), logs, a.tip, Process(db, a.life))
  }

  function Rundown(dir: Directory, logs: Logs, first: nat, attempts: seq<Attempt>): Db {
    if attempts == [] then EMPTY_DB
    else Attempted(dir, logs, first, Rundown(dir, logs, first, attempts[..|attempts| - 1]), attempts[|attempts| - 1]).Database()
  }

  /** Tips only rise, and no attempt finds more waiting than one request returns. */
  predicate Orderly(dir: Directory, logs: Logs, first: nat, attempts: seq<Attempt>) {
    attempts == []
    || (var init, last := attempts[..|attempts| - 1], attempts[|attempts| - 1];
        && Orderly(dir, logs, first, init)
        && (init != [] ==> init[|init| - 1].tip <= last.tip)
        && Fits(logs, first, Rundown(dir, logs, first, init), last.tip, SOURCES))
  }

  lemma EmptyRecovers(dir: Directory, logs: Logs, first: nat, tip: nat)
    ensures AllRecovering(dir, logs, first, EMPTY_DB, tip)
  {
    forall c ensures Recovering(dir, LogOf(logs, c), first, c, EMPTY_DB, tip) {
      var log := LogOf(logs, c);
      EmptyRange(log, first, first - 1);
      assert Before(log, first, first) + InRange(log, first, tip)[..0] == [];
      assert UnderWay(dir, c, EMPTY_DB, first, Before(log, first, first), InRange(log, first, tip), 0);
    }
  }

  lemma AllLaterTip(dir: Directory, logs: Logs, first: nat, db: Db, tip: nat, later: nat)
    requires Honest(logs) && tip <= later && AllRecovering(dir, logs, first, db, tip)
    ensures AllRecovering(dir, logs, first, db, later)
  {
    forall c ensures Recovering(dir, LogOf(logs, c), first, c, db, later) {
      LaterTip(dir, LogOf(logs, c), first, c, db, tip, later);
    }
  }

  /** Whatever died before, the database stays one from which the next attempt can carry on. */
  lemma {:induction false} HistoryRecovers(dir: Directory, logs: Logs, first: nat, attempts: seq<Attempt>, tip: nat)
    requires Honest(logs) && Orderly(dir, logs, first, attempts)
    requires attempts != [] ==> attempts[|attempts| - 1].tip <= tip
    ensures AllRecovering(dir, logs, first, Rundown(dir, logs, first, attempts), tip)
    decreases |attempts|
  {
    if attempts == [] {
      EmptyRecovers(dir, logs, first, tip);
    } else {
      var init, last := attempts[..|attempts| - 1], attempts[|attempts| - 1];
      HistoryRecovers(dir, logs, first, init, last.tip);
      SourcesAdvance(dir, logs, first, last.tip, SOURCES, Process(Rundown(dir, logs, first, init), last.life));
      AllLaterTip(dir, logs, first, Rundown(dir, logs, first, attempts), last.tip, tip);
    }
  }

  /** The tables agree with everything announced from `first` to `tip`: folded, and recorded once. */
  ghost predicate CaughtUp(dir: Directory, logs: Logs, first: nat, db: Db, tip: nat) {
    && db.transfers == Fold(dir, InRange(LogOf(logs, EscrowSource), first, tip))
    && (forall c :: PastRecorded(LogOf(logs, c), first, c, db, tip + 1))
    && (forall k :: k in db.audit ==> first <= k.ledger <= tip)
  }

  lemma CaughtUpWhenPast(dir: Directory, logs: Logs, first: nat, db: Db, tip: nat, c: Source)
    requires Recovering(dir, LogOf(logs, c), first, c, db, tip) && tip < Resuming(first, db, c)
    ensures PastRecorded(LogOf(logs, c), first, c, db, tip + 1)
    ensures forall k :: k in db.audit && k.contract == c ==> k.ledger <= tip
    ensures c == EscrowSource ==> db.transfers == Fold(dir, InRange(LogOf(logs, c), first, tip))
  {
    var log, from := LogOf(logs, c), Resuming(first, db, c);
    EmptyRange(log, from, tip);
    var n: nat :| UnderWay(dir, c, db, from, Before(log, first, from), [], n);
    assert Before(log, first, from) + [][..0] == Before(log, first, from);
    if from == first {
      EmptyRange(log, first, tip);
      EmptyRange(log, first, first - 1);
    }
  }

  /**
   After any history of ticks at rising tips, dying wherever they did, a tick that completes
   leaves the transfer table that the announced events mean, and each event recorded exactly
   once: what crashed before leaves no trace in either.
   */
  lemma TablesAfterAnyHistory(dir: Directory, logs: Logs, first: nat, attempts: seq<Attempt>, last: Attempt)
    requires Honest(logs) && Orderly(dir, logs, first, attempts + [last])
    requires Attempted(dir, logs, first, Rundown(dir, logs, first, attempts), last).Alive?
    ensures CaughtUp(dir, logs, first, Rundown(dir, logs, first, attempts + [last]), last.tip)
  {
    assert (attempts + [last])[..|attempts|] == attempts;
    HistoryRecovers(dir, logs, first, attempts, last.tip);
    CompletedTickCatchesUp(dir, logs, first, Rundown(dir, logs, first, attempts), last);
  }

  lemma EverySourceIsIndexed(c: Source)
    ensures c in SOURCES
  {
    match c
    case EscrowSource => assert SOURCES[0] == c;
    case RegistrySource => assert SOURCES[1] == c;
    case HookSource => assert SOURCES[2] == c;
    case PoolSource => assert SOURCES[3] == c;
  }

  lemma CompletedTickCatchesUp(dir: Directory, logs: Logs, first: nat, before: Db, last: Attempt)
    requires Honest(logs) && AllRecovering(dir, logs, first, before, last.tip) && Fits(logs, first, before, last.tip, SOURCES)
    requires Attempted(dir, logs, first, before, last).Alive?
    ensures CaughtUp(dir, logs, first, Attempted(dir, logs, first, before, last).Database(), last.tip)
  {
    SourcesAdvance(dir, logs, first, last.tip, SOURCES, Process(before, last.life));
    PastEverywhere(dir, logs, first, Attempted(dir, logs, first, before, last).Database(), last.tip);
  }

  lemma PastEverywhere(dir: Directory, logs: Logs, first: nat, db: Db, tip: nat)
    requires AllRecovering(dir, logs, first, db, tip) && forall c :: c in SOURCES ==> tip < Resuming(first, db, c)
    ensures CaughtUp(dir, logs, first, db, tip)
  {
    forall c ensures PastRecorded(LogOf(logs, c), first, c, db, tip + 1) {
      EverySourceIsIndexed(c);
      CaughtUpWhenPast(dir, logs, first, db, tip, c);
    }
    forall k | k in db.audit ensures first <= k.ledger <= tip {
      EverySourceIsIndexed(k.contract);
      CaughtUpWhenPast(dir, logs, first, db, tip, k.contract);
    }
    EverySourceIsIndexed(EscrowSource);
    CaughtUpWhenPast(dir, logs, first, db, tip, EscrowSource);
  }
}
