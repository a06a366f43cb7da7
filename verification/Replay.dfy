/**
 Rewinding a cursor to replay a stretch of ledgers. An event is recognised by its place in the
 answer, which depends on where the request starts, so replaying is not idempotent in general.
 */
module Replay {
  import opened Prelude
  import opened Chain
  import opened IndexerRules
  import opened CrashRecovery
  import opened Gaps
  import E = EscrowRules
  import H = IndexerHistory

  /** Every event of a batch that can be decoded is already recorded under its place in this batch. */
  predicate InPlace(c: Source, db: Db, events: seq<LogEntry>) {
    forall i :: 0 <= i < |events| && !events[i].body.Undecodable? ==> EventKey(c, events[i].ledger, i) in db.audit
  }

  lemma {:induction false} InPlaceIsSkipped(dir: Directory, c: Source, p: Process, events: seq<LogEntry>, i: nat)
    requires i <= |events| && InPlace(c, p.db, events)
    ensures PersistFrom(dir, c, p, events, i) == Alive(p)
    decreases |events| - i
  {
    if i < |events| {
      InPlaceIsSkipped(dir, c, p, events, i + 1);
    }
  }

  lemma {:induction false} FinishedIsInPlace(dir: Directory, c: Source, p: Process, events: seq<LogEntry>, i: nat)
    requires i <= |events| && PersistFrom(dir, c, p, events, i).Alive?
    ensures var db := PersistFrom(dir, c, p, events, i).process.db;
            && (forall k :: k in p.db.audit ==> k in db.audit)
            && (forall j :: i <= j < |events| && !events[j].body.Undecodable? ==> EventKey(c, events[j].ledger, j) in db.audit)
    decreases |events| - i
  {
    if i < |events| {
      PersistFates(dir, c, p, events[i], i);
      FinishedIsInPlace(dir, c, Persist(dir, c, p, events[i], i).process, events, i + 1);
    }
  }

  /** Replaying a batch changes nothing exactly when every event of it already sits in its place. */
  lemma ReplayChangesNothingExactly(dir: Directory, c: Source, p: Process, events: seq<LogEntry>)
    requires PersistFrom(dir, c, p, events, 0).Alive?
    ensures PersistFrom(dir, c, p, events, 0).process.db == p.db <==> InPlace(c, p.db, events)
  {
    FinishedIsInPlace(dir, c, p, events, 0);
    if InPlace(c, p.db, events) {
      InPlaceIsSkipped(dir, c, p, events, 0);
    }
  }

  /** That is so when the replay starts at the very ledger from which the batch was first requested. */
  lemma ReplayFromTheSameStart(dir: Directory, c: Source, p: Process, from: nat, events: seq<LogEntry>)
    requires H.Recorded(c, p.db, from, events, |events|)
    ensures PersistFrom(dir, c, p, events, 0) == Alive(p)
  {
    InPlaceIsSkipped(dir, c, p, events, 0);
  }

  /** A creation projected a second time puts its row back to pending under the new transaction, and changes nothing else. */
  lemma CreationAgainResets(dir: Directory, t: TransferTable, entry: LogEntry, id: nat)
    requires Creates(dir, entry, id) && id in t
    ensures Project(dir, t, entry) == t[id := t[id].(status := E.Pending, createTxHash := entry.txHash)]
  {
    assert t[id := t[id].(status := E.Pending, createTxHash := entry.txHash)] == FirstWrite(dir, t, entry);
  }

  /* ------------------------------ a rewind that undoes a settlement ------------------------------ */

  /** A setting before the creation. */
  const SETTING := LogEntry(5, 5, "", Filed("esc_cfg"))

  const LOG := [SETTING, CREATION, RESETTING, CANCELLATION]

  /** The tables after the first pass, which started at ledger 0. */
  ghost predicate SettledFirst(db: Db) {
    && 1 in db.transfers && db.transfers[1].status == E.Cancelled
    && db.audit.Keys == {EventKey(EscrowSource, 5, 0), EventKey(EscrowSource, 10, 1), EventKey(EscrowSource, 20, 2), EventKey(EscrowSource, 20, 3)}
  }

  lemma OneEvent(c: Source, p: Process, events: seq<LogEntry>, i: nat)
    requires i < |events| && Persist(KNOWN, c, p, events[i], i).Alive?
    ensures PersistFrom(KNOWN, c, p, events, i) == PersistFrom(KNOWN, c, Persist(KNOWN, c, p, events[i], i).process, events, i + 1)
  {
  }

  lemma FirstPassSettles(p: Process)
    requires p.db == EMPTY_DB && 10 <= p.life
    ensures var fate := PersistFrom(KNOWN, EscrowSource, p, LOG, 0);
            fate.Alive? && SettledFirst(fate.process.db)
  {
    var p1 := Persist(KNOWN, EscrowSource, p, LOG[0], 0).process;
    assert p1.db.audit.Keys == {EventKey(EscrowSource, 5, 0)} && p1.db.transfers == map[];
    var p2 := Persist(KNOWN, EscrowSource, p1, LOG[1], 1).process;
    assert p2.db.audit.Keys == {EventKey(EscrowSource, 5, 0), EventKey(EscrowSource, 10, 1)} && 1 in p2.db.transfers;
    var p3 := Persist(KNOWN, EscrowSource, p2, LOG[2], 2).process;
    var p4 := Persist(KNOWN, EscrowSource, p3, LOG[3], 3).process;
    assert p4.db.transfers[1].status == E.Cancelled;
    OneEvent(EscrowSource, p, LOG, 0);
    OneEvent(EscrowSource, p1, LOG, 1);
    OneEvent(EscrowSource, p2, LOG, 2);
    OneEvent(EscrowSource, p3, LOG, 3);
  }

  /**
   Rewound to start at ledger 10, the same log puts the cancelled transfer back to pending: its
   creation is now in place 0, where nothing was recorded, and its cancellation is taken for the
   setting recorded in place 2 of its ledger.
   */
  lemma RewindUndoesSettlement(p: Process)
    requires SettledFirst(p.db) && 10 <= p.life
    ensures var fate := PersistFrom(KNOWN, EscrowSource, p, LOG[1..], 0);
            && fate.Alive?
            && 1 in fate.process.db.transfers && fate.process.db.transfers[1].status == E.Pending
            && EventKey(EscrowSource, 10, 0) in fate.process.db.audit && EventKey(EscrowSource, 10, 1) in fate.process.db.audit
  {
    var events := LOG[1..];
    assert events[0] == CREATION && events[1] == RESETTING && events[2] == CANCELLATION && |events| == 3;
    var p1 := Persist(KNOWN, EscrowSource, p, events[0], 0).process;
    assert p1.db.transfers[1].status == E.Pending;
    var p2 := Persist(KNOWN, EscrowSource, p1, events[1], 1).process;
    assert Persist(KNOWN, EscrowSource, p2, events[2], 2) == Alive(p2);
    OneEvent(EscrowSource, p, events, 0);
    OneEvent(EscrowSource, p1, events, 1);
    OneEvent(EscrowSource, p2, events, 2);
  }

  lemma RangeOfOneMore(log: seq<LogEntry>, e: LogEntry, from: int, to: int)
    ensures InRange(log + [e], from, to) == InRange(log, from, to) + if from <= e.ledger <= to then [e] else []
  {
    assert (log + [e])[..|log|] == log;
  }

  /** Those are the batches the two requests get. */
  lemma RewindRequestsTheTail()
    ensures FetchEvents(LOG, 0, 20) == LOG && FetchEvents(LOG, 10, 20) == LOG[1..]
  {
    assert LOG == [] + [SETTING] + [CREATION] + [RESETTING] + [CANCELLATION];
    forall from | from == 0 || from == 10 ensures InRange(LOG, from, 20) == if from == 0 then LOG else LOG[1..] {
      RangeOfOneMore([], SETTING, from, 20);
      RangeOfOneMore([SETTING], CREATION, from, 20);
      RangeOfOneMore([SETTING, CREATION], RESETTING, from, 20);
      RangeOfOneMore([SETTING, CREATION, RESETTING], CANCELLATION, from, 20);
      assert LOG == [SETTING, CREATION, RESETTING] + [CANCELLATION];
    }
  }

  const LOGS: Logs := map[EscrowSource := LOG]

  /** The escrow's part of a tick at ledger 20, by a process that does not die. */
  function Indexed(db: Db): Db { IndexSource(KNOWN, At(0), LOGS, 20, EscrowSource, Process(db, 100)).Database() }

  function Rewound(db: Db, ledger: nat): Db { db.(cursors := db.cursors[EscrowSource := ledger]) }

  /** A rewind to just before a transfer's creation, from tables that agreed with the chain, leaves them disagreeing. */
  lemma RewindIsNotRecovery()
    ensures var db := Indexed(EMPTY_DB);
            var replayed := Indexed(Rewound(db, 9));
            && 1 in db.transfers && db.transfers[1].status == E.Cancelled
            && 1 in replayed.transfers && replayed.transfers[1].status == E.Pending
  {
    RewindRequestsTheTail();
    var first := Process(EMPTY_DB, 100);
    FirstPassSettles(first);
    BatchIsBounded(KNOWN, EscrowSource, first, LOG, 0);
    var again := Process(Rewound(Indexed(EMPTY_DB), 9), 100);
    RewindUndoesSettlement(again);
    BatchIsBounded(KNOWN, EscrowSource, again, LOG[1..], 0);
  }
}
