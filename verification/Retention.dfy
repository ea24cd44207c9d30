/**
 * Readings retention as a store that any number of passes, crashes and concurrent inserts act on
 * (central/retention.py).
 *
 * One printer-day is one transaction: it takes a snapshot, other sessions may commit inserts, and its
 * commit is a single atomic event.  A crash is a transaction that never commits.  `Apply` gives the
 * meaning of each event and the class `Store` in RetentionPass.dfy runs the same steps in place.
 */
module Retention {
  import opened Options
  import opened Rollup

  type PrinterId = nat
  type Day = int

  const DAY_SECONDS: int := 86400

  datatype Reading = Reading(printer: PrinterId, ts: Time, meters: Values, snap: Option<Snapshot>)

  datatype Key = Key(printer: PrinterId, day: Day)

  /** A `reading_rollups` row. */
  datatype DayRow = DayRow(fields: Fields, pruned: bool)

  /** `deleted` is history: the readings that were pruned, by id.  No step reads it. */
  datatype Db = Db(readings: map<nat, Reading>, rollups: map<Key, DayRow>, deleted: map<nat, Reading>)

  datatype Event =
    | Insert(more: map<nat, Reading>)
    | Process(key: Key, deleteOn: bool, rows: seq<Raw>, late: map<nat, Reading>, crash: bool)

  function DayOf(ts: Time): Day {
    ts / DAY_SECONDS
  }

  function KeyOf(r: Reading): Key {
    Key(r.printer, DayOf(r.ts))
  }

  function RawOf(id: nat, r: Reading): Raw {
    Raw(id, r.ts, r.meters, r.snap)
  }

  /** `ORDER BY ts, id`. */
  predicate Before(a: Raw, b: Raw) {
    a.ts < b.ts || (a.ts == b.ts && a.id < b.id)
  }

  predicate InOrder(rows: seq<Raw>) {
    forall i, j :: 0 <= i < j < |rows| ==> Before(rows[i], rows[j])
  }

  function Ids(rows: seq<Raw>): set<nat> {
    set r | r in rows :: r.id
  }

  function IdsOf(readings: map<nat, Reading>, key: Key): set<nat> {
    set id | id in readings && KeyOf(readings[id]) == key
  }

  /** The rows of one printer-day, as the SELECT returns them. */
  ghost predicate IsSnapshot(readings: map<nat, Reading>, key: Key, rows: seq<Raw>) {
    && InOrder(rows)
    && Ids(rows) == IdsOf(readings, key)
    && forall i :: 0 <= i < |rows| ==> rows[i].id in readings && rows[i] == RawOf(rows[i].id, readings[rows[i].id])
  }

  /** The rollup row after the upsert: new, merged into a pruned day, or recomputed. */
  function Upserted(existing: Option<DayRow>, rows: seq<Raw>): DayRow
    requires rows != []
  {
    match existing
    case None => DayRow(Summary(rows), false)
    case Some(row) =>
      if row.pruned then DayRow(Merged(row.fields, Summary(rows)), true) else DayRow(Summary(rows), row.pruned)
  }

  function Lookup(rollups: map<Key, DayRow>, key: Key): Option<DayRow> {
    if key in rollups then Some(rollups[key]) else None
  }

  /** The safety check refuses to prune: the row claims fewer readings than are about to go. */
  predicate Refuses(db: Db, key: Key, rows: seq<Raw>)
    requires rows != []
  {
    Upserted(Lookup(db.rollups, key), rows).fields.count < |rows|
  }

  function Picked(readings: map<nat, Reading>, ids: set<nat>): map<nat, Reading> {
    map id | id in ids && id in readings :: readings[id]
  }

  function Committed(db: Db, key: Key, deleteOn: bool, rows: seq<Raw>): Db
    requires rows != []
  {
    var row := Upserted(Lookup(db.rollups, key), rows);
    if !deleteOn then db.(rollups := db.rollups[key := row])
    else if Refuses(db, key, rows) then db
    else
      Db(db.readings - Ids(rows),
         db.rollups[key := row.(pruned := true)],
         db.deleted + Picked(db.readings, Ids(rows)))
  }

  function Apply(db: Db, e: Event): Db {
    match e
    case Insert(more) => db.(readings := db.readings + more)
    case Process(key, deleteOn, rows, late, crash) =>
      var after := db.(readings := db.readings + late);
      if crash || rows == [] then after else Committed(after, key, deleteOn, rows)
  }

  function Exec(db: Db, es: seq<Event>): Db
    decreases |es|
  {
    if es == [] then db else Apply(Exec(db, es[..|es| - 1]), es[|es| - 1])
  }

  /** Primary keys are never reused, and a transaction aggregates exactly what it selected. */
  ghost predicate Fair(db: Db, e: Event) {
    match e
    case Insert(more) => more.Keys !! db.readings.Keys && more.Keys !! db.deleted.Keys
    case Process(key, _, rows, late, _) =>
      && IsSnapshot(db.readings, key, rows)
      && late.Keys !! db.readings.Keys
      && late.Keys !! db.deleted.Keys
  }

  ghost predicate FairRun(db: Db, es: seq<Event>)
    decreases |es|
  {
    es == [] || (FairRun(db, es[..|es| - 1]) && Fair(Exec(db, es[..|es| - 1]), es[|es| - 1]))
  }

  /** `retention.delete_enabled` is never switched from on to off. */
  predicate DeletionStaysOn(es: seq<Event>) {
    forall i, j :: 0 <= i < j < |es| && es[i].Process? && es[i].deleteOn && es[j].Process? ==> es[j].deleteOn
  }

  const EMPTY: Db := Db(map[], map[], map[])

  // ------------------------------------------------------------------------------------------
  // The invariant
  // ------------------------------------------------------------------------------------------

  function DeletedOf(db: Db, key: Key): set<nat> {
    IdsOf(db.deleted, key)
  }

  /** A rollup row accounts for exactly the readings destroyed against it. */
  predicate RowExact(db: Db, key: Key) {
    match Lookup(db.rollups, key)
    case None => DeletedOf(db, key) == {}
    case Some(row) =>
      && row.fields.count >= 1
      && (if row.pruned then row.fields.count == |DeletedOf(db, key)| else DeletedOf(db, key) == {})
  }

  ghost predicate Inv(db: Db) {
    && db.readings.Keys !! db.deleted.Keys
    && forall key :: RowExact(db, key)
  }

  function RowsOf(readings: map<nat, Reading>, ids: set<nat>): set<Raw> {
    set id | id in ids && id in readings :: RawOf(id, readings[id])
  }

  function DeletedRows(db: Db, key: Key): set<Raw> {
    RowsOf(db.deleted, DeletedOf(db, key))
  }

  /** A pruned row describes the readings deleted against it. */
  ghost predicate RowTells(db: Db, key: Key) {
    key in db.rollups && db.rollups[key].pruned ==> Describes(db.rollups[key].fields, DeletedRows(db, key))
  }

  /** What was deleted was rolled up first: its day has a pruned row that counts it and covers it. */
  ghost predicate Accounted(db: Db, key: Key) {
    match Lookup(db.rollups, key)
    case None => DeletedOf(db, key) == {}
    case Some(row) =>
      if row.pruned then Covers(row.fields, DeletedRows(db, key)) && row.fields.count >= |DeletedOf(db, key)|
      else DeletedOf(db, key) == {}
  }

  lemma {:induction false} DistinctIds(rows: seq<Raw>)
    requires InOrder(rows)
    requires forall i, j :: 0 <= i < j < |rows| ==> rows[i].id != rows[j].id
    ensures |Ids(rows)| == |rows|
  {
    if rows != [] {
      var rest := rows[..|rows| - 1];
      DistinctIds(rest);
      assert Ids(rows) == Ids(rest) + {rows[|rows| - 1].id};
    }
  }

  lemma SnapshotCount(readings: map<nat, Reading>, key: Key, rows: seq<Raw>)
    requires IsSnapshot(readings, key, rows)
    ensures |Ids(rows)| == |rows|
  {
    forall i, j | 0 <= i < j < |rows| ensures rows[i].id != rows[j].id {
      assert Before(rows[i], rows[j]);
    }
    DistinctIds(rows);
  }

  /** The branch that refuses to prune is unreachable while every row is exact. */
  lemma PruneNeverRefused(db: Db, key: Key, rows: seq<Raw>)
    requires Inv(db) && rows != []
    ensures !Refuses(db, key, rows)
  {
    assert RowExact(db, key);
  }

  lemma IdsOfUnion(a: map<nat, Reading>, b: map<nat, Reading>, key: Key)
    requires a.Keys !! b.Keys
    ensures IdsOf(a + b, key) == IdsOf(a, key) + IdsOf(b, key)
    ensures IdsOf(a, key) !! IdsOf(b, key)
  {
  }

  lemma IdsOfPicked(readings: map<nat, Reading>, ids: set<nat>, key: Key, other: Key)
    requires ids <= IdsOf(readings, key)
    ensures Picked(readings, ids).Keys == ids
    ensures IdsOf(Picked(readings, ids), other) == if other == key then ids else {}
  {
  }

  lemma DeletedAfterPrune(db: Db, key: Key, rows: seq<Raw>, k: Key)
    requires db.readings.Keys !! db.deleted.Keys
    requires rows != [] && Ids(rows) <= IdsOf(db.readings, key) && !Refuses(db, key, rows)
    ensures DeletedOf(Committed(db, key, true, rows), k)
         == if k == key then DeletedOf(db, k) + Ids(rows) else DeletedOf(db, k)
    ensures DeletedOf(db, key) !! Ids(rows)
  {
    var picked := Picked(db.readings, Ids(rows));
    IdsOfPicked(db.readings, Ids(rows), key, k);
    IdsOfPicked(db.readings, Ids(rows), key, key);
    IdsOfUnion(db.deleted, picked, k);
  }

  lemma RowAfterPrune(db: Db, key: Key, rows: seq<Raw>, k: Key)
    requires Inv(db) && rows != [] && Ids(rows) <= IdsOf(db.readings, key) && |Ids(rows)| == |rows|
    ensures RowExact(Committed(db, key, true, rows), k)
  {
    PruneNeverRefused(db, key, rows);
    DeletedAfterPrune(db, key, rows, k);
    assert RowExact(db, k);
  }

  /** A commit with deletion on: the day's rows move from raw to deleted and into the row's count. */
  lemma PruneInv(db: Db, key: Key, rows: seq<Raw>)
    requires Inv(db) && rows != [] && Ids(rows) <= IdsOf(db.readings, key) && |Ids(rows)| == |rows|
    ensures Inv(Committed(db, key, true, rows))
  {
    PruneNeverRefused(db, key, rows);
    IdsOfPicked(db.readings, Ids(rows), key, key);
    MoveConserves(db.readings, db.deleted, Ids(rows));
    forall k ensures RowExact(Committed(db, key, true, rows), k) {
      RowAfterPrune(db, key, rows, k);
    }
  }

  /** Rows that leave the readings arrive among the deleted, unaltered. */
  lemma MoveConserves(readings: map<nat, Reading>, deleted: map<nat, Reading>, ids: set<nat>)
    requires readings.Keys !! deleted.Keys
    ensures (readings - ids).Keys !! (deleted + Picked(readings, ids)).Keys
    ensures (readings - ids) + (deleted + Picked(readings, ids)) == readings + deleted
  {
  }

  lemma InsertInv(db: Db, more: map<nat, Reading>)
    requires Inv(db) && more.Keys !! db.deleted.Keys
    ensures Inv(db.(readings := db.readings + more))
  {
    var after := db.(readings := db.readings + more);
    forall k ensures RowExact(after, k) {
      assert RowExact(db, k);
      assert DeletedOf(after, k) == DeletedOf(db, k);
    }
  }

  /**
   * A commit with deletion off keeps every row exact iff it is not a straggler batch folded into a
   * pruned day.
   */
  lemma AdditivePassExactIff(db: Db, key: Key, rows: seq<Raw>)
    requires Inv(db) && rows != []
    ensures Inv(Committed(db, key, false, rows)) <==> !(key in db.rollups && db.rollups[key].pruned)
  {
    var after := Committed(db, key, false, rows);
    assert RowExact(db, key);
    assert DeletedOf(after, key) == DeletedOf(db, key);
    if key in db.rollups && db.rollups[key].pruned {
      assert !RowExact(after, key);
    } else {
      forall k ensures RowExact(after, k) {
        assert RowExact(db, k);
        assert DeletedOf(after, k) == DeletedOf(db, k);
      }
    }
  }

  lemma StepInv(db: Db, e: Event)
    requires Inv(db) && Fair(db, e)
    requires e.Process? && !e.deleteOn ==> !(e.key in db.rollups && db.rollups[e.key].pruned)
    ensures Inv(Apply(db, e))
  {
    match e
    case Insert(more) =>
      InsertInv(db, more);
    case Process(key, deleteOn, rows, late, crash) =>
      InsertInv(db, late);
      var after := db.(readings := db.readings + late);
      if !crash && rows != [] {
        SnapshotCount(db.readings, key, rows);
        assert IdsOf(db.readings, key) <= IdsOf(after.readings, key);
        if deleteOn {
          PruneInv(after, key, rows);
        } else {
          AdditivePassExactIff(after, key, rows);
        }
      }
  }

  /** Before deletion is first enabled nothing is marked pruned. */
  lemma {:induction false} NothingPrunedYet(es: seq<Event>)
    requires forall i :: 0 <= i < |es| && es[i].Process? ==> !es[i].deleteOn
    ensures forall key :: key in Exec(EMPTY, es).rollups ==> !Exec(EMPTY, es).rollups[key].pruned
    decreases |es|
  {
    if es != [] {
      NothingPrunedYet(es[..|es| - 1]);
    }
  }

  /** While deletion was never on, a pass with deletion off finds no pruned row. */
  lemma AdditiveBeforePrunes(es: seq<Event>)
    requires es != [] && DeletionStaysOn(es)
    ensures var db, e := Exec(EMPTY, es[..|es| - 1]), es[|es| - 1];
            e.Process? && !e.deleteOn ==> !(e.key in db.rollups && db.rollups[e.key].pruned)
  {
    var before, e := es[..|es| - 1], es[|es| - 1];
    if e.Process? && !e.deleteOn {
      forall i | 0 <= i < |before| && before[i].Process? ensures !before[i].deleteOn {
        assert before[i] == es[i];
      }
      NothingPrunedYet(before);
    }
  }

  lemma {:induction false} RunInv(es: seq<Event>)
    requires FairRun(EMPTY, es) && DeletionStaysOn(es)
    ensures Inv(Exec(EMPTY, es))
    decreases |es|
  {
    if es == [] {
      forall k ensures RowExact(EMPTY, k) {
        assert DeletedOf(EMPTY, k) == {};
      }
    } else {
      var before, e := es[..|es| - 1], es[|es| - 1];
      RunInv(before);
      AdditiveBeforePrunes(es);
      StepInv(Exec(EMPTY, before), e);
    }
  }

  // ------------------------------------------------------------------------------------------
  // What pruned rows say, over every run
  // ------------------------------------------------------------------------------------------

  /** The rows are the given readings of one printer-day. */
  ghost predicate AreRowsOf(readings: map<nat, Reading>, key: Key, rows: seq<Raw>) {
    && InOrder(rows) && |Ids(rows)| == |rows| && Ids(rows) <= IdsOf(readings, key)
    && forall i :: 0 <= i < |rows| ==> rows[i].id in readings && rows[i] == RawOf(rows[i].id, readings[rows[i].id])
  }

  lemma SnapshotRows(readings: map<nat, Reading>, late: map<nat, Reading>, key: Key, rows: seq<Raw>)
    requires IsSnapshot(readings, key, rows) && late.Keys !! readings.Keys
    ensures AreRowsOf(readings + late, key, rows)
  {
    SnapshotCount(readings, key, rows);
  }

  lemma RowSetIsRows(readings: map<nat, Reading>, key: Key, rows: seq<Raw>)
    requires AreRowsOf(readings, key, rows)
    ensures RowSet(rows) == RowsOf(readings, Ids(rows))
  {
    forall r | r in RowsOf(readings, Ids(rows)) ensures r in RowSet(rows) {
      var i :| 0 <= i < |rows| && rows[i].id == r.id;
    }
  }

  lemma RowsOfUnion(a: map<nat, Reading>, b: map<nat, Reading>, ids: set<nat>, more: set<nat>)
    requires a.Keys !! b.Keys && ids <= a.Keys && more <= b.Keys
    ensures RowsOf(a + b, ids + more) == RowsOf(a, ids) + RowsOf(b, more)
  {
    hide RawOf;
    assert forall id :: id in ids ==> (a + b)[id] == a[id];
    assert forall id :: id in more ==> (a + b)[id] == b[id];
  }

  lemma DeletedRowsAfterPrune(db: Db, key: Key, rows: seq<Raw>, k: Key)
    requires db.readings.Keys !! db.deleted.Keys
    requires rows != [] && AreRowsOf(db.readings, key, rows) && !Refuses(db, key, rows)
    ensures DeletedRows(Committed(db, key, true, rows), k)
         == if k == key then DeletedRows(db, k) + RowSet(rows) else DeletedRows(db, k)
  {
    DeletedAfterPrune(db, key, rows, k);
    RowSetIsRows(db.readings, key, rows);
    hide Refuses, Upserted, RawOf;
    var picked := Picked(db.readings, Ids(rows));
    RowsOfUnion(db.deleted, picked, DeletedOf(db, k), if k == key then Ids(rows) else {});
    assert RowsOf(picked, Ids(rows)) == RowsOf(db.readings, Ids(rows));
    assert DeletedOf(db, k) + {} == DeletedOf(db, k);
    assert RowsOf(picked, {}) == {};
  }

  lemma PruneTells(db: Db, key: Key, rows: seq<Raw>, k: Key)
    requires Inv(db) && rows != [] && AreRowsOf(db.readings, key, rows) && RowTells(db, k)
    ensures RowTells(Committed(db, key, true, rows), k)
  {
    hide Describes, Summary, Merged, IdsOf, RawOf, Refuses;
    PruneNeverRefused(db, key, rows);
    DeletedRowsAfterPrune(db, key, rows, k);
    assert RowExact(db, key);
    if k == key {
      SummaryDescribes(rows);
      if key in db.rollups && db.rollups[key].pruned {
        MergedDescribes(db.rollups[key].fields, Summary(rows), DeletedRows(db, key), RowSet(rows));
      } else {
        assert DeletedRows(db, key) == {};
        assert {} + RowSet(rows) == RowSet(rows);
      }
    }
  }

  lemma StepTells(db: Db, e: Event)
    requires Inv(db) && Fair(db, e)
    requires e.Process? && !e.deleteOn ==> !(e.key in db.rollups && db.rollups[e.key].pruned)
    requires forall k :: RowTells(db, k)
    ensures forall k :: RowTells(Apply(db, e), k)
  {
    hide Describes, Upserted, Refuses;
    forall k ensures RowTells(Apply(db, e), k) {
      assert RowTells(db, k);
      if e.Process? && !e.crash && e.rows != [] {
        var after := db.(readings := db.readings + e.late);
        InsertInv(db, e.late);
        SnapshotRows(db.readings, e.late, e.key, e.rows);
        assert RowTells(after, k);
        if e.deleteOn {
          PruneTells(after, e.key, e.rows, k);
        } else {
          NotPruned(after, e.key, e.rows);
        }
      }
    }
  }

  lemma NotPruned(db: Db, key: Key, rows: seq<Raw>)
    requires rows != [] && !(key in db.rollups && db.rollups[key].pruned)
    ensures !Committed(db, key, false, rows).rollups[key].pruned
  {
  }

  lemma {:induction false} RunTells(es: seq<Event>)
    requires FairRun(EMPTY, es) && DeletionStaysOn(es)
    ensures forall key :: RowTells(Exec(EMPTY, es), key)
    decreases |es|
  {
    hide Describes;
    if es != [] {
      var before, e := es[..|es| - 1], es[|es| - 1];
      RunTells(before);
      RunInv(before);
      AdditiveBeforePrunes(es);
      StepTells(Exec(EMPTY, before), e);
    }
  }

  /**
   * A pruned day's row describes every reading deleted for it, however many straggler batches they
   * came in: first and last timestamp are theirs, each start and end meter and the snapshot is known
   * iff one of them reported it and is then a reported one, and is the first or last reported when all
   * report it at distinct times.
   */
  lemma PrunedDaysDescribeDeletedReadings(es: seq<Event>, key: Key)
    requires FairRun(EMPTY, es) && DeletionStaysOn(es)
    requires key in Exec(EMPTY, es).rollups && Exec(EMPTY, es).rollups[key].pruned
    ensures Describes(Exec(EMPTY, es).rollups[key].fields, DeletedRows(Exec(EMPTY, es), key))
  {
    RunTells(es);
    assert RowTells(Exec(EMPTY, es), key);
  }

  // ------------------------------------------------------------------------------------------
  // Conservation, over every run
  // ------------------------------------------------------------------------------------------

  /** Every reading the run ever inserted, between transactions or during one. */
  function Inserted(es: seq<Event>): map<nat, Reading>
    decreases |es|
  {
    if es == [] then map[]
    else
      Inserted(es[..|es| - 1])
      + match es[|es| - 1]
        case Insert(more) => more
        case Process(_, _, _, late, _) => late
  }

  lemma StepConserves(db: Db, e: Event)
    requires db.readings.Keys !! db.deleted.Keys && Fair(db, e)
    ensures var after := Apply(db, e);
            && after.readings.Keys !! after.deleted.Keys
            && after.readings + after.deleted
               == db.readings + db.deleted + (if e.Insert? then e.more else e.late)
  {
    if e.Process? {
      LateArrival(db.readings, db.deleted, e.late);
      MoveConserves(db.readings + e.late, db.deleted, Ids(e.rows));
    } else {
      LateArrival(db.readings, db.deleted, e.more);
    }
  }

  lemma LateArrival(readings: map<nat, Reading>, deleted: map<nat, Reading>, late: map<nat, Reading>)
    requires readings.Keys !! deleted.Keys && late.Keys !! deleted.Keys
    ensures (readings + late).Keys !! deleted.Keys
    ensures (readings + late) + deleted == readings + deleted + late
  {
  }

  /** What one commit leaves of a key: with or without deletion, everything deleted is accounted for. */
  lemma CommitAccounts(db: Db, key: Key, deleteOn: bool, rows: seq<Raw>, k: Key)
    requires db.readings.Keys !! db.deleted.Keys
    requires rows != [] && AreRowsOf(db.readings, key, rows) && Accounted(db, k)
    ensures Accounted(Committed(db, key, deleteOn, rows), k)
  {
    hide IdsOf, RawOf, Describes, Merged, Summary;
    var after := Committed(db, key, deleteOn, rows);
    if deleteOn && !Refuses(db, key, rows) {
      DeletedAfterPrune(db, key, rows, k);
      DeletedRowsAfterPrune(db, key, rows, k);
    } else {
      assert DeletedOf(after, k) == DeletedOf(db, k) && DeletedRows(after, k) == DeletedRows(db, k);
    }
    if k == key {
      CommitCovers(db, key, rows);
    }
  }

  lemma CommitCovers(db: Db, key: Key, rows: seq<Raw>)
    requires rows != [] && InOrder(rows) && Accounted(db, key)
    ensures var row := Upserted(Lookup(db.rollups, key), rows);
            && Covers(row.fields, DeletedRows(db, key) + RowSet(rows)) && Covers(row.fields, DeletedRows(db, key))
            && row.fields.count >= |DeletedOf(db, key)| + |rows|
  {
    hide Describes, IdsOf, RawOf, Covers, Merged, RowsOf, RowSet;
    SummaryDescribes(rows);
    DescribesCovers(Summary(rows), RowSet(rows));
    CountsOfUpserted(Lookup(db.rollups, key), rows);
    if key in db.rollups && db.rollups[key].pruned {
      MergedCovers(db.rollups[key].fields, Summary(rows), DeletedRows(db, key), RowSet(rows));
    } else {
      NothingDeleted(db, key);
      assert {} + RowSet(rows) == RowSet(rows);
    }
    CoversFewer(Upserted(Lookup(db.rollups, key), rows).fields, DeletedRows(db, key), RowSet(rows));
  }

  lemma NothingDeleted(db: Db, key: Key)
    requires DeletedOf(db, key) == {}
    ensures DeletedRows(db, key) == {}
  {
  }

  lemma CountsOfUpserted(existing: Option<DayRow>, rows: seq<Raw>)
    requires rows != []
    ensures Upserted(existing, rows).fields.count
         == |rows| + if existing.Some? && existing.value.pruned then existing.value.fields.count else 0
  {
  }

  lemma StepAccounts(db: Db, e: Event, k: Key)
    requires db.readings.Keys !! db.deleted.Keys && Fair(db, e) && Accounted(db, k)
    ensures Accounted(Apply(db, e), k)
  {
    hide Covers;
    if e.Process? {
      var after := db.(readings := db.readings + e.late);
      assert DeletedOf(after, k) == DeletedOf(db, k) && DeletedRows(after, k) == DeletedRows(db, k);
      if !e.crash && e.rows != [] {
        SnapshotRows(db.readings, e.late, e.key, e.rows);
        CommitAccounts(after, e.key, e.deleteOn, e.rows, k);
      }
    } else {
      var after := Apply(db, e);
      assert DeletedOf(after, k) == DeletedOf(db, k) && DeletedRows(after, k) == DeletedRows(db, k);
    }
  }

  /**
   * Whatever the interleaving of inserts, passes and crashes, every reading ever inserted is still
   * raw or was deleted, never both and never altered; and what was deleted is counted and covered by
   * the pruned row of its day.
   */
  lemma {:induction false} NoReadingIsLost(es: seq<Event>)
    requires FairRun(EMPTY, es)
    ensures var db := Exec(EMPTY, es);
            db.readings.Keys !! db.deleted.Keys && db.readings + db.deleted == Inserted(es)
    ensures forall key :: Accounted(Exec(EMPTY, es), key)
    decreases |es|
  {
    hide Covers, Fair, Apply;
    if es != [] {
      var before, e := Exec(EMPTY, es[..|es| - 1]), es[|es| - 1];
      NoReadingIsLost(es[..|es| - 1]);
      StepConserves(before, e);
      forall key ensures Accounted(Apply(before, e), key) {
        StepAccounts(before, e, key);
      }
    }
  }

  // ------------------------------------------------------------------------------------------
  // What is rolled up stays rolled up
  // ------------------------------------------------------------------------------------------

  /** All the readings of one printer-day. */
  function DayRows(readings: map<nat, Reading>, key: Key): set<Raw> {
    RowsOf(readings, IdsOf(readings, key))
  }

  /** An unpruned row was aggregated from exactly this batch, all of it still there. */
  ghost predicate StandsFor(db: Db, key: Key, batch: set<nat>)
    requires key in db.rollups
  {
    && batch <= IdsOf(db.readings, key)
    && db.rollups[key].fields.count == |batch|
    && Describes(db.rollups[key].fields, RowsOf(db.readings, batch))
    && EndsAre(db.rollups[key].fields, RowsOf(db.readings, batch))
  }

  ghost predicate InBatch(db: Db, rows: set<Raw>, key: Key)
    requires key in db.rollups
  {
    exists batch :: rows <= RowsOf(db.readings, batch) && StandsFor(db, key, batch)
  }

  /**
   * These readings of a printer-day are in its rollup: in the batch an unpruned row counts and
   * describes, or covered by a pruned one.
   */
  ghost predicate RolledUp(db: Db, rows: set<Raw>, key: Key) {
    rows != {} ==>
      && key in db.rollups
      && if db.rollups[key].pruned then Covers(db.rollups[key].fields, rows) else InBatch(db, rows, key)
  }

  /** A day is the 86,400 seconds from its midnight, before 1970 too. */
  lemma DayMeaning(ts: Time, day: Day)
    ensures DayOf(ts) == day <==> day * 86400 <= ts < (day + 1) * 86400
  {
  }

  /** A printer-day's readings are those of the printer stamped within the day, as they were inserted. */
  lemma DayRowsMeaning(readings: map<nat, Reading>, key: Key, r: Raw)
    ensures r in DayRows(readings, key) <==>
      && r.id in readings
      && var reading := readings[r.id];
         && reading.printer == key.printer && key.day * 86400 <= reading.ts < (key.day + 1) * 86400
         && r.ts == reading.ts && r.meters == reading.meters && r.snap == reading.snap
  {
    if r.id in readings {
      DayMeaning(readings[r.id].ts, key.day);
    }
    hide DayOf;
  }

  lemma RolledUpCovers(db: Db, rows: set<Raw>, key: Key)
    requires RolledUp(db, rows, key) && rows != {}
    ensures Covers(db.rollups[key].fields, rows)
  {
    if !db.rollups[key].pruned {
      var batch :| rows <= RowsOf(db.readings, batch) && StandsFor(db, key, batch);
      DescribesCovers(db.rollups[key].fields, RowsOf(db.readings, batch));
    }
  }

  /** When all of a day's readings are rolled up, an unpruned row counts and describes exactly those. */
  lemma RolledUpExactly(db: Db, key: Key)
    requires RolledUp(db, DayRows(db.readings, key), key) && IdsOf(db.readings, key) != {}
    ensures key in db.rollups
    ensures !db.rollups[key].pruned ==>
      && db.rollups[key].fields.count == |IdsOf(db.readings, key)|
      && Describes(db.rollups[key].fields, DayRows(db.readings, key))
      && EndsAre(db.rollups[key].fields, DayRows(db.readings, key))
  {
    hide EndsAre, Describes;
    var ids := IdsOf(db.readings, key);
    var some :| some in ids;
    assert RawOf(some, db.readings[some]) in DayRows(db.readings, key);
    if !db.rollups[key].pruned {
      var batch :| DayRows(db.readings, key) <= RowsOf(db.readings, batch) && StandsFor(db, key, batch);
      forall id | id in ids ensures id in batch {
        assert RawOf(id, db.readings[id]) in RowsOf(db.readings, batch);
      }
      assert batch == ids;
    }
  }

  lemma RolledUpFewer(db: Db, rows: set<Raw>, fewer: set<Raw>, key: Key)
    requires RolledUp(db, rows, key) && fewer <= rows
    ensures RolledUp(db, fewer, key)
  {
    hide StandsFor, RowsOf;
  }

  /** Readings come and readings of other days go: the batch is still there. */
  lemma StandsForStill(db: Db, after: Db, key: Key, batch: set<nat>)
    requires key in db.rollups && key in after.rollups && db.rollups[key] == after.rollups[key]
    requires StandsFor(db, key, batch)
    requires forall id :: id in IdsOf(db.readings, key) ==> id in after.readings && after.readings[id] == db.readings[id]
    ensures StandsFor(after, key, batch) && RowsOf(after.readings, batch) == RowsOf(db.readings, batch)
  {
    assert RowsOf(after.readings, batch) == RowsOf(db.readings, batch);
  }

  lemma RolledUpStill(db: Db, after: Db, rows: set<Raw>, key: Key)
    requires RolledUp(db, rows, key)
    requires key in db.rollups ==> key in after.rollups && db.rollups[key] == after.rollups[key]
    requires forall id :: id in IdsOf(db.readings, key) ==> id in after.readings && after.readings[id] == db.readings[id]
    ensures RolledUp(after, rows, key)
  {
    hide StandsFor, Covers, IdsOf, RowsOf;
    if rows != {} && !db.rollups[key].pruned {
      var batch :| rows <= RowsOf(db.readings, batch) && StandsFor(db, key, batch);
      StandsForStill(db, after, key, batch);
    }
  }

  /** A commit that is not refused rolls up the batch it selected. */
  lemma CommitRollsUp(db: Db, key: Key, deleteOn: bool, rows: seq<Raw>)
    requires rows != [] && AreRowsOf(db.readings, key, rows) && !(deleteOn && Refuses(db, key, rows))
    ensures RolledUp(Committed(db, key, deleteOn, rows), RowSet(rows), key)
  {
    hide Describes, Covers, Summary, Merged, IdsOf, RawOf, RowsOf, RowSet, Refuses, EndsAre;
    var after := Committed(db, key, deleteOn, rows);
    SummaryDescribes(rows);
    InOrderIsListed(rows);
    SummaryEnds(rows);
    DescribesCovers(Summary(rows), RowSet(rows));
    CountsOfUpserted(Lookup(db.rollups, key), rows);
    if key in db.rollups && db.rollups[key].pruned {
      NothingCovered(db.rollups[key].fields);
      MergedCovers(db.rollups[key].fields, Summary(rows), {}, RowSet(rows));
      assert {} + RowSet(rows) == RowSet(rows);
    } else if !deleteOn {
      RowSetIsRows(db.readings, key, rows);
      assert StandsFor(after, key, Ids(rows));
    }
  }

  lemma InOrderIsListed(rows: seq<Raw>)
    requires InOrder(rows)
    ensures Listed(rows)
  {
  }

  lemma NothingCovered(fields: Fields)
    ensures Covers(fields, {})
  {
  }

  /** And keeps what was rolled up before: a recomputed row had all of its batch before it again. */
  lemma CommitKeepsRolledUp(before: Db, db: Db, key: Key, deleteOn: bool, rows: seq<Raw>, earlier: set<Raw>)
    requires rows != [] && AreRowsOf(db.readings, key, rows) && RowSet(rows) == DayRows(before.readings, key)
    requires RolledUp(db, earlier, key) && RolledUp(before, earlier, key) && before.rollups == db.rollups
    ensures RolledUp(Committed(db, key, deleteOn, rows), earlier, key)
  {
    hide Describes, Covers, Merged, Summary, RawOf, RowSet, StandsFor;
    if deleteOn && Refuses(db, key, rows) {
      assert Committed(db, key, deleteOn, rows) == db;
    } else if earlier != {} && db.rollups[key].pruned {
      SummaryDescribes(rows);
      DescribesCovers(Summary(rows), RowSet(rows));
      MergedCovers(db.rollups[key].fields, Summary(rows), earlier, RowSet(rows));
      CoversFewer(Merged(db.rollups[key].fields, Summary(rows)), earlier, RowSet(rows));
    } else if earlier != {} {
      InBatchIsOfTheDay(before, earlier, key);
      CommitRollsUp(db, key, deleteOn, rows);
      RolledUpFewer(Committed(db, key, deleteOn, rows), RowSet(rows), earlier, key);
    }
  }

  lemma InBatchIsOfTheDay(db: Db, rows: set<Raw>, key: Key)
    requires key in db.rollups && InBatch(db, rows, key)
    ensures rows <= DayRows(db.readings, key)
  {
  }

  lemma SnapshotIsDay(readings: map<nat, Reading>, late: map<nat, Reading>, key: Key, rows: seq<Raw>)
    requires IsSnapshot(readings, key, rows) && late.Keys !! readings.Keys
    ensures RowSet(rows) == DayRows(readings, key)
    ensures AreRowsOf(readings + late, key, rows)
  {
    SnapshotRows(readings, late, key, rows);
    SnapshotRows(readings, map[], key, rows);
    assert readings + map[] == readings;
    RowSetIsRows(readings, key, rows);
  }

  lemma OtherDaysStay(db: Db, key: Key, deleteOn: bool, rows: seq<Raw>, id: nat)
    requires rows != [] && AreRowsOf(db.readings, key, rows)
    requires id in db.readings && KeyOf(db.readings[id]) != key
    ensures var after := Committed(db, key, deleteOn, rows); id in after.readings && after.readings[id] == db.readings[id]
  {
    hide Refuses, Upserted;
  }

  /** A transaction that commits rolls up every reading its snapshot saw. */
  lemma StepRollsUp(db: Db, e: Event)
    requires Fair(db, e) && e.Process? && !e.crash
    requires e.deleteOn && e.rows != [] ==> !Refuses(db, e.key, e.rows)
    ensures RolledUp(Apply(db, e), DayRows(db.readings, e.key), e.key)
  {
    SnapshotIsDay(db.readings, e.late, e.key, e.rows);
    hide DayRows, RolledUp, Committed, AreRowsOf, IsSnapshot;
    if e.rows != [] {
      CommitRollsUp(db.(readings := db.readings + e.late), e.key, e.deleteOn, e.rows);
    } else {
      NothingToRollUp(Apply(db, e), RowSet(e.rows), e.key);
    }
  }

  lemma NothingToRollUp(db: Db, rows: set<Raw>, key: Key)
    requires rows == {}
    ensures RolledUp(db, rows, key)
  {
  }

  /** What is rolled up stays so, whatever is inserted, committed, pruned or crashes next. */
  lemma StepKeepsRolledUp(db: Db, e: Event, rows: set<Raw>, key: Key)
    requires Fair(db, e) && RolledUp(db, rows, key)
    ensures RolledUp(Apply(db, e), rows, key)
  {
    hide RolledUp, Committed;
    var more := if e.Insert? then e.more else e.late;
    var after := db.(readings := db.readings + more);
    RolledUpStill(db, after, rows, key);
    if e.Process? && !e.crash && e.rows != [] {
      SnapshotIsDay(db.readings, e.late, e.key, e.rows);
      CommitOnward(db, after, e.key, e.deleteOn, e.rows, rows, key);
    }
  }

  lemma CommitOnward(before: Db, db: Db, day: Key, deleteOn: bool, batch: seq<Raw>, rows: set<Raw>, key: Key)
    requires batch != [] && AreRowsOf(db.readings, day, batch) && RolledUp(db, rows, key)
    requires RolledUp(before, rows, key) && before.rollups == db.rollups && RowSet(batch) == DayRows(before.readings, day)
    ensures RolledUp(Committed(db, day, deleteOn, batch), rows, key)
  {
    hide RolledUp, AreRowsOf, DayRows;
    if key == day {
      CommitKeepsRolledUp(before, db, key, deleteOn, batch, rows);
    } else {
      forall id | id in IdsOf(db.readings, key)
        ensures var after := Committed(db, day, deleteOn, batch); id in after.readings && after.readings[id] == db.readings[id]
      {
        OtherDaysStay(db, day, deleteOn, batch, id);
      }
      RolledUpStill(db, Committed(db, day, deleteOn, batch), rows, key);
    }
  }

  lemma {:induction false} RunKeepsRolledUp(db: Db, es: seq<Event>, rows: set<Raw>, key: Key)
    requires FairRun(db, es) && RolledUp(db, rows, key)
    ensures RolledUp(Exec(db, es), rows, key)
    decreases |es|
  {
    hide RolledUp, Fair, Apply;
    if es != [] {
      RunKeepsRolledUp(db, es[..|es| - 1], rows, key);
      StepKeepsRolledUp(Exec(db, es[..|es| - 1]), es[|es| - 1], rows, key);
    }
  }

  /** A pruned day's count is the number of readings deleted for it, and pruning is never refused. */
  lemma PrunedDaysCountDeletedReadings(es: seq<Event>, key: Key, rows: seq<Raw>)
    requires FairRun(EMPTY, es) && DeletionStaysOn(es)
    ensures var db := Exec(EMPTY, es);
            && (key in db.rollups && db.rollups[key].pruned ==>
                  db.rollups[key].fields.count == |IdsOf(db.deleted, key)|)
            && (key !in db.rollups || !db.rollups[key].pruned ==> IdsOf(db.deleted, key) == {})
            && (rows != [] ==> !Refuses(db, key, rows))
  {
    RunInv(es);
    assert RowExact(Exec(EMPTY, es), key);
    if rows != [] {
      PruneNeverRefused(Exec(EMPTY, es), key, rows);
    }
  }

  lemma ExecAppend(db: Db, es: seq<Event>, e: Event)
    ensures Exec(db, es + [e]) == Apply(Exec(db, es), e)
    ensures FairRun(db, es) && Fair(Exec(db, es), e) ==> FairRun(db, es + [e])
  {
  }

  /** With deletion off, a straggler batch of a pruned day stays raw and is counted by every pass. */
  lemma StragglersCountedAgain(db: Db, key: Key, rows: seq<Raw>)
    requires rows != [] && key in db.rollups && db.rollups[key].pruned
    ensures var once := Committed(db, key, false, rows);
            var twice := Committed(once, key, false, rows);
            && twice.readings == once.readings == db.readings
            && once.rollups[key].fields.count == db.rollups[key].fields.count + |rows|
            && twice.rollups[key].pruned
            && twice.rollups[key].fields.count == db.rollups[key].fields.count + 2 * |rows|
  {
  }

  lemma FirstPruneNotRefused(db: Db, key: Key, rows: seq<Raw>)
    requires rows != [] && key !in db.rollups
    ensures !Refuses(db, key, rows)
  {
  }

  lemma SnapshotOfOne(id: nat, r: Reading)
    ensures Ids([RawOf(id, r)]) == {id} && IdsOf(map[id := r], KeyOf(r)) == {id}
    ensures IsSnapshot(map[id := r], KeyOf(r), [RawOf(id, r)])
  {
    var rows := [RawOf(id, r)];
    assert rows[0] in rows;
  }

  /** A commit with deletion on of a day's one reading. */
  lemma PruneOne(db: Db, id: nat, r: Reading)
    requires db.readings == map[id := r] && KeyOf(r) !in db.rollups
    ensures var after := Committed(db, KeyOf(r), true, [RawOf(id, r)]);
            && KeyOf(r) in after.rollups && after.rollups[KeyOf(r)].pruned && after.rollups[KeyOf(r)].fields.count == 1
            && after.readings == map[] && after.deleted.Keys == db.deleted.Keys + {id}
  {
    hide Upserted, Refuses, IsSnapshot;
    SnapshotOfOne(id, r);
    CountsOfUpserted(None, [RawOf(id, r)]);
    FirstPruneNotRefused(db, KeyOf(r), [RawOf(id, r)]);
  }

  /** A day pruned to one reading. */
  lemma PrunedDay() returns (es: seq<Event>, db: Db, key: Key)
    ensures FairRun(EMPTY, es) && db == Exec(EMPTY, es) && key == Key(1, 0)
    ensures key in db.rollups && db.rollups[key].pruned && db.rollups[key].fields.count == 1
    ensures db.readings == map[] && db.deleted.Keys == {1}
  {
    hide Committed, IsSnapshot;
    key := Key(1, 0);
    var first := Reading(1, 10, [None, None, None], None);
    var insert, prune := Insert(map[1 := first]), Process(key, true, [RawOf(1, first)], map[], false);
    ExecAppend(EMPTY, [], insert);
    es, db := [] + [insert], Apply(EMPTY, insert);
    SnapshotOfOne(1, first);
    PruneOne(db, 1, first);
    ExecAppend(EMPTY, es, prune);
    assert db.readings + map[] == db.readings;
    es, db := es + [prune], Apply(db, prune);
  }

  /** A day pruned to one reading, and a straggler for it. */
  lemma PrunedWithStraggler() returns (es: seq<Event>, db: Db, key: Key, rows: seq<Raw>)
    ensures FairRun(EMPTY, es) && db == Exec(EMPTY, es)
    ensures key in db.rollups && db.rollups[key].pruned && db.rollups[key].fields.count == 1
    ensures |rows| == 1 && IsSnapshot(db.readings, key, rows)
    ensures db.readings.Keys == {2} && db.deleted.Keys == {1}
  {
    hide IsSnapshot;
    es, db, key := PrunedDay();
    var straggler := Reading(1, 20, [None, None, None], None);
    var insert := Insert(map[2 := straggler]);
    ExecAppend(EMPTY, es, insert);
    es, db := es + [insert], Apply(db, insert);
    rows := [RawOf(2, straggler)];
    SnapshotOfOne(2, straggler);
    assert db.readings == map[2 := straggler];
  }

  /** Deletion switched off after a prune: the day claims more readings than were ever inserted. */
  lemma SwitchingOffDoubleCounts() returns (es: seq<Event>, key: Key)
    ensures FairRun(EMPTY, es) && key in Exec(EMPTY, es).rollups
    ensures Exec(EMPTY, es).rollups[key].fields.count > |Inserted(es)|
  {
    var es0, db, key0, rows := PrunedWithStraggler();
    key := key0;
    var pass := Process(key, false, rows, map[], false);
    assert db.readings + map[] == db.readings;
    StragglersCountedAgain(db, key, rows);
    ExecAppend(EMPTY, es0, pass);
    var once := Apply(db, pass);
    assert once.readings == db.readings;
    ExecAppend(EMPTY, es0 + [pass], pass);
    es := es0 + [pass] + [pass];
    NoReadingIsLost(es);
    assert Inserted(es).Keys == {1, 2};
    assert |Inserted(es)| == |Inserted(es).Keys|;
  }
}
