/**
 * What the rows in the store say the day's first and last values were, when readings are silent about a
 * meter and stragglers were folded in (central/retention.py, `merge` as `_process_printer_day` uses it).
 */
module RetentionEnds {
  import opened Options
  import opened Rollup
  import opened Retention

  /** A start meter, an end meter, or the supply snapshot, which goes with the end. */
  datatype Slot = StartOf(k: nat) | EndOf(k: nat) | SnapOf {
    predicate Valid() {
      SnapOf? || k < METERS
    }
  }

  /** The stored value is the first or last reported one of these readings. */
  ghost predicate SlotIs(slot: Slot, fields: Fields, rows: set<Raw>)
    requires slot.Valid()
  {
    match slot
    case StartOf(k) => IsFirst(fields.starts[k], rows, MeterAt(k))
    case EndOf(k) => IsLast(fields.lasts[k], rows, MeterAt(k))
    case SnapOf => IsLast(fields.snap, rows, SnapAt())
  }

  lemma SlotsMeaning(fields: Fields, rows: set<Raw>)
    ensures EndsAre(fields, rows) <==> forall slot: Slot :: slot.Valid() ==> SlotIs(slot, fields, rows)
  {
    hide IsFirst, IsLast;
    if forall slot: Slot :: slot.Valid() ==> SlotIs(slot, fields, rows) {
      forall k | 0 <= k < METERS
        ensures IsFirst(fields.starts[k], rows, MeterAt(k)) && IsLast(fields.lasts[k], rows, MeterAt(k))
      {
        assert SlotIs(StartOf(k), fields, rows) && SlotIs(EndOf(k), fields, rows);
      }
      assert SlotIs(SnapOf, fields, rows);
    }
  }

  // ------------------------------------------------------------------------------------------
  // One fold
  // ------------------------------------------------------------------------------------------

  ghost predicate SilentOn<T>(rows: set<Raw>, f: Raw -> Option<T>) {
    forall r :: r in rows ==> f(r).None?
  }

  ghost predicate EndsLater(ys: set<Raw>, xs: set<Raw>) {
    exists y :: y in ys && forall x :: x in xs ==> x.ts < y.ts
  }

  ghost predicate StartsEarlier(ys: set<Raw>, xs: set<Raw>) {
    exists y :: y in ys && forall x :: x in xs ==> y.ts < x.ts
  }

  /** One batch is silent, or both report the same last, or the one that ends later also reports later. */
  ghost predicate LastAgrees<T(!new)>(xs: set<Raw>, ys: set<Raw>, f: Raw -> Option<T>) {
    || SilentOn(xs, f) || SilentOn(ys, f)
    || (exists v: Option<T> :: v.Some? && IsLast(v, xs, f) && IsLast(v, ys, f))
    || (EndsLater(ys, xs) <==> ReportsLater(ys, xs, f))
  }

  ghost predicate FirstAgrees<T(!new)>(xs: set<Raw>, ys: set<Raw>, f: Raw -> Option<T>) {
    || SilentOn(xs, f) || SilentOn(ys, f)
    || (exists v: Option<T> :: v.Some? && IsFirst(v, xs, f) && IsFirst(v, ys, f))
    || (StartsEarlier(ys, xs) <==> ReportsEarlier(ys, xs, f))
  }

  ghost predicate SlotAgrees(slot: Slot, xs: set<Raw>, ys: set<Raw>)
    requires slot.Valid()
  {
    match slot
    case StartOf(k) => FirstAgrees(xs, ys, MeterAt(k))
    case EndOf(k) => LastAgrees(xs, ys, MeterAt(k))
    case SnapOf => LastAgrees(xs, ys, SnapAt())
  }

  lemma LastIsOne<T>(a: Option<T>, b: Option<T>, rows: set<Raw>, f: Raw -> Option<T>)
    requires IsLast(a, rows, f) && IsLast(b, rows, f) && UniqueIds(rows)
    ensures a == b
  {
  }

  lemma FirstIsOne<T>(a: Option<T>, b: Option<T>, rows: set<Raw>, f: Raw -> Option<T>)
    requires IsFirst(a, rows, f) && IsFirst(b, rows, f) && UniqueIds(rows)
    ensures a == b
  {
  }

  lemma UniqueInPart(xs: set<Raw>, ys: set<Raw>)
    requires UniqueIds(xs + ys)
    ensures UniqueIds(xs) && UniqueIds(ys)
  {
    assert forall r :: r in xs ==> r in xs + ys;
    assert forall r :: r in ys ==> r in xs + ys;
  }

  lemma FoldLastIff<T(!new)>(a: Option<T>, b: Option<T>, xs: set<Raw>, ys: set<Raw>, f: Raw -> Option<T>)
    requires IsLast(a, xs, f) && IsLast(b, ys, f) && UniqueIds(xs + ys)
    ensures IsLast(if EndsLater(ys, xs) then Prefer(b, a) else Prefer(a, b), xs + ys, f) <==> LastAgrees(xs, ys, f)
  {
    PickedLastIff(a, b, xs, ys, f, EndsLater(ys, xs));
    UniqueInPart(xs, ys);
    hide EndsLater, ReportsLater, UniqueIds;
    if exists v: Option<T> :: v.Some? && IsLast(v, xs, f) && IsLast(v, ys, f) {
      var v: Option<T> :| v.Some? && IsLast(v, xs, f) && IsLast(v, ys, f);
      LastIsOne(v, a, xs, f);
      LastIsOne(v, b, ys, f);
    }
  }

  lemma FoldFirstIff<T(!new)>(a: Option<T>, b: Option<T>, xs: set<Raw>, ys: set<Raw>, f: Raw -> Option<T>)
    requires IsFirst(a, xs, f) && IsFirst(b, ys, f) && UniqueIds(xs + ys)
    ensures IsFirst(if StartsEarlier(ys, xs) then Prefer(b, a) else Prefer(a, b), xs + ys, f) <==> FirstAgrees(xs, ys, f)
  {
    PickedFirstIff(a, b, xs, ys, f, StartsEarlier(ys, xs));
    UniqueInPart(xs, ys);
    hide StartsEarlier, ReportsEarlier, UniqueIds;
    if exists v: Option<T> :: v.Some? && IsFirst(v, xs, f) && IsFirst(v, ys, f) {
      var v: Option<T> :| v.Some? && IsFirst(v, xs, f) && IsFirst(v, ys, f);
      FirstIsOne(v, a, xs, f);
      FirstIsOne(v, b, ys, f);
    }
  }

  lemma SpansCompare(existing: Fields, incoming: Fields, xs: set<Raw>, ys: set<Raw>)
    requires Spans(existing, xs) && Spans(incoming, ys)
    ensures EndsLater(ys, xs) <==> incoming.lastTs > existing.lastTs
    ensures StartsEarlier(ys, xs) <==> incoming.firstTs < existing.firstTs
  {
  }

  lemma MergedSlotIff(slot: Slot, existing: Fields, incoming: Fields, xs: set<Raw>, ys: set<Raw>)
    requires slot.Valid() && Spans(existing, xs) && Spans(incoming, ys) && UniqueIds(xs + ys)
    requires SlotIs(slot, existing, xs) && SlotIs(slot, incoming, ys)
    ensures SlotIs(slot, Merged(existing, incoming), xs + ys) <==> SlotAgrees(slot, xs, ys)
  {
    SpansCompare(existing, incoming, xs, ys);
    hide Spans, IsFirst, IsLast, LastAgrees, FirstAgrees, EndsLater, StartsEarlier, UniqueIds;
    match slot {
      case StartOf(k) => FoldFirstIff(existing.starts[k], incoming.starts[k], xs, ys, MeterAt(k));
      case EndOf(k) => FoldLastIff(existing.lasts[k], incoming.lasts[k], xs, ys, MeterAt(k));
      case SnapOf => FoldLastIff(existing.snap, incoming.snap, xs, ys, SnapAt());
    }
  }

  // ------------------------------------------------------------------------------------------
  // The row in the store, transaction by transaction
  // ------------------------------------------------------------------------------------------

  ghost predicate IsPrunedRow(db: Db, key: Key) {
    key in db.rollups && db.rollups[key].pruned
  }

  /** A pruned row's value is that of all the readings deleted for its day. */
  ghost predicate PrunedSlotIs(slot: Slot, db: Db, key: Key)
    requires slot.Valid()
  {
    IsPrunedRow(db, key) ==> SlotIs(slot, db.rollups[key].fields, DeletedRows(db, key))
  }

  lemma RowsAreUnique(db: Db, key: Key)
    requires db.readings.Keys !! db.deleted.Keys
    ensures UniqueIds(DeletedRows(db, key) + DayRows(db.readings, key))
  {
  }

  lemma PrunedRow(db: Db, key: Key, rows: seq<Raw>)
    requires rows != [] && !Refuses(db, key, rows)
    ensures var after := Committed(db, key, true, rows);
            && IsPrunedRow(after, key)
            && after.rollups[key].fields
               == if IsPrunedRow(db, key) then Merged(db.rollups[key].fields, Summary(rows)) else Summary(rows)
  {
  }

  /** A straggler batch folded into a pruned row by the store's own transaction. */
  lemma PruneSlotIff(slot: Slot, before: Db, db: Db, key: Key, rows: seq<Raw>)
    requires slot.Valid() && Inv(db) && rows != [] && AreRowsOf(db.readings, key, rows)
    requires before.readings.Keys !! before.deleted.Keys && before.rollups == db.rollups && before.deleted == db.deleted
    requires RowSet(rows) == DayRows(before.readings, key) && RowTells(db, key)
    requires IsPrunedRow(db, key) && PrunedSlotIs(slot, db, key)
    ensures PrunedSlotIs(slot, Committed(db, key, true, rows), key)
       <==> SlotAgrees(slot, DeletedRows(before, key), DayRows(before.readings, key))
  {
    PruneNeverRefused(db, key, rows);
    DeletedRowsAfterPrune(db, key, rows, key);
    PrunedRow(db, key, rows);
    SummaryDescribes(rows);
    InOrderIsListed(rows);
    SummaryEnds(rows);
    SlotsMeaning(Summary(rows), RowSet(rows));
    RowsAreUnique(before, key);
    SpansOf(db.rollups[key].fields, DeletedRows(db, key));
    SpansOf(Summary(rows), RowSet(rows));
    assert DeletedRows(before, key) == DeletedRows(db, key);
    hide Committed, Merged, Summary, Describes, DeletedRows, DayRows, SlotIs, SlotAgrees, Refuses, EndsAre, UniqueIds, Inv, AreRowsOf;
    MergedSlotIff(slot, db.rollups[key].fields, Summary(rows), DeletedRows(db, key), RowSet(rows));
  }

  lemma SpansOf(fields: Fields, rows: set<Raw>)
    requires Describes(fields, rows)
    ensures Spans(fields, rows)
  {
  }

  /** The first prune of a day. */
  lemma FirstPruneSlot(slot: Slot, db: Db, key: Key, rows: seq<Raw>)
    requires slot.Valid() && Inv(db) && rows != [] && AreRowsOf(db.readings, key, rows) && !IsPrunedRow(db, key)
    ensures PrunedSlotIs(slot, Committed(db, key, true, rows), key)
  {
    PruneNeverRefused(db, key, rows);
    DeletedRowsAfterPrune(db, key, rows, key);
    PrunedRow(db, key, rows);
    InOrderIsListed(rows);
    SummaryEnds(rows);
    SlotsMeaning(Summary(rows), RowSet(rows));
    assert RowExact(db, key);
    NothingDeleted(db, key);
    assert {} + RowSet(rows) == RowSet(rows);
  }

  // ------------------------------------------------------------------------------------------
  // Over runs
  // ------------------------------------------------------------------------------------------

  /** The event folds a batch into a row that is already pruned. */
  predicate Folds(db: Db, e: Event, key: Key) {
    e.Process? && e.key == key && e.deleteOn && !e.crash && e.rows != [] && key in db.rollups && db.rollups[key].pruned
  }

  /** Each fold into the day's row kept this value: the batch and what was deleted before agree on it. */
  ghost predicate FoldsAgree(slot: Slot, es: seq<Event>, key: Key)
    requires slot.Valid()
    decreases |es|
  {
    es == [] || (
      var before, e := Exec(EMPTY, es[..|es| - 1]), es[|es| - 1];
      && FoldsAgree(slot, es[..|es| - 1], key)
      && (Folds(before, e, key) ==> SlotAgrees(slot, DeletedRows(before, key), DayRows(before.readings, key))))
  }

  lemma UntouchedSlot(slot: Slot, db: Db, after: Db, key: Key)
    requires slot.Valid() && PrunedSlotIs(slot, db, key) && DeletedRows(after, key) == DeletedRows(db, key)
    requires Lookup(after.rollups, key) == Lookup(db.rollups, key)
    ensures PrunedSlotIs(slot, after, key)
  {
  }

  lemma OtherDayPruned(db: Db, day: Key, deleteOn: bool, rows: seq<Raw>, key: Key)
    requires db.readings.Keys !! db.deleted.Keys && rows != [] && AreRowsOf(db.readings, day, rows) && day != key
    ensures var after := Committed(db, day, deleteOn, rows);
            DeletedRows(after, key) == DeletedRows(db, key) && Lookup(after.rollups, key) == Lookup(db.rollups, key)
  {
    if deleteOn && !Refuses(db, day, rows) {
      DeletedRowsAfterPrune(db, day, rows, key);
    }
    hide Refuses, Upserted, DeletedRows;
  }

  /** One event: the row's value stays that of all the deleted readings iff a fold, if it is one, agrees on it. */
  lemma StepSlotIff(slot: Slot, db: Db, e: Event, key: Key)
    requires slot.Valid() && Inv(db) && Fair(db, e) && RowTells(db, key) && PrunedSlotIs(slot, db, key)
    requires e.Process? && !e.deleteOn ==> !(e.key in db.rollups && db.rollups[e.key].pruned)
    ensures PrunedSlotIs(slot, Apply(db, e), key)
       <==> (Folds(db, e, key) ==> SlotAgrees(slot, DeletedRows(db, key), DayRows(db.readings, key)))
  {
    var more := if e.Insert? then e.more else e.late;
    var after := db.(readings := db.readings + more);
    InsertInv(db, more);
    assert DeletedRows(after, key) == DeletedRows(db, key);
    assert RowTells(after, key);
    UntouchedSlot(slot, db, after, key);
    if e.Process? && !e.crash && e.rows != [] {
      SnapshotIsDay(db.readings, e.late, e.key, e.rows);
      assert db.readings.Keys !! db.deleted.Keys;
      hide Inv, Fair, RowTells, Committed, DayRows, DeletedRows, AreRowsOf, SlotIs, SlotAgrees, PrunedSlotIs;
      if e.key != key {
        InvIsApart(after);
        OtherDayPruned(after, e.key, e.deleteOn, e.rows, key);
        UntouchedSlot(slot, after, Committed(after, e.key, e.deleteOn, e.rows), key);
      } else if !e.deleteOn {
        NotPruned(after, key, e.rows);
        NoPrunedRow(slot, Committed(after, key, false, e.rows), key);
      } else if IsPrunedRow(db, key) {
        PruneSlotIff(slot, db, after, key, e.rows);
      } else {
        FirstPruneSlot(slot, after, key, e.rows);
      }
    }
  }

  lemma InvIsApart(db: Db)
    requires Inv(db)
    ensures db.readings.Keys !! db.deleted.Keys
  {
  }

  lemma NoPrunedRow(slot: Slot, db: Db, key: Key)
    requires slot.Valid() && key in db.rollups && !db.rollups[key].pruned
    ensures PrunedSlotIs(slot, db, key)
  {
  }

  lemma {:induction false} RunSlot(slot: Slot, es: seq<Event>, key: Key)
    requires slot.Valid() && FairRun(EMPTY, es) && DeletionStaysOn(es) && FoldsAgree(slot, es, key)
    ensures PrunedSlotIs(slot, Exec(EMPTY, es), key)
    decreases |es|
  {
    if es != [] {
      var before, e := es[..|es| - 1], es[|es| - 1];
      RunSlot(slot, before, key);
      RunInv(before);
      RunTells(before);
      AdditiveBeforePrunes(es);
      hide Inv, Fair, Apply, PrunedSlotIs, SlotAgrees, DayRows, DeletedRows, RowTells, Folds;
      assert RowTells(Exec(EMPTY, before), key);
      StepSlotIff(slot, Exec(EMPTY, before), e, key);
    }
  }

  /**
   * A pruned row's start, end or snapshot is the first or last reported among all the readings deleted
   * for its day, however many batches they came in and however silent some are, if each fold agreed on it.
   */
  lemma PrunedRowHasTheEnds(slot: Slot, es: seq<Event>, key: Key)
    requires slot.Valid() && FairRun(EMPTY, es) && DeletionStaysOn(es) && FoldsAgree(slot, es, key)
    requires key in Exec(EMPTY, es).rollups && Exec(EMPTY, es).rollups[key].pruned
    ensures SlotIs(slot, Exec(EMPTY, es).rollups[key].fields, DeletedRows(Exec(EMPTY, es), key))
  {
    RunSlot(slot, es, key);
  }

  /** And the first fold that does not agree leaves it wrong. */
  lemma DisagreeingFoldIsWrong(slot: Slot, es: seq<Event>, e: Event, key: Key)
    requires slot.Valid() && FairRun(EMPTY, es + [e]) && DeletionStaysOn(es + [e]) && FoldsAgree(slot, es, key)
    requires Folds(Exec(EMPTY, es), e, key)
    requires !SlotAgrees(slot, DeletedRows(Exec(EMPTY, es), key), DayRows(Exec(EMPTY, es).readings, key))
    ensures var db := Exec(EMPTY, es + [e]);
            && key in db.rollups && db.rollups[key].pruned
            && !SlotIs(slot, db.rollups[key].fields, DeletedRows(db, key))
  {
    assert (es + [e])[..|es|] == es;
    StaysOnBefore(es, e);
    RunSlot(slot, es, key);
    RunInv(es);
    RunTells(es);
    AdditiveBeforePrunes(es + [e]);
    hide Inv, Fair, Apply, SlotAgrees, DayRows, DeletedRows, RowTells, SlotIs;
    assert RowTells(Exec(EMPTY, es), key);
    StepSlotIff(slot, Exec(EMPTY, es), e, key);
  }

  lemma StaysOnBefore(es: seq<Event>, e: Event)
    requires DeletionStaysOn(es + [e])
    ensures DeletionStaysOn(es)
  {
    assert forall i :: 0 <= i < |es| ==> (es + [e])[i] == es[i];
  }

  // ------------------------------------------------------------------------------------------
  // Batches that do not interleave
  // ------------------------------------------------------------------------------------------

  /** All of one batch before all of the other. */
  ghost predicate Apart(xs: set<Raw>, ys: set<Raw>) {
    (forall x, y :: x in xs && y in ys ==> x.ts < y.ts) || (forall x, y :: x in xs && y in ys ==> y.ts < x.ts)
  }

  lemma ApartAgrees(slot: Slot, xs: set<Raw>, ys: set<Raw>)
    requires slot.Valid() && Apart(xs, ys) && xs != {} && ys != {}
    ensures SlotAgrees(slot, xs, ys)
  {
    match slot {
      case StartOf(k) => ApartFirst(xs, ys, MeterAt(k));
      case EndOf(k) => ApartLast(xs, ys, MeterAt(k));
      case SnapOf => ApartLast(xs, ys, SnapAt());
    }
  }

  lemma ApartLast<T(!new)>(xs: set<Raw>, ys: set<Raw>, f: Raw -> Option<T>)
    requires Apart(xs, ys) && xs != {} && ys != {}
    ensures LastAgrees(xs, ys, f)
  {
    var x :| x in xs;
    if !SilentOn(xs, f) && !SilentOn(ys, f) {
      var a :| a in xs && f(a).Some?;
      var b :| b in ys && f(b).Some?;
      if b.ts > a.ts {
        assert EndsLater(ys, xs) && ReportsLater(ys, xs, f);
      }
    }
  }

  lemma ApartFirst<T(!new)>(xs: set<Raw>, ys: set<Raw>, f: Raw -> Option<T>)
    requires Apart(xs, ys) && xs != {} && ys != {}
    ensures FirstAgrees(xs, ys, f)
  {
    if !SilentOn(xs, f) && !SilentOn(ys, f) {
      var a :| a in xs && f(a).Some?;
      var b :| b in ys && f(b).Some?;
      if b.ts < a.ts {
        assert StartsEarlier(ys, xs) && ReportsEarlier(ys, xs, f);
      }
    }
  }

  /** Every batch folded into the day's row lies apart in time from what was deleted before. */
  ghost predicate FoldsApart(es: seq<Event>, key: Key)
    decreases |es|
  {
    es == [] || (
      var before, e := Exec(EMPTY, es[..|es| - 1]), es[|es| - 1];
      && FoldsApart(es[..|es| - 1], key)
      && (Folds(before, e, key) ==> Apart(DeletedRows(before, key), DayRows(before.readings, key))))
  }

  lemma {:induction false} ApartFoldsAgree(slot: Slot, es: seq<Event>, key: Key)
    requires slot.Valid() && FairRun(EMPTY, es) && DeletionStaysOn(es) && FoldsApart(es, key)
    ensures FoldsAgree(slot, es, key)
    decreases |es|
  {
    if es != [] {
      var before, e := es[..|es| - 1], es[|es| - 1];
      ApartFoldsAgree(slot, before, key);
      RunTells(before);
      var db := Exec(EMPTY, before);
      assert Fair(db, e);
      hide SlotAgrees, Apart, Exec, FairRun;
      if Folds(db, e, key) {
        FoldIsOfReadings(db, e, key);
        ApartAgrees(slot, DeletedRows(db, key), DayRows(db.readings, key));
      }
    }
  }

  lemma FoldIsOfReadings(db: Db, e: Event, key: Key)
    requires Folds(db, e, key) && Fair(db, e) && RowTells(db, key)
    ensures DeletedRows(db, key) != {} && DayRows(db.readings, key) != {}
  {
    SnapshotIsDay(db.readings, e.late, key, e.rows);
    assert e.rows[0] in RowSet(e.rows);
    hide DeletedRows;
    assert Spans(db.rollups[key].fields, DeletedRows(db, key));
  }

  /** Then the row has the first and last reported values of all the deleted readings, and the latest snapshot. */
  lemma ApartBatchesAreExact(es: seq<Event>, key: Key)
    requires FairRun(EMPTY, es) && DeletionStaysOn(es) && FoldsApart(es, key)
    requires key in Exec(EMPTY, es).rollups && Exec(EMPTY, es).rollups[key].pruned
    ensures EndsAre(Exec(EMPTY, es).rollups[key].fields, DeletedRows(Exec(EMPTY, es), key))
  {
    var db := Exec(EMPTY, es);
    hide SlotIs, FoldsApart, FoldsAgree, EndsAre;
    forall slot: Slot | slot.Valid() ensures SlotIs(slot, db.rollups[key].fields, DeletedRows(db, key)) {
      ApartFoldsAgree(slot, es, key);
      PrunedRowHasTheEnds(slot, es, key);
    }
    SlotsMeaning(db.rollups[key].fields, DeletedRows(db, key));
  }

  // ------------------------------------------------------------------------------------------
  // Unpruned rows
  // ------------------------------------------------------------------------------------------

  /** An unpruned row counts, describes and has the ends of a batch that is all still there. */
  ghost predicate UnprunedStands(db: Db, key: Key) {
    key in db.rollups && !db.rollups[key].pruned ==> exists batch :: StandsFor(db, key, batch)
  }

  lemma CommitStands(db: Db, key: Key, deleteOn: bool, rows: seq<Raw>)
    requires rows != [] && AreRowsOf(db.readings, key, rows) && UnprunedStands(db, key)
    ensures UnprunedStands(Committed(db, key, deleteOn, rows), key)
  {
    hide RowsOf, Covers, StandsFor, Merged, Summary;
    var after := Committed(db, key, deleteOn, rows);
    if !(deleteOn && Refuses(db, key, rows)) {
      CommitRollsUp(db, key, deleteOn, rows);
      assert rows[0] in RowSet(rows);
    }
  }

  lemma StepStands(db: Db, e: Event, key: Key)
    requires Fair(db, e) && UnprunedStands(db, key)
    ensures UnprunedStands(Apply(db, e), key)
  {
    hide StandsFor, Committed;
    var more := if e.Insert? then e.more else e.late;
    var after := db.(readings := db.readings + more);
    StandsStill(db, after, key);
    if e.Process? && !e.crash && e.rows != [] {
      SnapshotIsDay(db.readings, e.late, e.key, e.rows);
      var end := Committed(after, e.key, e.deleteOn, e.rows);
      if e.key == key {
        CommitStands(after, key, e.deleteOn, e.rows);
      } else {
        forall id | id in IdsOf(after.readings, key) ensures id in end.readings && end.readings[id] == after.readings[id] {
          OtherDaysStay(after, e.key, e.deleteOn, e.rows, id);
        }
        OtherRowsStay(after, e.key, e.deleteOn, e.rows, key);
        StandsStill(after, end, key);
      }
    }
  }

  lemma OtherRowsStay(db: Db, day: Key, deleteOn: bool, rows: seq<Raw>, key: Key)
    requires rows != [] && day != key
    ensures Lookup(Committed(db, day, deleteOn, rows).rollups, key) == Lookup(db.rollups, key)
  {
    hide Refuses, Upserted;
  }

  lemma StandsStill(db: Db, after: Db, key: Key)
    requires UnprunedStands(db, key) && Lookup(after.rollups, key) == Lookup(db.rollups, key)
    requires forall id :: id in IdsOf(db.readings, key) ==> id in after.readings && after.readings[id] == db.readings[id]
    ensures UnprunedStands(after, key)
  {
    hide StandsFor, IdsOf;
    if key in db.rollups && !db.rollups[key].pruned {
      var batch :| StandsFor(db, key, batch);
      StandsForStill(db, after, key, batch);
    }
  }

  /** In every run, under any settings. */
  lemma {:induction false} UnprunedRowsStand(es: seq<Event>, key: Key)
    requires FairRun(EMPTY, es)
    ensures UnprunedStands(Exec(EMPTY, es), key)
    decreases |es|
  {
    hide StandsFor, Apply, Fair;
    if es != [] {
      UnprunedRowsStand(es[..|es| - 1], key);
      StepStands(Exec(EMPTY, es[..|es| - 1]), es[|es| - 1], key);
    }
  }
}
