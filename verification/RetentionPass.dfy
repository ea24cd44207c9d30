/**
 * The retention worker job in place: one printer-day as a transaction with a chunked delete by id, and
 * the budgeted pass over days (central/retention.py, `_process_printer_day` and `roll_up_readings`).
 */
module RetentionPass {
  import opened Options
  import opened Rollup
  import opened Retention

  const DELETE_CHUNK: nat := 1000

  const FORECAST_HISTORY_WINDOW_DAYS: nat := 30
  const RUNWAY_HISTORY_WINDOW_DAYS: nat := 30

  function MinRawDays(): nat {
    (if FORECAST_HISTORY_WINDOW_DAYS > RUNWAY_HISTORY_WINDOW_DAYS
     then FORECAST_HISTORY_WINDOW_DAYS else RUNWAY_HISTORY_WINDOW_DAYS) + 1
  }

  /** `retention.raw_days`: absent, unparseable and 0 all read as 90, and the forecast's reach is the floor. */
  function EffectiveRawDays(setting: Option<int>): (days: nat)
    ensures setting.None? || setting.value == 0 ==> days == 90
    ensures setting.Some? && setting.value != 0 && setting.value < 31 ==> days == 31
    ensures setting.Some? && setting.value >= 31 ==> days == setting.value
  {
    var days := if setting.None? || setting.value == 0 then 90 else setting.value;
    if days < MinRawDays() then MinRawDays() else days
  }

  /** `retention.max_batches_per_cycle`, with the same reading of absent and 0. */
  function Budget(setting: Option<int>): (budget: nat)
    ensures setting.None? || setting.value == 0 ==> budget == 200
    ensures setting.Some? && setting.value >= 1 ==> budget == setting.value
    ensures setting.Some? && setting.value < 0 ==> budget == 1
  {
    var batches := if setting.None? || setting.value == 0 then 200 else setting.value;
    if batches < 1 then 1 else batches
  }

  /** The first day a pass may not touch. */
  function CutoffDay(now: Time, rawDaysSetting: Option<int>): Day {
    DayOf(now - EffectiveRawDays(rawDaysSetting) * DAY_SECONDS)
  }

  /** A pass may touch exactly the days that closed at least the raw window ago. */
  lemma CutoffMeaning(now: Time, rawDaysSetting: Option<int>, day: Day)
    ensures day < CutoffDay(now, rawDaysSetting) <==> (day + 1) * 86400 <= now - EffectiveRawDays(rawDaysSetting) * 86400
  {
    var edge := now - EffectiveRawDays(rawDaysSetting) * DAY_SECONDS;
    DayMeaning(edge, DayOf(edge));
  }

  // ------------------------------------------------------------------------------------------
  // Selecting
  // ------------------------------------------------------------------------------------------

  ghost predicate IsEarliest(readings: map<nat, Reading>, ids: set<nat>, first: nat)
    requires ids <= readings.Keys
  {
    first in ids && forall id :: id in ids && id != first ==> Before(RawOf(first, readings[first]), RawOf(id, readings[id]))
  }

  /** The id with the least (ts, id) among `ids`. */
  method Earliest(readings: map<nat, Reading>, ids: set<nat>) returns (first: nat)
    requires ids != {} && ids <= readings.Keys
    ensures IsEarliest(readings, ids, first)
  {
    first :| first in ids;
    var rest := ids - {first};
    while rest != {}
      invariant rest <= ids && first in ids && first !in rest
      invariant IsEarliest(readings, ids - rest, first)
      decreases rest
    {
      var id :| id in rest;
      if Before(RawOf(id, readings[id]), RawOf(first, readings[first])) {
        first := id;
      }
      rest := rest - {id};
    }
    assert ids - rest == ids;
  }

  /** `SELECT ... WHERE printer_id AND ts in the day ORDER BY ts, id`. */
  method SelectDay(readings: map<nat, Reading>, key: Key) returns (rows: seq<Raw>)
    ensures IsSnapshot(readings, key, rows)
  {
    rows := [];
    var rest := IdsOf(readings, key);
    while rest != {}
      invariant rest <= IdsOf(readings, key)
      invariant Ids(rows) == IdsOf(readings, key) - rest
      invariant forall i :: 0 <= i < |rows| ==> rows[i].id in readings && rows[i] == RawOf(rows[i].id, readings[rows[i].id])
      invariant InOrder(rows)
      invariant forall i, id :: 0 <= i < |rows| && id in rest ==> Before(rows[i], RawOf(id, readings[id]))
      decreases rest
    {
      var first := Earliest(readings, rest);
      ghost var before := rows;
      rows := rows + [RawOf(first, readings[first])];
      rest := rest - {first};
      assert Ids(rows) == Ids(before) + {first};
    }
  }

  // ------------------------------------------------------------------------------------------
  // Backlog
  // ------------------------------------------------------------------------------------------

  /** The printer-days that still have raw rows older than the cutoff day. */
  function Backlog(readings: map<nat, Reading>, cutoff: Day): set<Key> {
    set id | id in readings && DayOf(readings[id].ts) < cutoff :: KeyOf(readings[id])
  }

  function PrintersOn(readings: map<nat, Reading>, day: Day): set<PrinterId> {
    set id | id in readings && DayOf(readings[id].ts) == day :: readings[id].printer
  }

  /** The readings of `seen` that are still there. */
  function Left(seen: map<nat, Reading>, now: map<nat, Reading>): map<nat, Reading> {
    map id | id in seen && id in now :: seen[id]
  }

  /** Of the readings seen of a printer-day none is left. */
  ghost predicate Gone(seen: map<nat, Reading>, now: map<nat, Reading>, key: Key) {
    IdsOf(seen, key) !! now.Keys
  }

  ghost predicate NoneReturns(seen: map<nat, Reading>, before: map<nat, Reading>, after: map<nat, Reading>) {
    forall id :: id in seen && id !in before ==> id !in after
  }

  /** Some printer-day of the backlog is done. */
  ghost predicate Cleared(seen: map<nat, Reading>, now: map<nat, Reading>, cutoff: Day) {
    exists key :: key in Backlog(seen, cutoff) && Gone(seen, now, key)
  }

  lemma ClearedStays(seen: map<nat, Reading>, before: map<nat, Reading>, after: map<nat, Reading>, cutoff: Day)
    requires Cleared(seen, before, cutoff) && NoneReturns(seen, before, after)
    ensures Cleared(seen, after, cutoff)
  {
    var key :| key in Backlog(seen, cutoff) && Gone(seen, before, key);
    assert Gone(seen, after, key);
  }

  lemma GoneStays(seen: map<nat, Reading>, before: map<nat, Reading>, after: map<nat, Reading>, key: Key)
    requires Gone(seen, before, key) && NoneReturns(seen, before, after)
    ensures Gone(seen, after, key)
  {
  }

  ghost predicate AllGone(seen: map<nat, Reading>, now: map<nat, Reading>, day: Day, printers: set<PrinterId>) {
    forall printer :: printer in printers ==> Gone(seen, now, Key(printer, day))
  }

  lemma BacklogShrinks(seen: map<nat, Reading>, now: map<nat, Reading>, cutoff: Day)
    ensures Backlog(Left(seen, now), cutoff) <= Backlog(seen, cutoff)
    ensures Cleared(seen, now, cutoff) ==> Backlog(Left(seen, now), cutoff) < Backlog(seen, cutoff)
  {
    var left := Left(seen, now);
    if Cleared(seen, now, cutoff) {
      var key :| key in Backlog(seen, cutoff) && Gone(seen, now, key);
      forall id | id in left && DayOf(left[id].ts) < cutoff ensures KeyOf(left[id]) != key {
        assert id in IdsOf(seen, KeyOf(seen[id]));
      }
    }
  }

  /** What a pass may do to readings: take some away, all of them from days before the cutoff. */
  ghost predicate OnlyOldGo(seen: map<nat, Reading>, now: map<nat, Reading>, cutoff: Day) {
    && (forall id :: id in seen && id in now ==> now[id] == seen[id])
    && (forall id :: id in seen && id !in now ==> DayOf(seen[id].ts) < cutoff)
  }

  /** Whatever a pass deletes is older than the floored raw window. */
  lemma RawWindowSurvives(seen: map<nat, Reading>, after: map<nat, Reading>, now: Time, rawDaysSetting: Option<int>, id: nat)
    requires OnlyOldGo(seen, after, CutoffDay(now, rawDaysSetting)) && id in seen
    requires seen[id].ts >= now - EffectiveRawDays(rawDaysSetting) * DAY_SECONDS
    ensures id in after && after[id] == seen[id]
  {
  }

  // ------------------------------------------------------------------------------------------
  // A pass amid other sessions
  // ------------------------------------------------------------------------------------------

  /**
   * What other sessions commit while a pass runs: at 2u when u units of the budget are used, at 2u + 1
   * during the transaction that follows.
   */
  type Arrivals = nat -> map<nat, Reading>

  /** One pass: the store it starts from, the readings its first day scan sees, and its settings. */
  datatype Pass = Pass(start: Db, seen: map<nat, Reading>, cutoff: Day, deleteOn: bool, arrivals: Arrivals)

  /** What is still to come is new. */
  ghost predicate Ahead(arrivals: Arrivals, n: nat, db: Db) {
    && (forall m :: n <= m ==> arrivals(m).Keys !! db.readings.Keys && arrivals(m).Keys !! db.deleted.Keys)
    && (forall m, k :: n <= m < k ==> arrivals(m).Keys !! arrivals(k).Keys)
  }

  ghost predicate Arrived(arrivals: Arrivals, more: map<nat, Reading>) {
    exists n :: more == arrivals(n)
  }

  ghost predicate InPass(p: Pass, e: Event) {
    match e
    case Insert(more) => Arrived(p.arrivals, more)
    case Process(key, deleteOn, _, late, crash) =>
      deleteOn == p.deleteOn && key.day < p.cutoff && !crash && Arrived(p.arrivals, late)
  }

  /** What was seen is there or deleted, not both. */
  ghost predicate Kept(seen: map<nat, Reading>, now: Db) {
    now.readings.Keys !! now.deleted.Keys && seen.Keys <= now.readings.Keys + now.deleted.Keys
  }

  /** `pruned` readings were added to the deleted, all old. */
  ghost predicate OldDeleted(before: map<nat, Reading>, after: map<nat, Reading>, cutoff: Day, pruned: nat) {
    && |after| == |before| + pruned
    && (forall id :: id in before ==> id in after && after[id] == before[id])
    && (forall id :: id in after && id !in before ==> DayOf(after[id].ts) < cutoff)
  }

  /** Only old readings go, each counted, and only with deletion on. */
  ghost predicate PassEffect(p: Pass, now: Db, pruned: nat) {
    && Kept(p.seen, now)
    && OnlyOldGo(p.seen, now.readings, p.cutoff)
    && OldDeleted(p.start.deleted, now.deleted, p.cutoff, pruned)
    && (!p.deleteOn ==> now.deleted == p.start.deleted && p.seen.Keys <= now.readings.Keys)
  }

  /** No stored count is negative: what the safety check of a prune relies on. */
  predicate CountsOk(rollups: map<Key, DayRow>) {
    forall key :: key in rollups ==> rollups[key].fields.count >= 0
  }

  /** The pass so far is one run of fair transactions and arrivals, with the effects it may have. */
  ghost predicate OnTrack(p: Pass, now: Db, es: seq<Event>, n: nat, pruned: nat) {
    && FairRun(p.start, es) && now == Exec(p.start, es)
    && (forall e :: e in es ==> InPass(p, e))
    && CountsOk(now.rollups)
    && Ahead(p.arrivals, n, now)
    && PassEffect(p, now, pruned)
  }

  lemma RunOn(p: Pass, now: Db, es: seq<Event>, e: Event)
    requires FairRun(p.start, es) && now == Exec(p.start, es) && (forall f :: f in es ==> InPass(p, f))
    requires Fair(now, e) && InPass(p, e)
    ensures FairRun(p.start, es + [e]) && Apply(now, e) == Exec(p.start, es + [e])
    ensures forall f :: f in es + [e] ==> InPass(p, f)
  {
    ExecAppend(p.start, es, e);
  }

  lemma AheadStill(arrivals: Arrivals, n: nat, m: nat, before: Db, after: Db)
    requires Ahead(arrivals, n, before) && n <= m
    requires after.readings.Keys + after.deleted.Keys <= before.readings.Keys + before.deleted.Keys + arrivals(m).Keys
    ensures Ahead(arrivals, m + 1, after)
  {
    forall k | m + 1 <= k ensures arrivals(k).Keys !! after.readings.Keys && arrivals(k).Keys !! after.deleted.Keys {
      assert arrivals(m).Keys !! arrivals(k).Keys;
    }
  }

  lemma ArrivalEffect(p: Pass, now: Db, more: map<nat, Reading>, pruned: nat)
    requires PassEffect(p, now, pruned) && more.Keys !! now.readings.Keys && more.Keys !! now.deleted.Keys
    ensures PassEffect(p, now.(readings := now.readings + more), pruned)
    ensures NoneReturns(p.seen, now.readings, now.readings + more)
  {
    hide OldDeleted;
  }

  /** Other sessions insert. */
  lemma Arrives(p: Pass, now: Db, es: seq<Event>, n: nat, m: nat, pruned: nat)
    requires OnTrack(p, now, es, n, pruned) && n <= m
    ensures var after := now.(readings := now.readings + p.arrivals(m));
            && OnTrack(p, after, es + [Insert(p.arrivals(m))], m + 1, pruned)
            && NoneReturns(p.seen, now.readings, after.readings)
            && AllStay(now.readings, after.readings) && Onward(now, after)
  {
    hide PassEffect, FairRun, Exec, NoneReturns, Onward;
    var e := Insert(p.arrivals(m));
    assert Arrived(p.arrivals, e.more);
    RunOn(p, now, es, e);
    ArrivalEffect(p, now, e.more, pruned);
    AheadStill(p.arrivals, n, m, now, Apply(now, e));
    StepOnward(now, e);
  }

  lemma KeptAfterPrune(seen: map<nat, Reading>, now: Db, ids: set<nat>, after: Db)
    requires Kept(seen, now) && ids <= now.readings.Keys
    requires after.readings == now.readings - ids && after.deleted == now.deleted + Picked(now.readings, ids)
    ensures Kept(seen, after) && NoneReturns(seen, now.readings, after.readings)
  {
    assert Picked(now.readings, ids).Keys == ids;
  }

  lemma OnlyOldGoAfterPrune(seen: map<nat, Reading>, now: map<nat, Reading>, key: Key, cutoff: Day)
    requires OnlyOldGo(seen, now, cutoff) && key.day < cutoff
    ensures OnlyOldGo(seen, now - IdsOf(now, key), cutoff)
    ensures Gone(seen, now - IdsOf(now, key), key)
  {
  }

  lemma OldDeletedAfterPrune(before: map<nat, Reading>, now: Db, key: Key, cutoff: Day, pruned: nat)
    requires OldDeleted(before, now.deleted, cutoff, pruned) && key.day < cutoff && now.readings.Keys !! now.deleted.Keys
    ensures var ids := IdsOf(now.readings, key);
            OldDeleted(before, now.deleted + Picked(now.readings, ids), cutoff, pruned + |ids|)
  {
    var ids := IdsOf(now.readings, key);
    IdsOfPicked(now.readings, ids, key, key);
    var after := now.deleted + Picked(now.readings, ids);
    assert after.Keys == now.deleted.Keys + ids;
    assert |after.Keys| == |now.deleted.Keys| + |ids|;
  }

  /** The readings of one printer-day leave. */
  lemma PruneEffect(p: Pass, now: Db, key: Key, after: Db, pruned: nat)
    requires PassEffect(p, now, pruned) && p.deleteOn && key.day < p.cutoff
    requires var ids := IdsOf(now.readings, key);
             after.readings == now.readings - ids && after.deleted == now.deleted + Picked(now.readings, ids)
    ensures PassEffect(p, after, pruned + |IdsOf(now.readings, key)|)
    ensures Gone(p.seen, after.readings, key) && NoneReturns(p.seen, now.readings, after.readings)
  {
    KeptAfterPrune(p.seen, now, IdsOf(now.readings, key), after);
    OnlyOldGoAfterPrune(p.seen, now.readings, key, p.cutoff);
    assert now.readings.Keys !! now.deleted.Keys;
    hide OnlyOldGo, OldDeleted, NoneReturns, Gone, IdsOf, Picked;
    OldDeletedAfterPrune(p.start.deleted, now, key, p.cutoff, pruned);
  }

  lemma CountsStay(db: Db, key: Key, deleteOn: bool, rows: seq<Raw>)
    requires CountsOk(db.rollups) && rows != []
    ensures CountsOk(Committed(db, key, deleteOn, rows).rollups) && !Refuses(db, key, rows)
  {
    CountsOfUpserted(Lookup(db.rollups, key), rows);
    hide Upserted;
  }

  lemma LateAside(readings: map<nat, Reading>, late: map<nat, Reading>, ids: set<nat>)
    requires ids <= readings.Keys && late.Keys !! readings.Keys
    ensures (readings + late) - ids == (readings - ids) + late
    ensures Picked(readings + late, ids) == Picked(readings, ids)
  {
  }

  /** What a transaction does to the readings and the deleted. */
  lemma CommitMoves(now: Db, key: Key, deleteOn: bool, rows: seq<Raw>, late: map<nat, Reading>)
    requires CountsOk(now.rollups) && Fair(now, Process(key, deleteOn, rows, late, false))
    ensures var after, ids := Apply(now, Process(key, deleteOn, rows, late, false)), IdsOf(now.readings, key);
            && CountsOk(after.rollups) && |ids| == |rows|
            && (rows != [] ==> !Refuses(now, key, rows))
            && after.readings == (if deleteOn then now.readings - ids else now.readings) + late
            && after.deleted == if deleteOn then now.deleted + Picked(now.readings, ids) else now.deleted
  {
    var middle, ids := now.(readings := now.readings + late), IdsOf(now.readings, key);
    SnapshotCount(now.readings, key, rows);
    LateAside(now.readings, late, ids);
    assert Ids(rows) == ids;
    hide CountsOk, Refuses, Upserted, IsSnapshot, IdsOf, Ids;
    if rows == [] {
      assert |ids| == 0;
      assert now.deleted + Picked(now.readings, {}) == now.deleted;
      assert now.readings - {} == now.readings;
    } else {
      CountsStay(middle, key, deleteOn, rows);
      CountsStay(now, key, deleteOn, rows);
    }
  }

  lemma LateIsNew(now: Db, key: Key, deleteOn: bool, rows: seq<Raw>, late: map<nat, Reading>)
    requires Fair(now, Process(key, deleteOn, rows, late, false))
    ensures late.Keys !! now.readings.Keys && late.Keys !! now.deleted.Keys
  {
  }

  lemma NoNewKeys(now: Db, key: Key, deleteOn: bool, rows: seq<Raw>, late: map<nat, Reading>)
    ensures var after := Apply(now, Process(key, deleteOn, rows, late, false));
            after.readings.Keys + after.deleted.Keys <= now.readings.Keys + now.deleted.Keys + late.Keys
  {
    hide Refuses, Upserted;
  }

  lemma CommitEffect(p: Pass, now: Db, key: Key, rows: seq<Raw>, late: map<nat, Reading>, pruned: nat)
    requires PassEffect(p, now, pruned) && CountsOk(now.rollups) && key.day < p.cutoff
    requires Fair(now, Process(key, p.deleteOn, rows, late, false))
    ensures var after := Apply(now, Process(key, p.deleteOn, rows, late, false));
            && PassEffect(p, after, pruned + if p.deleteOn then |rows| else 0)
            && NoneReturns(p.seen, now.readings, after.readings)
            && (p.deleteOn ==> Gone(p.seen, after.readings, key))
  {
    hide Apply, Fair, CountsOk, PassEffect, Picked, IdsOf, Gone, NoneReturns;
    var after := Apply(now, Process(key, p.deleteOn, rows, late, false));
    CommitMoves(now, key, p.deleteOn, rows, late);
    LateIsNew(now, key, p.deleteOn, rows, late);
    if p.deleteOn {
      LatePrune(p, now, late, key, after, pruned);
    } else {
      LateEffect(p, now, late, after, pruned);
    }
  }

  lemma LateEffect(p: Pass, now: Db, late: map<nat, Reading>, after: Db, pruned: nat)
    requires PassEffect(p, now, pruned) && late.Keys !! now.readings.Keys && late.Keys !! now.deleted.Keys
    requires after.readings == now.readings + late && after.deleted == now.deleted
    ensures PassEffect(p, after, pruned) && NoneReturns(p.seen, now.readings, after.readings)
  {
    hide OldDeleted;
    ArrivalEffect(p, now, late, pruned);
  }

  /** The day's readings leave, those of the snapshot but not those that came after it. */
  lemma LatePrune(p: Pass, now: Db, late: map<nat, Reading>, key: Key, after: Db, pruned: nat)
    requires PassEffect(p, now, pruned) && p.deleteOn && key.day < p.cutoff
    requires late.Keys !! now.readings.Keys && late.Keys !! now.deleted.Keys
    requires var ids := IdsOf(now.readings, key);
             after.readings == (now.readings - ids) + late && after.deleted == now.deleted + Picked(now.readings, ids)
    ensures PassEffect(p, after, pruned + |IdsOf(now.readings, key)|)
    ensures Gone(p.seen, after.readings, key) && NoneReturns(p.seen, now.readings, after.readings)
  {
    hide PassEffect, IdsOf, Gone, NoneReturns, Picked;
    var ids := IdsOf(now.readings, key);
    var cleared := Db(now.readings - ids, after.rollups, now.deleted + Picked(now.readings, ids));
    PruneEffect(p, now, key, cleared, pruned);
    StillApart(now.readings, now.deleted, late, key);
    LateEffect(p, cleared, late, after, pruned + |ids|);
    GoneStays(p.seen, cleared.readings, after.readings, key);
    NoneReturnsOnward(p.seen, now.readings, cleared.readings, after.readings);
  }

  lemma StillApart(readings: map<nat, Reading>, deleted: map<nat, Reading>, late: map<nat, Reading>, key: Key)
    requires late.Keys !! readings.Keys && late.Keys !! deleted.Keys
    ensures var ids := IdsOf(readings, key);
            late.Keys !! (readings - ids).Keys && late.Keys !! (deleted + Picked(readings, ids)).Keys
  {
    IdsOfPicked(readings, IdsOf(readings, key), key, key);
  }

  lemma NoneReturnsOnward(seen: map<nat, Reading>, before: map<nat, Reading>, middle: map<nat, Reading>, after: map<nat, Reading>)
    requires NoneReturns(seen, before, middle) && NoneReturns(seen, middle, after)
    ensures NoneReturns(seen, before, after)
  {
  }

  /** A transaction of the pass, with whatever commits during it. */
  lemma Serves(p: Pass, now: Db, es: seq<Event>, n: nat, pruned: nat, key: Key, rows: seq<Raw>)
    requires OnTrack(p, now, es, n, pruned) && key.day < p.cutoff
    requires Fair(now, Process(key, p.deleteOn, rows, p.arrivals(n), false))
    ensures var e := Process(key, p.deleteOn, rows, p.arrivals(n), false);
            var after := Apply(now, e);
            && OnTrack(p, after, es + [e], n + 1, pruned + if p.deleteOn then |rows| else 0)
            && ServedOne(p, now, after, key)
    ensures rows != [] ==> !Refuses(now, key, rows)
  {
    hide PassEffect, FairRun, Exec, NoneReturns, Gone, Fair, Apply, ServedOne, Refuses;
    var e := Process(key, p.deleteOn, rows, p.arrivals(n), false);
    assert Arrived(p.arrivals, e.late);
    RunOn(p, now, es, e);
    CommitEffect(p, now, key, rows, e.late, pruned);
    CommitMoves(now, key, p.deleteOn, rows, e.late);
    NoNewKeys(now, key, p.deleteOn, rows, e.late);
    AheadStill(p.arrivals, n, n, now, Apply(now, e));
    TransactionServes(p, now, key, rows, e.late);
  }

  // ------------------------------------------------------------------------------------------
  // What a pass rolls up
  // ------------------------------------------------------------------------------------------

  /** Whatever was rolled up still is. */
  ghost predicate Onward(before: Db, after: Db) {
    forall rows, key :: RolledUp(before, rows, key) ==> RolledUp(after, rows, key)
  }

  /** The readings of all other printer-days are still there, unaltered. */
  ghost predicate OthersStay(before: map<nat, Reading>, after: map<nat, Reading>, key: Key) {
    forall id :: id in before && KeyOf(before[id]) != key ==> id in after && after[id] == before[id]
  }

  ghost predicate AllStay(before: map<nat, Reading>, after: map<nat, Reading>) {
    forall id :: id in before ==> id in after && after[id] == before[id]
  }

  /** A day not pruned before gets a row that counts exactly the readings its snapshot saw. */
  ghost predicate CountedAnew(before: Db, after: Db, key: Key) {
    IdsOf(before.readings, key) != {} && !(key in before.rollups && before.rollups[key].pruned) ==>
      key in after.rollups && after.rollups[key].fields.count == |IdsOf(before.readings, key)|
  }

  /**
   * One printer-day served: every reading its snapshot saw is rolled up, and with deletion on none of
   * those the pass has seen is left; nothing else goes, and nothing rolled up is lost.
   */
  ghost predicate ServedOne(p: Pass, before: Db, after: Db, key: Key) {
    && RolledUp(after, DayRows(before.readings, key), key)
    && CountedAnew(before, after, key)
    && (p.deleteOn ==> Gone(p.seen, after.readings, key))
    && OthersStay(before.readings, after.readings, key)
    && NoneReturns(p.seen, before.readings, after.readings)
    && Onward(before, after)
  }

  lemma StepOnward(db: Db, e: Event)
    requires Fair(db, e)
    ensures Onward(db, Apply(db, e))
  {
    hide Fair, Apply, RolledUp;
    forall rows, key | RolledUp(db, rows, key) ensures RolledUp(Apply(db, e), rows, key) {
      StepKeepsRolledUp(db, e, rows, key);
    }
  }

  lemma OthersStayOnward(db: Db, key: Key, deleteOn: bool, rows: seq<Raw>, late: map<nat, Reading>)
    requires Fair(db, Process(key, deleteOn, rows, late, false))
    ensures OthersStay(db.readings, Apply(db, Process(key, deleteOn, rows, late, false)).readings, key)
  {
    hide Refuses, Upserted;
  }

  /** The transaction, and then what others insert. */
  lemma ServedThenArrives(p: Pass, before: Db, middle: Db, after: Db, key: Key)
    requires ServedOne(p, before, middle, key)
    requires AllStay(middle.readings, after.readings) && NoneReturns(p.seen, middle.readings, after.readings)
    requires Onward(middle, after) && after.rollups == middle.rollups
    ensures ServedOne(p, before, after, key)
  {
    hide RolledUp, Gone, NoneReturns;
    NoneReturnsOnward(p.seen, before.readings, middle.readings, after.readings);
    if p.deleteOn {
      GoneStays(p.seen, middle.readings, after.readings, key);
    }
  }

  lemma TransactionCounts(before: Db, key: Key, deleteOn: bool, rows: seq<Raw>, late: map<nat, Reading>)
    requires Fair(before, Process(key, deleteOn, rows, late, false))
    requires rows != [] ==> !Refuses(before, key, rows)
    ensures CountedAnew(before, Apply(before, Process(key, deleteOn, rows, late, false)), key)
  {
    SnapshotCount(before.readings, key, rows);
    if rows != [] {
      CountsOfUpserted(Lookup(before.rollups, key), rows);
    } else {
      assert Ids(rows) == {};
    }
    hide Upserted, Ids;
  }

  lemma TransactionServes(p: Pass, before: Db, key: Key, rows: seq<Raw>, late: map<nat, Reading>)
    requires Fair(before, Process(key, p.deleteOn, rows, late, false))
    requires rows != [] ==> !Refuses(before, key, rows)
    requires var after := Apply(before, Process(key, p.deleteOn, rows, late, false));
             NoneReturns(p.seen, before.readings, after.readings) && (p.deleteOn ==> Gone(p.seen, after.readings, key))
    ensures ServedOne(p, before, Apply(before, Process(key, p.deleteOn, rows, late, false)), key)
  {
    hide Fair, Apply, RolledUp, Gone, NoneReturns, Onward, OthersStay, Refuses, CountedAnew;
    var e := Process(key, p.deleteOn, rows, late, false);
    TransactionCounts(before, key, p.deleteOn, rows, late);
    StepRollsUp(before, e);
    StepOnward(before, e);
    OthersStayOnward(before, key, p.deleteOn, rows, late);
  }

  // ------------------------------------------------------------------------------------------
  // One day of a pass
  // ------------------------------------------------------------------------------------------

  /** The seen readings from this day on are still there. */
  ghost predicate Present(seen: map<nat, Reading>, now: map<nat, Reading>, day: Day) {
    forall id :: id in seen && DayOf(seen[id].ts) >= day ==> id in now && now[id] == seen[id]
  }

  ghost predicate Spared(before: map<nat, Reading>, now: map<nat, Reading>, day: Day, done: set<PrinterId>) {
    forall id :: id in before && !(DayOf(before[id].ts) == day && before[id].printer in done) ==>
      id in now && now[id] == before[id]
  }

  ghost predicate AllRolledUp(seen: map<nat, Reading>, now: Db, day: Day, printers: set<PrinterId>) {
    forall printer :: printer in printers ==> RolledUp(now, DayRows(seen, Key(printer, day)), Key(printer, day))
  }

  /** Where a day stands after some of its printers were served. */
  ghost predicate DayInv(p: Pass, first: Db, now: Db, day: Day, done: set<PrinterId>) {
    && AllRolledUp(p.seen, now, day, done)
    && (p.deleteOn ==> AllGone(p.seen, now.readings, day, done))
    && Spared(first.readings, now.readings, day, done)
    && NoneReturns(p.seen, first.readings, now.readings)
    && Onward(first, now)
  }

  lemma DayBegins(p: Pass, first: Db, now: Db, day: Day)
    requires AllStay(first.readings, now.readings) && NoneReturns(p.seen, first.readings, now.readings) && Onward(first, now)
    ensures DayInv(p, first, now, day, {})
  {
  }

  lemma SeenIsInSnapshot(seen: map<nat, Reading>, first: map<nat, Reading>, now: map<nat, Reading>, day: Day,
                         done: set<PrinterId>, printer: PrinterId)
    requires Present(seen, first, day) && Spared(first, now, day, done) && printer !in done
    ensures DayRows(seen, Key(printer, day)) <= DayRows(now, Key(printer, day))
  {
    var key := Key(printer, day);
    forall id | id in IdsOf(seen, key) ensures id in IdsOf(now, key) && now[id] == seen[id] {
    }
  }

  lemma SparedOnward(first: map<nat, Reading>, now: map<nat, Reading>, after: map<nat, Reading>, day: Day,
                     done: set<PrinterId>, printer: PrinterId)
    requires Spared(first, now, day, done) && OthersStay(now, after, Key(printer, day))
    ensures Spared(first, after, day, done + {printer})
  {
  }

  /** One more printer. */
  lemma DayGoesOn(p: Pass, first: Db, now: Db, after: Db, day: Day, done: set<PrinterId>, printer: PrinterId)
    requires DayInv(p, first, now, day, done) && Present(p.seen, first.readings, day) && printer !in done
    requires ServedOne(p, now, after, Key(printer, day))
    ensures DayInv(p, first, after, day, done + {printer})
  {
    var key := Key(printer, day);
    SeenIsInSnapshot(p.seen, first.readings, now.readings, day, done, printer);
    SparedOnward(first.readings, now.readings, after.readings, day, done, printer);
    hide Present, Spared, OthersStay, RolledUp, Gone, NoneReturns, DayRows;
    RolledUpFewer(after, DayRows(now.readings, key), DayRows(p.seen, key), key);
    NoneReturnsOnward(p.seen, first.readings, now.readings, after.readings);
    if p.deleteOn {
      forall q | q in done ensures Gone(p.seen, after.readings, Key(q, day)) {
        GoneStays(p.seen, now.readings, after.readings, Key(q, day));
      }
    }
  }

  /** Undisturbed, a pass leaves nothing it had not seen, so what is left of the backlog is the backlog. */
  lemma {:induction false} QuietRun(p: Pass, es: seq<Event>)
    requires forall e :: e in es ==> InPass(p, e)
    requires forall n :: p.arrivals(n) == map[]
    ensures Exec(p.start, es).readings.Keys <= p.start.readings.Keys
    decreases |es|
  {
    hide Committed;
    if es != [] {
      var before, e := es[..|es| - 1], es[|es| - 1];
      QuietRun(p, before);
      assert InPass(p, e);
      OnlyGo(Exec(p.start, before), e);
    }
  }

  lemma OnlyGo(db: Db, e: Event)
    requires if e.Insert? then e.more == map[] else e.late == map[]
    ensures Apply(db, e).readings.Keys <= db.readings.Keys
  {
    hide Upserted, Refuses;
  }

  lemma QuietPass(p: Pass, now: Db, es: seq<Event>, n: nat, pruned: nat)
    requires OnTrack(p, now, es, n, pruned) && p.seen == p.start.readings
    requires forall m :: p.arrivals(m) == map[]
    ensures Left(p.seen, now.readings) == now.readings
  {
    hide Exec, FairRun;
    QuietRun(p, es);
  }

  /** The first day of a pass: the oldest reading's, or past the watermark when nothing is deleted. */
  function StartDay(oldest: Time, watermark: Option<Day>, deleteOn: bool): Day {
    if deleteOn || watermark.None? || watermark.value + 1 <= DayOf(oldest) then DayOf(oldest) else watermark.value + 1
  }

  ghost predicate IsOldest(readings: map<nat, Reading>, oldest: Time) {
    && (exists id :: id in readings && readings[id].ts == oldest)
    && (forall id :: id in readings ==> oldest <= readings[id].ts)
  }

  method IdList(rows: seq<Raw>) returns (ids: seq<nat>)
    ensures |ids| == |rows|
    ensures (set id | id in ids) == Ids(rows)
  {
    ids := seq(|rows|, i requires 0 <= i < |rows| => rows[i].id);
    forall r | r in rows ensures r.id in ids {
      var i :| 0 <= i < |rows| && rows[i] == r;
      assert ids[i] == r.id;
    }
  }

  /** Every reading seen on these days is rolled up. */
  ghost predicate DaysRolledUp(seen: map<nat, Reading>, now: Db, start: Day, next: Day) {
    forall key: Key :: start <= key.day < next ==> RolledUp(now, DayRows(seen, key), key)
  }

  /** On each of these days fewer printers reported than the budget has units. */
  ghost predicate DaysFit(seen: map<nat, Reading>, start: Day, next: Day, budget: nat) {
    forall day :: start <= day < next ==> |PrintersOn(seen, day)| < budget
  }

  /**
   * Where the loop over days stands: days before `day` are complete, and `complete` is false once a
   * day ran out of budget.
   */
  ghost predicate PassInv(p: Pass, now: Db, start: Day, day: Day, budget: nat, used: nat, pruned: nat, complete: bool) {
    && used <= budget && start <= day <= p.cutoff
    && DaysRolledUp(p.seen, now, start, day)
    && DaysFit(p.seen, start, day, budget)
    && (complete ==> Present(p.seen, now.readings, day))
    && (day == start && complete ==> used == 0)
    && (day == start && !complete ==> |PrintersOn(p.seen, start)| >= budget)
    && (!complete ==> used == budget)
    && (day == start && budget == 1 ==> pruned == 0)
    && (day == start && complete ==> now.readings == p.seen)
    && ((day > start || !complete) && p.deleteOn && budget >= 2 && PrintersOn(p.seen, start) != {} ==>
          Cleared(p.seen, now.readings, p.cutoff))
  }

  lemma FirstCleared(seen: map<nat, Reading>, now: map<nat, Reading>, cutoff: Day, day: Day, printer: PrinterId)
    requires day < cutoff && printer in PrintersOn(seen, day) && Gone(seen, now, Key(printer, day))
    ensures Cleared(seen, now, cutoff)
  {
    var id :| id in seen && DayOf(seen[id].ts) == day && seen[id].printer == printer;
    assert KeyOf(seen[id]) == Key(printer, day) && Key(printer, day) in Backlog(seen, cutoff);
  }

  lemma DayRolledUp(p: Pass, first: Db, now: Db, start: Day, day: Day, done: set<PrinterId>)
    requires DaysRolledUp(p.seen, first, start, day) && Present(p.seen, first.readings, day)
    requires DayInv(p, first, now, day, done) && done == PrintersOn(first.readings, day)
    ensures DaysRolledUp(p.seen, now, start, day + 1)
  {
    hide RolledUp;
    forall key: Key | start <= key.day < day + 1 ensures RolledUp(now, DayRows(p.seen, key), key) {
      if key.day < day {
        assert RolledUp(first, DayRows(p.seen, key), key);
      } else if key.printer in done {
        assert RolledUp(now, DayRows(p.seen, Key(key.printer, day)), Key(key.printer, day));
      } else {
        assert IdsOf(p.seen, key) == {};
        NothingToRollUp(now, DayRows(p.seen, key), key);
      }
    }
  }

  lemma DayFits(p: Pass, first: Db, day: Day, budget: nat)
    requires Present(p.seen, first.readings, day) && |PrintersOn(first.readings, day)| < budget
    ensures |PrintersOn(p.seen, day)| < budget
  {
    assert PrintersOn(p.seen, day) <= PrintersOn(first.readings, day);
    SubsetSize(PrintersOn(p.seen, day), PrintersOn(first.readings, day));
  }

  lemma SubsetSize<T>(a: set<T>, b: set<T>)
    requires a <= b
    ensures |a| <= |b|
  {
    assert |b| == |a| + |b - a|;
  }

  lemma PresentNext(seen: map<nat, Reading>, first: map<nat, Reading>, now: map<nat, Reading>, day: Day, done: set<PrinterId>)
    requires Present(seen, first, day) && Spared(first, now, day, done)
    ensures Present(seen, now, day + 1)
  {
  }

  lemma DayCleared(p: Pass, first: Db, now: Db, start: Day, day: Day, done: set<PrinterId>)
    requires DayInv(p, first, now, day, done) && p.deleteOn && day < p.cutoff
    requires start <= day && (day == start ==> done <= PrintersOn(p.seen, start) && done != {})
    requires day > start ==> Cleared(p.seen, first.readings, p.cutoff)
    ensures Cleared(p.seen, now.readings, p.cutoff)
  {
    hide Cleared, Gone;
    if day == start {
      var printer :| printer in done;
      FirstCleared(p.seen, now.readings, p.cutoff, day, printer);
    } else {
      ClearedStays(p.seen, first.readings, now.readings, p.cutoff);
    }
  }

  lemma OnwardDays(p: Pass, first: Db, now: Db, start: Day, day: Day)
    requires DaysRolledUp(p.seen, first, start, day) && Onward(first, now)
    ensures DaysRolledUp(p.seen, now, start, day)
  {
    hide RolledUp;
  }

  /** One more day, all of its printers or as many as the budget had left. */
  lemma DayDone(p: Pass, first: Db, now: Db, start: Day, day: Day, budget: nat, spent: nat, used: nat,
                before: nat, pruned: nat, complete: bool, done: set<PrinterId>)
    requires PassInv(p, first, start, day, budget, spent, before, true) && day < p.cutoff && spent < budget
    requires done <= PrintersOn(first.readings, day) && used == spent + 1 + |done| <= budget
    requires (complete <==> done == PrintersOn(first.readings, day)) && (!complete ==> used == budget)
    requires done == {} ==> pruned == before
    requires DayInv(p, first, now, day, done)
    ensures PassInv(p, now, start, if complete then day + 1 else day, budget, used, pruned, complete)
  {
    hide RolledUp, Gone, NoneReturns, AllRolledUp, AllGone;
    var all := PrintersOn(first.readings, day);
    assert |all| == |done| + |all - done|;
    assert !complete ==> all - done != {};
    assert Spared(first.readings, now.readings, day, done) && Onward(first, now);
    hide DayInv, PrintersOn, Cleared;
    if complete {
      DayRolledUp(p, first, now, start, day, done);
      DayFits(p, first, day, budget);
      PresentNext(p.seen, first.readings, now.readings, day, done);
    } else {
      OnwardDays(p, first, now, start, day);
    }
    if p.deleteOn && budget >= 2 && PrintersOn(p.seen, start) != {} {
      assert day == start ==> done != {};
      DayCleared(p, first, now, start, day, done);
    }
  }

  /** What the end of the loop means for the backlog. */
  lemma PassOutcome(p: Pass, now: Db, start: Day, day: Day, budget: nat, used: nat, pruned: nat, complete: bool)
    requires PassInv(p, now, start, day, budget, used, pruned, complete)
    requires start < p.cutoff && budget >= 1 && (complete ==> day >= p.cutoff || used >= budget)
    ensures day > start <==> |PrintersOn(p.seen, start)| < budget
    ensures day == p.cutoff || used == budget
    ensures p.deleteOn && budget >= 2 && PrintersOn(p.seen, start) != {} ==>
      Backlog(Left(p.seen, now.readings), p.cutoff) < Backlog(p.seen, p.cutoff)
    ensures p.deleteOn && budget == 1 && PrintersOn(p.seen, start) != {} ==> pruned == 0
  {
    hide DaysRolledUp, Present, Cleared, Backlog, Left, PrintersOn;
    BacklogShrinks(p.seen, now.readings, p.cutoff);
    assert day > start ==> |PrintersOn(p.seen, start)| < budget;
    if budget == 1 && day > start {
      NoPrinters(PrintersOn(p.seen, start));
    }
  }

  lemma NoPrinters(printers: set<PrinterId>)
    requires |printers| < 1
    ensures printers == {}
  {
  }

  // ------------------------------------------------------------------------------------------
  // The job
  // ------------------------------------------------------------------------------------------

  /** One cycle of the worker: its clock, the settings it loads, and what others commit meanwhile. */
  datatype Job = Job(now: Time, rawDays: Option<int>, maxBatches: Option<int>, rollupOn: bool, deleteOn: bool, arrivals: Arrivals) {
    function Cutoff(): Day {
      CutoffDay(now, rawDays)
    }

    function Limit(): nat {
      Budget(maxBatches)
    }
  }

  datatype World = World(db: Db, watermark: Option<Day>)

  /** The store a job may find: counts as every run leaves them, and arrivals that are new. */
  ghost predicate Ready(job: Job, before: World) {
    CountsOk(before.db.rollups) && before.db.readings.Keys !! before.db.deleted.Keys && Ahead(job.arrivals, 0, before.db)
  }

  ghost predicate StartsAt(deleteOn: bool, before: World, start: Day) {
    exists oldest :: IsOldest(before.db.readings, oldest) && start == StartDay(oldest, before.watermark, deleteOn)
  }

  /** Rolling up is switched off, there is no reading, or none from a day the job may touch. */
  ghost predicate NothingToDo(job: Job, before: World) {
    !job.rollupOn || before.db.readings == map[] || exists start :: StartsAt(job.deleteOn, before, start) && start >= job.Cutoff()
  }

  function PassOf(job: Job, before: World): Pass {
    Pass(before.db, before.db.readings + job.arrivals(0), job.Cutoff(), job.deleteOn, job.arrivals)
  }

  /** The watermark after days up to `next` are complete: never back, and no further than they. */
  function Advanced(watermark: Option<Day>, start: Day, next: Day): Option<Day> {
    if next == start || (watermark.Some? && watermark.value >= next - 1) then watermark else Some(next - 1)
  }

  /**
   * A pass from `start` that completed the days before `next`, amid inserts of other sessions:
   * - it is one run of fair transactions and arrivals, in which only old readings go, each counted,
   *   none is lost, and with deletion off none goes;
   * - every reading the first scan saw on a completed day is rolled up;
   * - it ends at the cutoff or when the budget is spent, and completes its first day iff the budget
   *   exceeds the printers the first scan saw on it;
   * - deleting, it makes a nonempty backlog strictly smaller, or does nothing if the budget is one.
   */
  ghost predicate PassDone(job: Job, before: World, after: World, start: Day, next: Day, used: nat, pruned: nat, es: seq<Event>) {
    var p, limit := PassOf(job, before), job.Limit();
    && start < p.cutoff && StartsAt(job.deleteOn, before, start)
    && start <= next <= p.cutoff && used <= limit && (next == p.cutoff || used == limit)
    && OnTrack(p, after.db, es, 2 * used + 1, pruned)
    && DaysRolledUp(p.seen, after.db, start, next)
    && DaysFit(p.seen, start, next, limit)
    && (next > start <==> |PrintersOn(p.seen, start)| < limit)
    && after.watermark == Advanced(before.watermark, start, next)
    && (job.deleteOn && limit >= 2 ==> Backlog(Left(p.seen, after.db.readings), p.cutoff) < Backlog(p.seen, p.cutoff))
    && (job.deleteOn && limit == 1 ==> pruned == 0)
  }

  /** One run of the job, from a store it may find. */
  ghost predicate Cycle(job: Job, before: World, after: World) {
    && Ready(job, before)
    && if NothingToDo(job, before) then after == before
       else job.rollupOn && exists start, next, used, pruned, es :: PassDone(job, before, after, start, next, used, pruned, es)
  }

  lemma PassBegins(p: Pass)
    requires CountsOk(p.start.rollups) && p.start.readings.Keys !! p.start.deleted.Keys && Ahead(p.arrivals, 0, p.start)
    requires p.seen == p.start.readings + p.arrivals(0)
    ensures OnTrack(p, p.start.(readings := p.seen), [Insert(p.arrivals(0))], 1, 0)
  {
    var e := Insert(p.arrivals(0));
    assert Arrived(p.arrivals, e.more);
    RunOn(p, p.start, [], e);
    assert [] + [e] == [e];
    AheadStill(p.arrivals, 0, 0, p.start, Apply(p.start, e));
  }

  lemma FirstDayHasPrinters(p: Pass, first: Day, oldest: Time)
    requires IsOldest(p.start.readings, oldest) && Ahead(p.arrivals, 0, p.start)
    requires p.seen == p.start.readings + p.arrivals(0)
    ensures first == DayOf(oldest) ==> PrintersOn(p.seen, first) != {}
  {
    var id :| id in p.start.readings && p.start.readings[id].ts == oldest;
    assert p.seen[id] == p.start.readings[id];
    assert first == DayOf(oldest) ==> p.seen[id].printer in PrintersOn(p.seen, first);
  }

  lemma StartsThere(deleteOn: bool, before: World, oldest: Time)
    requires IsOldest(before.db.readings, oldest)
    ensures StartsAt(deleteOn, before, StartDay(oldest, before.watermark, deleteOn))
  {
  }

  lemma StartsOnce(deleteOn: bool, before: World, start: Day)
    requires StartsAt(deleteOn, before, start)
    ensures before.db.readings != map[] && forall other :: StartsAt(deleteOn, before, other) ==> other == start
  {
    var oldest :| IsOldest(before.db.readings, oldest) && start == StartDay(oldest, before.watermark, deleteOn);
    forall other | StartsAt(deleteOn, before, other) ensures other == start {
      var also :| IsOldest(before.db.readings, also) && other == StartDay(also, before.watermark, deleteOn);
      assert oldest <= also && also <= oldest;
    }
  }

  lemma PassInvMeans(p: Pass, now: Db, start: Day, day: Day, budget: nat, used: nat, pruned: nat, complete: bool)
    requires PassInv(p, now, start, day, budget, used, pruned, complete)
    ensures DaysRolledUp(p.seen, now, start, day) && DaysFit(p.seen, start, day, budget)
    ensures start <= day <= p.cutoff && used <= budget
  {
    hide DaysRolledUp, DaysFit, Cleared, Present;
  }

  lemma LoopBegins(p: Pass, now: Db, start: Day, budget: nat)
    requires now.readings == p.seen && start <= p.cutoff
    ensures PassInv(p, now, start, start, budget, 0, 0, true)
  {
  }

  class Store {
    var readings: map<nat, Reading>
    var rollups: map<Key, DayRow>
    var watermark: Option<Day>
    ghost var deleted: map<nat, Reading>

    constructor ()
      ensures Snapshot() == EMPTY && watermark == None
    {
      readings, rollups, watermark, deleted := map[], map[], None, map[];
    }

    ghost function Snapshot(): Db
      reads this
    {
      Db(readings, rollups, deleted)
    }

    /** `DELETE ... WHERE id IN (...)`, a bounded number of ids at a time. */
    method DeleteByIds(ids: seq<nat>)
      modifies this`readings
      ensures readings == old(readings) - set id | id in ids
    {
      var i := 0;
      while i < |ids|
        invariant 0 <= i <= |ids|
        invariant readings == old(readings) - set id | id in ids[..i]
      {
        var end := if i + DELETE_CHUNK <= |ids| then i + DELETE_CHUNK else |ids|;
        var chunk := ids[i..end];
        readings := readings - (set id | id in chunk);
        assert ids[..end] == ids[..i] + chunk;
        i := end;
      }
      assert ids[..i] == ids;
    }

    predicate IsPruned(key: Key)
      reads this`rollups
    {
      key in rollups && rollups[key].pruned
    }

    /**
     * The row the transaction writes.  A day that still has all its readings gets a row that describes
     * exactly those selected; a pruned day's row keeps describing what it stood for, and these as well.
     */
    method Upsert(key: Key, fields: Fields, ghost rows: seq<Raw>) returns (row: DayRow)
      requires rows != [] && InTimeOrder(rows) && fields == Summary(rows)
      ensures row == Upserted(Lookup(rollups, key), rows)
      ensures row.pruned == IsPruned(key)
      ensures row.fields.count == |rows| + if IsPruned(key) then rollups[key].fields.count else 0
      ensures !IsPruned(key) ==> Describes(row.fields, RowSet(rows))
      ensures IsPruned(key) ==>
        forall xs :: Describes(rollups[key].fields, xs) ==> Describes(row.fields, xs + RowSet(rows))
    {
      hide Describes, Summary, Merged, RowSet;
      SummaryDescribes(rows);
      CountsOfUpserted(Lookup(rollups, key), rows);
      if key !in rollups {
        row := DayRow(fields, false);
      } else if rollups[key].pruned {
        var merged := Merge(rollups[key].fields, fields);
        row := rollups[key].(fields := merged);
        forall xs | Describes(rollups[key].fields, xs) ensures Describes(merged, xs + RowSet(rows)) {
          MergedDescribes(rollups[key].fields, fields, xs, RowSet(rows));
        }
      } else {
        row := rollups[key].(fields := fields);
      }
    }

    /**
     * One printer-day.  `late` is what other sessions commit after the snapshot; a crash is a
     * transaction that ends without its commit.
     */
    method ProcessPrinterDay(key: Key, deleteOn: bool, late: map<nat, Reading>, crash: bool)
      returns (rolled: nat, pruned: nat, ghost rows: seq<Raw>)
      requires late.Keys !! readings.Keys && late.Keys !! deleted.Keys
      modifies this`readings, this`rollups, this`deleted
      ensures Fair(old(Snapshot()), Process(key, deleteOn, rows, late, crash))
      ensures Snapshot() == Apply(old(Snapshot()), Process(key, deleteOn, rows, late, crash))
      ensures !crash && !(deleteOn && rows != [] && Refuses(old(Snapshot()), key, rows)) ==> rolled == |rows|
      ensures pruned == if deleteOn then rolled else 0
    {
      var selected := SelectDay(readings, key);
      rows := selected;
      var fields := Aggregate(selected);
      readings := readings + late;
      if crash || fields.None? {
        return 0, 0, rows;
      }
      rolled, pruned := Commit(key, deleteOn, selected, fields.value);
    }

    method Commit(key: Key, deleteOn: bool, rows: seq<Raw>, fields: Fields) returns (rolled: nat, pruned: nat)
      requires rows != [] && InTimeOrder(rows) && fields == Summary(rows)
      modifies this`readings, this`rollups, this`deleted
      ensures Snapshot() == Committed(old(Snapshot()), key, deleteOn, rows)
      ensures rolled == if deleteOn && Refuses(old(Snapshot()), key, rows) then 0 else |rows|
      ensures pruned == if deleteOn then rolled else 0
    {
      var row := Upsert(key, fields, rows);
      pruned := 0;
      if deleteOn {
        var ids := IdList(rows);
        if row.fields.count < |ids| {
          return 0, 0;
        }
        row := row.(pruned := true);
        deleted := deleted + Picked(readings, Ids(rows));
        DeleteByIds(ids);
        pruned := |ids|;
      }
      rollups := rollups[key := row];
      rolled := |rows|;
    }

    /** One printer of a day, and what others commit during its transaction and after it. */
    method ServePrinter(key: Key, deleteOn: bool, arrivals: Arrivals, used: nat, ghost p: Pass, ghost es: seq<Event>,
                        ghost prunedBefore: nat)
      returns (pruned: nat, ghost more: seq<Event>)
      requires p.arrivals == arrivals && p.deleteOn == deleteOn && key.day < p.cutoff
      requires OnTrack(p, Snapshot(), es, 2 * used + 1, prunedBefore)
      modifies this`readings, this`rollups, this`deleted
      ensures OnTrack(p, Snapshot(), more, 2 * (used + 1) + 1, prunedBefore + pruned)
      ensures ServedOne(p, old(Snapshot()), Snapshot(), key)
    {
      hide ServedOne, NoneReturns, AllStay, Onward, Apply, PassEffect, FairRun, Exec, Fair;
      ghost var before := Snapshot();
      ghost var rows;
      var rolled;
      rolled, pruned, rows := ProcessPrinterDay(key, deleteOn, arrivals(2 * used + 1), false);
      ghost var e := Process(key, deleteOn, rows, arrivals(2 * used + 1), false);
      Serves(p, before, es, 2 * used + 1, prunedBefore, key, rows);
      ghost var middle := Snapshot();
      readings := readings + arrivals(2 * used + 2);
      Arrives(p, middle, es + [e], 2 * used + 2, 2 * used + 2, prunedBefore + pruned);
      more := es + [e] + [Insert(arrivals(2 * used + 2))];
      ServedThenArrives(p, before, middle, Snapshot(), key);
    }

    /** The watermark covers the day afterwards, and the least it can while never moving back. */
    method WriteWatermark(day: Day)
      modifies this`watermark
      ensures watermark.Some? && watermark.value >= day
      ensures old(watermark).Some? ==> watermark.value >= old(watermark).value
      ensures watermark == Some(day) || watermark == old(watermark)
    {
      if watermark.None? || watermark.value < day {
        watermark := Some(day);
      }
    }

    /** `SELECT MIN(ts)`. */
    method OldestTs() returns (oldest: Option<Time>)
      ensures oldest.None? <==> readings == map[]
      ensures oldest.Some? ==> IsOldest(readings, oldest.value)
    {
      oldest := None;
      var rest := readings.Keys;
      while rest != {}
        invariant rest <= readings.Keys
        invariant oldest.None? <==> rest == readings.Keys
        invariant oldest.Some? ==> exists id :: id in readings && readings[id].ts == oldest.value
        invariant oldest.Some? ==> forall id :: id in readings && id !in rest ==> oldest.value <= readings[id].ts
        decreases rest
      {
        var id :| id in rest;
        if oldest.None? || readings[id].ts < oldest.value {
          oldest := Some(readings[id].ts);
        }
        rest := rest - {id};
      }
    }

    /** The scan of a day, a unit of work of its own, and what others commit after it. */
    method ScanDay(day: Day, arrivals: Arrivals, spent: nat, ghost p: Pass, ghost es: seq<Event>, ghost pruned: nat)
      returns (printers: set<PrinterId>, ghost more: seq<Event>)
      requires p.arrivals == arrivals && OnTrack(p, Snapshot(), es, 2 * spent + 1, pruned)
      modifies this`readings
      ensures printers == PrintersOn(old(readings), day)
      ensures OnTrack(p, Snapshot(), more, 2 * (spent + 1) + 1, pruned)
      ensures DayInv(p, old(Snapshot()), Snapshot(), day, {})
    {
      hide OnTrack, NoneReturns, AllStay, Onward, DayInv;
      printers := PrintersOn(readings, day);
      ghost var first := Snapshot();
      Arrives(p, first, es, 2 * spent + 1, 2 * (spent + 1), pruned);
      more := es + [Insert(arrivals(2 * (spent + 1)))];
      readings := readings + arrivals(2 * (spent + 1));
      DayBegins(p, first, Snapshot(), day);
    }

    method ServeNext(printer: PrinterId, day: Day, deleteOn: bool, arrivals: Arrivals, used: nat, ghost p: Pass,
                     ghost es: seq<Event>, ghost prunedBefore: nat, ghost first: Db, ghost done: set<PrinterId>)
      returns (pruned: nat, ghost more: seq<Event>)
      requires p.arrivals == arrivals && p.deleteOn == deleteOn && day < p.cutoff && printer !in done
      requires OnTrack(p, Snapshot(), es, 2 * used + 1, prunedBefore)
      requires DayInv(p, first, Snapshot(), day, done) && Present(p.seen, first.readings, day)
      modifies this`readings, this`rollups, this`deleted
      ensures OnTrack(p, Snapshot(), more, 2 * (used + 1) + 1, prunedBefore + pruned)
      ensures DayInv(p, first, Snapshot(), day, done + {printer})
    {
      hide OnTrack, DayInv, ServedOne, Present;
      ghost var now := Snapshot();
      pruned, more := ServePrinter(Key(printer, day), deleteOn, arrivals, used, p, es, prunedBefore);
      DayGoesOn(p, first, now, Snapshot(), day, done, printer);
    }

    /** The printers of a day, in no particular order, while the budget lasts. */
    method ServeAll(printers: set<PrinterId>, day: Day, deleteOn: bool, budget: nat, arrivals: Arrivals, spent: nat,
                    ghost p: Pass, ghost es: seq<Event>, ghost prunedBefore: nat, ghost first: Db)
      returns (used: nat, complete: bool, pruned: nat, ghost done: set<PrinterId>, ghost more: seq<Event>)
      requires p.arrivals == arrivals && p.deleteOn == deleteOn && day < p.cutoff && spent <= budget
      requires OnTrack(p, Snapshot(), es, 2 * spent + 1, prunedBefore)
      requires DayInv(p, first, Snapshot(), day, {}) && Present(p.seen, first.readings, day)
      modifies this`readings, this`rollups, this`deleted
      ensures OnTrack(p, Snapshot(), more, 2 * used + 1, prunedBefore + pruned)
      ensures done <= printers && used == spent + |done| <= budget
      ensures complete <==> done == printers
      ensures !complete ==> used == budget
      ensures done == {} ==> pruned == 0
      ensures DayInv(p, first, Snapshot(), day, done)
    {
      hide OnTrack, DayInv, Present, Snapshot;
      var todo := printers;
      used, complete, pruned, more := spent, true, 0, es;
      assert printers - todo == {};
      while todo != {}
        invariant todo <= printers
        invariant OnTrack(p, Snapshot(), more, 2 * used + 1, prunedBefore + pruned)
        invariant used == spent + |printers| - |todo| <= budget
        invariant complete
        invariant todo == printers ==> pruned == 0
        invariant DayInv(p, first, Snapshot(), day, printers - todo)
        decreases todo
      {
        if used >= budget {
          complete := false;
          break;
        }
        var printer :| printer in todo;
        ghost var served := printers - todo;
        var gone;
        gone, more := ServeNext(printer, day, deleteOn, arrivals, used, p, more, prunedBefore + pruned, first, served);
        todo := todo - {printer};
        assert printers - todo == served + {printer};
        used, pruned := used + 1, pruned + gone;
      }
      done := printers - todo;
      assert |printers| == |todo| + |done|;
    }

    /** One day of a pass: the scan, then its printers. */
    method RunDay(day: Day, deleteOn: bool, budget: nat, arrivals: Arrivals, spent: nat, ghost p: Pass, ghost es: seq<Event>,
                  ghost prunedBefore: nat)
      returns (used: nat, complete: bool, pruned: nat, ghost done: set<PrinterId>, ghost more: seq<Event>)
      requires p.arrivals == arrivals && p.deleteOn == deleteOn && day < p.cutoff && spent < budget
      requires OnTrack(p, Snapshot(), es, 2 * spent + 1, prunedBefore) && Present(p.seen, readings, day)
      modifies this`readings, this`rollups, this`deleted
      ensures OnTrack(p, Snapshot(), more, 2 * used + 1, prunedBefore + pruned)
      ensures done <= PrintersOn(old(readings), day) && used == spent + 1 + |done| <= budget
      ensures complete <==> done == PrintersOn(old(readings), day)
      ensures !complete ==> used == budget
      ensures done == {} ==> pruned == 0
      ensures DayInv(p, old(Snapshot()), Snapshot(), day, done)
    {
      hide OnTrack, DayInv, PrintersOn, Present;
      ghost var first := Snapshot();
      var printers;
      printers, more := ScanDay(day, arrivals, spent, p, es, prunedBefore);
      used, complete, pruned, done, more :=
        ServeAll(printers, day, deleteOn, budget, arrivals, spent + 1, p, more, prunedBefore, first);
    }

    method NextDay(day: Day, deleteOn: bool, budget: nat, arrivals: Arrivals, spent: nat, prunedBefore: nat,
                   ghost start: Day, ghost p: Pass, ghost es: seq<Event>)
      returns (used: nat, complete: bool, pruned: nat, ghost more: seq<Event>)
      requires p.arrivals == arrivals && p.deleteOn == deleteOn && day < p.cutoff && spent < budget
      requires OnTrack(p, Snapshot(), es, 2 * spent + 1, prunedBefore)
      requires PassInv(p, Snapshot(), start, day, budget, spent, prunedBefore, true)
      modifies this`readings, this`rollups, this`deleted
      ensures OnTrack(p, Snapshot(), more, 2 * used + 1, pruned)
      ensures PassInv(p, Snapshot(), start, if complete then day + 1 else day, budget, used, pruned, complete)
    {
      hide OnTrack, DayInv, Present, PrintersOn, DaysRolledUp, DaysFit, Cleared;
      ghost var first := Snapshot();
      assert first.readings == readings && Present(p.seen, readings, day);
      hide PassInv, Snapshot;
      ghost var done;
      used, complete, pruned, done, more := RunDay(day, deleteOn, budget, arrivals, spent, p, es, prunedBefore);
      pruned := prunedBefore + pruned;
      DayDone(p, first, Snapshot(), start, day, budget, spent, used, prunedBefore, pruned, complete, done);
    }

    /** The loop over days; it stops at the cutoff, at the end of the budget, or at an incomplete day. */
    method PassDays(start: Day, cutoff: Day, deleteOn: bool, budget: nat, arrivals: Arrivals, ghost p: Pass, ghost before: seq<Event>)
      returns (used: nat, pruned: nat, last: Option<Day>, ghost next: Day, ghost complete: bool, ghost es: seq<Event>)
      requires p.arrivals == arrivals && p.deleteOn == deleteOn && p.cutoff == cutoff && p.seen == readings && start < cutoff
      requires OnTrack(p, Snapshot(), before, 1, 0)
      modifies this`readings, this`rollups, this`deleted
      ensures OnTrack(p, Snapshot(), es, 2 * used + 1, pruned)
      ensures PassInv(p, Snapshot(), start, next, budget, used, pruned, complete)
      ensures complete ==> next >= cutoff || used >= budget
      ensures last == if next == start then None else Some(next - 1)
    {
      hide OnTrack, PassInv;
      used, pruned, last, es, complete := 0, 0, None, before, true;
      LoopBegins(p, Snapshot(), start, budget);
      var day := start;
      while day < cutoff && used < budget
        invariant OnTrack(p, Snapshot(), es, 2 * used + 1, pruned)
        invariant PassInv(p, Snapshot(), start, day, budget, used, pruned, true)
        invariant last == if day == start then None else Some(day - 1)
        invariant complete
        decreases cutoff - day
      {
        var served;
        used, served, pruned, es := NextDay(day, deleteOn, budget, arrivals, used, pruned, start, p, es);
        complete := served;
        if !served {
          break;
        }
        last := Some(day);
        day := day + 1;
      }
      next := day;
    }

    ghost function State(): World
      reads this
    {
      World(Snapshot(), watermark)
    }

    /** A pass with something to do. */
    method PassFromDay(job: Job, start: Day, ghost before: World)
      returns (used: nat, pruned: nat, ghost next: Day, ghost es: seq<Event>)
      requires before == State() && start < job.Cutoff() && StartsAt(job.deleteOn, before, start)
      requires OnTrack(PassOf(job, before), before.db.(readings := PassOf(job, before).seen), [Insert(job.arrivals(0))], 1, 0)
      requires job.deleteOn ==> PrintersOn(PassOf(job, before).seen, start) != {}
      modifies this
      ensures PassDone(job, before, State(), start, next, used, pruned, es)
    {
      hide OnTrack, PassInv, StartsAt, Backlog, Left, PrintersOn, DaysRolledUp, DaysFit;
      ghost var p := PassOf(job, before);
      var cutoff, budget := job.Cutoff(), job.Limit();
      readings := readings + job.arrivals(0);
      var last;
      ghost var complete;
      used, pruned, last, next, complete, es :=
        PassDays(start, cutoff, job.deleteOn, budget, job.arrivals, p, [Insert(job.arrivals(0))]);
      PassOutcome(p, Snapshot(), start, next, budget, used, pruned, complete);
      PassInvMeans(p, Snapshot(), start, next, budget, used, pruned, complete);
      if last.Some? {
        WriteWatermark(last.value);
      }
    }

    /**
     * The worker job.  `start` is the first day of the pass, if there is one to do; `used` is the
     * budget spent and `pruned` the number of readings deleted.
     */
    method RollUpReadings(job: Job) returns (start: Option<Day>, used: nat, pruned: nat, ghost next: Day, ghost es: seq<Event>)
      requires Ready(job, State())
      modifies this
      ensures Cycle(job, old(State()), State())
      ensures start.None? <==> NothingToDo(job, old(State()))
      ensures start.None? ==> State() == old(State()) && used == pruned == 0
      ensures start.Some? ==> job.rollupOn && PassDone(job, old(State()), State(), start.value, next, used, pruned, es)
    {
      hide OnTrack, Ahead, CountsOk, IsOldest, PassDone, PrintersOn, StartsAt;
      start, used, pruned, next, es := None, 0, 0, 0, [];
      if !job.rollupOn {
        return;
      }
      var oldest := OldestTs();
      if oldest.None? {
        return;
      }
      var first := StartDay(oldest.value, watermark, job.deleteOn);
      StartsThere(job.deleteOn, State(), oldest.value);
      StartsOnce(job.deleteOn, State(), first);
      if first >= job.Cutoff() {
        return;
      }
      start := Some(first);
      ghost var p := PassOf(job, State());
      PassBegins(p);
      FirstDayHasPrinters(p, first, oldest.value);
      used, pruned, next, es := PassFromDay(job, first, State());
    }
  }
}
