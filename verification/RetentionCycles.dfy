/**
 * The worker job cycle after cycle (central/retention.py, rules 2 and 3 and "Progress marking"): what
 * accumulates with deletion off, how far the watermark gets, and when a backlog drains.
 */
module RetentionCycles {
  import opened Options
  import opened Rollup
  import opened Retention
  import opened RetentionPass

  ghost predicate Cycles(jobs: seq<Job>, worlds: seq<World>) {
    |worlds| == |jobs| + 1 && forall i :: 0 <= i < |jobs| ==> Cycle(jobs[i], worlds[i], worlds[i + 1])
  }

  function End(worlds: seq<World>): World
    requires worlds != []
  {
    worlds[|worlds| - 1]
  }

  lemma FewerCycles(jobs: seq<Job>, worlds: seq<World>)
    requires Cycles(jobs, worlds) && jobs != []
    ensures Cycles(jobs[..|jobs| - 1], worlds[..|worlds| - 1])
    ensures Cycle(jobs[|jobs| - 1], End(worlds[..|worlds| - 1]), End(worlds))
  {
    hide Cycle;
    var n := |jobs| - 1;
    assert Cycle(jobs[n], worlds[n], worlds[n + 1]);
  }

  // ------------------------------------------------------------------------------------------
  // Deletion off: what accumulates
  // ------------------------------------------------------------------------------------------

  predicate Past(watermark: Option<Day>, day: Day) {
    watermark.Some? && day <= watermark.value
  }

  lemma SeenAtOnce(job: Job, before: World, key: Key)
    requires Ready(job, before)
    ensures AllStay(before.db.readings, PassOf(job, before).seen)
    ensures DayRows(before.db.readings, key) <= DayRows(PassOf(job, before).seen, key)
  {
    var seen := PassOf(job, before).seen;
    forall id | id in IdsOf(before.db.readings, key) ensures id in IdsOf(seen, key) && seen[id] == before.db.readings[id] {
    }
  }

  lemma PassKeeps(p: Pass, now: Db, es: seq<Event>, n: nat, pruned: nat)
    requires OnTrack(p, now, es, n, pruned) && !p.deleteOn
    ensures AllStay(p.seen, now.readings)
    ensures forall rows, key :: RolledUp(p.start, rows, key) ==> RolledUp(now, rows, key)
  {
    hide FairRun, Exec, RolledUp;
    forall rows, key | RolledUp(p.start, rows, key) ensures RolledUp(now, rows, key) {
      RunKeepsRolledUp(p.start, es, rows, key);
    }
  }

  lemma StartCovers(deleteOn: bool, before: World, start: Day, key: Key)
    requires StartsAt(deleteOn, before, start) && !deleteOn && !Past(before.watermark, key.day)
    requires IdsOf(before.db.readings, key) != {}
    ensures start <= key.day
  {
    var oldest :| IsOldest(before.db.readings, oldest) && start == StartDay(oldest, before.watermark, deleteOn);
    var id :| id in IdsOf(before.db.readings, key);
    assert oldest <= before.db.readings[id].ts;
  }

  /** One cycle: the days it takes the watermark past are rolled up, and what was rolled up stays so. */
  lemma CycleRollsUp(job: Job, before: World, after: World, key: Key)
    requires Cycle(job, before, after) && !job.deleteOn
    ensures AllStay(before.db.readings, after.db.readings)
    ensures Past(before.watermark, key.day) ==> Past(after.watermark, key.day)
    ensures Past(after.watermark, key.day) && !Past(before.watermark, key.day) ==>
      RolledUp(after.db, DayRows(before.db.readings, key), key)
    ensures forall rows :: RolledUp(before.db, rows, key) ==> RolledUp(after.db, rows, key)
  {
    hide NothingToDo, PassDone, RolledUp, Ready, DayRows, AllStay;
    if !NothingToDo(job, before) {
      var start, next, used, pruned, es :| PassDone(job, before, after, start, next, used, pruned, es);
      PassRollsUp(job, before, after, key, start, next, used, pruned, es);
    } else {
      AllOfItself(before.db.readings);
    }
  }

  lemma AllOfItself(readings: map<nat, Reading>)
    ensures AllStay(readings, readings)
  {
  }

  lemma PassRollsUp(job: Job, before: World, after: World, key: Key, start: Day, next: Day, used: nat, pruned: nat, es: seq<Event>)
    requires Ready(job, before) && PassDone(job, before, after, start, next, used, pruned, es) && !job.deleteOn
    ensures AllStay(before.db.readings, after.db.readings)
    ensures Past(before.watermark, key.day) ==> Past(after.watermark, key.day)
    ensures Past(after.watermark, key.day) && !Past(before.watermark, key.day) ==>
      RolledUp(after.db, DayRows(before.db.readings, key), key)
    ensures forall rows :: RolledUp(before.db, rows, key) ==> RolledUp(after.db, rows, key)
  {
    hide RolledUp, OnTrack, StartsAt, Backlog, Left, DaysFit, PrintersOn, DayRows, Ready, IdsOf, AllStay;
    var p := PassOf(job, before);
    PassKeeps(p, after.db, es, 2 * used + 1, pruned);
    SeenAtOnce(job, before, key);
    AllStayOnward(before.db.readings, p.seen, after.db.readings);
    if Past(after.watermark, key.day) && !Past(before.watermark, key.day) {
      if IdsOf(before.db.readings, key) != {} {
        StartCovers(job.deleteOn, before, start, key);
        RolledUpFewer(after.db, DayRows(p.seen, key), DayRows(before.db.readings, key), key);
      } else {
        NoRows(before.db.readings, key);
        NothingToRollUp(after.db, DayRows(before.db.readings, key), key);
      }
    }
  }

  lemma AllStayOnward(before: map<nat, Reading>, middle: map<nat, Reading>, after: map<nat, Reading>)
    requires AllStay(before, middle) && AllStay(middle, after)
    ensures AllStay(before, after)
  {
  }

  lemma NoRows(readings: map<nat, Reading>, key: Key)
    requires IdsOf(readings, key) == {}
    ensures DayRows(readings, key) == {}
  {
  }

  /** With deletion off no cycle takes a reading away, or the watermark back. */
  lemma {:induction false} CyclesKeep(jobs: seq<Job>, worlds: seq<World>, key: Key)
    requires Cycles(jobs, worlds) && forall job :: job in jobs ==> !job.deleteOn
    ensures AllStay(worlds[0].db.readings, End(worlds).db.readings)
    ensures Past(worlds[0].watermark, key.day) ==> Past(End(worlds).watermark, key.day)
    decreases |jobs|
  {
    hide Cycle, RolledUp;
    if jobs != [] {
      FewerCycles(jobs, worlds);
      CyclesKeep(jobs[..|jobs| - 1], worlds[..|worlds| - 1], key);
      CycleRollsUp(jobs[|jobs| - 1], End(worlds[..|worlds| - 1]), End(worlds), key);
    }
  }

  lemma RowsStay(before: map<nat, Reading>, after: map<nat, Reading>, key: Key)
    requires AllStay(before, after)
    ensures DayRows(before, key) <= DayRows(after, key)
  {
    forall id | id in IdsOf(before, key) ensures id in IdsOf(after, key) && after[id] == before[id] {
    }
  }

  /**
   * The watermark means what it says, over any number of cycles with deletion off and whatever is
   * inserted meanwhile: every reading that is there before the watermark has passed its day is rolled
   * up once it has.
   */
  lemma {:induction false} RolledUpToTheWatermark(jobs: seq<Job>, worlds: seq<World>, key: Key)
    requires Cycles(jobs, worlds) && forall job :: job in jobs ==> !job.deleteOn
    requires !Past(worlds[0].watermark, key.day) && Past(End(worlds).watermark, key.day)
    ensures RolledUp(End(worlds).db, DayRows(worlds[0].db.readings, key), key)
    decreases |jobs|
  {
    hide Cycle, RolledUp, DayRows;
    var n := |jobs| - 1;
    FewerCycles(jobs, worlds);
    var last := worlds[..n + 1];
    CycleRollsUp(jobs[n], End(last), End(worlds), key);
    if Past(End(last).watermark, key.day) {
      RolledUpToTheWatermark(jobs[..n], last, key);
    } else {
      CyclesKeep(jobs[..n], last, key);
      RowsStay(worlds[0].db.readings, End(last).db.readings, key);
      RolledUpFewer(End(worlds).db, DayRows(End(last).db.readings, key), DayRows(worlds[0].db.readings, key), key);
    }
  }

  // ------------------------------------------------------------------------------------------
  // Deletion off, nothing inserted: how far the watermark gets
  // ------------------------------------------------------------------------------------------

  /** Cycles under one setting, in which nothing arrives and no day closes. */
  ghost predicate Steady(jobs: seq<Job>, cutoff: Day, limit: nat, deleteOn: bool) {
    forall job :: job in jobs ==> SteadyJob(job, cutoff, limit, deleteOn)
  }

  ghost predicate SteadyJob(job: Job, cutoff: Day, limit: nat, deleteOn: bool) {
    && job.rollupOn && job.deleteOn == deleteOn && job.Cutoff() == cutoff && job.Limit() == limit
    && forall n :: job.arrivals(n) == map[]
  }

  lemma SeenIsAll(job: Job, before: World)
    requires forall n :: job.arrivals(n) == map[]
    ensures PassOf(job, before).seen == before.db.readings
  {
    assert before.db.readings + map[] == before.db.readings;
  }

  lemma SameReadings(seen: map<nat, Reading>, now: map<nat, Reading>)
    requires AllStay(seen, now) && Left(seen, now) == now
    ensures now == seen
  {
  }

  lemma AdvancedStart(before: World, after: World, at: Day, next: Day)
    requires StartsAt(false, before, at) && after.db.readings == before.db.readings && at <= next
    requires after.watermark == Advanced(before.watermark, at, next)
    ensures StartsAt(false, after, next)
  {
    var oldest :| IsOldest(before.db.readings, oldest) && at == StartDay(oldest, before.watermark, false);
    assert next == StartDay(oldest, after.watermark, false);
  }

  /** One such cycle: the first unrolled day moves on, over days that fit, iff it fits itself. */
  lemma SteadyCycle(job: Job, before: World, after: World, cutoff: Day, limit: nat, at: Day) returns (next: Day)
    requires Cycle(job, before, after) && SteadyJob(job, cutoff, limit, false) && StartsAt(false, before, at)
    ensures after.db.readings == before.db.readings && StartsAt(false, after, next)
    ensures next == at ==> after.watermark == before.watermark
    ensures at >= cutoff ==> next == at
    ensures at < cutoff ==> at <= next <= cutoff && DaysFit(before.db.readings, at, next, limit)
    ensures at < cutoff ==> (next > at <==> |PrintersOn(before.db.readings, at)| < limit)
  {
    hide NothingToDo, PassDone, StartsAt, DaysFit, PrintersOn, Ready;
    next := at;
    if !NothingToDo(job, before) {
      var start, to, used, pruned, es :| PassDone(job, before, after, start, to, used, pruned, es);
      next := to;
      SteadyPass(job, before, after, at, start, next, used, pruned, es);
    } else {
      IdleMeans(job, before, at);
    }
  }

  lemma SteadyPass(job: Job, before: World, after: World, at: Day, start: Day, next: Day, used: nat, pruned: nat, es: seq<Event>)
    requires PassDone(job, before, after, start, next, used, pruned, es) && StartsAt(false, before, at)
    requires !job.deleteOn && forall n :: job.arrivals(n) == map[]
    ensures after.db.readings == before.db.readings && StartsAt(false, after, next)
    ensures next == at ==> after.watermark == before.watermark
    ensures at < job.Cutoff() && at <= next <= job.Cutoff() && DaysFit(before.db.readings, at, next, job.Limit())
    ensures next > at <==> |PrintersOn(before.db.readings, at)| < job.Limit()
  {
    hide DaysRolledUp, StartsAt, Backlog, Left, DaysFit, PrintersOn, OnTrack;
    StartsOnce(false, before, at);
    var p := PassOf(job, before);
    SeenIsAll(job, before);
    PassKeeps(p, after.db, es, 2 * used + 1, pruned);
    QuietPass(p, after.db, es, 2 * used + 1, pruned);
    SameReadings(p.seen, after.db.readings);
    AdvancedStart(before, after, at, next);
  }

  lemma IdleMeans(job: Job, before: World, at: Day)
    requires NothingToDo(job, before) && job.rollupOn && StartsAt(job.deleteOn, before, at)
    ensures at >= job.Cutoff()
  {
    hide StartsAt;
    StartsOnce(job.deleteOn, before, at);
  }

  /**
   * The first unrolled day gets to the first day that does not fit the budget, or to the cutoff if all
   * do; never past it, and at least a day further with each cycle.
   */
  lemma {:induction false} FirstUnrolled(jobs: seq<Job>, worlds: seq<World>, cutoff: Day, limit: nat, at: Day, stop: Day)
    returns (to: Day)
    requires Cycles(jobs, worlds) && Steady(jobs, cutoff, limit, false) && StartsAt(false, worlds[0], at)
    requires at <= stop <= cutoff && DaysFit(worlds[0].db.readings, at, stop, limit)
    requires stop == cutoff || |PrintersOn(worlds[0].db.readings, stop)| >= limit
    ensures End(worlds).db.readings == worlds[0].db.readings && StartsAt(false, End(worlds), to)
    ensures at <= to <= stop && (to == stop || to >= at + |jobs|)
    ensures to == at ==> End(worlds).watermark == worlds[0].watermark
    decreases |jobs|
  {
    hide Cycle, StartsAt, PrintersOn, SteadyJob;
    to := at;
    if jobs != [] {
      var n := |jobs| - 1;
      FewerCycles(jobs, worlds);
      var last := worlds[..n + 1];
      var before := FirstUnrolled(jobs[..n], last, cutoff, limit, at, stop);
      assert jobs[n] in jobs;
      to := SteadyCycle(jobs[n], End(last), End(worlds), cutoff, limit, before);
    }
  }

  lemma {:induction false} FirstOverfull(readings: map<nat, Reading>, at: Day, cutoff: Day, limit: nat) returns (stop: Day)
    requires at <= cutoff
    ensures at <= stop <= cutoff && DaysFit(readings, at, stop, limit)
    ensures stop == cutoff || |PrintersOn(readings, stop)| >= limit
    decreases cutoff - at
  {
    hide PrintersOn;
    stop := at;
    if at < cutoff && |PrintersOn(readings, at)| < limit {
      stop := FirstOverfull(readings, at + 1, cutoff, limit);
    }
  }

  lemma WatermarkAtCutoff(w: World, cutoff: Day, to: Day, at: Day, first: World)
    requires StartsAt(false, first, at) && at < cutoff
    requires w.db.readings == first.db.readings && StartsAt(false, w, to) && to <= cutoff
    ensures w.watermark == Some(cutoff - 1) <==> to == cutoff
  {
    var oldest :| IsOldest(first.db.readings, oldest) && at == StartDay(oldest, first.watermark, false);
    var also :| IsOldest(w.db.readings, also) && to == StartDay(also, w.watermark, false);
    assert oldest <= also && also <= oldest;
  }

  /**
   * Cycle after cycle, given at least one for each day: everything up to the cutoff is rolled up in the
   * end iff on every unrolled day fewer printers reported than the budget has units.
   */
  lemma WatermarkReachesCutoffIff(jobs: seq<Job>, worlds: seq<World>, cutoff: Day, limit: nat, at: Day)
    requires Cycles(jobs, worlds) && Steady(jobs, cutoff, limit, false) && StartsAt(false, worlds[0], at)
    requires at < cutoff && |jobs| >= cutoff - at
    ensures End(worlds).watermark == Some(cutoff - 1) <==> DaysFit(worlds[0].db.readings, at, cutoff, limit)
  {
    hide Cycle, Steady, StartsAt, PrintersOn;
    var stop := FirstOverfull(worlds[0].db.readings, at, cutoff, limit);
    var to := FirstUnrolled(jobs, worlds, cutoff, limit, at, stop);
    WatermarkAtCutoff(End(worlds), cutoff, to, at, worlds[0]);
  }

  /** And what is rolled up by then is exact: each day's row, unless pruned before, counts and describes its readings. */
  lemma SteadyRowsAreExact(jobs: seq<Job>, worlds: seq<World>, cutoff: Day, limit: nat, at: Day, key: Key)
    requires Cycles(jobs, worlds) && Steady(jobs, cutoff, limit, false) && StartsAt(false, worlds[0], at) && at <= cutoff
    requires !Past(worlds[0].watermark, key.day) && Past(End(worlds).watermark, key.day)
    requires IdsOf(worlds[0].db.readings, key) != {}
    ensures key in End(worlds).db.rollups
    ensures var row := End(worlds).db.rollups[key];
            !row.pruned ==>
              && row.fields.count == |IdsOf(worlds[0].db.readings, key)|
              && Describes(row.fields, DayRows(worlds[0].db.readings, key))
              && EndsAre(row.fields, DayRows(worlds[0].db.readings, key))
  {
    hide Cycle, StartsAt, PrintersOn, RolledUp, DayRows, IdsOf, Describes, EndsAre;
    var stop := FirstOverfull(worlds[0].db.readings, at, cutoff, limit);
    var to := FirstUnrolled(jobs, worlds, cutoff, limit, at, stop);
    RolledUpToTheWatermark(jobs, worlds, key);
    RolledUpExactly(End(worlds).db, key);
  }

  /** A first unrolled day with as many printers as the budget has units stops all progress for good. */
  lemma OverfullDayStalls(jobs: seq<Job>, worlds: seq<World>, cutoff: Day, limit: nat, at: Day)
    requires Cycles(jobs, worlds) && Steady(jobs, cutoff, limit, false) && StartsAt(false, worlds[0], at)
    requires at < cutoff && |PrintersOn(worlds[0].db.readings, at)| >= limit
    ensures End(worlds).watermark == worlds[0].watermark
  {
    hide Cycle, Steady, StartsAt, PrintersOn;
    var to := FirstUnrolled(jobs, worlds, cutoff, limit, at, at);
  }

  /** So many printers, each with one reading on day 0. */
  function Fleet(printers: nat): map<nat, Reading> {
    map id: nat | 0 <= id < printers :: Reading(id, 0, [None, None, None], None)
  }

  lemma FleetGrows(n: nat)
    ensures Fleet(n + 1).Keys == Fleet(n).Keys + {n} && n !in Fleet(n)
  {
  }

  lemma {:induction false} FleetSize(n: nat)
    ensures |Fleet(n).Keys| == n
  {
    if n > 0 {
      FleetSize(n - 1);
      FleetGrows(n - 1);
      hide Fleet;
    } else {
      assert Fleet(0).Keys == {};
    }
  }

  lemma FleetPrinters(n: nat)
    ensures |PrintersOn(Fleet(n), 0)| == n
  {
    FleetSize(n);
    forall id | id in Fleet(n) ensures id in PrintersOn(Fleet(n), 0) {
      assert DayOf(Fleet(n)[id].ts) == 0;
    }
    assert PrintersOn(Fleet(n), 0) == Fleet(n).Keys;
  }

  /** 200 printers and the default budget: however often the job runs, no day is ever complete. */
  lemma DefaultBudgetStalls(jobs: seq<Job>, worlds: seq<World>, cutoff: Day)
    requires Cycles(jobs, worlds) && Steady(jobs, cutoff, Budget(None), false) && cutoff > 0
    requires worlds[0] == World(Db(Fleet(200), map[], map[]), None)
    ensures End(worlds).watermark == None
  {
    FleetPrinters(200);
    assert 7 in Fleet(200) && IsOldest(Fleet(200), 0);
    StartsThere(false, worlds[0], 0);
    OverfullDayStalls(jobs, worlds, cutoff, Budget(None), 0);
  }

  // ------------------------------------------------------------------------------------------
  // Deletion on, nothing inserted: whether a backlog drains
  // ------------------------------------------------------------------------------------------

  lemma BacklogIsWork(job: Job, before: World)
    requires job.rollupOn && job.deleteOn && Backlog(before.db.readings, job.Cutoff()) != {}
    ensures !NothingToDo(job, before)
  {
    var key :| key in Backlog(before.db.readings, job.Cutoff());
    var id :| id in before.db.readings && DayOf(before.db.readings[id].ts) < job.Cutoff() && KeyOf(before.db.readings[id]) == key;
    forall start | StartsAt(true, before, start) ensures start < job.Cutoff() {
      var oldest :| IsOldest(before.db.readings, oldest) && start == StartDay(oldest, before.watermark, true);
      assert oldest <= before.db.readings[id].ts;
    }
  }

  lemma SameSize<T>(a: set<T>, b: set<T>)
    requires a <= b && |a| == |b|
    ensures a == b
  {
    assert |b| == |a| + |b - a|;
  }

  lemma NothingDeleted(before: map<nat, Reading>, after: map<nat, Reading>, cutoff: Day)
    requires OldDeleted(before, after, cutoff, 0)
    ensures after.Keys == before.Keys
  {
    assert |before| == |before.Keys| && |after| == |after.Keys|;
    SameSize(before.Keys, after.Keys);
  }

  lemma NothingPruned(p: Pass, now: Db, es: seq<Event>, n: nat)
    requires OnTrack(p, now, es, n, 0) && p.seen.Keys !! p.start.deleted.Keys
    ensures AllStay(p.seen, now.readings)
  {
    hide FairRun, Exec, Ahead, CountsOk, OldDeleted;
    NothingDeleted(p.start.deleted, now.deleted, p.cutoff);
  }

  lemma DrainingCycle(job: Job, before: World, after: World, cutoff: Day, limit: nat)
    requires Cycle(job, before, after) && SteadyJob(job, cutoff, limit, true)
    ensures Backlog(after.db.readings, cutoff) <= Backlog(before.db.readings, cutoff)
    ensures limit >= 2 && Backlog(before.db.readings, cutoff) != {} ==>
      Backlog(after.db.readings, cutoff) < Backlog(before.db.readings, cutoff)
    ensures limit == 1 ==> after.db.readings == before.db.readings
    ensures OnlyOldLeave(before.db.readings, after.db.readings, cutoff)
  {
    hide Backlog, NothingToDo, PassDone, Ready;
    if Backlog(before.db.readings, cutoff) != {} {
      BacklogIsWork(job, before);
    }
    if !NothingToDo(job, before) {
      var start, next, used, pruned, es :| PassDone(job, before, after, start, next, used, pruned, es);
      DrainingPass(job, before, after, start, next, used, pruned, es);
    }
  }

  /** Readings of days before the cutoff leave, and nothing else happens. */
  ghost predicate OnlyOldLeave(before: map<nat, Reading>, after: map<nat, Reading>, cutoff: Day) {
    OnlyOldGo(before, after, cutoff) && after.Keys <= before.Keys
  }

  lemma OldLeave(p: Pass, now: Db, es: seq<Event>, n: nat, pruned: nat)
    requires OnTrack(p, now, es, n, pruned) && Left(p.seen, now.readings) == now.readings
    ensures OnlyOldLeave(p.seen, now.readings, p.cutoff)
  {
    hide FairRun, Exec, Ahead, CountsOk, OldDeleted;
    assert now.readings.Keys == Left(p.seen, now.readings).Keys;
  }

  lemma OldLeaveOnward(before: map<nat, Reading>, middle: map<nat, Reading>, after: map<nat, Reading>, cutoff: Day)
    requires OnlyOldLeave(before, middle, cutoff) && OnlyOldLeave(middle, after, cutoff)
    ensures OnlyOldLeave(before, after, cutoff)
  {
    assert forall id :: id in middle ==> middle[id] == before[id];
  }

  lemma DrainingPass(job: Job, before: World, after: World, start: Day, next: Day, used: nat, pruned: nat, es: seq<Event>)
    requires Ready(job, before) && PassDone(job, before, after, start, next, used, pruned, es)
    requires job.deleteOn && forall n :: job.arrivals(n) == map[]
    ensures Backlog(after.db.readings, job.Cutoff()) <= Backlog(before.db.readings, job.Cutoff())
    ensures job.Limit() >= 2 ==> Backlog(after.db.readings, job.Cutoff()) < Backlog(before.db.readings, job.Cutoff())
    ensures job.Limit() == 1 ==> after.db.readings == before.db.readings
    ensures OnlyOldLeave(before.db.readings, after.db.readings, job.Cutoff())
  {
    hide Backlog, StartsAt, DaysRolledUp, DaysFit, PrintersOn, Left, OnTrack, CountsOk, Ahead;
    var p := PassOf(job, before);
    SeenIsAll(job, before);
    QuietPass(p, after.db, es, 2 * used + 1, pruned);
    OldLeave(p, after.db, es, 2 * used + 1, pruned);
    BacklogShrinks(p.seen, after.db.readings, p.cutoff);
    if job.Limit() == 1 {
      NothingPruned(p, after.db, es, 2 * used + 1);
      SameReadings(p.seen, after.db.readings);
    }
  }

  lemma {:induction false} BacklogGoesDown(jobs: seq<Job>, worlds: seq<World>, cutoff: Day, limit: nat)
    requires Cycles(jobs, worlds) && Steady(jobs, cutoff, limit, true)
    ensures limit >= 2 ==>
      var left := |Backlog(End(worlds).db.readings, cutoff)|;
      left == 0 || left + |jobs| <= |Backlog(worlds[0].db.readings, cutoff)|
    ensures limit == 1 ==> End(worlds).db.readings == worlds[0].db.readings
    ensures OnlyOldLeave(worlds[0].db.readings, End(worlds).db.readings, cutoff)
    decreases |jobs|
  {
    hide Cycle, Backlog, SteadyJob;
    if jobs != [] {
      var n := |jobs| - 1;
      FewerCycles(jobs, worlds);
      var last := worlds[..n + 1];
      BacklogGoesDown(jobs[..n], last, cutoff, limit);
      assert jobs[n] in jobs;
      DrainingCycle(jobs[n], End(last), End(worlds), cutoff, limit);
      Fewer(Backlog(End(worlds).db.readings, cutoff), Backlog(End(last).db.readings, cutoff));
      OldLeaveOnward(worlds[0].db.readings, End(last).db.readings, End(worlds).db.readings, cutoff);
      hide OnlyOldLeave;
    }
  }

  lemma Fewer<T>(a: set<T>, b: set<T>)
    ensures a <= b ==> |a| <= |b|
    ensures a < b ==> |a| < |b|
  {
    if a <= b {
      SubsetSize(a, b);
      assert |b| == |a| + |b - a|;
    }
  }

  /**
   * A backlog of any size drains, within as many cycles as it has printer-days, iff the budget is at
   * least two: a budget of one is spent on the scan.
   */
  lemma BacklogDrainsIff(jobs: seq<Job>, worlds: seq<World>, cutoff: Day, limit: nat)
    requires Cycles(jobs, worlds) && Steady(jobs, cutoff, limit, true) && limit >= 1
    requires Backlog(worlds[0].db.readings, cutoff) != {} && |jobs| >= |Backlog(worlds[0].db.readings, cutoff)|
    ensures Backlog(End(worlds).db.readings, cutoff) == {} <==> limit >= 2
    ensures OnlyOldLeave(worlds[0].db.readings, End(worlds).db.readings, cutoff)
  {
    hide Cycle, Steady, Backlog;
    BacklogGoesDown(jobs, worlds, cutoff, limit);
  }
}
