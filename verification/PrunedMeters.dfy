/**
 * Billing after retention: invoices read raw readings only (central/queries.py, `_meter_rows` and
 * `_meter_baseline`), and retention deletes those.  A period whose baseline went is billed without its
 * first step.
 */
module PrunedMeters {
  import opened Options
  import opened Rollup
  import opened Retention
  import opened RetentionPass
  import opened RetentionCycles
  import opened Meters
  import opened Invoicing
  import opened InvoiceRuns

  // ------------------------------------------------------------------------------------------
  // What is left of a history
  // ------------------------------------------------------------------------------------------

  function Since(history: seq<Raw>, cut: Time): seq<Raw> {
    if history == [] then []
    else
      var last := history[|history| - 1];
      Since(history[..|history| - 1], cut) + if last.ts >= cut then [last] else []
  }

  function Later(a: Time, b: Time): Time {
    if a > b then a else b
  }

  lemma {:induction false} SinceWithin(history: seq<Raw>, cut: Time, start: Time, end: Time)
    ensures Within(Since(history, cut), start, end) == Within(history, Later(start, cut), end)
    ensures Earlier(Since(history, cut), end) == Within(history, cut, end)
  {
    if history != [] {
      var rest, last := history[..|history| - 1], history[|history| - 1];
      SinceWithin(rest, cut, start, end);
      if last.ts >= cut {
        OneMore(Since(rest, cut), last, start, end);
      } else {
        assert Since(history, cut) == Since(rest, cut);
      }
    }
  }

  lemma {:induction false} SinceMembers(history: seq<Raw>, cut: Time)
    ensures forall r :: r in Since(history, cut) <==> r in history && r.ts >= cut
  {
    if history != [] {
      var rest, last := history[..|history| - 1], history[|history| - 1];
      SinceMembers(rest, cut);
      assert forall r :: r in history <==> r in rest || r == last;
    }
  }

  lemma {:induction false} SinceInOrder(history: seq<Raw>, cut: Time)
    requires InOrder(history)
    ensures InOrder(Since(history, cut))
  {
    if history != [] {
      var rest, last := history[..|history| - 1], history[|history| - 1];
      SinceInOrder(rest, cut);
      SinceMembers(rest, cut);
      var kept := Since(rest, cut);
      forall i | 0 <= i < |kept| ensures Before(kept[i], last) {
        assert kept[i] in rest;
      }
    }
  }

  /** The history billing reads: all of one printer's raw readings, in order. */
  ghost predicate IsHistory(readings: map<nat, Retention.Reading>, printer: PrinterId, history: seq<Raw>) {
    && InOrder(history)
    && (forall r :: r in history ==> r.id in readings && readings[r.id].printer == printer && r == RawOf(r.id, readings[r.id]))
    && (forall id :: id in readings && readings[id].printer == printer ==> RawOf(id, readings[id]) in history)
  }

  /** Old readings left and no backlog is: billing sees the history from the cutoff on. */
  lemma DrainedHistory(before: map<nat, Retention.Reading>, after: map<nat, Retention.Reading>, cutoff: Day, printer: PrinterId,
                       history: seq<Raw>)
    requires OnlyOldLeave(before, after, cutoff) && Backlog(after, cutoff) == {}
    requires IsHistory(before, printer, history)
    ensures IsHistory(after, printer, Since(history, cutoff * DAY_SECONDS))
  {
    var cut := cutoff * DAY_SECONDS;
    SinceMembers(history, cut);
    SinceInOrder(history, cut);
    forall id | id in after ensures before[id] == after[id] && after[id].ts >= cut {
      assert KeyOf(after[id]) !in Backlog(after, cutoff);
    }
    forall r | r in Since(history, cut) ensures r.id in after {
      assert DayOf(before[r.id].ts) >= cutoff;
    }
  }

  /** Cycle after cycle with deletion on, a budget of at least two and nothing inserted, that is what is left. */
  lemma CyclesPruneHistory(jobs: seq<Job>, worlds: seq<World>, cutoff: Day, limit: nat, printer: PrinterId, history: seq<Raw>)
    requires Cycles(jobs, worlds) && Steady(jobs, cutoff, limit, true) && limit >= 2
    requires |jobs| >= |Backlog(worlds[0].db.readings, cutoff)|
    requires IsHistory(worlds[0].db.readings, printer, history)
    ensures IsHistory(End(worlds).db.readings, printer, Since(history, cutoff * DAY_SECONDS))
  {
    hide Cycle, Steady, Backlog, OnlyOldLeave, IsHistory;
    BacklogGoesDown(jobs, worlds, cutoff, limit);
    DrainedHistory(worlds[0].db.readings, End(worlds).db.readings, cutoff, printer, history);
  }

  // ------------------------------------------------------------------------------------------
  // What a period forgets
  // ------------------------------------------------------------------------------------------

  predicate Silent(history: seq<Raw>, k: nat, start: Time, end: Time)
    requires k < METERS
  {
    Reported(Column(Within(history, start, end), k)) == []
  }

  function FirstInside(history: seq<Raw>, k: nat, start: Time, end: Time): int
    requires k < METERS && !Silent(history, k, start, end)
  {
    Reported(Column(Within(history, start, end), k))[0]
  }

  /** The step into the period, from a report before the cut that no report before the period replaces. */
  function Forgotten(history: seq<Raw>, k: nat, cut: Time, start: Time, end: Time): nat
    requires k < METERS
  {
    var past := Baseline(history, k, cut);
    if Silent(history, k, start, end) || !Silent(history, k, cut, start) || past.None? then 0
    else Rise(past.value, FirstInside(history, k, start, end))
  }

  lemma {:induction false} RisesSeeded(baseline: int, reports: seq<int>)
    requires reports != []
    ensures Rises([baseline] + reports) == Rise(baseline, reports[0]) + Rises(reports)
  {
    var n := |reports| - 1;
    var series := [baseline] + reports;
    if n > 0 {
      RisesSeeded(baseline, reports[..n]);
      assert series[..n + 1] == [baseline] + reports[..n];
    }
  }

  lemma SeedRise(baseline: int, values: seq<Option<int>>)
    requires Reported(values) != []
    ensures Delta([Some(baseline)] + values) == Rise(baseline, Reported(values)[0]) + Delta(values)
  {
    hide Rises, Rise;
    ReportedConcat([Some(baseline)], values);
    ReportedOne(Some(baseline));
    hide Reported;
    RisesSeeded(baseline, Reported(values));
  }

  lemma BaselineSplits(history: seq<Raw>, k: nat, cut: Time, start: Time)
    requires k < METERS && InTimeOrder(history) && cut <= start
    ensures Baseline(history, k, start) == Prefer(LastSome(Column(Within(history, cut, start), k)), Baseline(history, k, cut))
  {
    hide InTimeOrder, Within, Earlier, Column, LastSome;
    EarlierSplits(history, cut, start);
    ColumnConcat(Earlier(history, cut), Within(history, cut, start), k);
    LastSomeConcat(Column(Earlier(history, cut), k), Column(Within(history, cut, start), k));
  }

  /** Once the readings before a cut are gone, a later period knows as much and bills less by the forgotten step. */
  lemma PrunedPeriodIs(history: seq<Raw>, k: nat, cut: Time, start: Time, end: Time)
    requires k < METERS && InTimeOrder(history) && cut <= start
    ensures Period(Since(history, cut), k, start, end).None? <==> Period(history, k, start, end).None?
    ensures GetOr(Period(history, k, start, end), 0)
         == GetOr(Period(Since(history, cut), k, start, end), 0) + Forgotten(history, k, cut, start, end)
  {
    hide InTimeOrder, Within, Earlier, Since, Column, Delta, Reported, LastSome;
    SinceWithin(history, cut, start, end);
    SinceWithin(history, cut, start, start);
    BaselineSplits(history, k, cut, start);
    var gap, values := Column(Within(history, cut, start), k), Column(Within(history, start, end), k);
    LastReported(gap);
    if !Silent(history, k, start, end) {
      var past, recent := Baseline(history, k, cut), LastSome(gap);
      if recent.None? && past.Some? {
        SeedRise(past.value, values);
      }
    }
  }

  /**
   * So the period is billed the same iff the meter is silent inside it, or reported between cut and
   * start, or never before the cut, or its first report inside is no larger than its last before.
   */
  lemma PruneKeepsPeriodIff(history: seq<Raw>, k: nat, cut: Time, start: Time, end: Time)
    requires k < METERS && InTimeOrder(history) && cut <= start
    ensures Period(Since(history, cut), k, start, end) == Period(history, k, start, end) <==>
      || Silent(history, k, start, end)
      || !Silent(history, k, cut, start)
      || Baseline(history, k, cut).None?
      || FirstInside(history, k, start, end) <= Baseline(history, k, cut).value
  {
    hide Period, Silent, FirstInside, Baseline, Since, InTimeOrder;
    PrunedPeriodIs(history, k, cut, start, end);
  }

  /** A cut inside the period costs what was billed up to it as well. */
  lemma PrunedInsidePeriod(history: seq<Raw>, k: nat, cut: Time, start: Time, end: Time)
    requires k < METERS && InTimeOrder(history) && start <= cut <= end
    ensures GetOr(Period(history, k, start, end), 0)
         == GetOr(Period(Since(history, cut), k, start, end), 0)
            + GetOr(Period(history, k, start, cut), 0) + Forgotten(history, k, cut, cut, end)
  {
    hide Forgotten, Since, InTimeOrder;
    PrunedPeriodIs(history, k, cut, cut, end);
    PeriodIsAdvance(history, k, start, cut);
    PeriodIsAdvance(history, k, cut, end);
    PeriodIsAdvance(history, k, start, end);
    StartAtCut(history, k, cut, start, end);
  }

  lemma StartAtCut(history: seq<Raw>, k: nat, cut: Time, start: Time, end: Time)
    requires k < METERS && start <= cut
    ensures Period(Since(history, cut), k, start, end) == Period(Since(history, cut), k, cut, end)
  {
    SinceWithin(history, cut, start, end);
    SinceWithin(history, cut, cut, end);
    SinceWithin(history, cut, start, start);
    SinceWithin(history, cut, start, cut);
    NothingWithin(history, cut, start);
    NothingWithin(history, cut, cut);
  }

  lemma {:induction false} NothingWithin(history: seq<Raw>, start: Time, end: Time)
    requires end <= start
    ensures Within(history, start, end) == []
  {
    if history != [] {
      NothingWithin(history[..|history| - 1], start, end);
    }
  }

  // ------------------------------------------------------------------------------------------
  // What an invoice forgets
  // ------------------------------------------------------------------------------------------

  function PrunedPrinter(p: Printer, cut: Time): Printer {
    Printer(p.id, Since(p.history, cut))
  }

  function PrunedPrinters(printers: seq<Printer>, cut: Time): seq<Printer> {
    if printers == [] then [] else PrunedPrinters(printers[..|printers| - 1], cut) + [PrunedPrinter(printers[|printers| - 1], cut)]
  }

  /** The forgotten pages of the meters the printer is billed by. */
  function ForgottenPages(card: RateCard, p: Printer, cut: Time, start: Time, end: Time): nat {
    if card.policy == BillAsMono && Unsplit(p, start, end) then Forgotten(p.history, 0, cut, start, end)
    else Forgotten(p.history, 1, cut, start, end) + Forgotten(p.history, 2, cut, start, end)
  }

  lemma PrunedBilledPages(card: RateCard, p: Printer, cut: Time, start: Time, end: Time)
    requires InTimeOrder(p.history) && cut <= start
    ensures BilledPages(PrinterLines(card, p, start, end))
         == BilledPages(PrinterLines(card, PrunedPrinter(p, cut), start, end)) + ForgottenPages(card, p, cut, start, end)
  {
    hide Period, PrinterLines, InTimeOrder, Since, Forgotten;
    PrunedPeriodIs(p.history, 0, cut, start, end);
    PrunedPeriodIs(p.history, 1, cut, start, end);
    PrunedPeriodIs(p.history, 2, cut, start, end);
    BilledIs(card, p, start, end);
    BilledIs(card, PrunedPrinter(p, cut), start, end);
  }

  /** An invoice never bills more after a prune, and as many pages iff no printer's billed meters forget a step. */
  lemma {:induction false} PrunedInvoiceIff(card: RateCard, printers: seq<Printer>, cut: Time, start: Time, end: Time)
    requires (forall p :: p in printers ==> InTimeOrder(p.history)) && cut <= start
    ensures var pruned := BilledPages(AllLines(card, PrunedPrinters(printers, cut), start, end));
            && pruned <= BilledPages(AllLines(card, printers, start, end))
            && (pruned == BilledPages(AllLines(card, printers, start, end)) <==>
                  forall p :: p in printers ==> ForgottenPages(card, p, cut, start, end) == 0)
  {
    hide PrinterLines, ForgottenPages, InTimeOrder, PrunedPrinter;
    if printers != [] {
      var rest, last := printers[..|printers| - 1], printers[|printers| - 1];
      assert printers == rest + [last];
      PrunedInvoiceIff(card, rest, cut, start, end);
      PrunedBilledPages(card, last, cut, start, end);
      var left := PrunedPrinters(printers, cut);
      assert left[..|left| - 1] == PrunedPrinters(rest, cut);
      BilledConcat(AllLines(card, rest, start, end), PrinterLines(card, last, start, end));
      BilledConcat(AllLines(card, left[..|left| - 1], start, end), PrinterLines(card, left[|left| - 1], start, end));
    }
  }

  /** 200 mono pages, billed to nobody once the report before the cut is gone. */
  lemma PruningLosesPages()
    ensures InTimeOrder(POLLS)
    ensures Period(POLLS, 1, 20, 30) == Some(200) && Period(Since(POLLS, 20), 1, 20, 30) == Some(0)
  {
    PollPeriods(1);
    PollsInPeriods();
    hide Period, Delta;
    PrunedPeriodIs(POLLS, 1, 20, 20, 30);
    LostStep();
  }

  lemma LostStep()
    ensures Forgotten(POLLS, 1, 20, 20, 30) == 200
  {
    PollsInPeriods();
    NothingWithin(POLLS, 20, 20);
    hide Within, Earlier;
    assert Column([FIRST, SECOND], 1) == [Some(1000), None] && Column([THIRD], 1) == [Some(1200)];
    ReportedOne(Some(1200));
    ReportedTwo(Some(1000), None);
  }
}
