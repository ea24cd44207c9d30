/**
 * Billable pages from cumulative meters (central/queries.py, `positive_delta` and `period_meters`).
 * A printer's history is its readings in (ts, id) order, the order every query here asks for.
 */
module Meters {
  import opened Options
  import opened Rollup

  // ------------------------------------------------------------------------------------------
  // positive_delta
  // ------------------------------------------------------------------------------------------

  /** The values a series reports, silence left out. */
  function Reported(values: seq<Option<int>>): seq<int> {
    if values == [] then []
    else
      Reported(values[..|values| - 1])
      + match values[|values| - 1] case None => [] case Some(v) => [v]
  }

  function Rise(from: int, to: int): nat {
    if to > from then to - from else 0
  }

  /** The upward steps of a series; a fall (a reset, a swapped device) counts nothing. */
  function Rises(series: seq<int>): nat {
    if |series| < 2 then 0
    else Rises(series[..|series| - 1]) + Rise(series[|series| - 2], series[|series| - 1])
  }

  function Delta(values: seq<Option<int>>): nat {
    Rises(Reported(values))
  }

  lemma RisesAppend(series: seq<int>, value: int)
    ensures Rises(series + [value]) == Rises(series) + if series == [] then 0 else Rise(series[|series| - 1], value)
  {
  }

  method PositiveDelta(values: seq<Option<int>>) returns (total: nat)
    ensures total == Delta(values)
  {
    total := 0;
    var prev := None;
    for i := 0 to |values|
      invariant total == Delta(values[..i])
      invariant prev == var r := Reported(values[..i]); if r == [] then None else Some(r[|r| - 1])
    {
      assert values[..i + 1][..i] == values[..i];
      ghost var before := Reported(values[..i]);
      if values[i].Some? {
        var value := values[i].value;
        assert Reported(values[..i + 1]) == before + [value];
        RisesAppend(before, value);
        if prev.Some? && value > prev.value {
          total := total + (value - prev.value);
        }
        prev := Some(value);
      } else {
        assert Reported(values[..i + 1]) == before;
      }
    }
    assert values[..|values|] == values;
  }

  lemma {:induction false} RisesConcat(a: seq<int>, b: seq<int>)
    requires a != []
    ensures Rises(a + b) == Rises(a) + Rises([a[|a| - 1]] + b)
  {
    var c := [a[|a| - 1]] + b;
    if b == [] {
      assert a + b == a;
    } else {
      var rest := b[..|b| - 1];
      RisesConcat(a, rest);
      assert (a + b)[..|a + b| - 1] == a + rest;
      assert c[..|c| - 1] == [a[|a| - 1]] + rest;
    }
  }

  lemma {:induction false} ReportedConcat(a: seq<Option<int>>, b: seq<Option<int>>)
    ensures Reported(a + b) == Reported(a) + Reported(b)
  {
    if b == [] {
      assert a + b == a;
    } else {
      ReportedConcat(a, b[..|b| - 1]);
      assert (a + b)[..|a + b| - 1] == a + b[..|b| - 1];
    }
  }

  lemma {:induction false} LastReported(values: seq<Option<int>>)
    ensures LastSome(values) == var r := Reported(values); if r == [] then None else Some(r[|r| - 1])
  {
    if values != [] {
      LastReported(values[..|values| - 1]);
    }
  }

  /** A meter that never falls is billed its total advance, however often it was polled. */
  lemma {:induction false} NoResetNoLoss(series: seq<int>)
    requires series != [] && forall i, j :: 0 <= i < j < |series| ==> series[i] <= series[j]
    ensures Rises(series) == series[|series| - 1] - series[0]
  {
    if |series| > 1 {
      NoResetNoLoss(series[..|series| - 1]);
    }
  }

  // ------------------------------------------------------------------------------------------
  // period_meters
  // ------------------------------------------------------------------------------------------

  /** `ts >= start AND ts < end`, in order. */
  function Within(history: seq<Raw>, start: Time, end: Time): seq<Raw> {
    if history == [] then []
    else
      var last := history[|history| - 1];
      Within(history[..|history| - 1], start, end) + if start <= last.ts < end then [last] else []
  }

  function Earlier(history: seq<Raw>, end: Time): seq<Raw> {
    if history == [] then []
    else
      var last := history[|history| - 1];
      Earlier(history[..|history| - 1], end) + if last.ts < end then [last] else []
  }

  /** The meter's last report before the period opened. */
  function Baseline(history: seq<Raw>, k: nat, start: Time): Option<int>
    requires k < METERS
  {
    LastSome(Column(Earlier(history, start), k))
  }

  /** One meter over one period: unknown when silent inside it, else its advance from the baseline. */
  function Period(history: seq<Raw>, k: nat, start: Time, end: Time): Option<nat>
    requires k < METERS
  {
    var values := Column(Within(history, start, end), k);
    if Reported(values) == [] then None
    else
      var baseline := Baseline(history, k, start);
      Some(Delta(if baseline.None? then values else [baseline] + values))
  }

  /** `all(v is None for v in values)`. */
  method AllSilent(values: seq<Option<int>>) returns (silent: bool)
    ensures silent <==> Reported(values) == []
  {
    silent := true;
    for i := 0 to |values|
      invariant silent <==> Reported(values[..i]) == []
    {
      assert values[..i + 1][..i] == values[..i];
      if values[i].Some? {
        silent := false;
      }
    }
    assert values[..|values|] == values;
  }

  method PeriodMeters(history: seq<Raw>, start: Time, end: Time) returns (out: seq<Option<nat>>)
    ensures |out| == METERS && forall k :: 0 <= k < METERS ==> out[k] == Period(history, k, start, end)
  {
    var rows := Within(history, start, end);
    out := [];
    for k := 0 to METERS
      invariant |out| == k
      invariant forall j :: 0 <= j < k ==> out[j] == Period(history, j, start, end)
    {
      var values := Column(rows, k);
      var silent := AllSilent(values);
      if silent {
        out := out + [None];
      } else {
        var baseline := Baseline(history, k, start);
        var pages := PositiveDelta(if baseline.None? then values else [baseline] + values);
        out := out + [Some(pages)];
      }
    }
  }

  // ------------------------------------------------------------------------------------------
  // Periods tile
  // ------------------------------------------------------------------------------------------

  lemma {:induction false} NothingEarlier(history: seq<Raw>, start: Time, end: Time)
    requires forall r :: r in history ==> r.ts < start <= end
    ensures Within(history, start, end) == [] && Earlier(history, start) == Earlier(history, end) == history
  {
    if history != [] {
      NothingEarlier(history[..|history| - 1], start, end);
    }
  }

  /** What is before the end of a period is what was before its start, then what is inside it. */
  lemma {:induction false} EarlierSplits(history: seq<Raw>, start: Time, end: Time)
    requires InTimeOrder(history) && start <= end
    ensures Earlier(history, end) == Earlier(history, start) + Within(history, start, end)
  {
    if history != [] {
      var rest, last := history[..|history| - 1], history[|history| - 1];
      EarlierSplits(rest, start, end);
      if last.ts < start {
        NothingEarlier(rest, start, end);
      }
    }
  }

  /** Seeding a series with the last report before it loses no step between the two. */
  lemma SeededDelta(before: seq<Option<int>>, inside: seq<Option<int>>)
    ensures Reported(inside) == [] ==> Delta(before + inside) == Delta(before)
    ensures Reported(inside) != [] ==>
      Delta(before + inside)
      == Delta(before) + Delta(if LastSome(before).None? then inside else [LastSome(before)] + inside)
  {
    ReportedConcat(before, inside);
    LastReported(before);
    var a, b := Reported(before), Reported(inside);
    if a == [] {
      assert a + b == b;
    } else {
      RisesConcat(a, b);
      ReportedConcat([LastSome(before)], inside);
      assert [LastSome(before)][..0] == [];
      assert Reported([LastSome(before)]) == [a[|a| - 1]];
      assert b == [] ==> a + b == a;
    }
  }

  lemma ColumnConcat(a: seq<Raw>, b: seq<Raw>, k: nat)
    requires k < METERS
    ensures Column(a + b, k) == Column(a, k) + Column(b, k)
  {
  }

  /** One period bills exactly the advance of the meter's lifetime total across it. */
  lemma PeriodIsAdvance(history: seq<Raw>, k: nat, start: Time, end: Time)
    requires k < METERS && InTimeOrder(history) && start <= end
    ensures Delta(Column(Earlier(history, end), k))
         == Delta(Column(Earlier(history, start), k)) + GetOr(Period(history, k, start, end), 0)
  {
    hide Earlier, Within, InTimeOrder, Column, Delta, LastSome, Reported;
    var before, inside := Earlier(history, start), Within(history, start, end);
    EarlierSplits(history, start, end);
    ColumnConcat(before, inside, k);
    SeededDelta(Column(before, k), Column(inside, k));
  }

  // ------------------------------------------------------------------------------------------
  // One period in plain terms: what each reading adds to it
  // ------------------------------------------------------------------------------------------

  lemma {:induction false} NoReports(rows: seq<Raw>, k: nat)
    requires k < METERS && forall r :: r in rows ==> r.meters[k].None?
    ensures Reported(Column(rows, k)) == []
  {
    if rows != [] {
      var rest := rows[..|rows| - 1];
      NoReports(rest, k);
      assert Column(rows, k)[..|rows| - 1] == Column(rest, k);
      assert rows[|rows| - 1] in rows;
    }
  }

  lemma {:induction false} WithinInside(history: seq<Raw>, start: Time, end: Time)
    ensures forall r :: r in Within(history, start, end) ==> r in history && start <= r.ts < end
  {
    if history != [] {
      var rest, last := history[..|history| - 1], history[|history| - 1];
      WithinInside(rest, start, end);
      assert history == rest + [last];
    }
  }

  lemma {:induction false} EarlierAreRows(history: seq<Raw>, end: Time)
    ensures forall r :: r in Earlier(history, end) ==> r in history
  {
    if history != [] {
      var rest, last := history[..|history| - 1], history[|history| - 1];
      EarlierAreRows(rest, end);
      assert history == rest + [last];
    }
  }

  lemma {:induction false} LastReportIs(rows: seq<Raw>, k: nat, i: nat)
    requires k < METERS && i < |rows| && rows[i].meters[k].Some?
    requires forall j :: i < j < |rows| ==> rows[j].meters[k].None?
    ensures LastSome(Column(rows, k)) == rows[i].meters[k]
  {
    if i < |rows| - 1 {
      var rest := rows[..|rows| - 1];
      LastReportIs(rest, k, i);
      assert Column(rows, k)[..|rows| - 1] == Column(rest, k);
    }
  }

  lemma WithinOneMore(history: seq<Raw>, r: Raw, start: Time, end: Time)
    ensures Within(history + [r], start, end)
         == if start <= r.ts < end then Within(history, start, end) + [r] else Within(history, start, end)
    ensures Earlier(history + [r], start) == if r.ts < start then Earlier(history, start) + [r] else Earlier(history, start)
  {
    assert (history + [r])[..|history|] == history;
  }

  lemma ReportedOneMore(rows: seq<Raw>, r: Raw, k: nat)
    requires k < METERS
    ensures Reported(Column(rows + [r], k))
         == var before := Reported(Column(rows, k));
            if r.meters[k].Some? then before + [r.meters[k].value] else before
  {
    ColumnConcat(rows, [r], k);
    ReportedConcat(Column(rows, k), Column([r], k));
    assert Column([r], k)[..0] == [];
    assert Column([r], k) == [r.meters[k]];
  }

  /** A reading at the period's end or later, or silent about the meter, changes nothing. */
  lemma OutsideAddsNothing(history: seq<Raw>, r: Raw, k: nat, start: Time, end: Time)
    requires k < METERS && start <= end && (r.ts >= end || r.meters[k].None?)
    ensures Period(history + [r], k, start, end) == Period(history, k, start, end)
  {
    WithinOneMore(history, r, start, end);
    hide Within, Earlier, Column, LastSome, Reported, Rises;
    var inside := Within(history, start, end);
    ReportedOneMore(inside, r, k);
    ColumnConcat(inside, [r], k);
    ColumnConcat(Earlier(history, start), [r], k);
    ReportedOneMore(Earlier(history, start), r, k);
    LastReported(Column(Earlier(history, start), k));
    LastReported(Column(Earlier(history + [r], start), k));
    var baseline := Baseline(history, k, start);
    ReportedConcat([baseline], Column(inside, k));
    ReportedConcat([baseline], Column(inside + [r], k));
  }

  /** As long as nothing of the period itself was reported, the meter is unknown, not 0. */
  lemma SilentIsUnknown(history: seq<Raw>, k: nat, start: Time, end: Time)
    requires k < METERS
    requires forall i :: 0 <= i < |history| && start <= history[i].ts < end ==> history[i].meters[k].None?
    ensures Period(history, k, start, end).None?
  {
    WithinInside(history, start, end);
    NoReports(Within(history, start, end), k);
  }

  /** A meter's very first report bills nothing. */
  lemma FirstReportBillsNothing(history: seq<Raw>, r: Raw, k: nat, start: Time, end: Time)
    requires k < METERS && start <= r.ts < end && r.meters[k].Some?
    requires forall i :: 0 <= i < |history| ==> history[i].meters[k].None?
    ensures Period(history + [r], k, start, end) == Some(0)
  {
    WithinOneMore(history, r, start, end);
    hide Within, Earlier, Column, LastSome;
    var inside := Within(history, start, end);
    WithinInside(history, start, end);
    NoReports(inside, k);
    ReportedOneMore(inside, r, k);
    EarlierAreRows(history, start);
    NoReports(Earlier(history, start), k);
    LastReported(Column(Earlier(history, start), k));
  }

  lemma RowsBefore(history: seq<Raw>, r: Raw)
    requires InTimeOrder(history + [r])
    ensures InTimeOrder(history) && forall x :: x in history ==> x.ts <= r.ts
  {
    var more := history + [r];
    assert forall n :: 0 <= n < |history| ==> more[n] == history[n];
    assert more[|history|] == r;
  }

  lemma RiseSince(history: seq<Raw>, r: Raw, k: nat, i: nat)
    requires k < METERS && r.meters[k].Some?
    requires i < |history| && history[i].meters[k].Some?
    requires forall j :: i < j < |history| ==> history[j].meters[k].None?
    ensures Delta(Column(history + [r], k))
         == Delta(Column(history, k)) + Rise(history[i].meters[k].value, r.meters[k].value)
  {
    ReportedOneMore(history, r, k);
    LastReportIs(history, k, i);
    LastReported(Column(history, k));
    hide Column, Reported, LastSome;
    RisesAppend(Reported(Column(history, k)), r.meters[k].value);
  }

  /**
   * A report from the period's first instant on, and before its end, bills what the meter rose since its
   * last report, the i-th reading, be that inside the period or before it; a fall bills nothing.
   */
  lemma ReportBillsTheRise(history: seq<Raw>, r: Raw, k: nat, start: Time, end: Time, i: nat)
    requires k < METERS && InTimeOrder(history + [r]) && start <= r.ts < end && r.meters[k].Some?
    requires i < |history| && history[i].meters[k].Some?
    requires forall j :: i < j < |history| ==> history[j].meters[k].None?
    ensures Period(history + [r], k, start, end)
         == var step := r.meters[k].value - history[i].meters[k].value;
            Some(GetOr(Period(history, k, start, end), 0) + if step > 0 then step else 0)
  {
    hide Within, Earlier, Column, LastSome, Reported, Rises, Delta, InTimeOrder;
    RowsBefore(history, r);
    NothingEarlier(history, end, end);
    WithinOneMore(history, r, start, end);
    WithinOneMore(history, r, end, end);
    ReportedOneMore(Within(history, start, end), r, k);
    RiseSince(history, r, k, i);
    PeriodIsAdvance(history, k, start, end);
    PeriodIsAdvance(history + [r], k, start, end);
  }

  /** The sum over consecutive periods, unknown as 0. */
  function Billed(history: seq<Raw>, k: nat, cuts: seq<Time>): nat
    requires k < METERS
  {
    if |cuts| < 2 then 0
    else
      Billed(history, k, cuts[..|cuts| - 1])
      + GetOr(Period(history, k, cuts[|cuts| - 2], cuts[|cuts| - 1]), 0)
  }

  /**
   * Consecutive periods add up: across resets, missing polls and silent periods nothing is billed
   * twice and nothing falls between two periods.
   */
  lemma {:induction false} PeriodsTile(history: seq<Raw>, k: nat, cuts: seq<Time>)
    requires k < METERS && InTimeOrder(history) && cuts != []
    requires forall i, j :: 0 <= i < j < |cuts| ==> cuts[i] <= cuts[j]
    ensures Billed(history, k, cuts)
         == Delta(Column(Earlier(history, cuts[|cuts| - 1]), k)) - Delta(Column(Earlier(history, cuts[0]), k))
  {
    if |cuts| > 1 {
      PeriodsTile(history, k, cuts[..|cuts| - 1]);
      PeriodIsAdvance(history, k, cuts[|cuts| - 2], cuts[|cuts| - 1]);
    }
  }
}
