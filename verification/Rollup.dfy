/**
 * One printer-day collapsed to rollup fields, and a straggler batch folded into them
 * (central/retention.py, `aggregate` and `merge`).
 */
module Rollup {
  import opened Options

  type Time = int

  /** A supply snapshot is carried, never inspected. */
  type Snapshot = string

  /** page_count, mono_count and color_count, in that order (`_METERS`). */
  const METERS: nat := 3

  type Values = v: seq<Option<int>> | |v| == METERS witness [None, None, None]

  datatype Raw = Raw(id: nat, ts: Time, meters: Values, snap: Option<Snapshot>)

  datatype Fields = Fields(
    count: int, firstTs: Time, lastTs: Time, starts: Values, lasts: Values, snap: Option<Snapshot>)

  // ------------------------------------------------------------------------------------------
  // First and last report in a column
  // ------------------------------------------------------------------------------------------

  function Prefer<T>(a: Option<T>, b: Option<T>): Option<T> {
    if a.Some? then a else b
  }

  function FirstSome<T>(s: seq<Option<T>>): Option<T> {
    if s == [] then None else Prefer(FirstSome(s[..|s| - 1]), s[|s| - 1])
  }

  function LastSome<T>(s: seq<Option<T>>): Option<T> {
    if s == [] then None else Prefer(s[|s| - 1], LastSome(s[..|s| - 1]))
  }

  lemma {:induction false} FirstSomeConcat<T>(a: seq<Option<T>>, b: seq<Option<T>>)
    ensures FirstSome(a + b) == Prefer(FirstSome(a), FirstSome(b))
  {
    if b == [] {
      assert a + b == a;
    } else {
      FirstSomeConcat(a, b[..|b| - 1]);
      assert (a + b)[..|a + b| - 1] == a + b[..|b| - 1];
    }
  }

  lemma {:induction false} LastSomeConcat<T>(a: seq<Option<T>>, b: seq<Option<T>>)
    ensures LastSome(a + b) == Prefer(LastSome(b), LastSome(a))
  {
    if b == [] {
      assert a + b == a;
    } else {
      LastSomeConcat(a, b[..|b| - 1]);
      assert (a + b)[..|a + b| - 1] == a + b[..|b| - 1];
    }
  }

  /** What a row reports: one of its meters, or its snapshot. */
  function MeterAt(k: nat): Raw -> Option<int> {
    (r: Raw) => if k < METERS then r.meters[k] else None
  }

  function SnapAt(): Raw -> Option<Snapshot> {
    (r: Raw) => r.snap
  }

  function Reports<T>(rows: seq<Raw>, f: Raw -> Option<T>): (column: seq<Option<T>>)
    ensures |column| == |rows|
  {
    seq(|rows|, i requires 0 <= i < |rows| => f(rows[i]))
  }

  function Column(rows: seq<Raw>, k: nat): seq<Option<int>>
    requires k < METERS
  {
    Reports(rows, MeterAt(k))
  }

  function Snaps(rows: seq<Raw>): seq<Option<Snapshot>> {
    Reports(rows, SnapAt())
  }

  function MinTs(rows: seq<Raw>): Time
    requires rows != []
  {
    var last := rows[|rows| - 1];
    if |rows| == 1 then last.ts
    else
      var rest := MinTs(rows[..|rows| - 1]);
      if last.ts < rest then last.ts else rest
  }

  function MaxTs(rows: seq<Raw>): Time
    requires rows != []
  {
    var last := rows[|rows| - 1];
    if |rows| == 1 then last.ts
    else
      var rest := MaxTs(rows[..|rows| - 1]);
      if last.ts > rest then last.ts else rest
  }

  lemma {:induction false} SpanMeaning(rows: seq<Raw>)
    requires rows != []
    ensures forall r :: r in rows ==> MinTs(rows) <= r.ts <= MaxTs(rows)
    ensures exists r :: r in rows && MinTs(rows) == r.ts
    ensures exists r :: r in rows && MaxTs(rows) == r.ts
  {
    var last, rest := rows[|rows| - 1], rows[..|rows| - 1];
    assert forall r :: r in rows <==> r in rest || r == last;
    if |rows| > 1 {
      SpanMeaning(rest);
    }
  }

  // ------------------------------------------------------------------------------------------
  // aggregate
  // ------------------------------------------------------------------------------------------

  /** What a nonempty batch amounts to, each meter on its own. */
  function Summary(rows: seq<Raw>): Fields
    requires rows != []
  {
    Fields(|rows|, MinTs(rows), MaxTs(rows),
           seq(METERS, k requires 0 <= k < METERS => FirstSome(Column(rows, k))),
           seq(METERS, k requires 0 <= k < METERS => LastSome(Column(rows, k))),
           LastSome(Snaps(rows)))
  }

  /** The running values after the first `i` rows; the count is the batch's from the start. */
  function Running(rows: seq<Raw>, i: nat): Fields
    requires rows != [] && i <= |rows|
  {
    var seen := rows[..i];
    Fields(|rows|,
           if i == 0 then rows[0].ts else MinTs(seen),
           if i == 0 then rows[0].ts else MaxTs(seen),
           seq(METERS, k requires 0 <= k < METERS => FirstSome(Column(seen, k))),
           seq(METERS, k requires 0 <= k < METERS => LastSome(Column(seen, k))),
           LastSome(Snaps(seen)))
  }

  lemma SomeAppend<T>(s: seq<Option<T>>, x: Option<T>)
    ensures FirstSome(s + [x]) == Prefer(FirstSome(s), x)
    ensures LastSome(s + [x]) == Prefer(x, LastSome(s))
  {
  }

  lemma RunningMeters(rows: seq<Raw>, i: nat, k: nat)
    requires i < |rows| && k < METERS
    ensures Running(rows, i + 1).starts[k] == Prefer(Running(rows, i).starts[k], rows[i].meters[k])
    ensures Running(rows, i + 1).lasts[k] == Prefer(rows[i].meters[k], Running(rows, i).lasts[k])
  {
    assert Column(rows[..i + 1], k) == Column(rows[..i], k) + [rows[i].meters[k]];
    SomeAppend(Column(rows[..i], k), rows[i].meters[k]);
  }

  lemma RunningSpan(rows: seq<Raw>, i: nat)
    requires i < |rows|
    ensures var now, next := Running(rows, i), Running(rows, i + 1);
            && next.firstTs == (if rows[i].ts < now.firstTs then rows[i].ts else now.firstTs)
            && next.lastTs == (if rows[i].ts > now.lastTs then rows[i].ts else now.lastTs)
            && next.snap == Prefer(rows[i].snap, now.snap)
  {
    assert rows[..i + 1][..i] == rows[..i];
    assert Snaps(rows[..i + 1]) == Snaps(rows[..i]) + [rows[i].snap];
    SomeAppend(Snaps(rows[..i]), rows[i].snap);
  }

  /** One row's reports folded into the running first and last values. */
  method FoldMeters(starts: Values, lasts: Values, row: Raw) returns (starts': Values, lasts': Values)
    ensures forall k :: 0 <= k < METERS ==> starts'[k] == Prefer(starts[k], row.meters[k])
    ensures forall k :: 0 <= k < METERS ==> lasts'[k] == Prefer(row.meters[k], lasts[k])
  {
    starts', lasts' := starts, lasts;
    for k := 0 to METERS
      invariant forall j :: 0 <= j < k ==> starts'[j] == Prefer(starts[j], row.meters[j])
      invariant forall j :: 0 <= j < k ==> lasts'[j] == Prefer(row.meters[j], lasts[j])
      invariant forall j :: k <= j < METERS ==> starts'[j] == starts[j] && lasts'[j] == lasts[j]
    {
      if row.meters[k].Some? {
        if starts'[k].None? {
          starts' := starts'[k := row.meters[k]];
        }
        lasts' := lasts'[k := row.meters[k]];
      }
    }
  }

  method Aggregate(rows: seq<Raw>) returns (out: Option<Fields>)
    ensures out == if rows == [] then None else Some(Summary(rows))
  {
    if rows == [] {
      return None;
    }
    var fields := Fields(|rows|, rows[0].ts, rows[0].ts, [None, None, None], [None, None, None], None);
    for i := 0 to |rows|
      invariant fields == Running(rows, i)
    {
      var row := rows[i];
      RunningSpan(rows, i);
      forall k | 0 <= k < METERS
        ensures Running(rows, i + 1).starts[k] == Prefer(Running(rows, i).starts[k], row.meters[k])
        ensures Running(rows, i + 1).lasts[k] == Prefer(row.meters[k], Running(rows, i).lasts[k])
      {
        RunningMeters(rows, i, k);
      }
      var starts, lasts := FoldMeters(fields.starts, fields.lasts, row);
      assert starts == Running(rows, i + 1).starts && lasts == Running(rows, i + 1).lasts;
      if row.ts < fields.firstTs {
        fields := fields.(firstTs := row.ts);
      }
      if row.ts > fields.lastTs {
        fields := fields.(lastTs := row.ts);
      }
      if row.snap.Some? {
        fields := fields.(snap := row.snap);
      }
      fields := fields.(starts := starts, lasts := lasts);
    }
    assert rows[..|rows|] == rows;
    out := Some(fields);
  }

  // ------------------------------------------------------------------------------------------
  // merge
  // ------------------------------------------------------------------------------------------

  function PreferAll(a: Values, b: Values): (out: Values)
    ensures forall k :: 0 <= k < METERS ==> out[k] == Prefer(a[k], b[k])
  {
    seq(METERS, k requires 0 <= k < METERS => Prefer(a[k], b[k]))
  }

  /** `last_ts` decides which side supplies the end values and `first_ts` which the start values. */
  function Merged(existing: Fields, incoming: Fields): Fields {
    var earlier := incoming.firstTs < existing.firstTs;
    var later := incoming.lastTs > existing.lastTs;
    Fields(existing.count + incoming.count,
           if earlier then incoming.firstTs else existing.firstTs,
           if later then incoming.lastTs else existing.lastTs,
           if earlier then PreferAll(incoming.starts, existing.starts) else PreferAll(existing.starts, incoming.starts),
           if later then PreferAll(incoming.lasts, existing.lasts) else PreferAll(existing.lasts, incoming.lasts),
           if later then Prefer(incoming.snap, existing.snap) else Prefer(existing.snap, incoming.snap))
  }

  method FillFrom(first: Values, second: Values) returns (out: Values)
    ensures out == PreferAll(first, second)
  {
    out := first;
    for k := 0 to METERS
      invariant forall j :: 0 <= j < k ==> out[j] == Prefer(first[j], second[j])
      invariant forall j :: k <= j < METERS ==> out[j] == first[j]
    {
      out := out[k := if first[k].Some? then first[k] else second[k]];
    }
  }

  method Merge(existing: Fields, incoming: Fields) returns (out: Fields)
    ensures out == Merged(existing, incoming)
  {
    out := existing.(count := existing.count + incoming.count);
    if incoming.firstTs < existing.firstTs {
      var starts := FillFrom(incoming.starts, existing.starts);
      out := out.(firstTs := incoming.firstTs, starts := starts);
    } else {
      var starts := FillFrom(existing.starts, incoming.starts);
      out := out.(starts := starts);
    }
    if incoming.lastTs > existing.lastTs {
      var lasts := FillFrom(incoming.lasts, existing.lasts);
      out := out.(lastTs := incoming.lastTs, lasts := lasts,
                  snap := if incoming.snap.Some? then incoming.snap else existing.snap);
    } else {
      var lasts := FillFrom(existing.lasts, incoming.lasts);
      out := out.(lasts := lasts, snap := if existing.snap.Some? then existing.snap else incoming.snap);
    }
  }

  // ------------------------------------------------------------------------------------------
  // Merging is aggregating the union: batches separated in time
  // ------------------------------------------------------------------------------------------

  lemma SummaryConcat(xs: seq<Raw>, ys: seq<Raw>)
    requires xs != [] && ys != []
    ensures Summary(xs + ys).starts == PreferAll(Summary(xs).starts, Summary(ys).starts)
    ensures Summary(xs + ys).lasts == PreferAll(Summary(ys).lasts, Summary(xs).lasts)
    ensures Summary(xs + ys).snap == Prefer(Summary(ys).snap, Summary(xs).snap)
  {
    forall k | 0 <= k < METERS
      ensures FirstSome(Column(xs + ys, k)) == Prefer(FirstSome(Column(xs, k)), FirstSome(Column(ys, k)))
      ensures LastSome(Column(xs + ys, k)) == Prefer(LastSome(Column(ys, k)), LastSome(Column(xs, k)))
    {
      assert Column(xs + ys, k) == Column(xs, k) + Column(ys, k);
      FirstSomeConcat(Column(xs, k), Column(ys, k));
      LastSomeConcat(Column(xs, k), Column(ys, k));
    }
    assert Snaps(xs + ys) == Snaps(xs) + Snaps(ys);
    LastSomeConcat(Snaps(xs), Snaps(ys));
  }

  /** Whichever batch arrives second, the result is the aggregate of the day in time order. */
  lemma SeparatedMergeIsUnion(xs: seq<Raw>, ys: seq<Raw>)
    requires xs != [] && ys != [] && MaxTs(xs) < MinTs(ys)
    ensures Merged(Summary(xs), Summary(ys)) == Summary(xs + ys)
    ensures Merged(Summary(ys), Summary(xs)) == Summary(xs + ys)
  {
    SummaryConcat(xs, ys);
    SpanOfUnion(xs, ys, xs + ys);
  }

  /** The rows of `zs` are those of `xs` and `ys` together. */
  ghost predicate IsUnion(xs: seq<Raw>, ys: seq<Raw>, zs: seq<Raw>) {
    multiset(zs) == multiset(xs) + multiset(ys)
  }

  lemma UnionMembers(xs: seq<Raw>, ys: seq<Raw>, zs: seq<Raw>)
    requires IsUnion(xs, ys, zs)
    ensures forall r :: r in zs <==> r in xs || r in ys
    ensures |zs| == |xs| + |ys|
  {
    forall r ensures r in zs <==> r in xs || r in ys {
      assert r in zs <==> r in multiset(zs);
      assert r in xs <==> r in multiset(xs);
      assert r in ys <==> r in multiset(ys);
    }
    assert |multiset(zs)| == |zs| && |multiset(xs)| == |xs| && |multiset(ys)| == |ys|;
  }

  lemma SpanOfUnion(xs: seq<Raw>, ys: seq<Raw>, zs: seq<Raw>)
    requires xs != [] && ys != [] && IsUnion(xs, ys, zs)
    ensures |zs| == |xs| + |ys|
    ensures MinTs(zs) == if MinTs(ys) < MinTs(xs) then MinTs(ys) else MinTs(xs)
    ensures MaxTs(zs) == if MaxTs(ys) > MaxTs(xs) then MaxTs(ys) else MaxTs(xs)
  {
    UnionMembers(xs, ys, zs);
    SpanMeaning(xs);
    SpanMeaning(ys);
    SpanMeaning(zs);
  }

  /** Interleaved or not, in any order: the count and both timestamps are exact. */
  lemma MergeCountAndSpanExact(xs: seq<Raw>, ys: seq<Raw>, zs: seq<Raw>)
    requires xs != [] && ys != [] && zs != [] && IsUnion(xs, ys, zs)
    ensures var merged := Merged(Summary(xs), Summary(ys));
            merged.count == Summary(zs).count && merged.firstTs == Summary(zs).firstTs && merged.lastTs == Summary(zs).lastTs
  {
    SpanOfUnion(xs, ys, zs);
  }

  // ------------------------------------------------------------------------------------------
  // Interleaved batches: exactly when a meter comes out right
  // ------------------------------------------------------------------------------------------

  predicate Ordered(rows: seq<Raw>) {
    forall i, j :: 0 <= i < j < |rows| ==> rows[i].ts < rows[j].ts
  }

  /** The row behind `LastSome(Reports(rows, f))`. */
  function LastReport<T>(rows: seq<Raw>, f: Raw -> Option<T>): Option<Raw> {
    if rows == [] then None
    else if f(rows[|rows| - 1]).Some? then Some(rows[|rows| - 1])
    else LastReport(rows[..|rows| - 1], f)
  }

  /** The row behind `FirstSome(Reports(rows, f))`. */
  function FirstReport<T>(rows: seq<Raw>, f: Raw -> Option<T>): Option<Raw> {
    if rows == [] then None
    else
      var earlier := FirstReport(rows[..|rows| - 1], f);
      if earlier.Some? then earlier
      else if f(rows[|rows| - 1]).Some? then Some(rows[|rows| - 1]) else None
  }

  function ReportOf<T>(row: Option<Raw>, f: Raw -> Option<T>): Option<T> {
    if row.Some? then f(row.value) else None
  }

  lemma {:induction false} ReportValues<T>(rows: seq<Raw>, f: Raw -> Option<T>)
    ensures LastSome(Reports(rows, f)) == ReportOf(LastReport(rows, f), f)
    ensures FirstSome(Reports(rows, f)) == ReportOf(FirstReport(rows, f), f)
    ensures LastReport(rows, f).Some? ==> ReportOf(LastReport(rows, f), f).Some?
    ensures FirstReport(rows, f).Some? ==> ReportOf(FirstReport(rows, f), f).Some?
  {
    if rows != [] {
      var rest := rows[..|rows| - 1];
      ReportValues(rest, f);
      assert Reports(rows, f)[..|rows| - 1] == Reports(rest, f);
    }
  }

  ghost predicate IsLastReport<T>(rows: seq<Raw>, f: Raw -> Option<T>, report: Option<Raw>) {
    match report
    case None => forall r :: r in rows ==> f(r).None?
    case Some(row) => row in rows && f(row).Some? && forall r :: r in rows && f(r).Some? ==> r.ts <= row.ts
  }

  ghost predicate IsFirstReport<T>(rows: seq<Raw>, f: Raw -> Option<T>, report: Option<Raw>) {
    match report
    case None => forall r :: r in rows ==> f(r).None?
    case Some(row) => row in rows && f(row).Some? && forall r :: r in rows && f(r).Some? ==> row.ts <= r.ts
  }

  predicate InTimeOrder(rows: seq<Raw>) {
    forall i, j :: 0 <= i < j < |rows| ==> rows[i].ts <= rows[j].ts
  }

  lemma {:induction false} ReportMeaning<T>(rows: seq<Raw>, f: Raw -> Option<T>)
    requires InTimeOrder(rows)
    ensures IsLastReport(rows, f, LastReport(rows, f))
    ensures IsFirstReport(rows, f, FirstReport(rows, f))
  {
    if rows != [] {
      var last, rest := rows[|rows| - 1], rows[..|rows| - 1];
      ReportMeaning(rest, f);
      assert forall r :: r in rows <==> r in rest || r == last;
      assert forall r :: r in rest ==> r.ts <= last.ts;
    }
  }

  /** The batch that ends later also reported later, or the two agree, or one is silent. */
  predicate EndsAgree<T(==)>(xs: seq<Raw>, ys: seq<Raw>, f: Raw -> Option<T>)
    requires xs != [] && ys != []
  {
    var x, y := LastReport(xs, f), LastReport(ys, f);
    || x.None? || y.None?
    || f(x.value) == f(y.value)
    || (MaxTs(ys) > MaxTs(xs) <==> y.value.ts > x.value.ts)
  }

  /** The batch that starts earlier also reported earlier, or the two agree, or one is silent. */
  predicate StartsAgree<T(==)>(xs: seq<Raw>, ys: seq<Raw>, f: Raw -> Option<T>)
    requires xs != [] && ys != []
  {
    var x, y := FirstReport(xs, f), FirstReport(ys, f);
    || x.None? || y.None?
    || f(x.value) == f(y.value)
    || (MinTs(ys) < MinTs(xs) <==> y.value.ts < x.value.ts)
  }

  lemma DistinctStamps(rows: seq<Raw>, a: Raw, b: Raw)
    requires Ordered(rows) && a in rows && b in rows && a.ts == b.ts
    ensures a == b
  {
  }

  /** The last report of the day is the later of the two batches' last reports. */
  lemma LastReportOfUnion<T>(xs: seq<Raw>, ys: seq<Raw>, zs: seq<Raw>, f: Raw -> Option<T>)
    requires IsUnion(xs, ys, zs) && Ordered(xs) && Ordered(ys) && Ordered(zs)
    ensures var x, y := LastReport(xs, f), LastReport(ys, f);
            LastReport(zs, f) == if y.None? || (x.Some? && x.value.ts > y.value.ts) then x else y
  {
    UnionMembers(xs, ys, zs);
    ReportMeaning(xs, f);
    ReportMeaning(ys, f);
    ReportMeaning(zs, f);
    var x, y, z := LastReport(xs, f), LastReport(ys, f), LastReport(zs, f);
    if z.Some? {
      if x.Some? && z.value.ts == x.value.ts { DistinctStamps(zs, z.value, x.value); }
      if y.Some? && z.value.ts == y.value.ts { DistinctStamps(zs, z.value, y.value); }
      assert z == x || z == y;
    }
  }

  lemma FirstReportOfUnion<T>(xs: seq<Raw>, ys: seq<Raw>, zs: seq<Raw>, f: Raw -> Option<T>)
    requires IsUnion(xs, ys, zs) && Ordered(xs) && Ordered(ys) && Ordered(zs)
    ensures var x, y := FirstReport(xs, f), FirstReport(ys, f);
            FirstReport(zs, f) == if y.None? || (x.Some? && x.value.ts < y.value.ts) then x else y
  {
    UnionMembers(xs, ys, zs);
    ReportMeaning(xs, f);
    ReportMeaning(ys, f);
    ReportMeaning(zs, f);
    var x, y, z := FirstReport(xs, f), FirstReport(ys, f), FirstReport(zs, f);
    if z.Some? {
      if x.Some? && z.value.ts == x.value.ts { DistinctStamps(zs, z.value, x.value); }
      if y.Some? && z.value.ts == y.value.ts { DistinctStamps(zs, z.value, y.value); }
      assert z == x || z == y;
    }
  }

  lemma SummaryReports(rows: seq<Raw>, k: nat)
    requires rows != [] && k < METERS
    ensures Summary(rows).starts[k] == ReportOf(FirstReport(rows, MeterAt(k)), MeterAt(k))
    ensures Summary(rows).lasts[k] == ReportOf(LastReport(rows, MeterAt(k)), MeterAt(k))
    ensures Summary(rows).snap == ReportOf(LastReport(rows, SnapAt()), SnapAt())
  {
    ReportValues(rows, MeterAt(k));
    ReportValues(rows, SnapAt());
  }

  /**
   * Two reports, one of which belongs in the result (`trueY`) and one of which is picked (`pickY`):
   * the value is right iff one is missing, they agree, or the pick is right.
   */
  lemma PickExactIff<T>(x: Option<Raw>, y: Option<Raw>, f: Raw -> Option<T>, pickY: bool, trueY: bool)
    requires x.Some? ==> f(x.value).Some?
    requires y.Some? ==> f(y.value).Some?
    ensures var wanted := if y.None? || (x.Some? && !trueY) then x else y;
            var picked := if pickY then Prefer(ReportOf(y, f), ReportOf(x, f)) else Prefer(ReportOf(x, f), ReportOf(y, f));
            picked == ReportOf(wanted, f) <==>
              x.None? || y.None? || ReportOf(x, f) == ReportOf(y, f) || (pickY <==> trueY)
  {
  }

  lemma SharedStampSharedRow(xs: seq<Raw>, ys: seq<Raw>, zs: seq<Raw>, a: Option<Raw>, b: Option<Raw>)
    requires IsUnion(xs, ys, zs) && Ordered(zs)
    requires a.Some? ==> a.value in xs
    requires b.Some? ==> b.value in ys
    ensures a.Some? && b.Some? && a.value.ts == b.value.ts ==> a == b
  {
    UnionMembers(xs, ys, zs);
    if a.Some? && b.Some? && a.value.ts == b.value.ts {
      DistinctStamps(zs, a.value, b.value);
    }
  }

  /** The later-ending batch's last report, or the other's where it is silent, is the day's iff the ends agree. */
  lemma EndPickExactIff<T>(xs: seq<Raw>, ys: seq<Raw>, zs: seq<Raw>, f: Raw -> Option<T>)
    requires xs != [] && ys != [] && IsUnion(xs, ys, zs)
    requires Ordered(xs) && Ordered(ys) && Ordered(zs)
    ensures var x, y := ReportOf(LastReport(xs, f), f), ReportOf(LastReport(ys, f), f);
            (if MaxTs(ys) > MaxTs(xs) then Prefer(y, x) else Prefer(x, y)) == ReportOf(LastReport(zs, f), f)
            <==> EndsAgree(xs, ys, f)
  {
    var x, y := LastReport(xs, f), LastReport(ys, f);
    LastReportOfUnion(xs, ys, zs, f);
    ReportMeaning(xs, f);
    ReportMeaning(ys, f);
    SharedStampSharedRow(xs, ys, zs, x, y);
    PickExactIff(x, y, f, MaxTs(ys) > MaxTs(xs), x.Some? && y.Some? && y.value.ts > x.value.ts);
  }

  lemma StartPickExactIff<T>(xs: seq<Raw>, ys: seq<Raw>, zs: seq<Raw>, f: Raw -> Option<T>)
    requires xs != [] && ys != [] && IsUnion(xs, ys, zs)
    requires Ordered(xs) && Ordered(ys) && Ordered(zs)
    ensures var x, y := ReportOf(FirstReport(xs, f), f), ReportOf(FirstReport(ys, f), f);
            (if MinTs(ys) < MinTs(xs) then Prefer(y, x) else Prefer(x, y)) == ReportOf(FirstReport(zs, f), f)
            <==> StartsAgree(xs, ys, f)
  {
    var x, y := FirstReport(xs, f), FirstReport(ys, f);
    FirstReportOfUnion(xs, ys, zs, f);
    ReportMeaning(xs, f);
    ReportMeaning(ys, f);
    SharedStampSharedRow(xs, ys, zs, x, y);
    PickExactIff(x, y, f, MinTs(ys) < MinTs(xs), x.Some? && y.Some? && y.value.ts < x.value.ts);
  }

  /** Rows with distinct timestamps: the merged end meter is the day's iff the ends agree. */
  lemma MergedEndExactIff(xs: seq<Raw>, ys: seq<Raw>, zs: seq<Raw>, k: nat)
    requires xs != [] && ys != [] && zs != [] && IsUnion(xs, ys, zs) && k < METERS
    requires Ordered(xs) && Ordered(ys) && Ordered(zs)
    ensures Merged(Summary(xs), Summary(ys)).lasts[k] == Summary(zs).lasts[k] <==> EndsAgree(xs, ys, MeterAt(k))
  {
    hide LastReport, FirstReport;
    SummaryReports(xs, k);
    SummaryReports(ys, k);
    SummaryReports(zs, k);
    EndPickExactIff(xs, ys, zs, MeterAt(k));
  }

  /** Likewise for the start meter, */
  lemma MergedStartExactIff(xs: seq<Raw>, ys: seq<Raw>, zs: seq<Raw>, k: nat)
    requires xs != [] && ys != [] && zs != [] && IsUnion(xs, ys, zs) && k < METERS
    requires Ordered(xs) && Ordered(ys) && Ordered(zs)
    ensures Merged(Summary(xs), Summary(ys)).starts[k] == Summary(zs).starts[k] <==> StartsAgree(xs, ys, MeterAt(k))
  {
    hide LastReport, FirstReport;
    SummaryReports(xs, k);
    SummaryReports(ys, k);
    SummaryReports(zs, k);
    StartPickExactIff(xs, ys, zs, MeterAt(k));
  }

  /** and for the supply snapshot, which goes with the end. */
  lemma MergedSnapExactIff(xs: seq<Raw>, ys: seq<Raw>, zs: seq<Raw>)
    requires xs != [] && ys != [] && zs != [] && IsUnion(xs, ys, zs)
    requires Ordered(xs) && Ordered(ys) && Ordered(zs)
    ensures Merged(Summary(xs), Summary(ys)).snap == Summary(zs).snap <==> EndsAgree(xs, ys, SnapAt())
  {
    hide LastReport, FirstReport;
    SummaryReports(xs, 0);
    SummaryReports(ys, 0);
    SummaryReports(zs, 0);
    EndPickExactIff(xs, ys, zs, SnapAt());
  }

  /** When every reading reports the meter, interleaving costs nothing. */
  lemma FullyReportedMergeExact(xs: seq<Raw>, ys: seq<Raw>, zs: seq<Raw>, k: nat)
    requires xs != [] && ys != [] && zs != [] && IsUnion(xs, ys, zs) && k < METERS
    requires Ordered(xs) && Ordered(ys) && Ordered(zs)
    requires forall r :: r in zs ==> r.meters[k].Some?
    ensures Merged(Summary(xs), Summary(ys)).starts[k] == Summary(zs).starts[k]
    ensures Merged(Summary(xs), Summary(ys)).lasts[k] == Summary(zs).lasts[k]
  {
    UnionMembers(xs, ys, zs);
    ReportSpan(xs, MeterAt(k));
    ReportSpan(ys, MeterAt(k));
    MergedStartExactIff(xs, ys, zs, k);
    MergedEndExactIff(xs, ys, zs, k);
  }

  /** A fully reported batch reports at both its ends. */
  lemma ReportSpan<T>(rows: seq<Raw>, f: Raw -> Option<T>)
    requires rows != [] && InTimeOrder(rows)
    requires forall r :: r in rows ==> f(r).Some?
    ensures FirstReport(rows, f).Some? && FirstReport(rows, f).value.ts == MinTs(rows)
    ensures LastReport(rows, f).Some? && LastReport(rows, f).value.ts == MaxTs(rows)
  {
    ReportMeaning(rows, f);
    SpanMeaning(rows);
  }

  /**
   * A silent last poll in one batch and an interleaved report in the other: the merged day ends on
   * the older of two known meters.
   */
  lemma InterleavedMergeCanLoseTheEnd() returns (xs: seq<Raw>, ys: seq<Raw>, zs: seq<Raw>)
    ensures xs != [] && ys != [] && zs != [] && IsUnion(xs, ys, zs) && Ordered(xs) && Ordered(ys) && Ordered(zs)
    ensures Merged(Summary(xs), Summary(ys)).lasts[0] != Summary(zs).lasts[0]
  {
    var a := Raw(1, 10, [Some(100), None, None], None);
    var b := Raw(2, 20, [Some(150), None, None], None);
    var c := Raw(3, 30, [None, None, None], None);
    xs, ys, zs := [a, c], [b], [a, b, c];
    assert xs[..1] == [a] && ys[..0] == [];
    assert LastReport([a], MeterAt(0)) == Some(a) && MaxTs([a]) == 10;
    assert !EndsAgree(xs, ys, MeterAt(0));
    MergedEndExactIff(xs, ys, zs, 0);
  }

  /** Folding the same batch in again changes the count and nothing else. */
  lemma RemergeChangesOnlyCount(existing: Fields, batch: Fields)
    ensures Merged(Merged(existing, batch), batch)
         == Merged(existing, batch).(count := existing.count + 2 * batch.count)
  {
  }

  // ------------------------------------------------------------------------------------------
  // What a rollup says of all the readings it stands for, however many batches they came in
  // ------------------------------------------------------------------------------------------

  ghost predicate FullyReported<T>(rows: set<Raw>, f: Raw -> Option<T>) {
    forall r :: r in rows ==> f(r).Some?
  }

  ghost predicate StampsDistinct(rows: set<Raw>) {
    forall a, b :: a in rows && b in rows && a.ts == b.ts ==> a == b
  }

  /**
   * A start or end value: known iff some reading reports it, then one of the reported values, and
   * that of the reading at the given end when all report at distinct times.
   */
  ghost predicate Tells<T>(value: Option<T>, at: Time, rows: set<Raw>, f: Raw -> Option<T>) {
    && (value.Some? <==> exists r :: r in rows && f(r).Some?)
    && (value.Some? ==> exists r :: r in rows && f(r) == value)
    && (FullyReported(rows, f) && StampsDistinct(rows) ==> forall r :: r in rows && r.ts == at ==> f(r) == value)
  }

  ghost predicate Spans(fields: Fields, rows: set<Raw>) {
    && (forall r :: r in rows ==> fields.firstTs <= r.ts <= fields.lastTs)
    && (exists r :: r in rows && r.ts == fields.firstTs)
    && (exists r :: r in rows && r.ts == fields.lastTs)
  }

  ghost predicate Describes(fields: Fields, rows: set<Raw>) {
    && Spans(fields, rows)
    && (forall k :: 0 <= k < METERS ==> Tells(fields.starts[k], fields.firstTs, rows, MeterAt(k)))
    && (forall k :: 0 <= k < METERS ==> Tells(fields.lasts[k], fields.lastTs, rows, MeterAt(k)))
    && Tells(fields.snap, fields.lastTs, rows, SnapAt())
  }

  function RowSet(rows: seq<Raw>): set<Raw> {
    set r | r in rows
  }

  lemma ReportTells<T>(rows: seq<Raw>, f: Raw -> Option<T>)
    requires rows != [] && InTimeOrder(rows)
    ensures Tells(ReportOf(FirstReport(rows, f), f), MinTs(rows), RowSet(rows), f)
    ensures Tells(ReportOf(LastReport(rows, f), f), MaxTs(rows), RowSet(rows), f)
  {
    ReportMeaning(rows, f);
    if FullyReported(RowSet(rows), f) {
      ReportSpan(rows, f);
    }
  }

  /** One batch, as selected. */
  lemma SummaryDescribes(rows: seq<Raw>)
    requires rows != [] && InTimeOrder(rows)
    ensures Describes(Summary(rows), RowSet(rows))
  {
    hide FirstReport, LastReport, ReportOf, Tells;
    SpanMeaning(rows);
    SummaryReports(rows, 0);
    ReportTells(rows, SnapAt());
    forall k | 0 <= k < METERS
      ensures Tells(Summary(rows).starts[k], MinTs(rows), RowSet(rows), MeterAt(k))
      ensures Tells(Summary(rows).lasts[k], MaxTs(rows), RowSet(rows), MeterAt(k))
    {
      SummaryReports(rows, k);
      ReportTells(rows, MeterAt(k));
    }
  }

  /** Of two values, the one at the outer end, or the other where it is silent. */
  lemma PreferredTells<T>(a: Option<T>, b: Option<T>, at: Time, other: Time, xs: set<Raw>, ys: set<Raw>, f: Raw -> Option<T>)
    requires Tells(a, at, xs, f) && Tells(b, other, ys, f)
    requires exists r :: r in xs && r.ts == at
    requires forall r :: r in ys && r.ts == at ==> other == at
    ensures Tells(Prefer(a, b), at, xs + ys, f)
  {
    var picked := Prefer(a, b);
    if FullyReported(xs + ys, f) && StampsDistinct(xs + ys) {
      assert FullyReported(xs, f) && StampsDistinct(xs);
      var end :| end in xs && end.ts == at;
      forall r | r in xs + ys && r.ts == at ensures f(r) == picked {
        assert r == end;
      }
    }
  }

  /** A straggler batch folded in: the row describes all the readings together. */
  lemma MergedDescribes(existing: Fields, incoming: Fields, xs: set<Raw>, ys: set<Raw>)
    requires Describes(existing, xs) && Describes(incoming, ys)
    ensures Describes(Merged(existing, incoming), xs + ys)
  {
    hide Tells;
    var merged := Merged(existing, incoming);
    MergedSpans(existing, incoming, xs, ys);
    forall k | 0 <= k < METERS
      ensures Tells(merged.starts[k], merged.firstTs, xs + ys, MeterAt(k))
      ensures Tells(merged.lasts[k], merged.lastTs, xs + ys, MeterAt(k))
    {
      StartTells(existing, incoming, xs, ys, existing.starts[k], incoming.starts[k], MeterAt(k));
      EndTells(existing, incoming, xs, ys, existing.lasts[k], incoming.lasts[k], MeterAt(k));
    }
    EndTells(existing, incoming, xs, ys, existing.snap, incoming.snap, SnapAt());
  }

  lemma MergedSpans(existing: Fields, incoming: Fields, xs: set<Raw>, ys: set<Raw>)
    requires Spans(existing, xs) && Spans(incoming, ys)
    ensures Spans(Merged(existing, incoming), xs + ys)
  {
  }

  lemma StartTells<T>(existing: Fields, incoming: Fields, xs: set<Raw>, ys: set<Raw>, x: Option<T>, y: Option<T>, f: Raw -> Option<T>)
    requires Spans(existing, xs) && Spans(incoming, ys)
    requires Tells(x, existing.firstTs, xs, f) && Tells(y, incoming.firstTs, ys, f)
    ensures var earlier := incoming.firstTs < existing.firstTs;
            Tells(if earlier then Prefer(y, x) else Prefer(x, y), if earlier then incoming.firstTs else existing.firstTs, xs + ys, f)
  {
    hide Tells;
    assert ys + xs == xs + ys;
    if incoming.firstTs < existing.firstTs {
      PreferredTells(y, x, incoming.firstTs, existing.firstTs, ys, xs, f);
    } else {
      PreferredTells(x, y, existing.firstTs, incoming.firstTs, xs, ys, f);
    }
  }

  lemma EndTells<T>(existing: Fields, incoming: Fields, xs: set<Raw>, ys: set<Raw>, x: Option<T>, y: Option<T>, f: Raw -> Option<T>)
    requires Spans(existing, xs) && Spans(incoming, ys)
    requires Tells(x, existing.lastTs, xs, f) && Tells(y, incoming.lastTs, ys, f)
    ensures var later := incoming.lastTs > existing.lastTs;
            Tells(if later then Prefer(y, x) else Prefer(x, y), if later then incoming.lastTs else existing.lastTs, xs + ys, f)
  {
    hide Tells;
    assert ys + xs == xs + ys;
    if incoming.lastTs > existing.lastTs {
      PreferredTells(y, x, incoming.lastTs, existing.lastTs, ys, xs, f);
    } else {
      PreferredTells(x, y, existing.lastTs, incoming.lastTs, xs, ys, f);
    }
  }

  /** Nothing of these readings is missing from the row: not their span, nor any meter or snapshot. */
  ghost predicate Covers(fields: Fields, rows: set<Raw>) {
    forall r :: r in rows ==>
      && fields.firstTs <= r.ts <= fields.lastTs
      && (forall k :: 0 <= k < METERS && r.meters[k].Some? ==> fields.starts[k].Some? && fields.lasts[k].Some?)
      && (r.snap.Some? ==> fields.snap.Some?)
  }

  lemma DescribesCovers(fields: Fields, rows: set<Raw>)
    requires Describes(fields, rows)
    ensures Covers(fields, rows)
  {
    forall r, k | r in rows && 0 <= k < METERS && r.meters[k].Some?
      ensures fields.starts[k].Some? && fields.lasts[k].Some?
    {
      assert MeterAt(k)(r).Some?;
      assert Tells(fields.starts[k], fields.firstTs, rows, MeterAt(k));
      assert Tells(fields.lasts[k], fields.lastTs, rows, MeterAt(k));
    }
    forall r | r in rows && r.snap.Some? ensures fields.snap.Some? {
      assert SnapAt()(r).Some?;
    }
  }

  /** Folding more in never uncovers a reading. */
  lemma MergedCovers(existing: Fields, incoming: Fields, xs: set<Raw>, ys: set<Raw>)
    requires Covers(existing, xs) && Covers(incoming, ys)
    ensures Covers(Merged(existing, incoming), xs + ys)
  {
  }

  lemma CoversFewer(fields: Fields, xs: set<Raw>, ys: set<Raw>)
    requires Covers(fields, xs + ys)
    ensures Covers(fields, xs)
  {
  }

  // ------------------------------------------------------------------------------------------
  // First and last report among any readings
  // ------------------------------------------------------------------------------------------

  /** What `MeterAt` and `SnapAt` stand for below. */
  lemma WhatIsReported(r: Raw, k: nat)
    requires k < METERS
    ensures MeterAt(k)(r) == r.meters[k] && SnapAt()(r) == r.snap
  {
  }

  /** By timestamp, then by id. */
  predicate NotAfter(a: Raw, b: Raw) {
    a.ts < b.ts || (a.ts == b.ts && a.id <= b.id)
  }

  /** The value of the last of the readings that report, or nothing if none does. */
  ghost predicate IsLast<T>(value: Option<T>, rows: set<Raw>, f: Raw -> Option<T>) {
    if value.None? then forall r :: r in rows ==> f(r).None?
    else exists r :: r in rows && f(r) == value && forall q :: q in rows && f(q).Some? ==> NotAfter(q, r)
  }

  ghost predicate IsFirst<T>(value: Option<T>, rows: set<Raw>, f: Raw -> Option<T>) {
    if value.None? then forall r :: r in rows ==> f(r).None?
    else exists r :: r in rows && f(r) == value && forall q :: q in rows && f(q).Some? ==> NotAfter(r, q)
  }

  /** Each start is the first report, each end and the snapshot the last. */
  ghost predicate EndsAre(fields: Fields, rows: set<Raw>) {
    && (forall k :: 0 <= k < METERS ==> IsFirst(fields.starts[k], rows, MeterAt(k)))
    && (forall k :: 0 <= k < METERS ==> IsLast(fields.lasts[k], rows, MeterAt(k)))
    && IsLast(fields.snap, rows, SnapAt())
  }

  /** In the order of the SELECT. */
  predicate Listed(rows: seq<Raw>) {
    forall i, j :: 0 <= i < j < |rows| ==> NotAfter(rows[i], rows[j])
  }

  lemma {:induction false} ListedReports<T>(rows: seq<Raw>, f: Raw -> Option<T>)
    requires Listed(rows)
    ensures IsLast(ReportOf(LastReport(rows, f), f), RowSet(rows), f)
    ensures IsFirst(ReportOf(FirstReport(rows, f), f), RowSet(rows), f)
    ensures LastReport(rows, f).Some? ==> ReportOf(LastReport(rows, f), f).Some?
    ensures FirstReport(rows, f).Some? ==> ReportOf(FirstReport(rows, f), f).Some?
  {
    if rows != [] {
      var rest, last := rows[..|rows| - 1], rows[|rows| - 1];
      ListedReports(rest, f);
      assert RowSet(rows) == RowSet(rest) + {last};
      assert forall r :: r in rest ==> NotAfter(r, last);
    }
  }

  /** One batch's row has the batch's ends. */
  lemma SummaryEnds(rows: seq<Raw>)
    requires rows != [] && Listed(rows)
    ensures EndsAre(Summary(rows), RowSet(rows))
  {
    hide FirstReport, LastReport, ReportOf, IsFirst, IsLast;
    SummaryReports(rows, 0);
    ListedReports(rows, SnapAt());
    forall k | 0 <= k < METERS
      ensures IsFirst(Summary(rows).starts[k], RowSet(rows), MeterAt(k)) && IsLast(Summary(rows).lasts[k], RowSet(rows), MeterAt(k))
    {
      SummaryReports(rows, k);
      ListedReports(rows, MeterAt(k));
    }
  }

  ghost predicate UniqueIds(rows: set<Raw>) {
    forall a, b :: a in rows && b in rows && a.id == b.id ==> a == b
  }

  /** Some reading of `ys` reports after all of `xs` that do. */
  ghost predicate ReportsLater<T>(ys: set<Raw>, xs: set<Raw>, f: Raw -> Option<T>) {
    exists y :: y in ys && f(y).Some? && forall x :: x in xs && f(x).Some? ==> !NotAfter(y, x)
  }

  ghost predicate ReportsEarlier<T>(ys: set<Raw>, xs: set<Raw>, f: Raw -> Option<T>) {
    exists y :: y in ys && f(y).Some? && forall x :: x in xs && f(x).Some? ==> !NotAfter(x, y)
  }

  /** Of two last reports, the one picked is that of all the readings iff one is missing, they agree, or the pick is right. */
  lemma PickedLastIff<T>(a: Option<T>, b: Option<T>, xs: set<Raw>, ys: set<Raw>, f: Raw -> Option<T>, later: bool)
    requires IsLast(a, xs, f) && IsLast(b, ys, f) && UniqueIds(xs + ys)
    ensures IsLast(if later then Prefer(b, a) else Prefer(a, b), xs + ys, f) <==>
      a.None? || b.None? || a == b || (later <==> ReportsLater(ys, xs, f))
  {
    if a.Some? && b.Some? {
      var x :| x in xs && f(x) == a && forall q :: q in xs && f(q).Some? ==> NotAfter(q, x);
      var y :| y in ys && f(y) == b && forall q :: q in ys && f(q).Some? ==> NotAfter(q, y);
      assert x in xs + ys && y in xs + ys;
      if NotAfter(x, y) {
        assert IsLast(b, xs + ys, f);
        assert x.id == y.id ==> x == y;
      } else {
        assert IsLast(a, xs + ys, f);
        assert NotAfter(y, x);
      }
    }
  }

  lemma PickedFirstIff<T>(a: Option<T>, b: Option<T>, xs: set<Raw>, ys: set<Raw>, f: Raw -> Option<T>, earlier: bool)
    requires IsFirst(a, xs, f) && IsFirst(b, ys, f) && UniqueIds(xs + ys)
    ensures IsFirst(if earlier then Prefer(b, a) else Prefer(a, b), xs + ys, f) <==>
      a.None? || b.None? || a == b || (earlier <==> ReportsEarlier(ys, xs, f))
  {
    if a.Some? && b.Some? {
      var x :| x in xs && f(x) == a && forall q :: q in xs && f(q).Some? ==> NotAfter(x, q);
      var y :| y in ys && f(y) == b && forall q :: q in ys && f(q).Some? ==> NotAfter(y, q);
      assert x in xs + ys && y in xs + ys;
      if NotAfter(y, x) {
        assert IsFirst(b, xs + ys, f);
        assert x.id == y.id ==> x == y;
      } else {
        assert IsFirst(a, xs + ys, f);
        assert NotAfter(x, y);
      }
    }
  }
}
