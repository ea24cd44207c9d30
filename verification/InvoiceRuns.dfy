/**
 * Consecutive invoices of one client (central/billing.py over central/queries.py): each meter's periods
 * tile, but an invoice takes the larger of a printer's total and its split, and prices unsplit pages
 * under one policy.  So periods taken one at a time can claim more pages than the same stretch at once.
 */
module InvoiceRuns {
  import opened Options
  import opened Rollup
  import opened Meters
  import opened Invoicing

  ghost predicate Increasing(cuts: seq<Time>) {
    cuts != [] && forall i, j :: 0 <= i < j < |cuts| ==> cuts[i] <= cuts[j]
  }

  function First(cuts: seq<Time>): Time
    requires cuts != []
  {
    cuts[0]
  }

  function Last(cuts: seq<Time>): Time
    requires cuts != []
  {
    cuts[|cuts| - 1]
  }

  function TotalPages(p: Printer, start: Time, end: Time): nat {
    GetOr(Period(p.history, 0, start, end), 0)
  }

  function SplitPages(p: Printer, start: Time, end: Time): nat {
    GetOr(Period(p.history, 1, start, end), 0) + GetOr(Period(p.history, 2, start, end), 0)
  }

  /** Pages of the split beyond the total, negative when the total is the larger. */
  function Lean(p: Printer, start: Time, end: Time): int {
    SplitPages(p, start, end) - TotalPages(p, start, end)
  }

  lemma StretchesAdd(p: Printer, start: Time, middle: Time, end: Time)
    requires InTimeOrder(p.history) && start <= middle <= end
    ensures TotalPages(p, start, end) == TotalPages(p, start, middle) + TotalPages(p, middle, end)
    ensures SplitPages(p, start, end) == SplitPages(p, start, middle) + SplitPages(p, middle, end)
  {
    hide Period;
    for k := 0 to METERS
      invariant forall j :: 0 <= j < k ==>
        GetOr(Period(p.history, j, start, end), 0)
        == GetOr(Period(p.history, j, start, middle), 0) + GetOr(Period(p.history, j, middle, end), 0)
    {
      PeriodIsAdvance(p.history, k, start, middle);
      PeriodIsAdvance(p.history, k, middle, end);
      PeriodIsAdvance(p.history, k, start, end);
    }
  }

  // ------------------------------------------------------------------------------------------
  // Pages known, period by period
  // ------------------------------------------------------------------------------------------

  function KnownOver(p: Printer, cuts: seq<Time>): nat {
    if |cuts| < 2 then 0
    else KnownOver(p, cuts[..|cuts| - 1]) + KnownPages(p, cuts[|cuts| - 2], cuts[|cuts| - 1])
  }

  /** How far splits exceed totals, over the periods where they do; and the other way round. */
  function Overs(p: Printer, cuts: seq<Time>): nat {
    if |cuts| < 2 then 0
    else
      var lean := Lean(p, cuts[|cuts| - 2], cuts[|cuts| - 1]);
      Overs(p, cuts[..|cuts| - 1]) + if lean > 0 then lean else 0
  }

  function Unders(p: Printer, cuts: seq<Time>): nat {
    if |cuts| < 2 then 0
    else
      var lean := Lean(p, cuts[|cuts| - 2], cuts[|cuts| - 1]);
      Unders(p, cuts[..|cuts| - 1]) + if lean < 0 then -lean else 0
  }

  function LeanAt(p: Printer, cuts: seq<Time>, i: nat): int
    requires 0 < i < |cuts|
  {
    Lean(p, cuts[i - 1], cuts[i])
  }

  /** No period's split exceeds its total while another period's falls short of it. */
  ghost predicate OneSided(p: Printer, cuts: seq<Time>) {
    || (forall i :: 0 < i < |cuts| ==> LeanAt(p, cuts, i) <= 0)
    || (forall i :: 0 < i < |cuts| ==> LeanAt(p, cuts, i) >= 0)
  }

  lemma {:induction false} NoOversIff(p: Printer, cuts: seq<Time>)
    ensures Overs(p, cuts) == 0 <==> forall i :: 0 < i < |cuts| ==> LeanAt(p, cuts, i) <= 0
    ensures Unders(p, cuts) == 0 <==> forall i :: 0 < i < |cuts| ==> LeanAt(p, cuts, i) >= 0
  {
    hide Lean;
    if |cuts| >= 2 {
      var before := cuts[..|cuts| - 1];
      NoOversIff(p, before);
      assert forall i :: 0 < i < |before| ==> LeanAt(p, before, i) == LeanAt(p, cuts, i);
      assert LeanAt(p, cuts, |cuts| - 1) == Lean(p, cuts[|cuts| - 2], cuts[|cuts| - 1]);
    }
  }

  lemma KnownIs(p: Printer, start: Time, end: Time)
    ensures KnownPages(p, start, end) == TotalPages(p, start, end) + if Lean(p, start, end) > 0 then Lean(p, start, end) else 0
  {
    hide Period;
  }

  /** The sums over the periods, in terms of the whole stretch. */
  lemma {:induction false} KnownOverIs(p: Printer, cuts: seq<Time>)
    requires InTimeOrder(p.history) && Increasing(cuts)
    ensures KnownOver(p, cuts) == TotalPages(p, First(cuts), Last(cuts)) + Overs(p, cuts)
    ensures Lean(p, First(cuts), Last(cuts)) == Overs(p, cuts) - Unders(p, cuts)
  {
    hide TotalPages, SplitPages, KnownPages, InTimeOrder;
    var n := |cuts|;
    if n == 1 {
      StretchesAdd(p, cuts[0], cuts[0], cuts[0]);
    } else {
      KnownOverIs(p, cuts[..n - 1]);
      KnownIs(p, cuts[n - 2], cuts[n - 1]);
      StretchesAdd(p, cuts[0], cuts[n - 2], cuts[n - 1]);
    }
  }

  /**
   * The pages known period by period are never fewer than those known of the whole stretch, and as
   * many iff no period's split exceeds its total while another's falls short of it.
   */
  lemma KnownPagesTileIff(p: Printer, cuts: seq<Time>)
    requires InTimeOrder(p.history) && Increasing(cuts)
    ensures KnownOver(p, cuts) >= KnownPages(p, First(cuts), Last(cuts))
    ensures KnownOver(p, cuts) == KnownPages(p, First(cuts), Last(cuts)) <==> OneSided(p, cuts)
  {
    hide Lean, TotalPages;
    KnownOverIs(p, cuts);
    KnownIs(p, First(cuts), Last(cuts));
    NoOversIff(p, cuts);
  }

  /** For two periods: iff their leans do not have opposite signs. */
  lemma TwoPeriodsTileIff(p: Printer, start: Time, middle: Time, end: Time)
    requires InTimeOrder(p.history) && start <= middle <= end
    ensures KnownPages(p, start, middle) + KnownPages(p, middle, end) == KnownPages(p, start, end)
       <==> Lean(p, start, middle) * Lean(p, middle, end) >= 0
  {
    StretchesAdd(p, start, middle, end);
    hide TotalPages, SplitPages;
    KnownIs(p, start, middle);
    KnownIs(p, middle, end);
    KnownIs(p, start, end);
    SignOfProduct(Lean(p, start, middle), Lean(p, middle, end));
  }

  lemma SignOfProduct(a: int, b: int)
    ensures a * b >= 0 <==> !(a > 0 && b < 0) && !(a < 0 && b > 0)
  {
    if a > 0 && b < 0 {
      assert a * b < 0;
    }
  }

  // ------------------------------------------------------------------------------------------
  // Invoice by invoice
  // ------------------------------------------------------------------------------------------

  /** What consecutive invoices bill together, and what they disclose as unbilled. */
  function BilledOver(card: RateCard, printers: seq<Printer>, cuts: seq<Time>): nat {
    if |cuts| < 2 then 0
    else
      BilledOver(card, printers, cuts[..|cuts| - 1])
      + BilledPages(AllLines(card, printers, cuts[|cuts| - 2], cuts[|cuts| - 1]))
  }

  function DisclosedOver(card: RateCard, printers: seq<Printer>, cuts: seq<Time>): nat {
    if |cuts| < 2 then 0
    else
      DisclosedOver(card, printers, cuts[..|cuts| - 1])
      + UnbilledPages(AllUnbilled(card, printers, cuts[|cuts| - 2], cuts[|cuts| - 1]))
  }

  function AllKnownOver(printers: seq<Printer>, cuts: seq<Time>): nat {
    if printers == [] then 0
    else AllKnownOver(printers[..|printers| - 1], cuts) + KnownOver(printers[|printers| - 1], cuts)
  }

  /** Over printers first or over periods first. */
  lemma {:induction false} AllKnownOverSplits(printers: seq<Printer>, cuts: seq<Time>)
    ensures AllKnownOver(printers, cuts)
         == if |cuts| < 2 then 0
            else AllKnownOver(printers, cuts[..|cuts| - 1]) + AllKnownPages(printers, cuts[|cuts| - 2], cuts[|cuts| - 1])
  {
    hide KnownPages;
    if printers != [] {
      AllKnownOverSplits(printers[..|printers| - 1], cuts);
    }
  }

  lemma {:induction false} InvoicesCoverKnown(card: RateCard, printers: seq<Printer>, cuts: seq<Time>)
    ensures BilledOver(card, printers, cuts) + DisclosedOver(card, printers, cuts) == AllKnownOver(printers, cuts)
  {
    AllKnownOverSplits(printers, cuts);
    if |cuts| >= 2 {
      InvoicesCoverKnown(card, printers, cuts[..|cuts| - 1]);
      PagesConserved(card, printers, cuts[|cuts| - 2], cuts[|cuts| - 1]);
    }
  }

  lemma {:induction false} AllKnownTile(printers: seq<Printer>, cuts: seq<Time>)
    requires Increasing(cuts) && forall p :: p in printers ==> InTimeOrder(p.history)
    ensures AllKnownOver(printers, cuts) >= AllKnownPages(printers, First(cuts), Last(cuts))
    ensures AllKnownOver(printers, cuts) == AllKnownPages(printers, First(cuts), Last(cuts))
       <==> forall p :: p in printers ==> OneSided(p, cuts)
  {
    hide KnownPages, KnownOver, OneSided;
    if printers != [] {
      var rest, last := printers[..|printers| - 1], printers[|printers| - 1];
      assert printers == rest + [last];
      AllKnownTile(rest, cuts);
      KnownPagesTileIff(last, cuts);
    }
  }

  /**
   * Consecutive invoices leave no gap: billed and disclosed pages together are never fewer than the
   * pages known of the whole stretch.  They overlap in nothing, that is they are as many, iff every
   * printer's periods lean one way.
   */
  lemma InvoicesTileIff(card: RateCard, printers: seq<Printer>, cuts: seq<Time>)
    requires Increasing(cuts) && forall p :: p in printers ==> InTimeOrder(p.history)
    ensures var claimed := BilledOver(card, printers, cuts) + DisclosedOver(card, printers, cuts);
            && claimed >= AllKnownPages(printers, First(cuts), Last(cuts))
            && (claimed == AllKnownPages(printers, First(cuts), Last(cuts)) <==> forall p :: p in printers ==> OneSided(p, cuts))
  {
    InvoicesCoverKnown(card, printers, cuts);
    AllKnownTile(printers, cuts);
  }

  // ------------------------------------------------------------------------------------------
  // Billed pages alone
  // ------------------------------------------------------------------------------------------

  predicate Unsplit(p: Printer, start: Time, end: Time) {
    Period(p.history, 1, start, end).None? && Period(p.history, 2, start, end).None?
  }

  /** What one printer is billed in a period: its split, or its total where the card says so. */
  lemma BilledIs(card: RateCard, p: Printer, start: Time, end: Time)
    ensures BilledPages(PrinterLines(card, p, start, end))
         == if card.policy == BillAsMono && Unsplit(p, start, end) then TotalPages(p, start, end) else SplitPages(p, start, end)
  {
    hide Period;
    var split := SplitOf(card, p, start, end);
    KindLinePages(card, p.id, Mono, split.mono);
    KindLinePages(card, p.id, Color, split.color);
    BilledConcat(KindLine(card, p.id, Mono, split.mono), KindLine(card, p.id, Color, split.color));
  }

  /** The pages of the periods in which a printer reported no class. */
  function UnsplitPages(p: Printer, cuts: seq<Time>): nat {
    if |cuts| < 2 then 0
    else
      var start, end := cuts[|cuts| - 2], cuts[|cuts| - 1];
      UnsplitPages(p, cuts[..|cuts| - 1]) + if Unsplit(p, start, end) then TotalPages(p, start, end) else 0
  }

  function PrinterBilledOver(card: RateCard, p: Printer, cuts: seq<Time>): nat {
    if |cuts| < 2 then 0
    else
      PrinterBilledOver(card, p, cuts[..|cuts| - 1])
      + BilledPages(PrinterLines(card, p, cuts[|cuts| - 2], cuts[|cuts| - 1]))
  }

  lemma SameRest<T>(prefix: seq<T>, a: seq<T>, b: seq<T>)
    requires prefix + a == prefix + b
    ensures a == b
  {
    assert a == (prefix + a)[|prefix|..];
    assert b == (prefix + b)[|prefix|..];
  }

  lemma WithinSplits(history: seq<Raw>, start: Time, middle: Time, end: Time)
    requires InTimeOrder(history) && start <= middle <= end
    ensures Within(history, start, end) == Within(history, start, middle) + Within(history, middle, end)
  {
    hide InTimeOrder, Earlier, Within;
    EarlierSplits(history, start, middle);
    EarlierSplits(history, middle, end);
    EarlierSplits(history, start, end);
    var before, one, two := Earlier(history, start), Within(history, start, middle), Within(history, middle, end);
    assert (before + one) + two == before + (one + two);
    SameRest(before, Within(history, start, end), one + two);
  }

  /** A meter is silent over a stretch iff it is silent in both parts. */
  lemma SilentIff(history: seq<Raw>, k: nat, start: Time, middle: Time, end: Time)
    requires k < METERS && InTimeOrder(history) && start <= middle <= end
    ensures Period(history, k, start, end).None? <==> Period(history, k, start, middle).None? && Period(history, k, middle, end).None?
  {
    WithinSplits(history, start, middle, end);
    var one, two := Column(Within(history, start, middle), k), Column(Within(history, middle, end), k);
    assert Column(Within(history, start, end), k) == one + two;
    ReportedConcat(one, two);
  }

  lemma {:induction false} BilledOverIs(card: RateCard, p: Printer, cuts: seq<Time>)
    requires InTimeOrder(p.history) && Increasing(cuts)
    ensures PrinterBilledOver(card, p, cuts)
         == SplitPages(p, First(cuts), Last(cuts)) + if card.policy == BillAsMono then UnsplitPages(p, cuts) else 0
    ensures Unsplit(p, First(cuts), Last(cuts)) ==> UnsplitPages(p, cuts) == TotalPages(p, First(cuts), Last(cuts))
  {
    var n := |cuts|;
    if n == 1 {
      StretchesAdd(p, cuts[0], cuts[0], cuts[0]);
    } else {
      var start, middle, end := cuts[0], cuts[n - 2], cuts[n - 1];
      BilledOverIs(card, p, cuts[..n - 1]);
      BilledIs(card, p, middle, end);
      StretchesAdd(p, start, middle, end);
      SilentIff(p.history, 1, start, middle, end);
      SilentIff(p.history, 2, start, middle, end);
      hide Period;
    }
  }

  /** Unsplit pages are not billed, or no period has a split, or no unsplit period has pages. */
  predicate BillsOnce(card: RateCard, p: Printer, cuts: seq<Time>)
    requires cuts != []
  {
    card.policy == Exclude || Unsplit(p, First(cuts), Last(cuts)) || UnsplitPages(p, cuts) == 0
  }

  /**
   * One printer billed period by period is never billed less than over the whole stretch, and as much
   * iff it bills once.
   */
  lemma BilledPagesTileIff(card: RateCard, p: Printer, cuts: seq<Time>)
    requires InTimeOrder(p.history) && Increasing(cuts)
    ensures var whole := BilledPages(PrinterLines(card, p, First(cuts), Last(cuts)));
            && PrinterBilledOver(card, p, cuts) >= whole
            && (PrinterBilledOver(card, p, cuts) == whole <==> BillsOnce(card, p, cuts))
  {
    BilledOverIs(card, p, cuts);
    BilledIs(card, p, First(cuts), Last(cuts));
    hide PrinterLines, PrinterBilledOver, UnsplitPages, Unsplit, SplitPages, TotalPages;
    UnsplitHasNoSplit(p, First(cuts), Last(cuts));
  }

  lemma UnsplitHasNoSplit(p: Printer, start: Time, end: Time)
    ensures Unsplit(p, start, end) ==> SplitPages(p, start, end) == 0
  {
  }

  /** Billing all printers, period by period and over the whole stretch. */
  function PrintersBilledOver(card: RateCard, printers: seq<Printer>, cuts: seq<Time>): nat {
    if printers == [] then 0
    else PrintersBilledOver(card, printers[..|printers| - 1], cuts) + PrinterBilledOver(card, printers[|printers| - 1], cuts)
  }

  lemma {:induction false} BilledOverSplits(card: RateCard, printers: seq<Printer>, cuts: seq<Time>)
    ensures PrintersBilledOver(card, printers, cuts)
         == if |cuts| < 2 then 0
            else PrintersBilledOver(card, printers, cuts[..|cuts| - 1])
                 + BilledPages(AllLines(card, printers, cuts[|cuts| - 2], cuts[|cuts| - 1]))
  {
    hide PrinterLines;
    if printers != [] {
      var rest, last := printers[..|printers| - 1], printers[|printers| - 1];
      BilledOverSplits(card, rest, cuts);
      if |cuts| >= 2 {
        var start, end := cuts[|cuts| - 2], cuts[|cuts| - 1];
        BilledConcat(AllLines(card, rest, start, end), PrinterLines(card, last, start, end));
      }
    }
  }

  lemma {:induction false} BilledOverByPrinter(card: RateCard, printers: seq<Printer>, cuts: seq<Time>)
    ensures BilledOver(card, printers, cuts) == PrintersBilledOver(card, printers, cuts)
  {
    BilledOverSplits(card, printers, cuts);
    if |cuts| >= 2 {
      BilledOverByPrinter(card, printers, cuts[..|cuts| - 1]);
    }
  }

  lemma {:induction false} PrintersBilledTile(card: RateCard, printers: seq<Printer>, cuts: seq<Time>)
    requires Increasing(cuts) && forall p :: p in printers ==> InTimeOrder(p.history)
    ensures var whole := BilledPages(AllLines(card, printers, First(cuts), Last(cuts)));
            && PrintersBilledOver(card, printers, cuts) >= whole
            && (PrintersBilledOver(card, printers, cuts) == whole <==> forall p :: p in printers ==> BillsOnce(card, p, cuts))
  {
    hide PrinterLines, PrinterBilledOver, BillsOnce;
    if printers != [] {
      var rest, last := printers[..|printers| - 1], printers[|printers| - 1];
      assert printers == rest + [last];
      PrintersBilledTile(card, rest, cuts);
      BilledPagesTileIff(card, last, cuts);
      BilledConcat(AllLines(card, rest, First(cuts), Last(cuts)), PrinterLines(card, last, First(cuts), Last(cuts)));
    }
  }

  /**
   * Consecutive invoices never bill fewer pages than one invoice over the whole stretch, and as many
   * iff each printer bills once: unsplit pages are not billed, or the printer never has a split, or it
   * printed nothing in the periods it has none.
   */
  lemma InvoicesBillOnceIff(card: RateCard, printers: seq<Printer>, cuts: seq<Time>)
    requires Increasing(cuts) && forall p :: p in printers ==> InTimeOrder(p.history)
    ensures var whole := BilledPages(AllLines(card, printers, First(cuts), Last(cuts)));
            && BilledOver(card, printers, cuts) >= whole
            && (BilledOver(card, printers, cuts) == whole <==> forall p :: p in printers ==> BillsOnce(card, p, cuts))
  {
    BilledOverByPrinter(card, printers, cuts);
    PrintersBilledTile(card, printers, cuts);
  }

  // ------------------------------------------------------------------------------------------
  // Two invoices for one page
  // ------------------------------------------------------------------------------------------

  /** Three polls, the middle one silent on its mono meter. */
  const FIRST: Raw := Raw(1, 5, [Some(1000), Some(1000), None], None)
  const SECOND: Raw := Raw(2, 15, [Some(1100), None, None], None)
  const THIRD: Raw := Raw(3, 25, [Some(1200), Some(1200), None], None)

  const POLLS: seq<Raw> := [FIRST, SECOND, THIRD]

  function Kept(r: Raw, kept: bool): seq<Raw> {
    if kept then [r] else []
  }

  lemma OneMore(history: seq<Raw>, r: Raw, start: Time, end: Time)
    ensures Within(history + [r], start, end) == Within(history, start, end) + Kept(r, start <= r.ts < end)
    ensures Earlier(history + [r], end) == Earlier(history, end) + Kept(r, r.ts < end)
  {
    assert (history + [r])[..|history|] == history;
  }

  lemma ThreePolls(a: Raw, b: Raw, c: Raw, start: Time, end: Time)
    ensures Within([a, b, c], start, end)
         == Kept(a, start <= a.ts < end) + Kept(b, start <= b.ts < end) + Kept(c, start <= c.ts < end)
    ensures Earlier([a, b, c], end) == Kept(a, a.ts < end) + Kept(b, b.ts < end) + Kept(c, c.ts < end)
  {
    assert Within([], start, end) == [] && Earlier([], end) == [];
    hide Within, Earlier, Kept;
    OneMore([], a, start, end);
    OneMore([a], b, start, end);
    OneMore([a, b], c, start, end);
    assert [] + [a] == [a] && [a] + [b] == [a, b] && [a, b] + [c] == [a, b, c];
  }

  lemma PollsInPeriods()
    ensures Within(POLLS, 10, 20) == [SECOND] && Within(POLLS, 20, 30) == [THIRD]
    ensures Earlier(POLLS, 10) == [FIRST] && Earlier(POLLS, 20) == [FIRST, SECOND]
  {
    hide Within, Earlier;
    ThreePolls(FIRST, SECOND, THIRD, 10, 20);
    ThreePolls(FIRST, SECOND, THIRD, 20, 30);
    ThreePolls(FIRST, SECOND, THIRD, 10, 10);
  }

  lemma {:induction false} ReportedOne(a: Option<int>)
    ensures Reported([a]) == if a.Some? then [a.value] else []
    ensures LastSome([a]) == a
  {
  }

  lemma ReportedTwo(a: Option<int>, b: Option<int>)
    ensures Reported([a, b]) == Reported([a]) + Reported([b])
    ensures LastSome([a, b]) == if b.Some? then b else a
    ensures Delta([a, b]) == if a.Some? && b.Some? then Rise(a.value, b.value) else 0
  {
    ReportedConcat([a], [b]);
    assert [a] + [b] == [a, b];
    LastSomeConcat([a], [b]);
    ReportedOne(a);
    ReportedOne(b);
    if a.Some? && b.Some? {
      RisesAppend([a.value], b.value);
      assert [a.value] + [b.value] == [a.value, b.value];
    }
  }

  /** A meter's column, in either of the two periods. */
  lemma SecondPeriod(history: seq<Raw>, k: nat, start: Time, end: Time, a: Raw, b: Raw, c: Raw)
    requires k < METERS && Earlier(history, start) == [a, b] && Within(history, start, end) == [c]
    ensures Period(history, k, start, end)
         == if c.meters[k].None? then None
            else Some(Delta([if b.meters[k].Some? then b.meters[k] else a.meters[k], c.meters[k]]))
  {
    assert Column([a, b], k) == [a.meters[k], b.meters[k]] && Column([c], k) == [c.meters[k]];
    hide Within, Earlier, Column, Delta;
    ReportedOne(c.meters[k]);
    assert [Baseline(history, k, start)] + [c.meters[k]] == [Baseline(history, k, start), c.meters[k]];
    ReportedTwo(a.meters[k], b.meters[k]);
    if c.meters[k].Some? && Baseline(history, k, start).None? {
      Unseeded(c.meters[k]);
    }
  }

  lemma FirstPeriod(history: seq<Raw>, k: nat, start: Time, end: Time, a: Raw, b: Raw)
    requires k < METERS && Earlier(history, start) == [a] && Within(history, start, end) == [b]
    ensures Period(history, k, start, end) == if b.meters[k].None? then None else Some(Delta([a.meters[k], b.meters[k]]))
  {
    assert Column([a], k) == [a.meters[k]] && Column([b], k) == [b.meters[k]];
    hide Within, Earlier, Column, Delta;
    ReportedOne(a.meters[k]);
    assert [a.meters[k]] + [b.meters[k]] == [a.meters[k], b.meters[k]];
    ReportedOne(b.meters[k]);
    if b.meters[k].Some? && a.meters[k].None? {
      Unseeded(b.meters[k]);
    }
  }

  lemma Unseeded(value: Option<int>)
    ensures Delta([None, value]) == Delta([value])
  {
    ReportedTwo(None, value);
    ReportedOne(None);
    ReportedOne(value);
  }

  /** The mono meter of the second period starts from before the first. */
  lemma PollPeriods(k: nat)
    requires k < METERS
    ensures Period(POLLS, k, 10, 20) == if k == 0 then Some(100) else None
    ensures Period(POLLS, k, 20, 30) == if k == 0 then Some(100) else if k == 1 then Some(200) else None
  {
    hide Period, Delta, Within, Earlier;
    PollsInPeriods();
    FirstPeriod(POLLS, k, 10, 20, FIRST, SECOND);
    SecondPeriod(POLLS, k, 20, 30, FIRST, SECOND, THIRD);
    ReportedTwo(FIRST.meters[k], SECOND.meters[k]);
    ReportedTwo(if SECOND.meters[k].Some? then SECOND.meters[k] else FIRST.meters[k], THIRD.meters[k]);
  }

  const PATCHY: Printer := Printer(1, POLLS)

  lemma PatchyPages()
    ensures InTimeOrder(POLLS)
    ensures TotalPages(PATCHY, 10, 20) == 100 && Unsplit(PATCHY, 10, 20) && SplitPages(PATCHY, 10, 20) == 0
    ensures TotalPages(PATCHY, 20, 30) == 100 && !Unsplit(PATCHY, 20, 30) && SplitPages(PATCHY, 20, 30) == 200
  {
    hide Period;
    PollPeriods(0);
    PollPeriods(1);
    PollPeriods(2);
  }

  lemma TwoPeriods(card: RateCard, p: Printer, start: Time, middle: Time, end: Time)
    ensures KnownOver(p, [start, middle, end]) == KnownPages(p, start, middle) + KnownPages(p, middle, end)
    ensures PrinterBilledOver(card, p, [start, middle, end])
         == BilledPages(PrinterLines(card, p, start, middle)) + BilledPages(PrinterLines(card, p, middle, end))
  {
    hide PrinterLines, KnownPages;
    var cuts, two := [start, middle, end], [start, middle];
    assert cuts[..2] == two;
    assert KnownOver(p, two) == KnownPages(p, start, middle);
    assert PrinterBilledOver(card, p, two) == BilledPages(PrinterLines(card, p, start, middle));
  }

  lemma OnePrinter(card: RateCard, p: Printer, cuts: seq<Time>)
    ensures AllKnownOver([p], cuts) == KnownOver(p, cuts)
    ensures PrintersBilledOver(card, [p], cuts) == PrinterBilledOver(card, p, cuts)
    ensures cuts != [] ==> AllKnownPages([p], First(cuts), Last(cuts)) == KnownPages(p, First(cuts), Last(cuts))
  {
    hide KnownOver, PrinterBilledOver, KnownPages;
    assert [p][..0] == [];
  }

  /** What consecutive invoices for one printer come to over two periods. */
  lemma TwoInvoices(card: RateCard, p: Printer, start: Time, middle: Time, end: Time)
    ensures BilledOver(card, [p], [start, middle, end])
         == BilledPages(PrinterLines(card, p, start, middle)) + BilledPages(PrinterLines(card, p, middle, end))
    ensures BilledOver(card, [p], [start, middle, end]) + DisclosedOver(card, [p], [start, middle, end])
         == KnownPages(p, start, middle) + KnownPages(p, middle, end)
    ensures AllKnownPages([p], start, end) == KnownPages(p, start, end)
  {
    hide PrinterLines, KnownPages, BilledOver, DisclosedOver, AllKnownPages, PrintersBilledOver, AllKnownOver, KnownOver,
         PrinterBilledOver;
    var cuts := [start, middle, end];
    TwoPeriods(card, p, start, middle, end);
    OnePrinter(card, p, cuts);
    InvoicesCoverKnown(card, [p], cuts);
    BilledOverByPrinter(card, [p], cuts);
  }

  /**
   * 200 pages printed, and invoices for 300: the first bills 100 unsplit pages as mono, the second
   * bills the mono meter's whole advance, which reaches back into the first.
   */
  lemma InvoicesCanOverlap(card: RateCard)
    requires card.policy == BillAsMono
    ensures InTimeOrder(POLLS) && AllKnownPages([PATCHY], 10, 30) == 200
    ensures BilledOver(card, [PATCHY], [10, 20, 30]) == 300 && DisclosedOver(card, [PATCHY], [10, 20, 30]) == 0
  {
    PatchyPages();
    StretchesAdd(PATCHY, 10, 20, 30);
    hide TotalPages, SplitPages, Unsplit;
    KnownIs(PATCHY, 10, 20);
    KnownIs(PATCHY, 20, 30);
    KnownIs(PATCHY, 10, 30);
    BilledIs(card, PATCHY, 10, 20);
    BilledIs(card, PATCHY, 20, 30);
    hide BilledOver, DisclosedOver, AllKnownPages, PrinterLines, KnownPages;
    TwoInvoices(card, PATCHY, 10, 20, 30);
  }
}
