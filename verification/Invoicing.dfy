/** One client's invoice (central/billing.py, `_classify` and `build_invoice`).  Amounts are cents. */
module Invoicing {
  import opened Options
  import opened Rollup
  import opened Meters
  import opened Tiers
  import opened Money

  datatype MeterClass = Mono | Color

  datatype UnsplitPolicy = Exclude | BillAsMono

  datatype CardTier = CardTier(kind: MeterClass, tier: Tier)

  datatype RateCard = RateCard(
    client: nat, tiers: seq<CardTier>, monoRate: int, colorRate: int, policy: UnsplitPolicy, minimum: Option<int>)

  datatype Printer = Printer(id: nat, history: seq<Raw>)

  datatype Reason = TotalExceedsSplit | NoColorMeter | NoMonoMeter | NoReadings | UnsplitExcluded

  /** What of a printer's pages may be priced, and what is disclosed instead. */
  datatype Split = Split(mono: Option<nat>, color: Option<nat>, surplus: nat, reason: Option<Reason>)

  datatype Line = Line(printer: nat, kind: MeterClass, pages: nat, amount: int)

  datatype Unbilled = Unbilled(printer: nat, pages: nat, reason: Reason)

  datatype Invoice = Invoice(lines: seq<Line>, unbilled: seq<Unbilled>, subtotal: int, adjustment: int, total: int)

  datatype Error = PeriodEndsBeforeItStarts | NoSuchClient | NoActiveCard | ForeignCard

  datatype Result = Built(invoice: Invoice) | Refused(error: Error)

  function Surplus(total: Option<nat>, known: nat): nat {
    if GetOr(total, 0) > known then GetOr(total, 0) - known else 0
  }

  function Classify(total: Option<nat>, mono: Option<nat>, color: Option<nat>, policy: UnsplitPolicy): Split {
    match (mono, color)
    case (Some(m), Some(c)) =>
      var surplus := Surplus(total, m + c);
      Split(mono, color, surplus, if surplus > 0 then Some(TotalExceedsSplit) else None)
    case (Some(m), None) =>
      var surplus := Surplus(total, m);
      Split(mono, None, surplus, if surplus > 0 then Some(NoColorMeter) else None)
    case (None, Some(c)) =>
      var surplus := Surplus(total, c);
      Split(None, color, surplus, if surplus > 0 then Some(NoMonoMeter) else None)
    case (None, None) =>
      if total.None? then Split(None, None, 0, Some(NoReadings))
      else if total.value == 0 then Split(None, None, 0, None)
      else if policy == BillAsMono then Split(total, None, 0, None)
      else Split(None, None, total.value, Some(UnsplitExcluded))
  }

  // ------------------------------------------------------------------------------------------
  // What one printer contributes
  // ------------------------------------------------------------------------------------------

  function TiersFor(tiers: seq<CardTier>, kind: MeterClass): seq<Tier> {
    if tiers == [] then []
    else (if tiers[0].kind == kind then [tiers[0].tier] else []) + TiersFor(tiers[1..], kind)
  }

  function BaseRate(card: RateCard, kind: MeterClass): int {
    if kind == Mono then card.monoRate else card.colorRate
  }

  /** The exact cost of a line, in millionths, before the one rounding. */
  function ExactCost(card: RateCard, kind: MeterClass, pages: nat): int {
    PageByPage(TiersFor(card.tiers, kind), BaseRate(card, kind), pages)
  }

  /** A class that is unknown or printed nothing has no line. */
  function KindLine(card: RateCard, printer: nat, kind: MeterClass, pages: Option<nat>): seq<Line> {
    if GetOr(pages, 0) == 0 then []
    else [Line(printer, kind, pages.value, RoundMoney(ExactCost(card, kind, pages.value)))]
  }

  function SplitOf(card: RateCard, p: Printer, start: Time, end: Time): Split {
    Classify(Period(p.history, 0, start, end), Period(p.history, 1, start, end), Period(p.history, 2, start, end), card.policy)
  }

  function PrinterLines(card: RateCard, p: Printer, start: Time, end: Time): seq<Line> {
    var split := SplitOf(card, p, start, end);
    KindLine(card, p.id, Mono, split.mono) + KindLine(card, p.id, Color, split.color)
  }

  function PrinterUnbilled(card: RateCard, p: Printer, start: Time, end: Time): seq<Unbilled> {
    var split := SplitOf(card, p, start, end);
    if split.reason.None? then [] else [Unbilled(p.id, split.surplus, split.reason.value)]
  }

  function AllLines(card: RateCard, printers: seq<Printer>, start: Time, end: Time): seq<Line> {
    if printers == [] then []
    else AllLines(card, printers[..|printers| - 1], start, end) + PrinterLines(card, printers[|printers| - 1], start, end)
  }

  function AllUnbilled(card: RateCard, printers: seq<Printer>, start: Time, end: Time): seq<Unbilled> {
    if printers == [] then []
    else
      AllUnbilled(card, printers[..|printers| - 1], start, end) + PrinterUnbilled(card, printers[|printers| - 1], start, end)
  }

  function SumAmounts(lines: seq<Line>): int {
    if lines == [] then 0 else SumAmounts(lines[..|lines| - 1]) + lines[|lines| - 1].amount
  }

  // ------------------------------------------------------------------------------------------
  // build_invoice
  // ------------------------------------------------------------------------------------------

  datatype CardChoice = Chosen(card: RateCard) | NoCard(error: Error)

  /** The card an invoice is priced with, or why there is none. */
  function ChooseCard(client: nat, given: Option<RateCard>, active: Option<RateCard>): CardChoice {
    match given
    case None => if active.None? then NoCard(NoActiveCard) else Chosen(active.value)
    case Some(card) => if card.client != client then NoCard(ForeignCard) else Chosen(card)
  }

  /** An invoice under one card: its lines, its disclosures, and the larger of subtotal and minimum. */
  predicate Priced(card: RateCard, printers: seq<Printer>, start: Time, end: Time, invoice: Invoice) {
    && invoice.lines == AllLines(card, printers, start, end)
    && invoice.unbilled == AllUnbilled(card, printers, start, end)
    && invoice.subtotal == SumAmounts(invoice.lines)
    && invoice.adjustment == invoice.total - invoice.subtotal
    && (card.minimum.None? ==> invoice.total == invoice.subtotal)
    && (card.minimum.Some? ==> invoice.total == if invoice.subtotal < card.minimum.value then card.minimum.value else invoice.subtotal)
  }

  method BuildInvoice(client: nat, clientExists: bool, start: Time, end: Time,
                      given: Option<RateCard>, active: Option<RateCard>, printers: seq<Printer>)
    returns (result: Result)
    // Refused for the first reason that applies.
    ensures end <= start ==> result == Refused(PeriodEndsBeforeItStarts)
    ensures end > start && !clientExists ==> result == Refused(NoSuchClient)
    ensures end > start && clientExists && given.None? && active.None? ==> result == Refused(NoActiveCard)
    ensures end > start && clientExists && given.Some? && given.value.client != client ==> result == Refused(ForeignCard)
    // Otherwise priced with the card given, or the active one.
    ensures end > start && clientExists && given.None? && active.Some? ==>
      result.Built? && Priced(active.value, printers, start, end, result.invoice)
    ensures end > start && clientExists && given.Some? && given.value.client == client ==>
      result.Built? && Priced(given.value, printers, start, end, result.invoice)
  {
    if end <= start {
      return Refused(PeriodEndsBeforeItStarts);
    }
    if !clientExists {
      return Refused(NoSuchClient);
    }
    var choice := ChooseCard(client, given, active);
    if choice.NoCard? {
      return Refused(choice.error);
    }
    var lines, unbilled := PriceAll(choice.card, printers, start, end);
    var subtotal := Subtotal(lines);
    var adjustment := 0;
    if choice.card.minimum.Some? && subtotal < choice.card.minimum.value {
      adjustment := choice.card.minimum.value - subtotal;
    }
    result := Built(Invoice(lines, unbilled, subtotal, adjustment, subtotal + adjustment));
  }

  method PriceAll(card: RateCard, printers: seq<Printer>, start: Time, end: Time)
    returns (lines: seq<Line>, unbilled: seq<Unbilled>)
    ensures lines == AllLines(card, printers, start, end)
    ensures unbilled == AllUnbilled(card, printers, start, end)
  {
    hide PrinterLines, PrinterUnbilled;
    lines, unbilled := [], [];
    for i := 0 to |printers|
      invariant lines == AllLines(card, printers[..i], start, end)
      invariant unbilled == AllUnbilled(card, printers[..i], start, end)
    {
      assert printers[..i + 1][..i] == printers[..i];
      var more, undisclosed := PricePrinter(card, printers[i], start, end);
      lines, unbilled := lines + more, unbilled + undisclosed;
    }
    assert printers[..|printers|] == printers;
  }

  method Subtotal(lines: seq<Line>) returns (subtotal: int)
    ensures subtotal == SumAmounts(lines)
  {
    subtotal := 0;
    for j := 0 to |lines|
      invariant subtotal == SumAmounts(lines[..j])
    {
      assert lines[..j + 1][..j] == lines[..j];
      subtotal := subtotal + lines[j].amount;
    }
    assert lines[..|lines|] == lines;
  }

  /** The lines and the disclosure of one printer. */
  method PricePrinter(card: RateCard, p: Printer, start: Time, end: Time) returns (lines: seq<Line>, unbilled: seq<Unbilled>)
    ensures lines == PrinterLines(card, p, start, end)
    ensures unbilled == PrinterUnbilled(card, p, start, end)
  {
    var meters := PeriodMeters(p.history, start, end);
    var split := Classify(meters[0], meters[1], meters[2], card.policy);
    var mono := PriceKind(card, p.id, Mono, split.mono);
    var color := PriceKind(card, p.id, Color, split.color);
    lines := mono + color;
    unbilled := if split.reason.None? then [] else [Unbilled(p.id, split.surplus, split.reason.value)];
  }

  method PriceKind(card: RateCard, printer: nat, kind: MeterClass, pages: Option<nat>) returns (lines: seq<Line>)
    ensures lines == KindLine(card, printer, kind, pages)
  {
    if pages.None? || pages.value == 0 {
      return [];
    }
    var cost := TieredCost(pages.value, TiersFor(card.tiers, kind), BaseRate(card, kind));
    lines := [Line(printer, kind, pages.value, RoundMoney(cost))];
  }

  // ------------------------------------------------------------------------------------------
  // Conservation
  // ------------------------------------------------------------------------------------------

  function BilledPages(lines: seq<Line>): nat {
    if lines == [] then 0 else BilledPages(lines[..|lines| - 1]) + lines[|lines| - 1].pages
  }

  function UnbilledPages(items: seq<Unbilled>): nat {
    if items == [] then 0 else UnbilledPages(items[..|items| - 1]) + items[|items| - 1].pages
  }

  /** The pages a printer is known to have printed: its total, or its split if that is more. */
  function KnownPages(p: Printer, start: Time, end: Time): nat {
    var total, mono, color := GetOr(Period(p.history, 0, start, end), 0), GetOr(Period(p.history, 1, start, end), 0),
                              GetOr(Period(p.history, 2, start, end), 0);
    if total > mono + color then total else mono + color
  }

  function AllKnownPages(printers: seq<Printer>, start: Time, end: Time): nat {
    if printers == [] then 0
    else AllKnownPages(printers[..|printers| - 1], start, end) + KnownPages(printers[|printers| - 1], start, end)
  }

  lemma {:induction false} BilledConcat(a: seq<Line>, b: seq<Line>)
    ensures BilledPages(a + b) == BilledPages(a) + BilledPages(b)
  {
    if b == [] {
      assert a + b == a;
    } else {
      BilledConcat(a, b[..|b| - 1]);
      assert (a + b)[..|a + b| - 1] == a + b[..|b| - 1];
    }
  }

  lemma {:induction false} UnbilledConcat(a: seq<Unbilled>, b: seq<Unbilled>)
    ensures UnbilledPages(a + b) == UnbilledPages(a) + UnbilledPages(b)
  {
    if b == [] {
      assert a + b == a;
    } else {
      UnbilledConcat(a, b[..|b| - 1]);
      assert (a + b)[..|a + b| - 1] == a + b[..|b| - 1];
    }
  }

  lemma KindLinePages(card: RateCard, printer: nat, kind: MeterClass, pages: Option<nat>)
    ensures BilledPages(KindLine(card, printer, kind, pages)) == GetOr(pages, 0)
  {
  }

  lemma PrinterPagesConserved(card: RateCard, p: Printer, start: Time, end: Time)
    ensures BilledPages(PrinterLines(card, p, start, end)) + UnbilledPages(PrinterUnbilled(card, p, start, end))
         == KnownPages(p, start, end)
  {
    hide Period;
    var split := SplitOf(card, p, start, end);
    KindLinePages(card, p.id, Mono, split.mono);
    KindLinePages(card, p.id, Color, split.color);
    BilledConcat(KindLine(card, p.id, Mono, split.mono), KindLine(card, p.id, Color, split.color));
    var items := PrinterUnbilled(card, p, start, end);
    if items != [] {
      assert items[..0] == [];
    }
  }

  /** Over the whole invoice no known page disappears: it is billed, or disclosed as unbilled. */
  lemma {:induction false} PagesConserved(card: RateCard, printers: seq<Printer>, start: Time, end: Time)
    ensures BilledPages(AllLines(card, printers, start, end)) + UnbilledPages(AllUnbilled(card, printers, start, end))
         == AllKnownPages(printers, start, end)
  {
    if printers != [] {
      var rest, last := printers[..|printers| - 1], printers[|printers| - 1];
      PagesConserved(card, rest, start, end);
      PrinterPagesConserved(card, last, start, end);
      BilledConcat(AllLines(card, rest, start, end), PrinterLines(card, last, start, end));
      UnbilledConcat(AllUnbilled(card, rest, start, end), PrinterUnbilled(card, last, start, end));
    }
  }

  /** An invoice has the lines and disclosures of its printers, and no others. */
  lemma {:induction false} EveryPrinterIsInvoiced(card: RateCard, printers: seq<Printer>, start: Time, end: Time)
    ensures forall line :: line in AllLines(card, printers, start, end) <==>
      exists p :: p in printers && line in PrinterLines(card, p, start, end)
    ensures forall item :: item in AllUnbilled(card, printers, start, end) <==>
      exists p :: p in printers && item in PrinterUnbilled(card, p, start, end)
  {
    hide PrinterLines, PrinterUnbilled;
    if printers != [] {
      EveryPrinterIsInvoiced(card, printers[..|printers| - 1], start, end);
      assert printers == printers[..|printers| - 1] + [printers[|printers| - 1]];
    }
  }

  /** The subtotal is every line's amount, once. */
  lemma {:induction false} AmountsAddUp(a: seq<Line>, b: seq<Line>)
    ensures SumAmounts(a + b) == SumAmounts(a) + SumAmounts(b)
    ensures |b| == 1 ==> SumAmounts(b) == b[0].amount
  {
    if b == [] {
      assert a + b == a;
    } else {
      AmountsAddUp(a, b[..|b| - 1]);
      assert (a + b)[..|a + b| - 1] == a + b[..|b| - 1];
    }
  }

  /** The meter of a class, as the device reported it in the period. */
  function MeterOf(p: Printer, kind: MeterClass, start: Time, end: Time): Option<nat> {
    Period(p.history, if kind == Mono then 1 else 2, start, end)
  }

  /**
   * A class the device never reported is billed exactly when it is mono, neither class was reported,
   * pages were printed, and the card says unsplit pages are mono pages.
   */
  lemma UnreportedClassBilledIff(card: RateCard, p: Printer, kind: MeterClass, start: Time, end: Time)
    requires MeterOf(p, kind, start, end).None?
    ensures (exists line :: line in PrinterLines(card, p, start, end) && line.kind == kind) <==>
      && kind == Mono && card.policy == BillAsMono && MeterOf(p, Color, start, end).None?
      && GetOr(Period(p.history, 0, start, end), 0) > 0
  {
    hide Period;
    var split := SplitOf(card, p, start, end);
    var pages := if kind == Mono then split.mono else split.color;
    var own := KindLine(card, p.id, kind, pages);
    if GetOr(pages, 0) > 0 {
      assert own[0] in PrinterLines(card, p, start, end) && own[0].kind == kind;
    }
  }

  /** A reported class is billed its own pages at its own rates, in one line, iff there are any. */
  lemma ReportedClassBilled(card: RateCard, p: Printer, kind: MeterClass, start: Time, end: Time)
    requires MeterOf(p, kind, start, end).Some?
    ensures var pages := MeterOf(p, kind, start, end).value;
            var line := Line(p.id, kind, pages, RoundMoney(ExactCost(card, kind, pages)));
            && (forall l :: l in PrinterLines(card, p, start, end) && l.kind == kind ==> l == line)
            && (line in PrinterLines(card, p, start, end) <==> pages > 0)
  {
    hide Period, ExactCost, RoundMoney;
    var split := SplitOf(card, p, start, end);
    var own := KindLine(card, p.id, kind, if kind == Mono then split.mono else split.color);
    if own != [] {
      assert own[0] in PrinterLines(card, p, start, end);
    }
  }

  /** A printer is disclosed iff it reported nothing at all or some of its pages have no known class. */
  lemma DisclosedIff(card: RateCard, p: Printer, start: Time, end: Time)
    ensures PrinterUnbilled(card, p, start, end) != [] <==>
      || (Period(p.history, 0, start, end).None? && Period(p.history, 1, start, end).None? && Period(p.history, 2, start, end).None?)
      || BilledPages(PrinterLines(card, p, start, end)) < KnownPages(p, start, end)
  {
    hide Period;
    PrinterPagesConserved(card, p, start, end);
    var items := PrinterUnbilled(card, p, start, end);
    if items != [] {
      assert items[..|items| - 1] == [];
    }
  }

  /** Why: what of the printer's meters is missing, and what its pages are. */
  lemma DisclosedReason(card: RateCard, p: Printer, start: Time, end: Time, item: Unbilled)
    requires item in PrinterUnbilled(card, p, start, end)
    ensures var total, mono, color := Period(p.history, 0, start, end), Period(p.history, 1, start, end), Period(p.history, 2, start, end);
            && item.printer == p.id
            && (item.reason == TotalExceedsSplit <==> mono.Some? && color.Some?)
            && (item.reason == NoColorMeter <==> mono.Some? && color.None?)
            && (item.reason == NoMonoMeter <==> mono.None? && color.Some?)
            && (item.reason == NoReadings <==> mono.None? && color.None? && total.None?)
            && (item.reason == UnsplitExcluded <==> mono.None? && color.None? && total.Some?)
            && (item.reason == NoReadings <==> item.pages == 0)
  {
    hide Period;
  }

  // ------------------------------------------------------------------------------------------
  // Prices, in the card's own terms
  // ------------------------------------------------------------------------------------------

  /** A page of a class costs the rate of the lowest of that class's tiers that reaches it, else the class's rate. */
  ghost predicate PageCosts(card: RateCard, kind: MeterClass, page: int, rate: int) {
    || (exists t :: t in card.tiers && LowestReaching(card, kind, page, t) && t.tier.rate == rate)
    || (&& (forall t :: t in card.tiers && t.kind == kind ==> t.tier.upTo < page)
        && rate == match kind case Mono => card.monoRate case Color => card.colorRate)
  }

  ghost predicate LowestReaching(card: RateCard, kind: MeterClass, page: int, t: CardTier) {
    && t.kind == kind && t.tier.upTo >= page
    && forall u :: u in card.tiers && u.kind == kind && u.tier.upTo >= page ==> t.tier.upTo <= u.tier.upTo
  }

  /** The whole cents nearest to a cost in millionths, a tie going away from zero. */
  predicate NearestCents(cost: int, cents: int) {
    if cost >= 0 then 10000 * cents - 5000 <= cost < 10000 * cents + 5000
    else 10000 * cents - 5000 < cost <= 10000 * cents + 5000
  }

  function Sum(rates: seq<int>): int {
    if rates == [] then 0 else Sum(rates[..|rates| - 1]) + rates[|rates| - 1]
  }

  lemma {:induction false} TiersForMeaning(tiers: seq<CardTier>, kind: MeterClass, tier: Tier)
    ensures tier in TiersFor(tiers, kind) <==> CardTier(kind, tier) in tiers
  {
    if tiers != [] {
      TiersForMeaning(tiers[1..], kind, tier);
      assert tiers == [tiers[0]] + tiers[1..];
    }
  }

  lemma PageRateIsCost(card: RateCard, kind: MeterClass, page: int)
    ensures PageCosts(card, kind, page, PageRate(TiersFor(card.tiers, kind), BaseRate(card, kind), page))
  {
    var tiers := TiersFor(card.tiers, kind);
    CoveringMeaning(tiers, page);
    forall t: Tier ensures t in tiers <==> CardTier(kind, t) in card.tiers {
      TiersForMeaning(card.tiers, kind, t);
    }
    var found := Covering(tiers, page);
    hide TiersFor, Covering;
    forall u | u in card.tiers && u.kind == kind ensures u.tier in tiers {
      assert u == CardTier(kind, u.tier);
    }
    if found.Some? {
      assert LowestReaching(card, kind, page, CardTier(kind, found.value));
    }
  }

  lemma {:induction false} CostOfPages(card: RateCard, kind: MeterClass, pages: nat) returns (rates: seq<int>)
    ensures |rates| == pages && Sum(rates) == ExactCost(card, kind, pages)
    ensures forall i :: 0 <= i < pages ==> PageCosts(card, kind, i + 1, rates[i])
  {
    hide PageCosts, PageRate;
    rates := [];
    if pages > 0 {
      var before := CostOfPages(card, kind, pages - 1);
      PageRateIsCost(card, kind, pages);
      var rate := PageRate(TiersFor(card.tiers, kind), BaseRate(card, kind), pages);
      rates := before + [rate];
      assert rates[..pages - 1] == before;
    }
  }

  lemma RoundedIsNearest(micros: int)
    ensures NearestCents(micros, RoundMoney(micros))
  {
    RoundMoneyIsHalfUp(micros);
    RoundMoneyIsHalfUp(-micros);
  }

  /** A line's amount is the sum of its pages' rates, to the nearest cent. */
  lemma LineIsPricedByPage(card: RateCard, p: Printer, start: Time, end: Time, line: Line) returns (rates: seq<int>)
    requires line in PrinterLines(card, p, start, end)
    ensures line.printer == p.id && line.pages > 0 && |rates| == line.pages
    ensures forall i :: 0 <= i < |rates| ==> PageCosts(card, line.kind, i + 1, rates[i])
    ensures NearestCents(Sum(rates), line.amount)
  {
    hide Period, RoundMoney, ExactCost, PageCosts, NearestCents;
    RoundedIsNearest(ExactCost(card, line.kind, line.pages));
    rates := CostOfPages(card, line.kind, line.pages);
  }

  lemma {:induction false} FlatCost(card: RateCard, kind: MeterClass, pages: nat)
    requires forall t :: t in card.tiers ==> t.kind != kind
    ensures ExactCost(card, kind, pages) == pages * match kind case Mono => card.monoRate case Color => card.colorRate
  {
    NoTiers(card.tiers, kind);
    if pages > 0 {
      FlatCost(card, kind, pages - 1);
    }
  }

  lemma {:induction false} NoTiers(tiers: seq<CardTier>, kind: MeterClass)
    requires forall t :: t in tiers ==> t.kind != kind
    ensures TiersFor(tiers, kind) == []
  {
    if tiers != [] {
      NoTiers(tiers[1..], kind);
    }
  }

  /** Without tiers of its class a mono page costs the mono rate and a colour page the colour rate. */
  lemma FlatLine(card: RateCard, p: Printer, start: Time, end: Time, line: Line)
    requires line in PrinterLines(card, p, start, end) && forall t :: t in card.tiers ==> t.kind != line.kind
    ensures line.kind == Mono ==> NearestCents(line.pages * card.monoRate, line.amount)
    ensures line.kind == Color ==> NearestCents(line.pages * card.colorRate, line.amount)
  {
    hide Period, RoundMoney, ExactCost, NearestCents;
    RoundedIsNearest(ExactCost(card, line.kind, line.pages));
    FlatCost(card, line.kind, line.pages);
  }

  /** Two cards that differ in nothing of this class: its rate, its tiers, and what unsplit pages are. */
  ghost predicate SameForKind(a: RateCard, b: RateCard, kind: MeterClass) {
    && (kind == Mono ==> a.monoRate == b.monoRate) && (kind == Color ==> a.colorRate == b.colorRate)
    && a.policy == b.policy
    && (forall t :: t in a.tiers && t.kind == kind ==> t in b.tiers)
    && (forall t :: t in b.tiers && t.kind == kind ==> t in a.tiers)
    && (forall s, t :: s in a.tiers && t in a.tiers && s.kind == t.kind == kind && s.tier.upTo == t.tier.upTo ==> s == t)
  }

  /** The rate and tiers of the other class never change a line. */
  lemma OtherClassIgnored(a: RateCard, b: RateCard, p: Printer, start: Time, end: Time, line: Line)
    requires SameForKind(a, b, line.kind) && line in PrinterLines(a, p, start, end)
    ensures line in PrinterLines(b, p, start, end)
  {
    SameCost(a, b, line.kind, line.pages);
    hide Period, RoundMoney, ExactCost, SameForKind;
    assert a.policy == b.policy by {
      PolicyIsSame(a, b, line.kind);
    }
    assert SplitOf(a, p, start, end) == SplitOf(b, p, start, end);
  }

  lemma PolicyIsSame(a: RateCard, b: RateCard, kind: MeterClass)
    requires SameForKind(a, b, kind)
    ensures a.policy == b.policy
  {
  }

  lemma SameCost(a: RateCard, b: RateCard, kind: MeterClass, pages: nat)
    requires SameForKind(a, b, kind)
    ensures ExactCost(a, kind, pages) == ExactCost(b, kind, pages)
  {
    var tiersA, tiersB := TiersFor(a.tiers, kind), TiersFor(b.tiers, kind);
    forall t: Tier ensures t in tiersA <==> t in tiersB {
      TiersForMeaning(a.tiers, kind, t);
      TiersForMeaning(b.tiers, kind, t);
    }
    forall s: Tier, t: Tier | s in tiersA && t in tiersA && s.upTo == t.upTo ensures s == t {
      TiersForMeaning(a.tiers, kind, s);
      TiersForMeaning(a.tiers, kind, t);
      assert CardTier(kind, s) == CardTier(kind, t);
    }
    var base := BaseRate(a, kind);
    hide TiersFor;
    forall page ensures PageRate(tiersA, base, page) == PageRate(tiersB, base, page) {
      CoveringMeaning(tiersA, page);
      CoveringMeaning(tiersB, page);
    }
    SamePagesSameCost(tiersA, tiersB, base, pages);
  }

  // ------------------------------------------------------------------------------------------
  // Rounding
  // ------------------------------------------------------------------------------------------

  function SumExact(card: RateCard, lines: seq<Line>): int {
    if lines == [] then 0
    else
      var last := lines[|lines| - 1];
      SumExact(card, lines[..|lines| - 1]) + ExactCost(card, last.kind, last.pages)
  }

  predicate RoundedLines(card: RateCard, lines: seq<Line>) {
    forall line :: line in lines ==> line.amount == RoundMoney(ExactCost(card, line.kind, line.pages))
  }

  lemma {:induction false} LinesAreRounded(card: RateCard, printers: seq<Printer>, start: Time, end: Time)
    ensures RoundedLines(card, AllLines(card, printers, start, end))
  {
    hide Period, RoundMoney, ExactCost;
    if printers != [] {
      LinesAreRounded(card, printers[..|printers| - 1], start, end);
    }
  }

  /** The printed subtotal is within half a cent a line of the exact cost of the same pages. */
  lemma {:induction false} SubtotalWithinHalfCentPerLine(card: RateCard, lines: seq<Line>)
    requires RoundedLines(card, lines)
    ensures -5000 * |lines| <= 10000 * SumAmounts(lines) - SumExact(card, lines) <= 5000 * |lines|
  {
    if lines != [] {
      var last := lines[|lines| - 1];
      SubtotalWithinHalfCentPerLine(card, lines[..|lines| - 1]);
      RoundMoneyWithinHalfCent(ExactCost(card, last.kind, last.pages));
      assert last in lines;
    }
  }
}
