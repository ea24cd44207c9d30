/**
 * Graduated volume pricing (central/billing.py, `tiered_cost`).  Rates and costs are whole numbers of
 * the rate column's last digit, a millionth of the currency unit, so every product and sum is exact.
 */
module Tiers {
  import opened Options
  import opened Sorting

  datatype Tier = Tier(upTo: int, rate: int)

  // ------------------------------------------------------------------------------------------
  // What a page costs
  // ------------------------------------------------------------------------------------------

  /** The lowest tier whose ceiling reaches the page; the first listed of equal ceilings. */
  function Covering(tiers: seq<Tier>, page: int): Option<Tier> {
    if tiers == [] then None
    else
      var rest := Covering(tiers[1..], page);
      if tiers[0].upTo >= page && (rest.None? || tiers[0].upTo <= rest.value.upTo) then Some(tiers[0]) else rest
  }

  function PageRate(tiers: seq<Tier>, base: int, page: int): int {
    match Covering(tiers, page)
    case None => base
    case Some(tier) => tier.rate
  }

  /** Pages 1 to `pages`, each at its own rate. */
  function PageByPage(tiers: seq<Tier>, base: int, pages: nat): int {
    if pages == 0 then 0 else PageByPage(tiers, base, pages - 1) + PageRate(tiers, base, pages)
  }

  ghost predicate IsCovering(tiers: seq<Tier>, page: int, found: Option<Tier>) {
    match found
    case None => forall t :: t in tiers ==> t.upTo < page
    case Some(tier) =>
      tier in tiers && tier.upTo >= page && forall t :: t in tiers && t.upTo >= page ==> tier.upTo <= t.upTo
  }

  lemma {:induction false} CoveringMeaning(tiers: seq<Tier>, page: int)
    ensures IsCovering(tiers, page, Covering(tiers, page))
  {
    if tiers != [] {
      CoveringMeaning(tiers[1..], page);
      assert forall t :: t in tiers <==> t == tiers[0] || t in tiers[1..];
    }
  }

  // ------------------------------------------------------------------------------------------
  // sorted(tiers, key=up_to)
  // ------------------------------------------------------------------------------------------

  predicate LowerCeiling(a: Tier, b: Tier) {
    a.upTo <= b.upTo
  }

  predicate Ascending(tiers: seq<Tier>) {
    SortedBy(tiers, LowerCeiling)
  }

  lemma {:induction false} InsertTierCovers(tier: Tier, tiers: seq<Tier>, page: int)
    requires Ascending(tiers)
    ensures Covering(Insert(tier, tiers, LowerCeiling), page) == Covering([tier] + tiers, page)
  {
    if tiers != [] && tier.upTo > tiers[0].upTo {
      InsertTierCovers(tier, tiers[1..], page);
      CoveringMeaning(tiers[1..], page);
      var rest := Insert(tier, tiers[1..], LowerCeiling);
      assert ([tiers[0]] + rest)[1..] == rest;
      assert ([tier] + tiers)[1..] == tiers && ([tier] + tiers[1..])[1..] == tiers[1..];
    }
  }

  /** Sorting leaves every page's tier alone. */
  lemma {:induction false} SortTiersCovers(tiers: seq<Tier>, page: int)
    ensures Covering(Sort(tiers, LowerCeiling), page) == Covering(tiers, page)
  {
    if tiers != [] {
      SortTiersCovers(tiers[1..], page);
      SortSorts(tiers[1..], LowerCeiling);
      InsertTierCovers(tiers[0], Sort(tiers[1..], LowerCeiling), page);
      assert ([tiers[0]] + Sort(tiers[1..], LowerCeiling))[1..] == Sort(tiers[1..], LowerCeiling);
    }
  }

  // ------------------------------------------------------------------------------------------
  // tiered_cost
  // ------------------------------------------------------------------------------------------

  /** A run of pages at one rate. */
  lemma {:induction false} FlatBand(tiers: seq<Tier>, base: int, from: nat, to: nat, rate: int)
    requires from <= to && forall page :: from < page <= to ==> PageRate(tiers, base, page) == rate
    ensures PageByPage(tiers, base, to) == PageByPage(tiers, base, from) + (to - from) * rate
  {
    if from < to {
      FlatBand(tiers, base, from, to - 1, rate);
    }
  }

  /** In ascending order, the first tier that reaches the page covers it. */
  lemma {:induction false} FirstReachingCovers(tiers: seq<Tier>, i: nat, page: int)
    requires Ascending(tiers) && i <= |tiers|
    requires forall j :: 0 <= j < i ==> tiers[j].upTo < page
    requires i < |tiers| ==> page <= tiers[i].upTo
    ensures Covering(tiers, page) == if i < |tiers| then Some(tiers[i]) else None
  {
    if i > 0 {
      FirstReachingCovers(tiers[1..], i - 1, page);
    } else if tiers != [] {
      CoveringMeaning(tiers[1..], page);
    }
  }

  /** The band a sorted tier adds above what is already consumed. */
  lemma BandOf(tiers: seq<Tier>, sorted: seq<Tier>, base: int, i: nat, consumed: nat, to: nat)
    requires sorted == Sort(tiers, LowerCeiling) && i <= |sorted| && consumed <= to
    requires forall j :: 0 <= j < i ==> sorted[j].upTo <= consumed
    requires i < |sorted| ==> to <= sorted[i].upTo
    ensures PageByPage(tiers, base, to)
         == PageByPage(tiers, base, consumed) + (to - consumed) * (if i < |sorted| then sorted[i].rate else base)
  {
    var rate := if i < |sorted| then sorted[i].rate else base;
    SortSorts(tiers, LowerCeiling);
    forall page | consumed < page <= to ensures PageRate(tiers, base, page) == rate {
      SortTiersCovers(tiers, page);
      FirstReachingCovers(sorted, i, page);
    }
    FlatBand(tiers, base, consumed, to, rate);
  }

  function Max(a: int, b: int): int {
    if a >= b then a else b
  }

  function Min(a: int, b: int): int {
    if a <= b then a else b
  }

  /** The graduated cost is the page-by-page cost, at full precision. */
  method TieredCost(pages: int, tiers: seq<Tier>, base: int) returns (cost: int)
    ensures cost == if pages <= 0 then 0 else PageByPage(tiers, base, pages)
  {
    if pages <= 0 {
      return 0;
    }
    var sorted := Sort(tiers, LowerCeiling);
    SortSorts(tiers, LowerCeiling);
    cost := 0;
    var remaining, consumed := pages, 0;
    for i := 0 to |sorted|
      invariant consumed >= 0 && remaining == pages - Min(pages, consumed)
      invariant forall j :: 0 <= j < i ==> sorted[j].upTo <= consumed
      invariant cost == PageByPage(tiers, base, pages - remaining)
      invariant remaining > 0
    {
      var band := Min(remaining, Max(0, sorted[i].upTo - consumed));
      if band > 0 {
        BandOf(tiers, sorted, base, i, consumed, consumed + band);
      }
      consumed := Max(consumed, sorted[i].upTo);
      if band > 0 {
        cost := cost + band * sorted[i].rate;
        remaining := remaining - band;
        if remaining == 0 {
          break;
        }
      }
    }
    if remaining > 0 {
      BandOf(tiers, sorted, base, |sorted|, consumed, pages);
      cost := cost + remaining * base;
    }
  }

  // ------------------------------------------------------------------------------------------
  // What the pricing promises
  // ------------------------------------------------------------------------------------------

  lemma {:induction false} SamePagesSameCost(a: seq<Tier>, b: seq<Tier>, base: int, pages: nat)
    requires forall page :: PageRate(a, base, page) == PageRate(b, base, page)
    ensures PageByPage(a, base, pages) == PageByPage(b, base, pages)
  {
    if pages > 0 {
      SamePagesSameCost(a, b, base, pages - 1);
    }
  }

  /** With one band per ceiling (`uq_rate_tier_card_kind_upto`) the order the tiers come in does not matter. */
  lemma OrderOfTiersIgnored(a: seq<Tier>, b: seq<Tier>, base: int, pages: nat)
    requires multiset(a) == multiset(b)
    requires forall s, t :: s in a && t in a && s.upTo == t.upTo ==> s == t
    ensures PageByPage(a, base, pages) == PageByPage(b, base, pages)
  {
    forall t ensures t in a <==> t in b {
      assert t in a <==> t in multiset(a);
      assert t in b <==> t in multiset(b);
    }
    forall page ensures PageRate(a, base, page) == PageRate(b, base, page) {
      CoveringMeaning(a, page);
      CoveringMeaning(b, page);
    }
    SamePagesSameCost(a, b, base, pages);
  }

  /** Cutting a band in two at the same rate, the open top band included, changes no price. */
  lemma SplittingABandIsFree(tiers: seq<Tier>, base: int, ceiling: int, pages: nat)
    requires forall t :: t in tiers ==> t.upTo != ceiling
    ensures PageByPage([Tier(ceiling, PageRate(tiers, base, ceiling))] + tiers, base, pages)
         == PageByPage(tiers, base, pages)
  {
    var cut := Tier(ceiling, PageRate(tiers, base, ceiling));
    var split := [cut] + tiers;
    forall page ensures PageRate(split, base, page) == PageRate(tiers, base, page) {
      assert split[1..] == tiers;
      CoveringMeaning(tiers, page);
      CoveringMeaning(tiers, ceiling);
      var here, there := Covering(tiers, page), Covering(tiers, ceiling);
      if page <= ceiling && (here.None? || ceiling < here.value.upTo) {
        CoveringUnique(tiers, page, ceiling);
      }
    }
    SamePagesSameCost(split, tiers, base, pages);
  }

  /** With no ceiling between two pages the same tier covers both. */
  lemma {:induction false} CoveringUnique(tiers: seq<Tier>, page: int, later: int)
    requires page <= later && forall t :: t in tiers && page <= t.upTo ==> later <= t.upTo
    ensures Covering(tiers, page) == Covering(tiers, later)
  {
    if tiers != [] {
      assert tiers[0] in tiers;
      CoveringUnique(tiers[1..], page, later);
    }
  }

  /** One more page never makes the bill go down. */
  lemma {:induction false} MorePagesNeverCheaper(tiers: seq<Tier>, base: int, fewer: nat, more: nat)
    requires fewer <= more && base >= 0 && forall t :: t in tiers ==> t.rate >= 0
    ensures PageByPage(tiers, base, fewer) <= PageByPage(tiers, base, more)
  {
    if fewer < more {
      MorePagesNeverCheaper(tiers, base, fewer, more - 1);
      CoveringMeaning(tiers, more);
    }
  }
}
