/**
 * What a reorder report should say (central/reorder.py): recommendations in order, rolled up per
 * client and per cartridge.  Values only; `Reorder` builds them from shared mutable objects.
 */
module OrderLines {
  import opened Options
  import opened Sorting
  import opened TextOrder

  const URGENCY_NOW := "order_now"
  const URGENCY_SOON := "order_soon"
  const UNKNOWN_MODEL := "unknown model"

  datatype Rec = Rec(
    clientId: int,
    clientName: string,
    printerLabel: string,
    model: string,
    supplyType: string,
    color: Option<string>,
    supplyId: int,
    supplyLabel: string,
    level: Option<real>,
    days: Option<real>,
    urgency: string)

  /** What counts as the same cartridge. */
  datatype Cartridge = Cartridge(model: string, supplyType: string, color: string)

  datatype LineKey = LineKey(client: int, cartridge: Cartridge)

  datatype Line = Line(
    model: string,
    supplyType: string,
    color: Option<string>,
    supplyLabel: string,
    quantity: nat,
    urgency: string,
    printers: seq<string>,
    soonest: Option<real>)

  datatype Group = Group(clientId: int, clientName: string, lines: seq<Line>, recs: seq<Rec>)

  function ModelName(r: Rec): string {
    if r.model == "" then UNKNOWN_MODEL else r.model
  }

  function CartridgeOf(r: Rec): Cartridge {
    Cartridge(ModelName(r), r.supplyType, GetOr(r.color, ""))
  }

  function KeyOf(r: Rec): LineKey {
    LineKey(r.clientId, CartridgeOf(r))
  }

  // ------------------------------------------------------------------------------------------
  // Orders
  // ------------------------------------------------------------------------------------------

  function Rank(urgency: string): int {
    if urgency == URGENCY_NOW then 0 else if urgency == URGENCY_SOON then 1 else 9
  }

  /** Known values before unknown ones. */
  predicate Sooner(a: Option<real>, b: Option<real>) {
    a.Some? && (b.None? || a.value < b.value)
  }

  predicate RecLe(a: Rec, b: Rec) {
    if Rank(a.urgency) != Rank(b.urgency) then Rank(a.urgency) < Rank(b.urgency)
    else if a.days != b.days then Sooner(a.days, b.days)
    else if a.level != b.level then Sooner(a.level, b.level)
    else a.supplyId <= b.supplyId
  }

  predicate LineLe(a: Line, b: Line) {
    if Rank(a.urgency) != Rank(b.urgency) then Rank(a.urgency) < Rank(b.urgency)
    else if a.soonest != b.soonest then Sooner(a.soonest, b.soonest)
    else if a.model != b.model then TextLess(a.model, b.model)
    else !TextLess(b.supplyLabel, a.supplyLabel)
  }

  function TotalUnits(lines: seq<Line>): nat {
    if lines == [] then 0 else lines[0].quantity + TotalUnits(lines[1..])
  }

  function UrgentUnits(lines: seq<Line>): nat {
    if lines == [] then 0
    else (if lines[0].urgency == URGENCY_NOW then lines[0].quantity else 0) + UrgentUnits(lines[1..])
  }

  predicate GroupLe(a: Group, b: Group) {
    if UrgentUnits(a.lines) != UrgentUnits(b.lines) then UrgentUnits(a.lines) > UrgentUnits(b.lines)
    else if TotalUnits(a.lines) != TotalUnits(b.lines) then TotalUnits(a.lines) > TotalUnits(b.lines)
    else !TextLess(b.clientName, a.clientName)
  }

  lemma RecLeIsOrder()
    ensures TotalPreorder(RecLe)
  {
  }

  lemma LineLeIsOrder()
    ensures TotalPreorder(LineLe)
  {
    TextIsOrdered();
    hide TextLess;
  }

  lemma GroupLeIsOrder()
    ensures TotalPreorder(GroupLe)
  {
    TextIsOrdered();
    hide TextLess, UrgentUnits, TotalUnits;
  }

  /** Recommendations sharing a supply id are the same recommendation. */
  ghost predicate OnePerSupply(recs: seq<Rec>) {
    forall a, b :: a in recs && b in recs && a.supplyId == b.supplyId ==> a == b
  }

  lemma SameFirst(a: seq<Rec>, b: seq<Rec>)
    requires multiset(a) == multiset(b) && OnePerSupply(a) && a != [] && |a| == |b|
    requires SortedBy(a, RecLe) && SortedBy(b, RecLe)
    ensures a[0] == b[0]
  {
    SameMembers(a, b);
    assert a[0] in a && b[0] in b;
    var i :| 0 <= i < |b| && b[i] == a[0];
    var j :| 0 <= j < |a| && a[j] == b[0];
    assert a[0].supplyId == b[0].supplyId;
  }

  lemma SortedTail(a: seq<Rec>)
    requires a != [] && SortedBy(a, RecLe)
    ensures SortedBy(a[1..], RecLe)
    ensures multiset(a[1..]) == multiset(a) - multiset{a[0]}
    ensures forall r :: r in a[1..] ==> r in a
  {
    hide RecLe;
    assert a == [a[0]] + a[1..];
  }

  lemma {:induction false} SortedOneWay(a: seq<Rec>, b: seq<Rec>)
    requires multiset(a) == multiset(b) && OnePerSupply(a)
    requires SortedBy(a, RecLe) && SortedBy(b, RecLe)
    ensures a == b
  {
    hide RecLe, SortedBy;
    SameMembers(a, b);
    if a != [] {
      SameFirst(a, b);
      SortedTail(a);
      SortedTail(b);
      SortedOneWay(a[1..], b[1..]);
      assert a == [a[0]] + a[1..] && b == [b[0]] + b[1..];
    }
  }

  /** The order is total: the same recommendations in any input order are listed the same way. */
  lemma ReportDoesNotReshuffle(a: seq<Rec>, b: seq<Rec>)
    requires multiset(a) == multiset(b)
    requires forall x, y :: x in a && y in a && x.supplyId == y.supplyId ==> x == y
    ensures Sort(a, RecLe) == Sort(b, RecLe)
    ensures GroupedByClient(a) == GroupedByClient(b)
  {
    hide Sort;
    RecLeIsOrder();
    SortPermutes(a, RecLe);
    SortPermutes(b, RecLe);
    SortSorts(a, RecLe);
    SortSorts(b, RecLe);
    SameMembers(a, Sort(a, RecLe));
    SortedOneWay(Sort(a, RecLe), Sort(b, RecLe));
  }

  // ------------------------------------------------------------------------------------------
  // Rolling up
  // ------------------------------------------------------------------------------------------

  function ClientOf(r: Rec): int {
    r.clientId
  }

  /** The recommendations with a given key. */
  function With<K(==)>(recs: seq<Rec>, key: Rec -> K, k: K): seq<Rec> {
    if recs == [] then []
    else
      var before, r := With(recs[..|recs| - 1], key, k), recs[|recs| - 1];
      if key(r) == k then before + [r] else before
  }

  /** The keys, by first appearance. */
  function Seen<K(==)>(recs: seq<Rec>, key: Rec -> K): seq<K> {
    if recs == [] then []
    else
      var before, r := Seen(recs[..|recs| - 1], key), recs[|recs| - 1];
      if key(r) in before then before else before + [key(r)]
  }

  /** An order line before its first member is counted. */
  function Opened(r: Rec): Line {
    Line(ModelName(r), r.supplyType, r.color, r.supplyLabel, 0, r.urgency, [], None)
  }

  function Counted(l: Line, r: Rec): Line {
    l.(quantity := l.quantity + 1,
       printers := if r.printerLabel in l.printers then l.printers else l.printers + [r.printerLabel],
       urgency := if r.urgency == URGENCY_NOW then URGENCY_NOW else l.urgency,
       soonest := if Sooner(r.days, l.soonest) then r.days else l.soonest)
  }

  function RolledUp(members: seq<Rec>): Line {
    if members == [] then Line("", "", None, "", 0, "", [], None)
    else
      var before, r := members[..|members| - 1], members[|members| - 1];
      Counted(if before == [] then Opened(r) else RolledUp(before), r)
  }

  /** One line for each of some cartridges of one client's recommendations. */
  function LinesFor(own: seq<Rec>, cartridges: seq<Cartridge>): seq<Line> {
    if cartridges == [] then []
    else
      LinesFor(own, cartridges[..|cartridges| - 1])
      + [RolledUp(With(own, CartridgeOf, cartridges[|cartridges| - 1]))]
  }

  function GroupFor(recs: seq<Rec>, client: int): Group {
    var own := With(recs, ClientOf, client);
    Group(client, if own == [] then "" else own[0].clientName, LinesFor(own, Seen(own, CartridgeOf)), own)
  }

  function GroupsFor(recs: seq<Rec>, clients: seq<int>): seq<Group> {
    if clients == [] then []
    else GroupsFor(recs, clients[..|clients| - 1]) + [GroupFor(recs, clients[|clients| - 1])]
  }

  function LinesSorted(groups: seq<Group>): seq<Group> {
    if groups == [] then []
    else LinesSorted(groups[..|groups| - 1]) + [groups[|groups| - 1].(lines := Sort(groups[|groups| - 1].lines, LineLe))]
  }

  function GroupedByClient(recs: seq<Rec>): seq<Group> {
    var sorted := Sort(recs, RecLe);
    LinesSorted(Sort(GroupsFor(sorted, Seen(sorted, ClientOf)), GroupLe))
  }

  // ------------------------------------------------------------------------------------------
  // What a line says about its members
  // ------------------------------------------------------------------------------------------

  ghost predicate LeastKnown(least: Option<real>, members: seq<Rec>) {
    && (forall r :: r in members ==> !Sooner(r.days, least))
    && (least.Some? ==> exists r :: r in members && r.days == least)
  }

  /** Quantity and urgency of a line, in terms of its members alone. */
  lemma {:induction false} RolledUpUrgency(members: seq<Rec>)
    requires members != []
    ensures var l := RolledUp(members);
            && l.quantity == |members|
            && (l.urgency == URGENCY_NOW <==> exists r :: r in members && r.urgency == URGENCY_NOW)
  {
    var before, r := members[..|members| - 1], members[|members| - 1];
    assert members == before + [r];
    if before != [] {
      RolledUpUrgency(before);
    }
  }

  /** The soonest known day. */
  lemma {:induction false} RolledUpSoonest(members: seq<Rec>)
    requires members != []
    ensures LeastKnown(RolledUp(members).soonest, members)
  {
    var before, r := members[..|members| - 1], members[|members| - 1];
    assert members == before + [r];
    if before != [] {
      RolledUpSoonest(before);
    }
  }

  /** A line's printers are its members', */
  lemma {:induction false} RolledUpPrinters(members: seq<Rec>, name: string)
    requires members != []
    ensures name in RolledUp(members).printers <==> exists i :: 0 <= i < |members| && members[i].printerLabel == name
  {
    var last := |members| - 1;
    var before := members[..last];
    if before != [] {
      RolledUpPrinters(before, name);
      assert forall i :: 0 <= i < last ==> before[i] == members[i];
    }
  }

  /** each once. */
  lemma {:induction false} RolledUpPrintersOnce(members: seq<Rec>)
    requires members != []
    ensures Distinct(RolledUp(members).printers)
  {
    if |members| > 1 {
      RolledUpPrintersOnce(members[..|members| - 1]);
    }
  }

  // ------------------------------------------------------------------------------------------
  // Nothing lost, nothing counted twice
  // ------------------------------------------------------------------------------------------

  lemma {:induction false} SeenMeaning<K>(recs: seq<Rec>, key: Rec -> K, k: K)
    ensures k in Seen(recs, key) <==> With(recs, key, k) != []
    ensures Distinct(Seen(recs, key))
  {
    if recs != [] {
      SeenMeaning(recs[..|recs| - 1], key, k);
    }
  }

  lemma {:induction false} WithMeaning<K>(recs: seq<Rec>, key: Rec -> K, k: K, r: Rec)
    ensures r in With(recs, key, k) <==> r in recs && key(r) == k
  {
    if recs != [] {
      WithMeaning(recs[..|recs| - 1], key, k, r);
      assert recs == recs[..|recs| - 1] + [recs[|recs| - 1]];
    }
  }

  /** How many recommendations have one of some keys. */
  function Parts<K(==)>(recs: seq<Rec>, key: Rec -> K, ks: seq<K>): nat {
    if ks == [] then 0 else Parts(recs, key, ks[..|ks| - 1]) + |With(recs, key, ks[|ks| - 1])|
  }

  lemma {:induction false} PartsStep<K>(recs: seq<Rec>, key: Rec -> K, ks: seq<K>)
    requires recs != [] && Distinct(ks)
    ensures Parts(recs, key, ks)
         == Parts(recs[..|recs| - 1], key, ks) + if key(recs[|recs| - 1]) in ks then 1 else 0
  {
    if ks != [] {
      var before, k := ks[..|ks| - 1], ks[|ks| - 1];
      assert ks == before + [k];
      PartsStep(recs, key, before);
    }
  }

  /** The parts of a list by key make up the list. */
  lemma {:induction false} PartsAddUp<K>(recs: seq<Rec>, key: Rec -> K)
    ensures Parts(recs, key, Seen(recs, key)) == |recs|
  {
    if recs != [] {
      var before, k := recs[..|recs| - 1], key(recs[|recs| - 1]);
      PartsAddUp(before, key);
      SeenMeaning(before, key, k);
      PartsStep(recs, key, Seen(before, key));
      if k !in Seen(before, key) {
        assert Seen(recs, key)[..|Seen(before, key)|] == Seen(before, key);
      }
    }
  }

  lemma {:induction false} UnitsAppend(lines: seq<Line>, l: Line)
    ensures TotalUnits(lines + [l]) == TotalUnits(lines) + l.quantity
  {
    if lines != [] {
      assert (lines + [l])[1..] == lines[1..] + [l];
      UnitsAppend(lines[1..], l);
    } else {
      assert ([l])[1..] == [];
    }
  }

  lemma {:induction false} LineQuantities(own: seq<Rec>, cartridges: seq<Cartridge>)
    ensures TotalUnits(LinesFor(own, cartridges)) == Parts(own, CartridgeOf, cartridges)
  {
    if cartridges != [] {
      var before, members := cartridges[..|cartridges| - 1], With(own, CartridgeOf, cartridges[|cartridges| - 1]);
      LineQuantities(own, before);
      UnitsAppend(LinesFor(own, before), RolledUp(members));
      if members != [] {
        RolledUpUrgency(members);
      }
    }
  }

  /** A client's line quantities sum to its recommendations. */
  lemma ClientAddsUp(recs: seq<Rec>, client: int)
    ensures TotalUnits(GroupFor(recs, client).lines) == |With(recs, ClientOf, client)|
  {
    var own := With(recs, ClientOf, client);
    LineQuantities(own, Seen(own, CartridgeOf));
    PartsAddUp(own, CartridgeOf);
  }

  function AllUnits(groups: seq<Group>): nat {
    if groups == [] then 0 else TotalUnits(groups[0].lines) + AllUnits(groups[1..])
  }

  lemma {:induction false} AllUnitsAppend(groups: seq<Group>, g: Group)
    ensures AllUnits(groups + [g]) == AllUnits(groups) + TotalUnits(g.lines)
  {
    if groups != [] {
      assert (groups + [g])[1..] == groups[1..] + [g];
      AllUnitsAppend(groups[1..], g);
    } else {
      assert ([g])[1..] == [];
    }
  }

  lemma {:induction false} ClientsAddUp(recs: seq<Rec>, clients: seq<int>)
    ensures AllUnits(GroupsFor(recs, clients)) == Parts(recs, ClientOf, clients)
  {
    if clients != [] {
      var before := clients[..|clients| - 1];
      ClientsAddUp(recs, before);
      AllUnitsAppend(GroupsFor(recs, before), GroupFor(recs, clients[|clients| - 1]));
      ClientAddsUp(recs, clients[|clients| - 1]);
    }
  }

  // ------------------------------------------------------------------------------------------
  // Sorting only permutes
  // ------------------------------------------------------------------------------------------

  lemma {:induction false} InsertUnits(l: Line, lines: seq<Line>)
    ensures TotalUnits(Insert(l, lines, LineLe)) == l.quantity + TotalUnits(lines)
    ensures UrgentUnits(Insert(l, lines, LineLe)) == (if l.urgency == URGENCY_NOW then l.quantity else 0) + UrgentUnits(lines)
  {
    hide LineLe;
    if lines == [] || LineLe(l, lines[0]) {
      assert ([l] + lines)[1..] == lines;
    } else {
      InsertUnits(l, lines[1..]);
    }
  }

  lemma {:induction false} SortUnits(lines: seq<Line>)
    ensures TotalUnits(Sort(lines, LineLe)) == TotalUnits(lines)
    ensures UrgentUnits(Sort(lines, LineLe)) == UrgentUnits(lines)
  {
    if lines != [] {
      SortUnits(lines[1..]);
      InsertUnits(lines[0], Sort(lines[1..], LineLe));
    }
  }

  lemma {:induction false} InsertAllUnits(g: Group, groups: seq<Group>)
    ensures AllUnits(Insert(g, groups, GroupLe)) == TotalUnits(g.lines) + AllUnits(groups)
  {
    hide GroupLe;
    if groups == [] || GroupLe(g, groups[0]) {
      assert ([g] + groups)[1..] == groups;
    } else {
      InsertAllUnits(g, groups[1..]);
    }
  }

  lemma {:induction false} SortAllUnits(groups: seq<Group>)
    ensures AllUnits(Sort(groups, GroupLe)) == AllUnits(groups)
  {
    if groups != [] {
      SortAllUnits(groups[1..]);
      InsertAllUnits(groups[0], Sort(groups[1..], GroupLe));
    }
  }

  lemma {:induction false} LinesSortedUnits(groups: seq<Group>)
    ensures AllUnits(LinesSorted(groups)) == AllUnits(groups)
  {
    if groups != [] {
      var before, g := groups[..|groups| - 1], groups[|groups| - 1];
      assert groups == before + [g];
      LinesSortedUnits(before);
      SortUnits(g.lines);
      AllUnitsAppend(before, g);
      AllUnitsAppend(LinesSorted(before), g.(lines := Sort(g.lines, LineLe)));
    }
  }

  /** Over all clients, the units to order are the recommendations, one each. */
  lemma OrderAddsUp(recs: seq<Rec>)
    ensures AllUnits(GroupedByClient(recs)) == |recs|
  {
    hide AllUnits, GroupsFor, Sort, LinesSorted, Seen, Parts;
    var sorted := Sort(recs, RecLe);
    var groups := GroupsFor(sorted, Seen(sorted, ClientOf));
    SortPermutes(recs, RecLe);
    SameMembers(sorted, recs);
    PartsAddUp(sorted, ClientOf);
    ClientsAddUp(sorted, Seen(sorted, ClientOf));
    SortAllUnits(groups);
    LinesSortedUnits(Sort(groups, GroupLe));
  }

  // ------------------------------------------------------------------------------------------
  // What the report holds
  // ------------------------------------------------------------------------------------------

  lemma {:induction false} LinesSortedLength(groups: seq<Group>)
    ensures |LinesSorted(groups)| == |groups|
  {
    if groups != [] {
      LinesSortedLength(groups[..|groups| - 1]);
    }
  }

  lemma {:induction false} GroupsForLength(recs: seq<Rec>, clients: seq<int>)
    ensures |GroupsFor(recs, clients)| == |clients|
  {
    if clients != [] {
      GroupsForLength(recs, clients[..|clients| - 1]);
    }
  }

  lemma {:induction false} LinesForLength(own: seq<Rec>, cartridges: seq<Cartridge>)
    ensures |LinesFor(own, cartridges)| == |cartridges|
  {
    if cartridges != [] {
      LinesForLength(own, cartridges[..|cartridges| - 1]);
    }
  }

  lemma {:induction false} LinesSortedAt(groups: seq<Group>, i: nat)
    requires i < |groups|
    ensures |LinesSorted(groups)| == |groups|
    ensures LinesSorted(groups)[i] == groups[i].(lines := Sort(groups[i].lines, LineLe))
  {
    hide Sort;
    var last := |groups| - 1;
    LinesSortedLength(groups[..last]);
    if i < last {
      LinesSortedAt(groups[..last], i);
    }
  }

  lemma {:induction false} GroupsForAt(recs: seq<Rec>, clients: seq<int>, i: nat)
    requires i < |clients|
    ensures |GroupsFor(recs, clients)| == |clients|
    ensures GroupsFor(recs, clients)[i] == GroupFor(recs, clients[i])
  {
    hide GroupFor;
    var last := |clients| - 1;
    GroupsForLength(recs, clients[..last]);
    if i < last {
      GroupsForAt(recs, clients[..last], i);
    }
  }

  lemma {:induction false} LinesForAt(own: seq<Rec>, cartridges: seq<Cartridge>, i: nat)
    requires i < |cartridges|
    ensures |LinesFor(own, cartridges)| == |cartridges|
    ensures LinesFor(own, cartridges)[i] == RolledUp(With(own, CartridgeOf, cartridges[i]))
  {
    hide RolledUp, With;
    var last := |cartridges| - 1;
    LinesForLength(own, cartridges[..last]);
    if i < last {
      LinesForAt(own, cartridges[..last], i);
    }
  }

  /** Each group is one client's: all of its recommendations, in order, and its lines, sorted. */
  lemma GroupMeaning(recs: seq<Rec>, i: nat)
    requires i < |GroupedByClient(recs)|
    ensures var g, sorted := GroupedByClient(recs)[i], Sort(recs, RecLe);
            && g.recs == With(sorted, ClientOf, g.clientId) != []
            && g.clientName == g.recs[0].clientName
            && g.lines == Sort(LinesFor(g.recs, Seen(g.recs, CartridgeOf)), LineLe)
            && TotalUnits(g.lines) == |g.recs|
  {
    hide Sort, GroupsFor, LinesFor, LinesSorted, With, Seen, TotalUnits;
    var sorted := Sort(recs, RecLe);
    var clients := Seen(sorted, ClientOf);
    var groups := GroupsFor(sorted, clients);
    SortPermutes(groups, GroupLe);
    SameMembers(Sort(groups, GroupLe), groups);
    LinesSortedLength(Sort(groups, GroupLe));
    LinesSortedAt(Sort(groups, GroupLe), i);
    assert Sort(groups, GroupLe)[i] in groups;
    var j :| 0 <= j < |groups| && groups[j] == Sort(groups, GroupLe)[i];
    GroupsForLength(sorted, clients);
    GroupsForAt(sorted, clients, j);
    assert clients[j] in clients;
    SeenMeaning(sorted, ClientOf, clients[j]);
    ClientAddsUp(sorted, clients[j]);
    SortUnits(groups[j].lines);
  }

  lemma {:induction false} WithSorted<K>(recs: seq<Rec>, key: Rec -> K, k: K)
    requires SortedBy(recs, RecLe)
    ensures SortedBy(With(recs, key, k), RecLe)
  {
    hide RecLe;
    if recs != [] {
      var before, last := recs[..|recs| - 1], recs[|recs| - 1];
      var kept := With(before, key, k);
      WithSorted(before, key, k);
      if key(last) == k {
        forall i | 0 <= i < |kept| ensures RecLe(kept[i], last) {
          WithMeaning(before, key, k, kept[i]);
          assert kept[i] in kept && kept[i] in before;
        }
      }
    }
  }

  /** Listed in order, a line's first member is its most urgent, and gives the line its urgency. */
  lemma {:induction false} RolledUpMostUrgent(members: seq<Rec>)
    requires members != [] && SortedBy(members, RecLe)
    ensures RolledUp(members).urgency == members[0].urgency
    ensures forall r :: r in members ==> Rank(members[0].urgency) <= Rank(r.urgency)
  {
    assert forall i :: 0 <= i < |members| ==> i == 0 || RecLe(members[0], members[i]);
    if |members| > 1 {
      RolledUpMostUrgent(members[..|members| - 1]);
    }
  }

  /** Each line is the roll-up of the client's recommendations of one cartridge. */
  lemma LineMeaning(recs: seq<Rec>, i: nat, j: nat) returns (cartridge: Cartridge)
    requires i < |GroupedByClient(recs)| && j < |GroupedByClient(recs)[i].lines|
    ensures var g := GroupedByClient(recs)[i];
            var l, members := g.lines[j], With(g.recs, CartridgeOf, cartridge);
            && members != [] && l == RolledUp(members)
            && forall r :: r in members ==> Rank(l.urgency) <= Rank(r.urgency)
  {
    hide GroupedByClient, Sort, LinesFor, Seen, With, RolledUp, Rank, RecLe, TotalUnits;
    GroupMeaning(recs, i);
    var g := GroupedByClient(recs)[i];
    var cartridges := Seen(g.recs, CartridgeOf);
    var lines := LinesFor(g.recs, cartridges);
    SortPermutes(lines, LineLe);
    SameMembers(g.lines, lines);
    assert g.lines[j] in lines;
    var k :| 0 <= k < |lines| && lines[k] == g.lines[j];
    LinesForLength(g.recs, cartridges);
    LinesForAt(g.recs, cartridges, k);
    cartridge := cartridges[k];
    SeenMeaning(g.recs, CartridgeOf, cartridge);
    RecLeIsOrder();
    SortSorts(recs, RecLe);
    WithSorted(Sort(recs, RecLe), ClientOf, g.clientId);
    WithSorted(g.recs, CartridgeOf, cartridge);
    RolledUpMostUrgent(With(g.recs, CartridgeOf, cartridge));
  }

  /** Urgent groups come first, and in each its urgent lines. */
  lemma ReportIsSorted(recs: seq<Rec>)
    ensures SortedBy(GroupedByClient(recs), GroupLe)
    ensures forall g :: g in GroupedByClient(recs) ==> SortedBy(g.lines, LineLe)
  {
    hide Sort, GroupsFor, LinesSorted, SortedBy, LineLe, TotalUnits, UrgentUnits;
    var sorted := Sort(recs, RecLe);
    var groups := GroupsFor(sorted, Seen(sorted, ClientOf));
    GroupLeIsOrder();
    SortSorts(groups, GroupLe);
    LinesSortedKeepsOrder(Sort(groups, GroupLe));
  }

  lemma LinesSortedKeepsOrder(groups: seq<Group>)
    requires SortedBy(groups, GroupLe)
    ensures SortedBy(LinesSorted(groups), GroupLe)
    ensures forall g :: g in LinesSorted(groups) ==> SortedBy(g.lines, LineLe)
  {
    hide Sort, LinesSorted, TotalUnits, UrgentUnits, LineLe;
    LineLeIsOrder();
    LinesSortedLength(groups);
    forall i | 0 <= i < |groups|
      ensures var g := LinesSorted(groups)[i];
              && g.clientName == groups[i].clientName && SortedBy(g.lines, LineLe)
              && TotalUnits(g.lines) == TotalUnits(groups[i].lines) && UrgentUnits(g.lines) == UrgentUnits(groups[i].lines)
    {
      LinesSortedAt(groups, i);
      SortUnits(groups[i].lines);
      SortSorts(groups[i].lines, LineLe);
    }
    forall i, j | 0 <= i < j < |groups| ensures GroupLe(LinesSorted(groups)[i], LinesSorted(groups)[j]) {
      assert GroupLe(groups[i], groups[j]);
    }
  }

  /** Every recommendation is in its client's group. */
  lemma EveryRecommendationIsListed(recs: seq<Rec>, r: Rec) returns (i: nat)
    requires r in recs
    ensures i < |GroupedByClient(recs)| && r in GroupedByClient(recs)[i].recs
  {
    hide Sort, GroupsFor, LinesFor, LinesSorted, With, Seen;
    var sorted := Sort(recs, RecLe);
    var clients := Seen(sorted, ClientOf);
    var groups := GroupsFor(sorted, clients);
    SortPermutes(recs, RecLe);
    SameMembers(recs, sorted);
    WithMeaning(sorted, ClientOf, r.clientId, r);
    SeenMeaning(sorted, ClientOf, r.clientId);
    var j :| 0 <= j < |clients| && clients[j] == r.clientId;
    GroupsForLength(sorted, clients);
    GroupsForAt(sorted, clients, j);
    SortPermutes(groups, GroupLe);
    SameMembers(groups, Sort(groups, GroupLe));
    assert groups[j] in Sort(groups, GroupLe);
    i :| 0 <= i < |Sort(groups, GroupLe)| && Sort(groups, GroupLe)[i] == groups[j];
    LinesSortedLength(Sort(groups, GroupLe));
    LinesSortedAt(Sort(groups, GroupLe), i);
  }

  // ------------------------------------------------------------------------------------------
  // The report, in the recommendations' own terms
  // ------------------------------------------------------------------------------------------

  /** The recommendation is counted by this line of the client: same model, type and colour, absent ones spelled out. */
  predicate IsMember(r: Rec, client: int, l: Line) {
    && r.clientId == client
    && (if r.model == "" then "unknown model" else r.model) == l.model
    && r.supplyType == l.supplyType
    && (if r.color.None? then "" else r.color.value) == (if l.color.None? then "" else l.color.value)
  }

  /** Some recommendations with their repetitions: the members of a line and no others. */
  ghost predicate AreMembers(members: seq<Rec>, recs: seq<Rec>, client: int, l: Line) {
    forall r :: multiset(members)[r] == if IsMember(r, client, l) then multiset(recs)[r] else 0
  }

  /** Most urgent, then soonest, then emptiest, unknown ones last, then by supply. */
  predicate ListedBefore(a: Rec, b: Rec) {
    var ra := if a.urgency == "order_now" then 0 else if a.urgency == "order_soon" then 1 else 9;
    var rb := if b.urgency == "order_now" then 0 else if b.urgency == "order_soon" then 1 else 9;
    || ra < rb
    || (ra == rb && a.days.Some? && (b.days.None? || a.days.value < b.days.value))
    || (ra == rb && a.days == b.days && a.level.Some? && (b.level.None? || a.level.value < b.level.value))
    || (ra == rb && a.days == b.days && a.level == b.level && a.supplyId < b.supplyId)
  }

  lemma ListedBeforeMeaning(a: Rec, b: Rec)
    ensures RecLe(a, b) <==> !ListedBefore(b, a)
  {
  }

  /** A line is written after the member listed first. */
  ghost predicate WrittenAfter(l: Line, first: Rec) {
    l.color == first.color && l.supplyLabel == first.supplyLabel && l.urgency == first.urgency
  }

  lemma {:induction false} RolledUpFields(members: seq<Rec>)
    requires members != [] && SortedBy(members, RecLe)
    ensures var l, first := RolledUp(members), members[0];
            && WrittenAfter(l, first)
            && l.model == (if first.model == "" then "unknown model" else first.model)
            && l.supplyType == first.supplyType
  {
    RolledUpMostUrgent(members);
    if |members| > 1 {
      RolledUpFields(members[..|members| - 1]);
    }
  }

  lemma {:induction false} WithCounts<K>(recs: seq<Rec>, key: Rec -> K, k: K, r: Rec)
    ensures multiset(With(recs, key, k))[r] == if key(r) == k then multiset(recs)[r] else 0
  {
    if recs != [] {
      var before, last := recs[..|recs| - 1], recs[|recs| - 1];
      WithCounts(before, key, k, r);
      assert recs == before + [last];
    }
  }

  lemma MembersOfLine(recs: seq<Rec>, client: int, cartridge: Cartridge, l: Line)
    requires forall r :: IsMember(r, client, l) <==> ClientOf(r) == client && CartridgeOf(r) == cartridge
    ensures AreMembers(With(With(Sort(recs, RecLe), ClientOf, client), CartridgeOf, cartridge), recs, client, l)
  {
    hide IsMember, Sort, With;
    var sorted := Sort(recs, RecLe);
    var own := With(sorted, ClientOf, client);
    SortPermutes(recs, RecLe);
    forall r ensures multiset(With(own, CartridgeOf, cartridge))[r] == if IsMember(r, client, l) then multiset(recs)[r] else 0 {
      WithCounts(sorted, ClientOf, client, r);
      WithCounts(own, CartridgeOf, cartridge, r);
    }
  }

  /** What one line says of its members, and which recommendations those are. */
  ghost predicate LineSays(l: Line, members: seq<Rec>) {
    && l.quantity == |members| > 0
    && (l.urgency == "order_now" <==> exists r :: r in members && r.urgency == "order_now")
    && (exists first :: first in members && WrittenAfter(l, first) && forall r :: r in members ==> !ListedBefore(r, first))
    && (forall name :: name in l.printers <==> exists r :: r in members && r.printerLabel == name)
    && (forall a, b :: 0 <= a < b < |l.printers| ==> l.printers[a] != l.printers[b])
    && (l.soonest.None? ==> forall r :: r in members ==> r.days.None?)
    && (l.soonest.Some? ==>
      && (exists r :: r in members && r.days == l.soonest)
      && (forall r :: r in members && r.days.Some? ==> l.soonest.value <= r.days.value))
  }

  lemma RolledUpSays(members: seq<Rec>)
    requires members != [] && SortedBy(members, RecLe)
    ensures LineSays(RolledUp(members), members)
  {
    var l, first := RolledUp(members), members[0];
    RolledUpUrgency(members);
    RolledUpFields(members);
    RolledUpSoonest(members);
    RolledUpPrintersOnce(members);
    forall name ensures name in l.printers <==> exists r :: r in members && r.printerLabel == name {
      RolledUpPrinters(members, name);
    }
    forall r | r in members ensures !ListedBefore(r, first) {
      var i :| 0 <= i < |members| && members[i] == r;
      ListedBeforeMeaning(first, r);
      ListedBeforeMeaning(r, r);
    }
    hide RolledUp, ListedBefore;
  }

  /** Every line, from the recommendations alone. */
  lemma LineInPlainTerms(recs: seq<Rec>, i: nat, j: nat) returns (members: seq<Rec>)
    requires i < |GroupedByClient(recs)| && j < |GroupedByClient(recs)[i].lines|
    ensures var g := GroupedByClient(recs)[i];
            AreMembers(members, recs, g.clientId, g.lines[j]) && LineSays(g.lines[j], members)
  {
    var cartridge := LineMeaning(recs, i, j);
    GroupMeaning(recs, i);
    var g := GroupedByClient(recs)[i];
    members := With(g.recs, CartridgeOf, cartridge);
    hide GroupedByClient, Sort, LinesFor, Seen, TotalUnits, LineSays;
    RecLeIsOrder();
    SortSorts(recs, RecLe);
    WithSorted(Sort(recs, RecLe), ClientOf, g.clientId);
    WithSorted(g.recs, CartridgeOf, cartridge);
    RolledUpSays(members);
    LineHasCartridge(g.recs, cartridge);
    MembersOfLine(recs, g.clientId, cartridge, g.lines[j]);
  }

  lemma LineHasCartridge(own: seq<Rec>, cartridge: Cartridge)
    requires With(own, CartridgeOf, cartridge) != [] && SortedBy(With(own, CartridgeOf, cartridge), RecLe)
    ensures var l := RolledUp(With(own, CartridgeOf, cartridge));
            && l.model == cartridge.model && l.supplyType == cartridge.supplyType && GetOr(l.color, "") == cartridge.color
            && forall r, client :: IsMember(r, client, l) <==> ClientOf(r) == client && CartridgeOf(r) == cartridge
  {
    var members := With(own, CartridgeOf, cartridge);
    RolledUpFields(members);
    WithMeaning(own, CartridgeOf, cartridge, members[0]);
    hide RolledUp, With, RecLe;
  }

  lemma CartridgeHasALine(own: seq<Rec>, r: Rec) returns (j: nat)
    requires r in own && SortedBy(own, RecLe)
    ensures var lines := Sort(LinesFor(own, Seen(own, CartridgeOf)), LineLe);
            j < |lines| && IsMember(r, r.clientId, lines[j])
  {
    hide Sort, With, Seen, IsMember, RolledUp, LinesFor;
    var cartridge, cartridges := CartridgeOf(r), Seen(own, CartridgeOf);
    WithMeaning(own, CartridgeOf, cartridge, r);
    SeenMeaning(own, CartridgeOf, cartridge);
    WithSorted(own, CartridgeOf, cartridge);
    LineHasCartridge(own, cartridge);
    var k :| 0 <= k < |cartridges| && cartridges[k] == cartridge;
    LinesForAt(own, cartridges, k);
    var lines := LinesFor(own, cartridges);
    SortPermutes(lines, LineLe);
    SameMembers(lines, Sort(lines, LineLe));
    assert lines[k] in Sort(lines, LineLe);
    j :| 0 <= j < |Sort(lines, LineLe)| && Sort(lines, LineLe)[j] == lines[k];
  }

  /** Every recommendation is a member of some line, */
  lemma EveryRecommendationHasALine(recs: seq<Rec>, r: Rec) returns (i: nat, j: nat)
    requires r in recs
    ensures i < |GroupedByClient(recs)| && j < |GroupedByClient(recs)[i].lines|
    ensures var g := GroupedByClient(recs)[i]; IsMember(r, g.clientId, g.lines[j])
  {
    hide GroupedByClient, Sort, With, Seen, TotalUnits, LinesFor, IsMember;
    i := EveryRecommendationIsListed(recs, r);
    GroupMeaning(recs, i);
    var own := GroupedByClient(recs)[i].recs;
    WithMeaning(Sort(recs, RecLe), ClientOf, GroupedByClient(recs)[i].clientId, r);
    RecLeIsOrder();
    SortSorts(recs, RecLe);
    WithSorted(Sort(recs, RecLe), ClientOf, GroupedByClient(recs)[i].clientId);
    j := CartridgeHasALine(own, r);
  }

  function LineCartridge(l: Line): Cartridge {
    Cartridge(l.model, l.supplyType, GetOr(l.color, ""))
  }

  lemma LinesHaveOwnCartridges(own: seq<Rec>)
    requires SortedBy(own, RecLe)
    ensures KeysDistinct(Sort(LinesFor(own, Seen(own, CartridgeOf)), LineLe), LineCartridge)
  {
    hide Sort, With, Seen, RolledUp, LinesFor, IsMember;
    var cartridges := Seen(own, CartridgeOf);
    var lines := LinesFor(own, cartridges);
    LinesForLength(own, cartridges);
    forall k | 0 <= k < |lines| ensures LineCartridge(lines[k]) == cartridges[k] {
      LinesForAt(own, cartridges, k);
      assert cartridges[k] in cartridges;
      SeenMeaning(own, CartridgeOf, cartridges[k]);
      WithSorted(own, CartridgeOf, cartridges[k]);
      LineHasCartridge(own, cartridges[k]);
    }
    SeenAreDistinct(own, CartridgeOf);
    SortKeepsKeysDistinct(lines, LineLe, LineCartridge);
  }

  lemma {:induction false} SeenAreDistinct<K>(recs: seq<Rec>, key: Rec -> K)
    ensures Distinct(Seen(recs, key))
  {
    if recs != [] {
      SeenAreDistinct(recs[..|recs| - 1], key);
    }
  }

  function GroupClient(g: Group): int {
    g.clientId
  }

  lemma GroupsHaveOwnClients(recs: seq<Rec>)
    ensures KeysDistinct(GroupedByClient(recs), GroupClient)
  {
    hide Sort, With, Seen, LinesFor, LinesSorted, GroupsFor;
    var sorted := Sort(recs, RecLe);
    var clients := Seen(sorted, ClientOf);
    var groups := GroupsFor(sorted, clients);
    GroupsForLength(sorted, clients);
    forall k | 0 <= k < |groups| ensures GroupClient(groups[k]) == clients[k] {
      GroupsForAt(sorted, clients, k);
    }
    SeenAreDistinct(sorted, ClientOf);
    SortKeepsKeysDistinct(groups, GroupLe, GroupClient);
    SortPermutes(groups, GroupLe);
    SameMembers(groups, Sort(groups, GroupLe));
    LinesSortedLength(Sort(groups, GroupLe));
    forall k | 0 <= k < |groups| ensures GroupClient(GroupedByClient(recs)[k]) == GroupClient(Sort(groups, GroupLe)[k]) {
      LinesSortedAt(Sort(groups, GroupLe), k);
    }
  }

  /** and of one only. */
  lemma OnlyOneLine(recs: seq<Rec>, r: Rec, i: nat, j: nat, m: nat, n: nat)
    requires i < |GroupedByClient(recs)| && j < |GroupedByClient(recs)[i].lines|
    requires m < |GroupedByClient(recs)| && n < |GroupedByClient(recs)[m].lines|
    requires IsMember(r, GroupedByClient(recs)[i].clientId, GroupedByClient(recs)[i].lines[j])
    requires IsMember(r, GroupedByClient(recs)[m].clientId, GroupedByClient(recs)[m].lines[n])
    ensures i == m && j == n
  {
    GroupsHaveOwnClients(recs);
    GroupMeaning(recs, i);
    hide GroupedByClient, Sort, With, Seen, TotalUnits, LinesFor;
    var report := GroupedByClient(recs);
    SameKeySamePlace(report, GroupClient, i, m);
    RecLeIsOrder();
    SortSorts(recs, RecLe);
    WithSorted(Sort(recs, RecLe), ClientOf, report[i].clientId);
    LinesHaveOwnCartridges(report[i].recs);
    SameKeySamePlace(report[i].lines, LineCartridge, j, n);
  }

  /**
   * Two recommendations are counted by one line iff they agree on client, on model, "" being the
   * unknown one, on supply type, and on colour, none being "".
   */
  lemma ShareALineIff(recs: seq<Rec>, a: Rec, b: Rec)
    requires a in recs && b in recs
    ensures (exists i: nat, j: nat :: i < |GroupedByClient(recs)| && j < |GroupedByClient(recs)[i].lines|
               && IsMember(a, GroupedByClient(recs)[i].clientId, GroupedByClient(recs)[i].lines[j])
               && IsMember(b, GroupedByClient(recs)[i].clientId, GroupedByClient(recs)[i].lines[j]))
         <==> && a.clientId == b.clientId
              && (if a.model == "" then "unknown model" else a.model) == (if b.model == "" then "unknown model" else b.model)
              && a.supplyType == b.supplyType
              && (if a.color.None? then "" else a.color.value) == (if b.color.None? then "" else b.color.value)
  {
    hide GroupedByClient;
    var i, j := EveryRecommendationHasALine(recs, a);
  }

  // ------------------------------------------------------------------------------------------
  // The order of the report
  // ------------------------------------------------------------------------------------------

  /** Units are line quantities added up, all of them or the urgent lines'. */
  lemma {:induction false} UnitsMeaning(a: seq<Line>, b: seq<Line>, l: Line)
    ensures TotalUnits([]) == UrgentUnits([]) == 0
    ensures TotalUnits([l]) == l.quantity && UrgentUnits([l]) == if l.urgency == "order_now" then l.quantity else 0
    ensures TotalUnits(a + b) == TotalUnits(a) + TotalUnits(b)
    ensures UrgentUnits(a + b) == UrgentUnits(a) + UrgentUnits(b)
  {
    assert [l][1..] == [];
    if a == [] {
      assert a + b == b;
    } else {
      UnitsMeaning(a[1..], b, l);
      assert (a + b)[1..] == a[1..] + b;
    }
  }

  /** Groups: most urgent units first, then most units, then by name; lines: urgency, soonest day, model, label. */
  lemma ReportOrder(recs: seq<Rec>)
    ensures forall i, j :: 0 <= i < j < |GroupedByClient(recs)| ==>
      var a, b := GroupedByClient(recs)[i], GroupedByClient(recs)[j];
      || UrgentUnits(a.lines) > UrgentUnits(b.lines)
      || (UrgentUnits(a.lines) == UrgentUnits(b.lines) && TotalUnits(a.lines) > TotalUnits(b.lines))
      || (UrgentUnits(a.lines) == UrgentUnits(b.lines) && TotalUnits(a.lines) == TotalUnits(b.lines)
          && !TextLess(b.clientName, a.clientName))
    ensures forall g :: g in GroupedByClient(recs) ==> forall i, j :: 0 <= i < j < |g.lines| ==>
      !LineBefore(g.lines[j], g.lines[i])
  {
    hide GroupedByClient, UrgentUnits, TotalUnits, TextLess;
    ReportIsSorted(recs);
    TextIsOrdered();
    forall g | g in GroupedByClient(recs) ensures forall i, j :: 0 <= i < j < |g.lines| ==> !LineBefore(g.lines[j], g.lines[i]) {
      assert SortedBy(g.lines, LineLe);
    }
  }

  predicate LineBefore(a: Line, b: Line) {
    var ra := if a.urgency == "order_now" then 0 else if a.urgency == "order_soon" then 1 else 9;
    var rb := if b.urgency == "order_now" then 0 else if b.urgency == "order_soon" then 1 else 9;
    || ra < rb
    || (ra == rb && a.soonest.Some? && (b.soonest.None? || a.soonest.value < b.soonest.value))
    || (ra == rb && a.soonest == b.soonest && TextLess(a.model, b.model))
    || (ra == rb && a.soonest == b.soonest && a.model == b.model && TextLess(a.supplyLabel, b.supplyLabel))
  }
}
