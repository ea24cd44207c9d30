/**
 * `group_by_client` as it is written (central/reorder.py:526-581): one pass over the sorted
 * recommendations that mutates order lines reached both from a dictionary and from their group.
 */
module Reorder {
  import opened Options
  import opened OrderLines
  import opened Sorting

  class CartridgeLine {
    var model: string
    var supplyType: string
    var color: Option<string>
    var supplyLabel: string
    var quantity: nat
    var urgency: string
    var printers: seq<string>
    var soonest: Option<real>

    function Value(): Line
      reads this
    {
      Line(model, supplyType, color, supplyLabel, quantity, urgency, printers, soonest)
    }

    constructor (rec: Rec)
      ensures Value() == Opened(rec)
    {
      model := ModelName(rec);
      supplyType := rec.supplyType;
      color := rec.color;
      supplyLabel := rec.supplyLabel;
      quantity := 0;
      urgency := rec.urgency;
      printers := [];
      soonest := None;
    }

    method Count(rec: Rec)
      modifies this
      ensures Value() == Counted(old(Value()), rec)
    {
      quantity := quantity + 1;
      if rec.printerLabel !in printers {
        printers := printers + [rec.printerLabel];
      }
      if rec.urgency == URGENCY_NOW {
        urgency := URGENCY_NOW;
      }
      if rec.days.Some? && (soonest.None? || rec.days.value < soonest.value) {
        soonest := rec.days;
      }
    }
  }

  function Lines(lines: seq<CartridgeLine>): seq<Line>
    reads lines
  {
    seq(|lines|, i requires 0 <= i < |lines| reads lines => lines[i].Value())
  }

  class ClientReorderGroup {
    var clientId: int
    var clientName: string
    var lines: seq<CartridgeLine>
    var recs: seq<Rec>

    constructor (rec: Rec)
      ensures clientId == rec.clientId && clientName == rec.clientName && lines == [] && recs == []
    {
      clientId := rec.clientId;
      clientName := rec.clientName;
      lines := [];
      recs := [];
    }

    function LineSet(): set<object>
      reads this
    {
      set l: object | l in lines
    }

    function Value(): Group
      reads this, LineSet()
    {
      Group(clientId, clientName, Lines(lines), recs)
    }
  }

  // ------------------------------------------------------------------------------------------
  // The pass over the recommendations
  // ------------------------------------------------------------------------------------------

  /** The two dictionaries, the first with its insertion order. */
  datatype Books = Books(
    order: seq<int>,
    groups: map<int, ClientReorderGroup>,
    lines: map<LineKey, CartridgeLine>)

  /** No object is shared except a line between the dictionary and its own group. */
  ghost predicate Separate(b: Books) {
    && (forall c, d :: c in b.groups && d in b.groups && b.groups[c] == b.groups[d] ==> c == d)
    && (forall k, l :: k in b.lines && l in b.lines && b.lines[k] == b.lines[l] ==> k == l)
  }

  function MembersOf(recs: seq<Rec>, key: LineKey): seq<Rec> {
    With(With(recs, ClientOf, key.client), CartridgeOf, key.cartridge)
  }

  /** A group's own fields after some recommendations. */
  ghost predicate Head(g: ClientReorderGroup, done: seq<Rec>, client: int)
    reads g`clientId, g`clientName, g`recs
  {
    var own := With(done, ClientOf, client);
    g.clientId == client && own != [] && g.clientName == own[0].clientName && g.recs == own
  }

  /** A group's list holds the very line objects the dictionary has, by first appearance. */
  ghost predicate Shares(own: seq<CartridgeLine>, lines: map<LineKey, CartridgeLine>, done: seq<Rec>, client: int) {
    var cartridges := Seen(With(done, ClientOf, client), CartridgeOf);
    && |own| == |cartridges|
    && forall i :: 0 <= i < |cartridges| ==>
         LineKey(client, cartridges[i]) in lines && own[i] == lines[LineKey(client, cartridges[i])]
  }

  ghost predicate Heads(order: seq<int>, groups: map<int, ClientReorderGroup>, done: seq<Rec>)
    reads groups.Values`clientId, groups.Values`clientName, groups.Values`recs
  {
    && order == Seen(done, ClientOf)
    && (forall c :: c in groups <==> c in order)
    && (forall c :: c in groups ==> Head(groups[c], done, c))
  }

  ghost predicate Shared(b: Books, done: seq<Rec>)
    reads b.groups.Values
  {
    forall c :: c in b.groups ==> Shares(b.groups[c].lines, b.lines, done, c)
  }

  ghost predicate Counts(lines: map<LineKey, CartridgeLine>, done: seq<Rec>)
    reads lines.Values
  {
    && (forall k :: k in lines <==> MembersOf(done, k) != [])
    && (forall k :: k in lines ==> lines[k].Value() == RolledUp(MembersOf(done, k)))
  }

  /** The dictionaries after the pass over some recommendations. */
  ghost predicate Reflects(b: Books, done: seq<Rec>)
    reads b.groups.Values, b.lines.Values
  {
    Separate(b) && Heads(b.order, b.groups, done) && Shared(b, done) && Counts(b.lines, done)
  }

  lemma WithAppend<K>(done: seq<Rec>, rec: Rec, key: Rec -> K, k: K)
    ensures With(done + [rec], key, k) == if key(rec) == k then With(done, key, k) + [rec] else With(done, key, k)
  {
  }

  lemma SeenAppend<K>(done: seq<Rec>, rec: Rec, key: Rec -> K)
    ensures Seen(done + [rec], key) == if key(rec) in Seen(done, key) then Seen(done, key) else Seen(done, key) + [key(rec)]
  {
  }

  lemma MembersAppend(done: seq<Rec>, rec: Rec, key: LineKey)
    ensures MembersOf(done + [rec], key) == if KeyOf(rec) == key then MembersOf(done, key) + [rec] else MembersOf(done, key)
  {
    hide With;
    WithAppend(done, rec, ClientOf, key.client);
    WithAppend(With(done, ClientOf, key.client), rec, CartridgeOf, key.cartridge);
  }

  lemma SharesNothing(lines: map<LineKey, CartridgeLine>, done: seq<Rec>, client: int)
    requires With(done, ClientOf, client) == []
    ensures Shares([], lines, done, client)
  {
  }

  method OpenGroup(b: Books, rec: Rec, ghost done: seq<Rec>) returns (b': Books, group: ClientReorderGroup)
    requires Reflects(b, done)
    modifies b.groups.Values
    ensures Separate(b') && Heads(b'.order, b'.groups, done + [rec]) && Shared(b', done)
    ensures b'.lines == b.lines
    ensures rec.clientId in b'.groups && group == b'.groups[rec.clientId]
    ensures fresh(b'.groups.Values - b.groups.Values)
  {
    hide With, Seen, Counts, Shares;
    SeenAppend(done, rec, ClientOf);
    SeenMeaning(done, ClientOf, rec.clientId);
    WithAppend(done, rec, ClientOf, rec.clientId);
    b' := b;
    if rec.clientId in b'.groups {
      group := b'.groups[rec.clientId];
    } else {
      group := new ClientReorderGroup(rec);
      b' := b'.(order := b'.order + [rec.clientId], groups := b'.groups[rec.clientId := group]);
      SharesNothing(b.lines, done, rec.clientId);
    }
    group.recs := group.recs + [rec];
    forall c | c in b'.groups
      ensures Head(b'.groups[c], done + [rec], c) && Shares(b'.groups[c].lines, b'.lines, done, c)
    {
      WithAppend(done, rec, ClientOf, c);
    }
  }

  lemma RolledUpAppend(members: seq<Rec>, rec: Rec)
    ensures RolledUp(members + [rec]) == Counted(if members == [] then Opened(rec) else RolledUp(members), rec)
  {
  }

  /** Every line is there, the one about to be counted perhaps still at zero. */
  ghost predicate Opening(lines: map<LineKey, CartridgeLine>, done: seq<Rec>, rec: Rec)
    reads lines.Values
  {
    && (forall k :: k in lines <==> k == KeyOf(rec) || MembersOf(done, k) != [])
    && (forall k :: k in lines ==>
          lines[k].Value() == var members := MembersOf(done, k); if members == [] then Opened(rec) else RolledUp(members))
  }

  lemma SharesAfter(own: seq<CartridgeLine>, lines: map<LineKey, CartridgeLine>, line: CartridgeLine,
                    done: seq<Rec>, rec: Rec, client: int)
    requires Shares(own, lines, done, client)
    requires KeyOf(rec) in lines <==> MembersOf(done, KeyOf(rec)) != []
    ensures Shares(if client == rec.clientId && KeyOf(rec) !in lines then own + [line] else own,
                   if KeyOf(rec) in lines then lines else lines[KeyOf(rec) := line], done + [rec], client)
  {
    hide With, Seen;
    var recs := With(done, ClientOf, client);
    WithAppend(done, rec, ClientOf, client);
    SeenMeaning(recs, CartridgeOf, CartridgeOf(rec));
    SeenAppend(recs, rec, CartridgeOf);
  }

  method OpenLine(b: Books, group: ClientReorderGroup, rec: Rec, ghost done: seq<Rec>)
      returns (b': Books)
    requires Separate(b) && Heads(b.order, b.groups, done + [rec]) && Shared(b, done) && Counts(b.lines, done)
    requires rec.clientId in b.groups && group == b.groups[rec.clientId]
    modifies group
    ensures b'.order == b.order && b'.groups == b.groups
    ensures Separate(b') && Heads(b'.order, b'.groups, done + [rec]) && Shared(b', done + [rec]) && Opening(b'.lines, done, rec)
    ensures fresh(b'.lines.Values - b.lines.Values)
  {
    hide With, Seen, Opened, RolledUp, MembersOf, Shares, Heads;
    var key := KeyOf(rec);
    b' := b;
    if key in b'.lines {
      forall c | c in b.groups ensures Shares(b.groups[c].lines, b.lines, done + [rec], c) {
        SharesAfter(b.groups[c].lines, b.lines, b.lines[key], done, rec, c);
      }
    } else {
      var line := new CartridgeLine(rec);
      b' := b'.(lines := b'.lines[key := line]);
      forall c | c in b.groups
        ensures Shares(if c == rec.clientId then b.groups[c].lines + [line] else b.groups[c].lines, b'.lines, done + [rec], c)
      {
        SharesAfter(b.groups[c].lines, b.lines, line, done, rec, c);
      }
      group.lines := group.lines + [line];
    }
  }

  method CountLine(b: Books, rec: Rec, ghost done: seq<Rec>)
    requires Separate(b) && Opening(b.lines, done, rec)
    modifies b.lines.Values
    ensures Counts(b.lines, done + [rec])
  {
    hide With, Counted, Opened, RolledUp;
    b.lines[KeyOf(rec)].Count(rec);
    forall k
      ensures k in b.lines <==> MembersOf(done + [rec], k) != []
      ensures k in b.lines ==> b.lines[k].Value() == RolledUp(MembersOf(done + [rec], k))
    {
      MembersAppend(done, rec, k);
      RolledUpAppend(MembersOf(done, k), rec);
    }
  }

  method Place(b: Books, rec: Rec, ghost done: seq<Rec>) returns (b': Books)
    requires Reflects(b, done)
    modifies b.groups.Values, b.lines.Values
    ensures Reflects(b', done + [rec])
    ensures fresh(b'.groups.Values - b.groups.Values)
    ensures fresh(b'.lines.Values - b.lines.Values)
  {
    hide Opening, Separate, Heads, Shared, Counts;
    var group: ClientReorderGroup;
    b', group := OpenGroup(b, rec, done);
    b' := OpenLine(b', group, rec, done);
    CountLine(b', rec, done);
  }

  // ------------------------------------------------------------------------------------------
  // The report
  // ------------------------------------------------------------------------------------------

  function Owned(groups: seq<ClientReorderGroup>): set<object>
    reads groups
  {
    set g, o | g in groups && o in g.LineSet() :: o
  }

  lemma OwnedHas(groups: seq<ClientReorderGroup>, i: nat)
    requires i < |groups|
    ensures groups[i].LineSet() <= Owned(groups)
  {
  }

  function Groups(groups: seq<ClientReorderGroup>): seq<Group>
    reads groups, Owned(groups)
  {
    seq(|groups|, i requires 0 <= i < |groups| reads groups, Owned(groups) => OwnedHas(groups, i); groups[i].Value())
  }

  /** Each with its sort key, computed before anything moves. */
  function KeyedLines(lines: seq<CartridgeLine>): seq<Keyed<Line, CartridgeLine>>
    reads lines
  {
    seq(|lines|, i requires 0 <= i < |lines| reads lines => Keyed(lines[i].Value(), lines[i]))
  }

  lemma SortingLines(lines: seq<CartridgeLine>)
    ensures var sorted := Items(Sort(KeyedLines(lines), ByKey(LineLe)));
            Lines(sorted) == Sort(Lines(lines), LineLe) && multiset(sorted) == multiset(lines)
  {
    var keyed := KeyedLines(lines);
    var ordered := Sort(keyed, ByKey(LineLe));
    SortByKey(keyed, LineLe);
    assert Keys(keyed) == Lines(lines) && Items(keyed) == lines;
    forall i | 0 <= i < |ordered| ensures ordered[i].key == ordered[i].item.Value() {
      var origin := SortOrigin(keyed, ByKey(LineLe), i);
    }
    assert Lines(Items(ordered)) == Keys(ordered);
  }

  function KeyedGroups(groups: seq<ClientReorderGroup>): seq<Keyed<Group, ClientReorderGroup>>
    reads groups, Owned(groups)
  {
    seq(|groups|, i requires 0 <= i < |groups| reads groups, Owned(groups) =>
          OwnedHas(groups, i); Keyed(groups[i].Value(), groups[i]))
  }

  lemma SortingGroups(groups: seq<ClientReorderGroup>)
    ensures var sorted := Items(Sort(KeyedGroups(groups), ByKey(GroupLe)));
            Groups(sorted) == Sort(Groups(groups), GroupLe) && multiset(sorted) == multiset(groups)
  {
    var keyed := KeyedGroups(groups);
    var ordered := Sort(keyed, ByKey(GroupLe));
    SortByKey(keyed, GroupLe);
    assert Keys(keyed) == Groups(groups) && Items(keyed) == groups;
    forall i | 0 <= i < |ordered| ensures ordered[i].key == ordered[i].item.Value() {
      var origin := SortOrigin(keyed, ByKey(GroupLe), i);
    }
    assert Groups(Items(ordered)) == Keys(ordered);
  }

  lemma GroupValueIs(b: Books, recs: seq<Rec>, client: int)
    requires Reflects(b, recs) && client in b.groups
    ensures b.groups[client].Value() == GroupFor(recs, client)
  {
    hide With, Seen, RolledUp;
    var g, own := b.groups[client], With(recs, ClientOf, client);
    var cartridges := Seen(own, CartridgeOf);
    assert Head(g, recs, client) && Shares(g.lines, b.lines, recs, client);
    LinesForLength(own, cartridges);
    forall i | 0 <= i < |cartridges| ensures Lines(g.lines)[i] == LinesFor(own, cartridges)[i] {
      LinesForAt(own, cartridges, i);
    }
    assert Lines(g.lines) == LinesFor(own, cartridges);
  }

  /** `groups.values()`. */
  method Values(b: Books, ghost recs: seq<Rec>) returns (groups: seq<ClientReorderGroup>)
    requires Reflects(b, recs)
    ensures Groups(groups) == GroupsFor(recs, Seen(recs, ClientOf))
    ensures Distinct(groups)
    ensures forall i :: 0 <= i < |groups| ==> groups[i] in b.groups.Values
  {
    hide Seen, GroupFor;
    SeenMeaning(recs, ClientOf, 0);
    assert forall c :: c in b.order ==> c in b.groups;
    assert forall i :: 0 <= i < |b.order| ==> b.order[i] in b.order;
    hide Heads, Counts, Shared;
    groups := seq(|b.order|, i requires 0 <= i < |b.order| && b.order[i] in b.groups => b.groups[b.order[i]]);
    forall i, j | 0 <= i < j < |groups| ensures groups[i] != groups[j] {
      assert b.order[i] in b.groups && b.order[j] in b.groups && b.order[i] != b.order[j];
    }
    GroupsForLength(recs, b.order);
    forall i | 0 <= i < |groups| ensures groups[i].Value() == GroupsFor(recs, b.order)[i] {
      GroupsForAt(recs, b.order, i);
      GroupValueIs(b, recs, b.order[i]);
    }
  }

  method SortEachGroup(groups: seq<ClientReorderGroup>)
    requires Distinct(groups)
    modifies groups
    ensures Groups(groups) == LinesSorted(old(Groups(groups)))
  {
    hide Sort, LineLe;
    ghost var before := Groups(groups);
    for i := 0 to |groups|
      invariant forall j :: 0 <= j < i ==> groups[j].Value() == before[j].(lines := Sort(before[j].lines, LineLe))
      invariant forall j :: i <= j < |groups| ==> groups[j].Value() == before[j]
    {
      SortingLines(groups[i].lines);
      groups[i].lines := Items(Sort(KeyedLines(groups[i].lines), ByKey(LineLe)));
    }
    LinesSortedLength(before);
    forall i | 0 <= i < |groups| ensures Groups(groups)[i] == LinesSorted(before)[i] {
      LinesSortedAt(before, i);
    }
  }

  /** The report is the one `GroupedByClient` describes, in objects of its own. */
  method GroupByClient(recs: seq<Rec>) returns (ordered: seq<ClientReorderGroup>)
    ensures Groups(ordered) == GroupedByClient(recs)
    ensures forall g :: g in ordered ==> fresh(g)
  {
    hide With, Seen, Sort, GroupsFor, LinesSorted, Separate, Heads, Shared, Counts;
    var sorted := Sort(recs, RecLe);
    var b := Books([], map[], map[]);
    NothingYet();
    for i := 0 to |sorted|
      invariant Reflects(b, sorted[..i])
      invariant fresh(b.groups.Values) && fresh(b.lines.Values)
    {
      assert sorted[..i + 1] == sorted[..i] + [sorted[i]];
      b := Place(b, sorted[i], sorted[..i]);
    }
    assert sorted[..|sorted|] == sorted;
    var groups := Values(b, sorted);
    ordered := Items(Sort(KeyedGroups(groups), ByKey(GroupLe)));
    SortingGroups(groups);
    SameMembers(ordered, groups);
    DistinctIffOnce(groups);
    DistinctIffOnce(ordered);
    forall i | 0 <= i < |ordered| ensures fresh(ordered[i]) {
      assert ordered[i] in ordered && ordered[i] in groups;
    }
    SortEachGroup(ordered);
  }

  lemma NothingYet()
    ensures Reflects(Books([], map[], map[]), [])
  {
  }
}
