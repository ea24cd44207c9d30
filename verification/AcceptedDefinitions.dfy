/**
 * Which device definitions are accepted, and what is stored of each (central/device_definitions.py), field
 * by field of the caller's dictionary: texts stripped or tidied, labels lowered, OIDs without leading dots,
 * and nothing left out that was given.
 */
module AcceptedDefinitions {
  import opened Json
  import opened Oids
  import opened Options
  import opened Texts
  import opened DeviceDefinitions

  /** A text, stripped; none if it was absent, null or blank. */
  predicate StoredText(j: Json, most: nat, stored: Option<string>) {
    match stored
    case None => j == Null || (j.Text? && Strip(j.s) == "")
    case Some(text) => j.Text? && text == Strip(j.s) && 1 <= |text| <= most
  }

  predicate SmallOrDigit(c: char) {
    'a' <= c <= 'z' || '0' <= c <= '9'
  }

  /** Inner spaces squeezed and lower-cased, of letters, digits, spaces, dashes and underscores only. */
  predicate StoredLabel(j: Json, stored: Option<string>) {
    match stored
    case None => j == Null || j == Text("")
    case Some(text) =>
      && j.Text? && text == Lower(Tidy(j.s)) && 1 <= |text| <= 32
      && forall c :: c in text ==> SmallOrDigit(c) || c == ' ' || c == '-' || c == '_'
  }

  /** Inner spaces squeezed and lower-cased, long enough to tell one model from another. */
  predicate StoredTag(j: Json, stored: Option<string>) {
    match stored
    case None => j == Null || j == Text("")
    case Some(text) => j.Text? && text == Lower(Tidy(j.s)) && 3 <= |text| <= 200
  }

  predicate StoredSlug(j: Json, text: string) {
    && j.Text? && text == Lower(Strip(j.s)) && 3 <= |text| <= 64
    && SmallOrDigit(text[0]) && forall c :: c in text ==> SmallOrDigit(c) || c == '.' || c == '_' || c == '-'
  }

  predicate StoredOid(j: Json, stored: Option<string>) {
    match stored
    case None => j == Null || j == Text("")
    case Some(oid) => j.Text? && oid == DropDots(Strip(j.s)) && IsOid(oid)
  }

  lemma TextIsStored(j: Json, most: nat, stored: Option<string>)
    ensures TextValue(j, most) == Accepted(stored) <==> StoredText(j, most, stored)
  {
    StripTrims("");
  }

  lemma {:induction false} LoweredChars(text: string)
    ensures |Lower(text)| == |text|
    ensures forall c :: c in Lower(text) && IsAlphanumeric(c) ==> SmallOrDigit(c)
  {
    if text != [] {
      LoweredChars(text[1..]);
    }
  }

  lemma CharsMeaning(text: string, extra: string)
    ensures CharsIn(text, extra) <==> forall c :: c in text ==> IsAlphanumeric(c) || c in extra
  {
    assert forall i :: 0 <= i < |text| ==> text[i] in text;
  }

  lemma LabelIsStored(j: Json, stored: Option<string>)
    ensures OptionalLabel(j, 32) == Accepted(stored) <==> StoredLabel(j, stored)
    ensures stored.Some? ==> (Label(j, 32) == Accepted(stored.value) <==> StoredLabel(j, stored))
  {
    if j.Text? {
      LoweredChars(Tidy(j.s));
      CharsMeaning(Lower(Tidy(j.s)), " -_");
      EmptyIsNoLabel();
    }
    hide Tidy, Lower, CharsIn;
  }

  lemma EmptyIsNoLabel()
    ensures Lower(Tidy("")) == "" && Lower("") == ""
  {
  }

  lemma TagIsStored(j: Json, stored: Option<string>)
    ensures OptionalTag(j) == Accepted(stored) <==> StoredTag(j, stored)
  {
    EmptyIsNoLabel();
    hide Tidy, Lower;
  }

  lemma SlugIsStored(j: Json, text: string)
    ensures Slug(j) == Accepted(text) <==> StoredSlug(j, text)
  {
    if j.Text? {
      LoweredChars(Strip(j.s));
      CharsMeaning(Lower(Strip(j.s)), "._-");
      assert Lower(Strip(j.s)) != "" ==> Lower(Strip(j.s))[0] in Lower(Strip(j.s));
    }
    hide Strip, Lower, CharsIn;
  }

  lemma OidIsStored(j: Json, stored: Option<string>)
    ensures OidValue(j) == Accepted(stored) <==> StoredOid(j, stored)
  {
    NoDotsNoOid();
    hide Strip, DropDots, IsOid;
  }

  lemma NoDotsNoOid()
    ensures DropDots(Strip("")) == "" && !IsOid("")
  {
    EmptyIsNoOid();
  }

  // ------------------------------------------------------------------------------------------
  // Maps
  // ------------------------------------------------------------------------------------------

  /** The percent the last of the fields with this name once stripped gives. */
  ghost predicate LastGiven(fields: seq<Field>, key: string, percent: int) {
    exists i :: 0 <= i < |fields| && LastNamed(fields, i, key) && fields[i].value == Int(percent)
  }

  predicate LastNamed(fields: seq<Field>, i: nat, key: string)
    requires i < |fields|
  {
    Strip(fields[i].name) == key && forall j :: i < j < |fields| ==> Strip(fields[j].name) != key
  }

  /** Some field with the first name comes before every one with the second. */
  ghost predicate NamedBefore(fields: seq<Field>, first: string, second: string) {
    exists i :: 0 <= i < |fields| && NamedUpTo(fields, i, first, second)
  }

  predicate NamedUpTo(fields: seq<Field>, i: nat, first: string, second: string)
    requires i < |fields|
  {
    Strip(fields[i].name) == first && forall j :: 0 <= j <= i ==> Strip(fields[j].name) != second
  }

  /**
   * The map stores, for each key given, stripped, its percent, the last one given if two keys strip to one,
   * in the order the keys were first given.
   */
  ghost predicate StoredMap(fields: seq<Field>, entries: seq<Entry>) {
    && (forall e :: e in entries ==> LastGiven(fields, e.key, e.percent))
    && (forall i :: 0 <= i < |fields| ==> exists e :: e in entries && e.key == Strip(fields[i].name))
    && (forall a, b :: 0 <= a < b < |entries| ==> NamedBefore(fields, entries[a].key, entries[b].key))
  }

  predicate GoodPercent(f: Field) {
    1 <= |f.name| <= 64 && f.value.Int? && 0 <= f.value.n <= 100
  }

  lemma {:induction false} PutMembers(entries: seq<Entry>, key: string, percent: int)
    ensures Entry(key, percent) in Put(entries, key, percent)
    ensures forall e :: e in entries && e.key != key ==> e in Put(entries, key, percent)
    ensures forall e :: e in Put(entries, key, percent) ==> e == Entry(key, percent) || e in entries
  {
    if entries != [] && entries[0].key != key {
      PutMembers(entries[1..], key, percent);
    }
  }

  predicate DistinctKeys(entries: seq<Entry>) {
    forall i, j :: 0 <= i < j < |entries| ==> entries[i].key != entries[j].key
  }

  /** An entry keeps its place or comes last. */
  lemma {:induction false} PutPlaces(entries: seq<Entry>, key: string, percent: int)
    requires DistinctKeys(entries)
    ensures var after, n := Put(entries, key, percent), |entries|;
            && (|after| == n || (|after| == n + 1 && after[n] == Entry(key, percent) && forall e :: e in entries ==> e.key != key))
            && (forall i :: 0 <= i < n ==> after[i] == if entries[i].key == key then Entry(key, percent) else entries[i])
  {
    if entries != [] && entries[0].key != key {
      var rest := entries[1..];
      assert entries == [entries[0]] + rest;
      PutPlaces(rest, key, percent);
      assert Put(entries, key, percent) == [entries[0]] + Put(rest, key, percent);
      hide Put;
    }
  }

  lemma PutDistinct(entries: seq<Entry>, key: string, percent: int)
    requires DistinctKeys(entries)
    ensures DistinctKeys(Put(entries, key, percent))
  {
    PutPlaces(entries, key, percent);
    hide Put;
    var after := Put(entries, key, percent);
    assert forall i :: 0 <= i < |entries| ==> after[i].key == entries[i].key;
    assert forall i :: 0 <= i < |entries| ==> entries[i] in entries;
  }

  lemma {:induction false} MapIsStored(fields: seq<Field>, entries: seq<Entry>)
    requires MapEntries(fields) == Accepted(entries)
    ensures StoredMap(fields, entries) && DistinctKeys(entries)
    ensures forall i :: 0 <= i < |fields| ==> GoodPercent(fields[i])
  {
    hide Strip, StoredMap, DistinctKeys, Put;
    if fields != [] {
      var n := |fields| - 1;
      var earlier := MapEntries(fields[..n]).value;
      MapIsStored(fields[..n], earlier);
      assert forall i :: 0 <= i < n ==> fields[..n][i] == fields[i];
      OneMoreStored(fields, earlier, fields[n].value.n);
    } else {
      NothingStored();
    }
  }

  lemma NothingStored()
    ensures StoredMap([], []) && DistinctKeys([])
  {
  }

  lemma OneMoreStored(fields: seq<Field>, earlier: seq<Entry>, percent: int)
    requires fields != [] && StoredMap(fields[..|fields| - 1], earlier) && DistinctKeys(earlier)
    requires fields[|fields| - 1].value == Int(percent)
    ensures var entries := Put(earlier, Strip(fields[|fields| - 1].name), percent);
            StoredMap(fields, entries) && DistinctKeys(entries)
  {
    hide Strip, Put, LastGiven, NamedBefore, DistinctKeys;
    var n := |fields| - 1;
    var before, last := fields[..n], fields[n];
    var key := Strip(last.name);
    var entries := Put(earlier, key, percent);
    PutMembers(earlier, key, percent);
    PutPlaces(earlier, key, percent);
    PutDistinct(earlier, key, percent);
    forall e | e in entries ensures LastGiven(fields, e.key, e.percent) {
      if e == Entry(key, percent) {
        GivenLast(fields, percent);
      } else {
        StillLast(fields, e.key, e.percent);
      }
    }
    forall i | 0 <= i < |fields| ensures exists e :: e in entries && e.key == Strip(fields[i].name) {
      if i < n {
        assert before[i] == fields[i];
        var e :| e in earlier && e.key == Strip(before[i].name);
        assert e.key == key ==> Entry(key, percent) in entries;
      } else {
        assert Entry(key, percent) in entries;
      }
    }
    forall a, b | 0 <= a < b < |entries| ensures NamedBefore(fields, entries[a].key, entries[b].key) {
      if b < |earlier| {
        assert NamedBefore(before, earlier[a].key, earlier[b].key);
        StillBefore(fields, earlier[a].key, earlier[b].key);
      } else {
        NewIsLast(fields, earlier, earlier[a]);
      }
    }
  }

  lemma GivenLast(fields: seq<Field>, percent: int)
    requires fields != [] && fields[|fields| - 1].value == Int(percent)
    ensures LastGiven(fields, Strip(fields[|fields| - 1].name), percent)
  {
    assert LastNamed(fields, |fields| - 1, Strip(fields[|fields| - 1].name));
  }

  lemma StillLast(fields: seq<Field>, key: string, percent: int)
    requires fields != [] && Strip(fields[|fields| - 1].name) != key
    requires LastGiven(fields[..|fields| - 1], key, percent)
    ensures LastGiven(fields, key, percent)
  {
    hide Strip;
    var before := fields[..|fields| - 1];
    var i :| 0 <= i < |before| && LastNamed(before, i, key) && before[i].value == Int(percent);
    assert forall j :: 0 <= j < |before| ==> before[j] == fields[j];
    assert LastNamed(fields, i, key);
  }

  lemma StillBefore(fields: seq<Field>, first: string, second: string)
    requires fields != [] && NamedBefore(fields[..|fields| - 1], first, second)
    ensures NamedBefore(fields, first, second)
  {
    hide Strip;
    var before := fields[..|fields| - 1];
    var i :| 0 <= i < |before| && NamedUpTo(before, i, first, second);
    assert forall j :: 0 <= j < |before| ==> before[j] == fields[j];
    assert NamedUpTo(fields, i, first, second);
  }

  lemma NewIsLast(fields: seq<Field>, earlier: seq<Entry>, e: Entry)
    requires fields != [] && StoredMap(fields[..|fields| - 1], earlier) && e in earlier
    requires forall x :: x in earlier ==> x.key != Strip(fields[|fields| - 1].name)
    ensures NamedBefore(fields, e.key, Strip(fields[|fields| - 1].name))
  {
    hide Strip;
    var before, key := fields[..|fields| - 1], Strip(fields[|fields| - 1].name);
    var i :| 0 <= i < |before| && LastNamed(before, i, e.key) && before[i].value == Int(e.percent);
    forall j | 0 <= j <= i ensures Strip(fields[j].name) != key {
      assert before[j] == fields[j];
      var x :| x in earlier && x.key == Strip(before[j].name);
    }
    assert NamedUpTo(fields, i, e.key, key);
  }

  lemma OneLastGiven(fields: seq<Field>, key: string, p: int, q: int)
    requires LastGiven(fields, key, p) && LastGiven(fields, key, q)
    ensures p == q
  {
    hide Strip;
  }

  lemma NotBothBefore(fields: seq<Field>, first: string, second: string)
    requires NamedBefore(fields, first, second)
    ensures first != second && !NamedBefore(fields, second, first)
  {
    hide Strip;
  }

  lemma EntryOfOther(fields: seq<Field>, xs: seq<Entry>, ys: seq<Entry>, e: Entry)
    requires StoredMap(fields, xs) && StoredMap(fields, ys) && e in xs
    ensures e in ys
  {
    hide Strip, NamedBefore;
    assert LastGiven(fields, e.key, e.percent);
    var i :| 0 <= i < |fields| && LastNamed(fields, i, e.key) && fields[i].value == Int(e.percent);
    var y :| y in ys && y.key == Strip(fields[i].name);
    OneLastGiven(fields, e.key, e.percent, y.percent);
  }

  ghost predicate Ordered(fields: seq<Field>, entries: seq<Entry>) {
    forall a, b :: 0 <= a < b < |entries| ==> NamedBefore(fields, entries[a].key, entries[b].key)
  }

  lemma OrderedRest(fields: seq<Field>, entries: seq<Entry>)
    requires entries != [] && Ordered(fields, entries)
    ensures Ordered(fields, entries[1..]) && forall e :: e in entries[1..] <==> e in entries && e != entries[0]
  {
    hide NamedBefore;
    forall b | 1 <= b < |entries| ensures entries[b] != entries[0] {
      NotBothBefore(fields, entries[0].key, entries[b].key);
    }
  }

  lemma SameFirst(fields: seq<Field>, xs: seq<Entry>, ys: seq<Entry>)
    requires Ordered(fields, xs) && Ordered(fields, ys) && xs != [] && ys != [] && xs[0] in ys && ys[0] in xs
    ensures xs[0] == ys[0]
  {
    var k :| 0 <= k < |ys| && ys[k] == xs[0];
    var m :| 0 <= m < |xs| && xs[m] == ys[0];
    hide NamedBefore;
    if k > 0 {
      NotBothBefore(fields, ys[0].key, ys[k].key);
    }
  }

  lemma HasFirst(entries: seq<Entry>)
    ensures entries == [] || entries[0] in entries
  {
  }

  lemma {:induction false} SameOrdered(fields: seq<Field>, xs: seq<Entry>, ys: seq<Entry>)
    requires Ordered(fields, xs) && Ordered(fields, ys) && forall e :: e in xs <==> e in ys
    ensures xs == ys
  {
    HasFirst(ys);
    if xs != [] {
      assert xs[0] in ys && ys != [] && ys[0] in xs;
      hide NamedBefore;
      SameFirst(fields, xs, ys);
      OrderedRest(fields, xs);
      OrderedRest(fields, ys);
      SameOrdered(fields, xs[1..], ys[1..]);
    }
  }

  lemma SameMap(fields: seq<Field>, xs: seq<Entry>, ys: seq<Entry>)
    requires StoredMap(fields, xs) && StoredMap(fields, ys)
    ensures xs == ys
  {
    forall e ensures e in xs <==> e in ys {
      if e in xs {
        EntryOfOther(fields, xs, ys, e);
      }
      if e in ys {
        EntryOfOther(fields, ys, xs, e);
      }
    }
    hide LastGiven, NamedBefore, Strip;
    SameOrdered(fields, xs, ys);
  }

  lemma {:induction false} GoodIsAccepted(fields: seq<Field>)
    requires forall i :: 0 <= i < |fields| ==> GoodPercent(fields[i])
    ensures MapEntries(fields).Accepted?
  {
    if fields != [] {
      GoodIsAccepted(fields[..|fields| - 1]);
    }
  }

  lemma MapStoredIff(fields: seq<Field>, entries: seq<Entry>)
    ensures MapEntries(fields) == Accepted(entries) <==>
      (forall i :: 0 <= i < |fields| ==> GoodPercent(fields[i])) && StoredMap(fields, entries)
  {
    if MapEntries(fields).Accepted? {
      MapIsStored(fields, MapEntries(fields).value);
    }
    hide StoredMap, GoodPercent, MapEntries;
    if forall i :: 0 <= i < |fields| ==> GoodPercent(fields[i]) {
      GoodIsAccepted(fields);
      if StoredMap(fields, entries) {
        SameMap(fields, entries, MapEntries(fields).value);
      }
    }
  }

  // ------------------------------------------------------------------------------------------
  // Decode rules
  // ------------------------------------------------------------------------------------------

  predicate KnownKeys(fields: seq<Field>, known: set<string>) {
    forall f :: f in fields ==> f.name in known
  }

  /** Of `max`, `max_oid`, `values` and the two delimiters, what is given and what may be. */
  predicate MentionsOnly(fields: seq<Field>, max: bool, maxOid: bool, values: bool, delimiters: bool) {
    && KnownKeys(fields, {"kind", "max", "max_oid", "values", "after", "before"})
    && (Has(fields, "max") <==> max) && (Has(fields, "max_oid") <==> maxOid)
    && (Has(fields, "values") ==> values)
    && (Has(fields, "after") || Has(fields, "before") ==> delimiters)
  }

  ghost predicate StoredDecode(j: Json, kinds: set<string>, decode: Decode) {
    && j.Object? && Get(j.fields, "kind").Text? && Get(j.fields, "kind").s in kinds
    && var f, kind := j.fields, Get(j.fields, "kind").s;
       match decode
       case Plain(plain) =>
         kind == plain && plain in {"percent", "count", "text"} && MentionsOnly(f, false, false, false, false)
       case RatioTo(max) =>
         && kind == "ratio" && MentionsOnly(f, true, false, false, false)
         && Get(f, "max") == Int(max) && 1 <= max <= 2147483647
       case RatioOid(oid) =>
         && kind == "ratio" && MentionsOnly(f, false, true, false, false)
         && StoredOid(Get(f, "max_oid"), Some(oid))
       case MapTo(entries) =>
         && kind == "map" && MentionsOnly(f, false, false, true, false)
         && Get(f, "values").Object? && 1 <= |Get(f, "values").fields| <= 64
         && (forall v :: v in Get(f, "values").fields ==> GoodPercent(v))
         && StoredMap(Get(f, "values").fields, entries)
       case Between(after, before) =>
         && kind == "text_between" && MentionsOnly(f, false, false, false, true)
         && (after.Some? || before.Some?)
         && StoredText(Get(f, "after"), 32, after) && StoredText(Get(f, "before"), 32, before)
  }

  lemma KeysMeaning(fields: seq<Field>, known: set<string>)
    ensures OnlyKeys(fields, known) <==> KnownKeys(fields, known)
  {
    assert forall i :: 0 <= i < |fields| ==> fields[i] in fields;
  }

  lemma DecodeIsStored(j: Json, kinds: set<string>, decode: Decode)
    ensures ValidateDecode(j, kinds) == Accepted(decode) <==> StoredDecode(j, kinds, decode)
  {
    if j.Object? {
      var f := j.fields;
      KeysMeaning(f, DECODE_KEYS);
      hide Strip, DropDots, IsOid, MapEntries, OnlyKeys, KnownKeys, StoredMap, TextValue, StoredText, OidValue, StoredOid, Has, Get, GoodPercent;
      if decode.RatioOid? {
        OidIsStored(Get(f, "max_oid"), Some(decode.maxOid));
      }
      if decode.MapTo? && Get(f, "values").Object? {
        MapStoredIff(Get(f, "values").fields, decode.entries);
      }
      if decode.Between? {
        TextIsStored(Get(f, "after"), 32, decode.after);
        TextIsStored(Get(f, "before"), 32, decode.before);
      }
    }
  }

  // ------------------------------------------------------------------------------------------
  // Supplies, meters, match, identity
  // ------------------------------------------------------------------------------------------

  /** `obj.get(name)` of a dictionary, whose keys are distinct. */
  lemma {:induction false} GetMeaning(fields: seq<Field>, i: nat)
    requires i < |fields| && forall j, k :: 0 <= j < k < |fields| ==> fields[j].name != fields[k].name
    ensures Has(fields, fields[i].name) && Get(fields, fields[i].name) == fields[i].value
  {
    if i > 0 {
      GetMeaning(fields[1..], i - 1);
    }
  }

  lemma {:induction false} GetAbsent(fields: seq<Field>, name: string)
    requires forall f :: f in fields ==> f.name != name
    ensures !Has(fields, name) && Get(fields, name) == Null
  {
    if fields != [] {
      GetAbsent(fields[1..], name);
    }
  }

  /** A rule as given, or the default when there is none. */
  ghost predicate StoredRule(fields: seq<Field>, kinds: set<string>, standard: string, decode: Decode) {
    if Has(fields, "decode") then StoredDecode(Get(fields, "decode"), kinds, decode) else decode == Plain(standard)
  }

  predicate KnownType(supplyType: string) {
    supplyType in {"toner", "ink", "drum", "fuser", "waste", "staples", "developer", "other"}
  }

  ghost predicate StoredSupply(j: Json, s: Supply) {
    && j.Object? && KnownKeys(j.fields, {"oid", "type", "color", "description", "decode"})
    && StoredOid(Get(j.fields, "oid"), Some(s.oid))
    && Get(j.fields, "type").Text? && s.supplyType == Lower(Strip(Get(j.fields, "type").s))
    && KnownType(s.supplyType)
    && StoredRule(j.fields, {"percent", "ratio", "map", "text_between"}, "percent", s.decode)
    && StoredLabel(Get(j.fields, "color"), s.color)
    && StoredText(Get(j.fields, "description"), 200, s.description)
  }

  ghost predicate StoredMeter(j: Json, m: Meter) {
    && j.Object? && KnownKeys(j.fields, {"oid", "meter", "decode"})
    && StoredOid(Get(j.fields, "oid"), Some(m.oid))
    && StoredLabel(Get(j.fields, "meter"), Some(m.meter))
    && StoredRule(j.fields, {"count"}, "count", m.decode)
  }

  lemma RuleIsStored(fields: seq<Field>, standard: string, kinds: set<string>, decode: Decode)
    requires standard in {"percent", "count"} && standard in kinds
    ensures ValidateDecode(DecodeOr(fields, standard), kinds) == Accepted(decode)
       <==> StoredRule(fields, kinds, standard, decode)
  {
    hide StoredDecode, ValidateDecode, Get;
    DecodeIsStored(DecodeOr(fields, standard), kinds, decode);
    if !Has(fields, "decode") {
      StandardRule(standard, kinds);
    }
  }

  lemma StandardRule(standard: string, kinds: set<string>)
    requires standard in {"percent", "count"} && standard in kinds
    ensures ValidateDecode(Object([Field("kind", Text(standard))]), kinds) == Accepted(Plain(standard))
  {
    var fields := [Field("kind", Text(standard))];
    assert Get(fields, "kind") == Text(standard);
    assert forall name :: name != "kind" ==> !Has(fields, name);
  }

  lemma TypeIsStored(j: Json, supplyType: string)
    ensures KnownType(supplyType) <==> supplyType in SUPPLY_TYPES
    ensures (var text := Required(TextValue(j, 32)); text.Accepted? && Lower(text.value) == supplyType && KnownType(supplyType))
       <==> j.Text? && supplyType == Lower(Strip(j.s))
            && KnownType(supplyType)
  {
    if j.Text? {
      LoweredChars(Strip(j.s));
      StripTrims("");
      EmptyIsNoLabel();
    }
    hide Lower, Strip;
  }

  lemma SupplyIsStored(j: Json, s: Supply)
    ensures ValidateSupply(j) == Accepted(s) <==> StoredSupply(j, s)
  {
    if j.Object? {
      var f := j.fields;
      KeysMeaning(f, SUPPLY_KEYS);
      TypeIsStored(Get(f, "type"), s.supplyType);
      hide ValidateDecode, StoredRule, OidValue, TextValue, OptionalLabel, StoredLabel, StoredText, StoredOid, OnlyKeys, KnownKeys, Get,
           KnownType, Lower, Strip;
      OidIsStored(Get(f, "oid"), Some(s.oid));
      RuleIsStored(f, "percent", SUPPLY_KINDS, s.decode);
      LabelIsStored(Get(f, "color"), s.color);
      TextIsStored(Get(f, "description"), MAX_TEXT, s.description);
    }
  }

  lemma MeterIsStored(j: Json, m: Meter)
    ensures ValidateMeter(j) == Accepted(m) <==> StoredMeter(j, m)
  {
    if j.Object? {
      KeysMeaning(j.fields, METER_KEYS);
      hide ValidateDecode, StoredRule, OidValue, StoredOid, StoredLabel, OnlyKeys, KnownKeys, Get, Label;
      OidIsStored(Get(j.fields, "oid"), Some(m.oid));
      RuleIsStored(j.fields, "count", METER_KINDS, m.decode);
      LabelIsStored(Get(j.fields, "meter"), Some(m.meter));
    }
  }

  ghost predicate StoredSupplies(items: seq<Json>, supplies: seq<Supply>) {
    |supplies| == |items| && forall i :: 0 <= i < |items| ==> StoredSupply(items[i], supplies[i])
  }

  ghost predicate StoredMeters(items: seq<Json>, meters: seq<Meter>) {
    |meters| == |items| && forall i :: 0 <= i < |items| ==> StoredMeter(items[i], meters[i])
  }

  lemma {:induction false} SuppliesAreStored(items: seq<Json>, supplies: seq<Supply>)
    ensures Supplies(items) == Accepted(supplies) <==> StoredSupplies(items, supplies)
  {
    hide ValidateSupply, StoredSupply;
    if items != [] && supplies != [] {
      var n, m := |items| - 1, |supplies| - 1;
      SuppliesAreStored(items[..n], supplies[..m]);
      SupplyIsStored(items[n], supplies[m]);
      assert supplies == supplies[..m] + [supplies[m]];
    }
  }

  lemma {:induction false} MetersAreStored(items: seq<Json>, meters: seq<Meter>)
    ensures Meters(items) == Accepted(meters) <==> StoredMeters(items, meters)
  {
    hide ValidateMeter, StoredMeter;
    if items != [] && meters != [] {
      var n, m := |items| - 1, |meters| - 1;
      MetersAreStored(items[..n], meters[..m]);
      MeterIsStored(items[n], meters[m]);
      assert meters == meters[..m] + [meters[m]];
    }
  }

  /** What Python calls false. */
  predicate Blank(j: Json) {
    j in {Null, Bool(false), Int(0), Text(""), List([]), Object([])} || (j.Float? && j.isZero)
  }

  /** An OID that may also be given as a number. */
  predicate StoredEnterprise(j: Json, stored: Option<string>) {
    match stored
    case None => j == Null || j == Text("")
    case Some(oid) => oid == DropDots(Strip(PyStr(j))) && IsOid(oid)
  }

  ghost predicate StoredMatch(j: Json, m: Match) {
    && (j == Null || j.Object?)
    && var f := if j == Null then [] else j.fields;
       && KnownKeys(f, {"enterprise", "brand", "model"})
       && StoredEnterprise(Get(f, "enterprise"), m.enterprise)
       && StoredTag(Get(f, "brand"), m.brand) && StoredTag(Get(f, "model"), m.model)
       && (m.enterprise.Some? || m.brand.Some? || m.model.Some?)
  }

  ghost predicate StoredIdentity(j: Json, identity: Option<Identity>) {
    if j == Null || j == Text("") then identity == None
    else
      && j.Object? && KnownKeys(j.fields, {"brand", "model_oid"})
      && var brand, oid := Get(j.fields, "brand"), Get(j.fields, "model_oid");
         match identity
         case None => StoredText(brand, 64, None) && StoredOid(oid, None)
         case Some(i) => (i.brand.Some? || i.modelOid.Some?) && StoredText(brand, 64, i.brand) && StoredOid(oid, i.modelOid)
  }

  ghost predicate StoredStatus(j: Json, oid: Option<string>) {
    if j == Null || j == Text("") || j == Object([]) then oid == None
    else
      j.Object? && KnownKeys(j.fields, {"oid"}) && oid.Some? && StoredOid(Get(j.fields, "oid"), oid)
  }

  lemma EnterpriseIsStored(j: Json, stored: Option<string>)
    ensures Enterprise(j) == Accepted(stored) <==> StoredEnterprise(j, stored)
  {
    NoDotsNoOid();
    NoneIsNoOid();
    hide Strip, DropDots, IsOid;
  }

  lemma NoneIsNoOid()
    ensures !IsOid(DropDots(Strip("None")))
  {
    assert Strip("None") == "None" && DropDots("None") == "None";
    if IsOid("None") {
      OidEnds("None");
    }
  }

  lemma MatchIsStored(j: Json, m: Match)
    ensures ValidateMatch(j) == Accepted(m) <==> StoredMatch(j, m)
  {
    if j == Null || j.Object? {
      var f := if j == Null then [] else j.fields;
      KeysMeaning(f, MATCH_KEYS);
      EnterpriseIsStored(Get(f, "enterprise"), m.enterprise);
      hide Enterprise, StoredEnterprise, OptionalTag, StoredTag, OnlyKeys, KnownKeys, Get, DropDots, Strip, PyStr, IsOid;
      TagIsStored(Get(f, "brand"), m.brand);
      TagIsStored(Get(f, "model"), m.model);
    }
  }

  lemma IdentityIsStored(j: Json, identity: Option<Identity>)
    ensures ValidateIdentity(j) == Accepted(identity) <==> StoredIdentity(j, identity)
  {
    if j.Object? {
      KeysMeaning(j.fields, {"brand", "model_oid"});
      var brand, oid := Get(j.fields, "brand"), Get(j.fields, "model_oid");
      NothingIn(identity);
      hide TextValue, OidValue, StoredText, StoredOid, OnlyKeys, KnownKeys, Get;
      if identity.Some? {
        TextIsStored(brand, 64, identity.value.brand);
        OidIsStored(oid, identity.value.modelOid);
      }
      TextIsStored(brand, 64, None);
      OidIsStored(oid, None);
    }
  }

  lemma NothingIn(identity: Option<Identity>)
    ensures StoredIdentity(Object([]), identity) <==> identity == None
  {
  }

  lemma StatusIsStored(j: Json, oid: Option<string>)
    ensures StatusOid(j) == Accepted(oid) <==> StoredStatus(j, oid)
  {
    if j.Object? {
      KeysMeaning(j.fields, {"oid"});
      hide OidValue, StoredOid, OnlyKeys, KnownKeys;
      OidIsStored(Get(j.fields, "oid"), oid);
    }
  }

  // ------------------------------------------------------------------------------------------
  // The whole definition
  // ------------------------------------------------------------------------------------------

  /** Each part of the stored definition, from the caller's own field of that name. */
  ghost predicate Stores(f: seq<Field>, d: Definition) {
    && StoredSlug(Get(f, "key"), d.key)
    && StoredMatch(Get(f, "match"), d.criteria)
    && (d.overrideBuiltin <==> !Blank(Get(f, "override_builtin")))
    && (var j := Get(f, "supplies");
        if Blank(j) then d.supplies == [] else j.List? && |j.items| <= 24 && StoredSupplies(j.items, d.supplies))
    && (var j := Get(f, "meters");
        if Blank(j) then d.meters == [] else j.List? && |j.items| <= 12 && StoredMeters(j.items, d.meters))
    && StoredStatus(Get(f, "status_text"), d.statusOid)
    && StoredIdentity(Get(f, "identity"), d.identity)
    && StoredText(Get(f, "notes"), 200, d.notes)
  }

  /** It reads something, and no more than 32 OIDs in all. */
  ghost predicate Reads(d: Definition) {
    && (d.supplies != [] || d.meters != [] || d.statusOid.Some? || d.identity.Some?)
    && forall oids: set<string> :: (forall oid :: oid in oids ==> IsRead(d, oid)) ==> |oids| <= 32
  }

  ghost predicate IsRead(d: Definition, oid: string) {
    || (exists s :: s in d.supplies && (s.oid == oid || s.decode == RatioOid(oid)))
    || (exists m :: m in d.meters && m.oid == oid)
    || d.statusOid == Some(oid)
    || (d.identity.Some? && d.identity.value.modelOid == Some(oid))
  }

  lemma BlankIsFalse(j: Json)
    ensures Truthy(j) <==> !Blank(j)
  {
  }

  lemma ReadMeaning(d: Definition)
    ensures Reads(d) <==> ReadsSomething(d) && |OidsOf(d)| <= MAX_OIDS_PER_DEFINITION
  {
    forall oid ensures oid in OidsOf(d) <==> IsRead(d, oid) {
      OidIsRead(d, oid);
    }
    hide IsRead, OidsOf;
    if |OidsOf(d)| <= 32 {
      forall oids: set<string> | forall oid :: oid in oids ==> IsRead(d, oid)
        ensures |oids| <= 32
      {
        assert oids <= OidsOf(d);
        Fewer(oids, OidsOf(d));
      }
    }
  }

  lemma Fewer<T>(some: set<T>, all: set<T>)
    requires some <= all
    ensures |some| <= |all|
  {
    assert all == some + (all - some);
  }

  lemma OidIsRead(d: Definition, oid: string)
    ensures oid in OidsOf(d) <==> IsRead(d, oid)
  {
    assert (exists s :: s in d.supplies && (s.oid == oid || s.decode == RatioOid(oid))) <==>
      (exists i :: 0 <= i < |d.supplies| && (d.supplies[i].oid == oid || d.supplies[i].decode == RatioOid(oid)));
    assert (exists m :: m in d.meters && m.oid == oid) <==> exists i :: 0 <= i < |d.meters| && d.meters[i].oid == oid;
  }

  lemma SuppliesListed(j: Json, supplies: seq<Supply>)
    ensures (var items := Listed(j, MAX_SUPPLIES); items.Accepted? && Supplies(items.value) == Accepted(supplies)) <==>
      if Blank(j) then supplies == [] else j.List? && |j.items| <= 24 && StoredSupplies(j.items, supplies)
  {
    BlankIsFalse(j);
    hide Truthy, Blank, StoredSupply, ValidateSupply;
    var items := if Blank(j) || !j.List? then [] else j.items;
    SuppliesAreStored(items, supplies);
  }

  lemma MetersListed(j: Json, meters: seq<Meter>)
    ensures (var items := Listed(j, MAX_METERS); items.Accepted? && Meters(items.value) == Accepted(meters)) <==>
      if Blank(j) then meters == [] else j.List? && |j.items| <= 12 && StoredMeters(j.items, meters)
  {
    BlankIsFalse(j);
    hide Truthy, Blank, StoredMeter, ValidateMeter;
    var items := if Blank(j) || !j.List? then [] else j.items;
    MetersAreStored(items, meters);
  }

  lemma FieldsAreStored(f: seq<Field>, d: Definition)
    ensures Normalised(f) == Accepted(d) <==> Stores(f, d) && Reads(d)
  {
    hide Slug, StoredSlug, ValidateMatch, StoredMatch, Listed, Supplies, StoredSupplies, Meters, StoredMeters, StatusOid, StoredStatus,
         ValidateIdentity, StoredIdentity, TextValue, StoredText, Get, Truthy, Blank, ReadsSomething, OidsOf, Reads;
    SlugIsStored(Get(f, "key"), d.key);
    MatchIsStored(Get(f, "match"), d.criteria);
    SuppliesListed(Get(f, "supplies"), d.supplies);
    MetersListed(Get(f, "meters"), d.meters);
    StatusIsStored(Get(f, "status_text"), d.statusOid);
    IdentityIsStored(Get(f, "identity"), d.identity);
    TextIsStored(Get(f, "notes"), MAX_TEXT, d.notes);
    BlankIsFalse(Get(f, "override_builtin"));
    ReadMeaning(d);
  }

  /**
   * A definition is accepted, as d, exactly if it is a dictionary of the known keys, nowhere nested deeper
   * than eight levels, without a forbidden keyword outside `values`, each of its fields is of its form, and d
   * stores what they say.
   */
  lemma AcceptedExactly(raw: Json, d: Definition)
    ensures Validated(raw) == Accepted(d) <==>
      && raw.Object?
      && (forall chain :: Nested(chain, raw) ==> |chain| <= 8)
      && !(exists chain :: NestedSearched(chain, raw) && HasKeyword(chain[|chain| - 1]))
      && KnownKeys(raw.fields, {"key", "match", "supplies", "meters", "status_text", "identity", "override_builtin", "notes"})
      && Stores(raw.fields, d) && Reads(d)
  {
    hide Depth, HasForbidden, OnlyKeys, KnownKeys, Normalised, Stores, Reads, Nested, NestedSearched, HasKeyword;
    DepthMeaning(raw, MAX_JSON_DEPTH);
    ForbiddenMeaning(raw);
    if raw.Object? {
      KeysMeaning(raw.fields, DEFINITION_KEYS);
      FieldsAreStored(raw.fields, d);
    }
  }
}
