/**
 * Validating twice is validating once (central/device_definitions.py, `validate_definition`), and
 * what an accepted definition is bounded by.
 */
module DefinitionFixedPoint {
  import opened DeviceDefinitions
  import opened Json
  import opened Oids
  import opened Options
  import opened Texts

  // ------------------------------------------------------------------------------------------
  // Each primitive accepts its own result
  // ------------------------------------------------------------------------------------------

  function TextOrNull(text: Option<string>): Json {
    if text.Some? then Text(text.value) else Null
  }

  lemma TextFixed(j: Json, maxLength: nat, text: Option<string>)
    requires TextValue(j, maxLength) == Accepted(text)
    ensures TextValue(TextOrNull(text), maxLength) == Accepted(text)
  {
    hide Strip;
    if text.Some? {
      StripTrims(j.s);
      StripTrims(text.value);
    }
  }

  lemma OidIsTrimmed(oid: string)
    requires IsOid(oid)
    ensures DropDots(Strip(oid)) == oid && oid != ""
  {
    hide Strip, IsOid;
    OidEnds(oid);
    assert Trimmed(oid);
    StripTrims(oid);
    DropWhileSuffix(oid, c => c == '.');
  }

  lemma OidFixed(j: Json, oid: Option<string>)
    requires OidValue(j) == Accepted(oid)
    ensures OidValue(TextOrNull(oid)) == Accepted(oid)
  {
    hide Strip, IsOid, DropDots;
    if oid.Some? {
      OidIsTrimmed(oid.value);
    }
  }

  lemma EnterpriseFixed(j: Json, oid: Option<string>)
    requires Enterprise(j) == Accepted(oid)
    ensures Enterprise(TextOrNull(oid)) == Accepted(oid)
  {
    hide Strip, IsOid, DropDots;
    if oid.Some? {
      OidIsTrimmed(oid.value);
    }
  }

  lemma SlugFixed(j: Json, slug: string)
    requires Slug(j) == Accepted(slug)
    ensures Slug(Text(slug)) == Accepted(slug)
  {
    hide Strip, Lower, CharsIn;
    StripTrims(j.s);
    LowerLowers(Strip(j.s));
    StripTrims(slug);
    LowerLowers(slug);
  }

  /** Text that is tidied and lowered stays as it is. */
  lemma TidyLowered(text: string)
    ensures Lower(Tidy(Lower(Tidy(text)))) == Lower(Tidy(text))
  {
    hide Lower, Tidy, IsTidy;
    TidyTidies(text);
    LowerKeepsTidy(Tidy(text));
    TidyKeepsTidy(Lower(Tidy(text)));
    LowerLowers(Tidy(text));
    LowerLowers(Lower(Tidy(text)));
  }

  lemma TagFixed(j: Json, tag: Option<string>)
    requires OptionalTag(j) == Accepted(tag)
    ensures OptionalTag(TextOrNull(tag)) == Accepted(tag)
  {
    hide Lower, Tidy;
    if tag.Some? {
      TidyLowered(j.s);
    }
  }

  lemma LabelFixed(j: Json, maxLength: nat, text: string)
    requires Label(j, maxLength) == Accepted(text)
    ensures Label(Text(text), maxLength) == Accepted(text)
  {
    hide Lower, Tidy, CharsIn;
    TidyLowered(j.s);
  }

  lemma OptionalLabelFixed(j: Json, maxLength: nat, text: Option<string>)
    requires OptionalLabel(j, maxLength) == Accepted(text)
    ensures OptionalLabel(TextOrNull(text), maxLength) == Accepted(text)
  {
    hide Label;
    if text.Some? {
      LabelFixed(j, maxLength, text.value);
      LabelNotEmpty(j, maxLength);
    }
  }

  lemma LabelNotEmpty(j: Json, maxLength: nat)
    requires Label(j, maxLength).Accepted?
    ensures Label(j, maxLength).value != ""
  {
  }

  // ------------------------------------------------------------------------------------------
  // Map entries
  // ------------------------------------------------------------------------------------------

  predicate KeyIn(entries: seq<Entry>, key: string) {
    exists i :: 0 <= i < |entries| && entries[i].key == key
  }

  predicate IsNormal(e: Entry) {
    Trimmed(e.key) && |e.key| <= MAX_KEY_LEN && 0 <= e.percent <= 100
  }

  /** What the loop over `values` leaves: distinct stripped keys and percentages. */
  predicate AreNormal(entries: seq<Entry>) {
    && (forall i :: 0 <= i < |entries| ==> IsNormal(entries[i]))
    && (forall i, j :: 0 <= i < j < |entries| ==> entries[i].key != entries[j].key)
  }

  lemma {:induction false} PutKeys(entries: seq<Entry>, key: string, percent: int, k: string)
    ensures KeyIn(Put(entries, key, percent), k) <==> k == key || KeyIn(entries, k)
  {
    var out := Put(entries, key, percent);
    if entries == [] {
      assert out[0].key == key;
    } else {
      assert KeyIn(entries, k) <==> entries[0].key == k || KeyIn(entries[1..], k) by { KeyInSplit(entries, k); }
      KeyInSplit(out, k);
      if entries[0].key == key {
        assert out[1..] == entries[1..];
      } else {
        PutKeys(entries[1..], key, percent, k);
        assert out[1..] == Put(entries[1..], key, percent);
      }
    }
  }

  lemma KeyInSplit(entries: seq<Entry>, k: string)
    requires entries != []
    ensures KeyIn(entries, k) <==> entries[0].key == k || KeyIn(entries[1..], k)
  {
  }

  lemma {:induction false} PutNormal(entries: seq<Entry>, key: string, percent: int)
    requires AreNormal(entries) && IsNormal(Entry(key, percent))
    ensures AreNormal(Put(entries, key, percent))
    ensures 1 <= |Put(entries, key, percent)| <= |entries| + 1
  {
    hide IsNormal;
    if entries != [] && entries[0].key != key {
      var rest := Put(entries[1..], key, percent);
      PutNormal(entries[1..], key, percent);
      forall i | 0 <= i < |rest| ensures rest[i].key != entries[0].key {
        PutKeys(entries[1..], key, percent, rest[i].key);
        assert KeyIn(rest, rest[i].key);
      }
    }
  }

  /** A key that is all whitespace, which the loop accepts and stores as the empty key. */
  predicate BlankKey(fields: seq<Field>) {
    exists i :: 0 <= i < |fields| && Strip(fields[i].name) == ""
  }

  lemma {:induction false} EntriesMeaning(fields: seq<Field>, entries: seq<Entry>)
    requires MapEntries(fields) == Accepted(entries)
    ensures AreNormal(entries) && |entries| <= |fields| && (fields != [] ==> entries != [])
    ensures KeyIn(entries, "") <==> BlankKey(fields)
  {
    hide IsNormal, Strip;
    if fields != [] {
      var last := |fields| - 1;
      var before, f := MapEntries(fields[..last]).value, fields[last];
      EntriesMeaning(fields[..last], before);
      StripTrims(f.name);
      assert IsNormal(Entry(Strip(f.name), f.value.n)) by { StrippedIsNormal(f.name, f.value.n); }
      PutNormal(before, Strip(f.name), f.value.n);
      PutKeys(before, Strip(f.name), f.value.n, "");
      assert BlankKey(fields) <==> BlankKey(fields[..last]) || Strip(f.name) == "" by {
        if BlankKey(fields[..last]) {
          var i :| 0 <= i < last && Strip(fields[..last][i].name) == "";
          assert Strip(fields[i].name) == "";
        }
      }
    }
  }

  lemma StrippedIsNormal(name: string, percent: int)
    requires |name| <= MAX_KEY_LEN && 0 <= percent <= 100
    ensures IsNormal(Entry(Strip(name), percent))
  {
    StripTrims(name);
  }

  lemma {:induction false} PutNew(entries: seq<Entry>, key: string, percent: int)
    requires !KeyIn(entries, key)
    ensures Put(entries, key, percent) == entries + [Entry(key, percent)]
  {
    hide KeyIn;
    if entries != [] {
      KeyInSplit(entries, key);
      PutNew(entries[1..], key, percent);
      assert entries == [entries[0]] + entries[1..];
    }
  }

  lemma MapEntriesAppend(fields: seq<Field>, f: Field)
    ensures MapEntries(fields + [f])
         == if MapEntries(fields).Accepted? && 1 <= |f.name| <= MAX_KEY_LEN && f.value.Int? && 0 <= f.value.n <= 100
            then Accepted(Put(MapEntries(fields).value, Strip(f.name), f.value.n))
            else Refused
  {
  }

  lemma EntryFieldsAppend(entries: seq<Entry>, e: Entry)
    ensures EntryFields(entries + [e]) == EntryFields(entries) + [Field(e.key, Int(e.percent))]
  {
  }

  lemma LastIsNew(entries: seq<Entry>)
    requires AreNormal(entries) && entries != []
    ensures var before, e := entries[..|entries| - 1], entries[|entries| - 1];
            && AreNormal(before) && !KeyIn(before, e.key) && IsNormal(e)
            && (KeyIn(entries, "") <==> KeyIn(before, "") || e.key == "")
  {
  }

  /** Normal entries are accepted as they are iff none has the empty key. */
  lemma {:induction false} EntriesFixedIff(entries: seq<Entry>)
    requires AreNormal(entries)
    ensures if KeyIn(entries, "") then MapEntries(EntryFields(entries)).Refused?
            else MapEntries(EntryFields(entries)) == Accepted(entries)
  {
    if entries != [] {
      var before, e := entries[..|entries| - 1], entries[|entries| - 1];
      LastIsNew(entries);
      assert entries == before + [e];
      hide AreNormal, KeyIn, Put, MapEntries, Strip, Trimmed;
      EntriesFixedIff(before);
      StripTrims(e.key);
      EntryFieldsAppend(before, e);
      hide EntryFields;
      MapEntriesAppend(EntryFields(before), Field(e.key, Int(e.percent)));
      PutNew(before, e.key, e.percent);
    }
  }

  // ------------------------------------------------------------------------------------------
  // Reading back the dictionaries
  // ------------------------------------------------------------------------------------------

  lemma WithGets(fields: seq<Field>, name: string, value: Json)
    ensures forall other :: Has(With(fields, name, value), other) <==> Has(fields, other) || other == name
    ensures forall other :: Get(With(fields, name, value), other)
                         == if Has(fields, other) then Get(fields, other) else if other == name then value else Null
  {
    forall other
      ensures Has(With(fields, name, value), other) <==> Has(fields, other) || other == name
      ensures Get(With(fields, name, value), other)
           == if Has(fields, other) then Get(fields, other) else if other == name then value else Null
    {
      var one := [Field(name, value)];
      GetAppend(fields, one, other);
      assert one[1..] == [];
    }
  }

  lemma NothingGets()
    ensures forall other :: !Has([], other)
  {
  }

  lemma WithTextGets(fields: seq<Field>, name: string, text: Option<string>)
    requires !Has(fields, name)
    ensures forall other :: Has(WithText(fields, name, text), other) <==> Has(fields, other) || (text.Some? && other == name)
    ensures forall other :: other != name ==> Get(WithText(fields, name, text), other) == Get(fields, other)
    ensures Get(WithText(fields, name, text), name) == TextOrNull(text)
  {
    hide Has, Get;
    AbsentIsNull(fields);
    WithGets(fields, name, Text(GetOr(text, "")));
  }

  lemma AbsentIsNull(fields: seq<Field>)
    ensures forall other :: !Has(fields, other) ==> Get(fields, other) == Null
  {
    forall other | !Has(fields, other) ensures Get(fields, other) == Null {
      AbsentGets(fields, other);
    }
  }

  lemma {:induction false} AbsentGets(fields: seq<Field>, name: string)
    requires !Has(fields, name)
    ensures Get(fields, name) == Null
  {
    if fields != [] {
      AbsentGets(fields[1..], name);
    }
  }

  /** A map that stores the empty key. */
  predicate HasEmptyKey(d: Decode) {
    d.MapTo? && KeyIn(d.entries, "")
  }

  lemma RatioFixed(d: Decode, allowed: set<string>)
    requires "ratio" in allowed
    requires (d.RatioTo? && 0 < d.max <= MAX_RATIO) || (d.RatioOid? && IsOid(d.maxOid))
    ensures ValidateDecode(DecodeJson(d), allowed) == Accepted(d)
  {
    hide Has, Get, IsOid, Strip, DropDots;
    NothingGets();
    var head := With([], "kind", Text("ratio"));
    WithGets([], "kind", Text("ratio"));
    if d.RatioTo? {
      WithGets(head, "max", Int(d.max));
    } else {
      WithGets(head, "max_oid", Text(d.maxOid));
      OidIsTrimmed(d.maxOid);
    }
  }

  lemma MapFixedIff(entries: seq<Entry>, allowed: set<string>)
    requires "map" in allowed && AreNormal(entries) && 1 <= |entries| <= MAX_MAP_ENTRIES
    ensures if KeyIn(entries, "") then ValidateDecode(DecodeJson(MapTo(entries)), allowed).Refused?
            else ValidateDecode(DecodeJson(MapTo(entries)), allowed) == Accepted(MapTo(entries))
  {
    hide Has, Get, AreNormal, MapEntries;
    NothingGets();
    var head := With([], "kind", Text("map"));
    WithGets([], "kind", Text("map"));
    WithGets(head, "values", Object(EntryFields(entries)));
    EntriesFixedIff(entries);
  }

  lemma BetweenFixed(after: Option<string>, before: Option<string>, allowed: set<string>)
    requires "text_between" in allowed && (after.Some? || before.Some?)
    requires TextValue(TextOrNull(after), MAX_DELIMITER) == Accepted(after)
    requires TextValue(TextOrNull(before), MAX_DELIMITER) == Accepted(before)
    ensures ValidateDecode(DecodeJson(Between(after, before)), allowed) == Accepted(Between(after, before))
  {
    hide Has, Get, TextValue;
    NothingGets();
    var head := With([], "kind", Text("text_between"));
    WithGets([], "kind", Text("text_between"));
    WithTextGets(head, "after", after);
    WithTextGets(WithText(head, "after", after), "before", before);
  }

  lemma PlainFixed(kind: string, allowed: set<string>)
    requires kind in allowed && kind in DECODE_KINDS && kind !in {"ratio", "map", "text_between"}
    ensures ValidateDecode(DecodeJson(Plain(kind)), allowed) == Accepted(Plain(kind))
  {
  }

  /** A decode rule is accepted again as it is, unless it stores the empty key. */
  lemma DecodeFixedIff(j: Json, allowed: set<string>, d: Decode)
    requires ValidateDecode(j, allowed) == Accepted(d)
    ensures if HasEmptyKey(d) then ValidateDecode(DecodeJson(d), allowed).Refused?
            else ValidateDecode(DecodeJson(d), allowed) == Accepted(d)
    ensures HasEmptyKey(d) <==> BlankInDecode(j)
  {
    hide Has, Get, MapEntries, TextValue, OidValue, DecodeJson, OnlyKeys, AreNormal;
    var fields := j.fields;
    match d
    case RatioTo(max) => RatioFixed(d, allowed);
    case RatioOid(oid) =>
      RequiredOid(Get(fields, "max_oid"), oid);
      RatioFixed(d, allowed);
    case MapTo(entries) =>
      EntriesMeaning(Get(fields, "values").fields, entries);
      MapFixedIff(entries, allowed);
    case Between(after, before) =>
      TextFixed(Get(fields, "after"), MAX_DELIMITER, after);
      TextFixed(Get(fields, "before"), MAX_DELIMITER, before);
      BetweenFixed(after, before, allowed);
    case Plain(kind) => PlainFixed(kind, allowed);
  }

  lemma RequiredOid(j: Json, oid: string)
    requires Required(OidValue(j)) == Accepted(oid)
    ensures IsOid(oid)
  {
  }

  /** The decode rule as the caller wrote it has a key of nothing but whitespace. */
  predicate BlankInDecode(j: Json) {
    && j.Object? && Get(j.fields, "kind") == Text("map")
    && Get(j.fields, "values").Object? && BlankKey(Get(j.fields, "values").fields)
  }

  // ------------------------------------------------------------------------------------------
  // Supplies, meters, match, status text, identity
  // ------------------------------------------------------------------------------------------

  predicate BlankInSupply(j: Json) {
    j.Object? && BlankInDecode(Get(j.fields, "decode"))
  }

  lemma SupplyTypeFixed(j: Json, text: string)
    requires Required(TextValue(j, 32)) == Accepted(text)
    ensures Required(TextValue(Text(Lower(text)), 32)) == Accepted(Lower(text))
    ensures Lower(Lower(text)) == Lower(text)
  {
    hide Strip, Lower;
    StripTrims(j.s);
    LowerLowers(text);
    LowerLowers(Lower(text));
    StripTrims(Lower(text));
  }

  lemma RequiredFixed(j: Json, oid: string)
    requires Required(OidValue(j)) == Accepted(oid)
    ensures Required(OidValue(Text(oid))) == Accepted(oid)
  {
    hide OidValue;
    OidFixed(j, Some(oid));
  }

  lemma DefaultDecodeNotBlank(fields: seq<Field>, kind: string)
    requires kind != "map"
    ensures BlankInDecode(DecodeOr(fields, kind)) <==> BlankInDecode(Get(fields, "decode"))
  {
  }

  /** The keys and values of a supply's dictionary. */
  lemma SupplyGets(s: Supply)
    ensures var f := SupplyFields(s);
            && OnlyKeys(f, SUPPLY_KEYS) && Has(f, "decode")
            && Get(f, "oid") == Text(s.oid) && Get(f, "type") == Text(s.supplyType) && Get(f, "decode") == DecodeJson(s.decode)
            && Get(f, "color") == TextOrNull(s.color) && Get(f, "description") == TextOrNull(s.description)
  {
    hide Has, Get, DecodeJson;
    NothingGets();
    var f1 := With([], "oid", Text(s.oid));
    WithGets([], "oid", Text(s.oid));
    var f2 := With(f1, "type", Text(s.supplyType));
    WithGets(f1, "type", Text(s.supplyType));
    var f3 := With(f2, "decode", DecodeJson(s.decode));
    WithGets(f2, "decode", DecodeJson(s.decode));
    WithTextGets(f3, "color", s.color);
    WithTextGets(WithText(f3, "color", s.color), "description", s.description);
  }

  lemma SupplyFixedIff(j: Json, s: Supply)
    requires ValidateSupply(j) == Accepted(s)
    ensures if BlankInSupply(j) then ValidateSupply(Object(SupplyFields(s))).Refused?
            else ValidateSupply(Object(SupplyFields(s))) == Accepted(s)
  {
    hide Has, Get, OnlyKeys, TextValue, OidValue, OptionalLabel, ValidateDecode, Lower, SupplyFields, DecodeJson, BlankInDecode;
    var f := j.fields;
    SupplyGets(s);
    SupplyTypeFixed(Get(f, "type"), TextValue(Get(f, "type"), 32).value.value);
    RequiredFixed(Get(f, "oid"), s.oid);
    DecodeFixedIff(DecodeOr(f, "percent"), SUPPLY_KINDS, s.decode);
    DefaultDecodeNotBlank(f, "percent");
    OptionalLabelFixed(Get(f, "color"), 32, s.color);
    TextFixed(Get(f, "description"), MAX_TEXT, s.description);
  }

  lemma MeterGets(m: Meter)
    ensures var f := MeterFields(m);
            && OnlyKeys(f, METER_KEYS) && Has(f, "decode")
            && Get(f, "oid") == Text(m.oid) && Get(f, "meter") == Text(m.meter) && Get(f, "decode") == DecodeJson(m.decode)
  {
    hide Has, Get, DecodeJson;
    NothingGets();
    var f1 := With([], "oid", Text(m.oid));
    WithGets([], "oid", Text(m.oid));
    WithGets(f1, "meter", Text(m.meter));
    WithGets(With(f1, "meter", Text(m.meter)), "decode", DecodeJson(m.decode));
  }

  lemma MeterFixed(j: Json, m: Meter)
    requires ValidateMeter(j) == Accepted(m)
    ensures ValidateMeter(Object(MeterFields(m))) == Accepted(m)
  {
    hide Has, Get, OnlyKeys, OidValue, Label, MeterFields, DecodeJson;
    var f := j.fields;
    MeterGets(m);
    LabelFixed(Get(f, "meter"), 32, m.meter);
    RequiredFixed(Get(f, "oid"), m.oid);
    CountIsPlain(DecodeOr(f, "count"), m.decode);
    hide ValidateDecode;
    DecodeFixedIff(DecodeOr(f, "count"), METER_KINDS, m.decode);
  }

  lemma CountIsPlain(j: Json, d: Decode)
    requires ValidateDecode(j, METER_KINDS) == Accepted(d)
    ensures d == Plain("count")
  {
  }

  lemma MatchFixed(j: Json, m: Match)
    requires ValidateMatch(j) == Accepted(m)
    ensures ValidateMatch(Object(MatchFields(m))) == Accepted(m)
  {
    hide Has, Get, Enterprise, OptionalTag;
    var f := if j == Null then [] else j.fields;
    EnterpriseFixed(Get(f, "enterprise"), m.enterprise);
    TagFixed(Get(f, "brand"), m.brand);
    TagFixed(Get(f, "model"), m.model);
    NothingGets();
    var f1 := WithText([], "enterprise", m.enterprise);
    WithTextGets([], "enterprise", m.enterprise);
    WithTextGets(f1, "brand", m.brand);
    WithTextGets(WithText(f1, "brand", m.brand), "model", m.model);
  }

  lemma IdentityFixed(j: Json, i: Identity)
    requires ValidateIdentity(j) == Accepted(Some(i))
    ensures ValidateIdentity(Object(IdentityFields(i))) == Accepted(Some(i))
  {
    hide Has, Get, TextValue, OidValue;
    TextFixed(Get(j.fields, "brand"), 64, i.brand);
    OidFixed(Get(j.fields, "model_oid"), i.modelOid);
    NothingGets();
    WithTextGets([], "brand", i.brand);
    WithTextGets(WithText([], "brand", i.brand), "model_oid", i.modelOid);
  }

  lemma StatusFixed(j: Json, oid: string)
    requires StatusOid(j) == Accepted(Some(oid))
    ensures StatusOid(Object(With([], "oid", Text(oid)))) == Accepted(Some(oid))
  {
    hide Has, Get, OidValue;
    RequiredFixed(Get(j.fields, "oid"), oid);
    NothingGets();
    WithGets([], "oid", Text(oid));
  }

  // ------------------------------------------------------------------------------------------
  // Lists
  // ------------------------------------------------------------------------------------------

  predicate BlankAmong(items: seq<Json>) {
    exists i :: 0 <= i < |items| && BlankInSupply(items[i])
  }

  lemma SuppliesAppend(items: seq<Json>, j: Json)
    ensures Supplies(items + [j])
         == if Supplies(items).Accepted? && ValidateSupply(j).Accepted? then Accepted(Supplies(items).value + [ValidateSupply(j).value])
            else Refused
  {
  }

  lemma MetersAppend(items: seq<Json>, j: Json)
    ensures Meters(items + [j])
         == if Meters(items).Accepted? && ValidateMeter(j).Accepted? then Accepted(Meters(items).value + [ValidateMeter(j).value])
            else Refused
  {
  }

  lemma {:induction false} SuppliesFixedIff(items: seq<Json>, supplies: seq<Supply>)
    requires Supplies(items) == Accepted(supplies)
    ensures |supplies| == |items|
    ensures if BlankAmong(items) then Supplies(SuppliesJson(supplies)).Refused?
            else Supplies(SuppliesJson(supplies)) == Accepted(supplies)
  {
    hide ValidateSupply, BlankInSupply, SupplyFields;
    if items != [] {
      var last := |items| - 1;
      var before, s := Supplies(items[..last]).value, ValidateSupply(items[last]).value;
      SuppliesFixedIff(items[..last], before);
      SupplyFixedIff(items[last], s);
      assert SuppliesJson(supplies) == SuppliesJson(before) + [Object(SupplyFields(s))];
      SuppliesAppend(SuppliesJson(before), Object(SupplyFields(s)));
      assert BlankAmong(items) <==> BlankAmong(items[..last]) || BlankInSupply(items[last]) by {
        if BlankAmong(items[..last]) {
          var i :| 0 <= i < last && BlankInSupply(items[..last][i]);
          assert BlankInSupply(items[i]);
        }
      }
    }
  }

  lemma {:induction false} MetersFixed(items: seq<Json>, meters: seq<Meter>)
    requires Meters(items) == Accepted(meters)
    ensures |meters| == |items| && Meters(MetersJson(meters)) == Accepted(meters)
  {
    hide ValidateMeter, MeterFields;
    if items != [] {
      var last := |items| - 1;
      var before, m := Meters(items[..last]).value, ValidateMeter(items[last]).value;
      MetersFixed(items[..last], before);
      MeterFixed(items[last], m);
      assert MetersJson(meters) == MetersJson(before) + [Object(MeterFields(m))];
      MetersAppend(MetersJson(before), Object(MeterFields(m)));
    }
  }

  // ------------------------------------------------------------------------------------------
  // Depth and forbidden keys of the dictionary
  // ------------------------------------------------------------------------------------------

  predicate FieldName(name: string) {
    Trimmed(name) && IsLower(name) && name !in FORBIDDEN_KEYS
  }

  /** Nothing forbidden, and nothing deeper than a bound. */
  ghost predicate Sound(fields: seq<Field>, depth: nat) {
    !FieldsForbidden(fields) && FieldsDepth(fields) <= depth
  }

  lemma NothingSound(depth: nat)
    ensures Sound([], depth)
  {
  }

  lemma WithSound(fields: seq<Field>, name: string, value: Json, depth: nat)
    requires Sound(fields, depth) && FieldName(name) && Depth(value) <= depth
    requires !HasForbidden(value) || (name == "values" && value.Object?)
    ensures Sound(With(fields, name, value), depth)
  {
    hide HasForbidden, Depth;
    NotForbidden(name);
    FieldsForbiddenAppend(fields, Field(name, value));
    assert With(fields, name, value)[..|fields|] == fields;
  }

  lemma NotForbidden(name: string)
    requires FieldName(name)
    ensures !ForbiddenKey(name)
  {
    StripTrims(name);
    LowerLowers(name);
  }

  lemma WithTextSound(fields: seq<Field>, name: string, text: Option<string>, depth: nat)
    requires Sound(fields, depth) && FieldName(name) && depth >= 1
    ensures Sound(WithText(fields, name, text), depth)
  {
    hide Sound, FieldName;
    if text.Some? {
      WithSound(fields, name, Text(text.value), depth);
    }
  }

  /** An object of sound fields is one deeper. */
  lemma ObjectSound(fields: seq<Field>, depth: nat)
    requires Sound(fields, depth)
    ensures !HasForbidden(Object(fields)) && Depth(Object(fields)) <= depth + 1
  {
  }

  lemma {:induction false} EntriesShallow(entries: seq<Entry>)
    ensures FieldsDepth(EntryFields(entries)) <= 1
  {
    if entries != [] {
      EntriesShallow(entries[..|entries| - 1]);
      assert EntryFields(entries)[..|entries| - 1] == EntryFields(entries[..|entries| - 1]);
    }
  }

  lemma DecodeSound(d: Decode)
    ensures !HasForbidden(DecodeJson(d)) && Depth(DecodeJson(d)) <= 3
  {
    hide Sound, FieldName;
    DecodeNames();
    DecodeValueNames();
    NothingSound(2);
    match d {
      case Plain(kind) =>
        WithSound([], "kind", Text(kind), 2);
      case RatioTo(max) =>
        WithSound([], "kind", Text("ratio"), 2);
        WithSound(With([], "kind", Text("ratio")), "max", Int(max), 2);
      case RatioOid(oid) =>
        WithSound([], "kind", Text("ratio"), 2);
        WithSound(With([], "kind", Text("ratio")), "max_oid", Text(oid), 2);
      case MapTo(entries) =>
        WithSound([], "kind", Text("map"), 2);
        EntriesShallow(entries);
        WithSound(With([], "kind", Text("map")), "values", Object(EntryFields(entries)), 2);
      case Between(after, before) =>
        WithSound([], "kind", Text("text_between"), 2);
        var head := With([], "kind", Text("text_between"));
        WithTextSound(head, "after", after, 2);
        WithTextSound(WithText(head, "after", after), "before", before, 2);
    }
    ObjectSound(DecodeFields(d), 2);
  }

  lemma DecodeNames()
    ensures FieldName("kind") && FieldName("max") && FieldName("max_oid")
  {
  }

  lemma DecodeValueNames()
    ensures FieldName("values") && FieldName("after") && FieldName("before")
  {
  }

  lemma SupplyNames()
    ensures FieldName("oid") && FieldName("type") && FieldName("decode")
  {
  }

  lemma LabelNames()
    ensures FieldName("color") && FieldName("description") && FieldName("meter")
  {
  }

  lemma MatchNames()
    ensures FieldName("enterprise") && FieldName("brand") && FieldName("model") && FieldName("model_oid")
  {
  }

  lemma HeadNames()
    ensures FieldName("key") && FieldName("match") && FieldName("override_builtin")
  {
  }

  lemma ListNames()
    ensures FieldName("supplies") && FieldName("meters") && FieldName("notes")
  {
  }

  lemma ReadNames()
    ensures FieldName("status_text") && FieldName("identity")
  {
  }

  lemma SupplySound(s: Supply)
    ensures !HasForbidden(Object(SupplyFields(s))) && Depth(Object(SupplyFields(s))) <= 4
  {
    hide Sound, FieldName;
    SupplyNames();
    LabelNames();
    DecodeSound(s.decode);
    hide DecodeJson;
    NothingSound(3);
    WithSound([], "oid", Text(s.oid), 3);
    var f1 := With([], "oid", Text(s.oid));
    WithSound(f1, "type", Text(s.supplyType), 3);
    var f2 := With(f1, "type", Text(s.supplyType));
    WithSound(f2, "decode", DecodeJson(s.decode), 3);
    var f3 := With(f2, "decode", DecodeJson(s.decode));
    WithTextSound(f3, "color", s.color, 3);
    WithTextSound(WithText(f3, "color", s.color), "description", s.description, 3);
    ObjectSound(SupplyFields(s), 3);
  }

  lemma MeterSound(m: Meter)
    ensures !HasForbidden(Object(MeterFields(m))) && Depth(Object(MeterFields(m))) <= 4
  {
    hide Sound, FieldName;
    SupplyNames();
    LabelNames();
    DecodeSound(m.decode);
    hide DecodeJson;
    NothingSound(3);
    WithSound([], "oid", Text(m.oid), 3);
    var f1 := With([], "oid", Text(m.oid));
    WithSound(f1, "meter", Text(m.meter), 3);
    WithSound(With(f1, "meter", Text(m.meter)), "decode", DecodeJson(m.decode), 3);
    ObjectSound(MeterFields(m), 3);
  }

  lemma {:induction false} ListSound(items: seq<Json>, depth: nat)
    requires forall i :: 0 <= i < |items| ==> !HasForbidden(items[i]) && Depth(items[i]) <= depth
    ensures !HasForbidden(List(items)) && Depth(List(items)) <= depth + 1
  {
    if items != [] {
      ListSound(items[..|items| - 1], depth);
    }
  }

  lemma WithListSound(fields: seq<Field>, name: string, items: seq<Json>, depth: nat)
    requires Sound(fields, depth) && FieldName(name) && depth >= 1
    requires forall i :: 0 <= i < |items| ==> !HasForbidden(items[i]) && Depth(items[i]) <= depth - 1
    ensures Sound(WithList(fields, name, items), depth)
  {
    hide Sound, FieldName;
    if items != [] {
      ListSound(items, depth - 1);
      WithSound(fields, name, List(items), depth);
    }
  }

  lemma WithObjectSound(fields: seq<Field>, name: string, value: Option<seq<Field>>, depth: nat)
    requires Sound(fields, depth) && FieldName(name) && depth >= 2
    requires value.Some? ==> Sound(value.value, depth - 1)
    ensures Sound(WithObject(fields, name, value), depth)
  {
    hide Sound, FieldName;
    if value.Some? {
      ObjectSound(value.value, depth - 1);
      WithSound(fields, name, Object(value.value), depth);
    }
  }

  /** The dictionary has no forbidden key and is at most six levels deep. */
  lemma DefinitionSound(d: Definition)
    ensures !HasForbidden(DefinitionJson(d)) && Depth(DefinitionJson(d)) <= 6
  {
    hide Sound, FieldName, SupplyFields, MeterFields;
    MatchNames();
    HeadNames();
    ListNames();
    ReadNames();
    SupplyNames();
    NothingSound(4);
    NothingSound(5);
    var m := d.criteria;
    var m1 := WithText([], "enterprise", m.enterprise);
    WithTextSound([], "enterprise", m.enterprise, 4);
    WithTextSound(m1, "brand", m.brand, 4);
    WithTextSound(WithText(m1, "brand", m.brand), "model", m.model, 4);
    ObjectSound(MatchFields(m), 4);
    var f1 := With([], "key", Text(d.key));
    WithSound([], "key", Text(d.key), 5);
    var f2 := With(f1, "match", Object(MatchFields(m)));
    WithSound(f1, "match", Object(MatchFields(m)), 5);
    var f3 := With(f2, "override_builtin", Bool(d.overrideBuiltin));
    WithSound(f2, "override_builtin", Bool(d.overrideBuiltin), 5);
    ListsSound(f3, d.supplies, d.meters);
    var f5 := WithList(WithList(f3, "supplies", SuppliesJson(d.supplies)), "meters", MetersJson(d.meters));
    ReadsSound(f5, d);
    ObjectSound(DefinitionFields(d), 5);
  }

  lemma ListsSound(fields: seq<Field>, supplies: seq<Supply>, meters: seq<Meter>)
    requires Sound(fields, 5)
    ensures Sound(WithList(WithList(fields, "supplies", SuppliesJson(supplies)), "meters", MetersJson(meters)), 5)
  {
    hide Sound, FieldName, SupplyFields, MeterFields;
    ListNames();
    forall i | 0 <= i < |supplies| ensures !HasForbidden(SuppliesJson(supplies)[i]) && Depth(SuppliesJson(supplies)[i]) <= 4 {
      SupplySound(supplies[i]);
    }
    forall i | 0 <= i < |meters| ensures !HasForbidden(MetersJson(meters)[i]) && Depth(MetersJson(meters)[i]) <= 4 {
      MeterSound(meters[i]);
    }
    WithListSound(fields, "supplies", SuppliesJson(supplies), 5);
    WithListSound(WithList(fields, "supplies", SuppliesJson(supplies)), "meters", MetersJson(meters), 5);
  }

  lemma ReadsSound(fields: seq<Field>, d: Definition)
    requires Sound(fields, 5)
    ensures Sound(WithText(WithObject(WithObject(fields, "status_text", StatusFields(d.statusOid)),
                                      "identity", IdentityOrNone(d.identity)), "notes", d.notes), 5)
  {
    hide Sound, FieldName;
    MatchNames();
    ListNames();
    ReadNames();
    SupplyNames();
    NothingSound(4);
    WithSound([], "oid", Text(GetOr(d.statusOid, "")), 4);
    WithObjectSound(fields, "status_text", StatusFields(d.statusOid), 5);
    var identity := IdentityOrNone(d.identity);
    if d.identity.Some? {
      var i := d.identity.value;
      WithTextSound([], "brand", i.brand, 4);
      WithTextSound(WithText([], "brand", i.brand), "model_oid", i.modelOid, 4);
    }
    var f1 := WithObject(fields, "status_text", StatusFields(d.statusOid));
    WithObjectSound(f1, "identity", identity, 5);
    WithTextSound(WithObject(f1, "identity", identity), "notes", d.notes, 5);
  }

  // ------------------------------------------------------------------------------------------
  // The fixed point
  // ------------------------------------------------------------------------------------------

  function ListOrNull(items: seq<Json>): Json {
    if items == [] then Null else List(items)
  }

  function ObjectOrNull(value: Option<seq<Field>>): Json {
    if value.Some? then Object(value.value) else Null
  }

  lemma WithListGets(fields: seq<Field>, name: string, items: seq<Json>)
    requires !Has(fields, name)
    ensures forall other :: Has(WithList(fields, name, items), other) <==> Has(fields, other) || (items != [] && other == name)
    ensures forall other :: other != name ==> Get(WithList(fields, name, items), other) == Get(fields, other)
    ensures Get(WithList(fields, name, items), name) == ListOrNull(items)
  {
    hide Has, Get;
    AbsentIsNull(fields);
    WithGets(fields, name, List(items));
  }

  lemma WithObjectGets(fields: seq<Field>, name: string, value: Option<seq<Field>>)
    requires !Has(fields, name)
    ensures forall other :: Has(WithObject(fields, name, value), other) <==> Has(fields, other) || (value.Some? && other == name)
    ensures forall other :: other != name ==> Get(WithObject(fields, name, value), other) == Get(fields, other)
    ensures Get(WithObject(fields, name, value), name) == ObjectOrNull(value)
  {
    hide Has, Get;
    AbsentIsNull(fields);
    WithGets(fields, name, Object(GetOr(value, [])));
  }

  lemma HeadGets(d: Definition)
    ensures var f := HeadFields(d);
            && OnlyKeys(f, {"key", "match", "override_builtin"})
            && (forall name :: Has(f, name) <==> name in {"key", "match", "override_builtin"})
            && Get(f, "key") == Text(d.key) && Get(f, "match") == Object(MatchFields(d.criteria))
            && Get(f, "override_builtin") == Bool(d.overrideBuiltin)
  {
    hide Has, Get, MatchFields;
    NothingGets();
    var f1 := With([], "key", Text(d.key));
    WithGets([], "key", Text(d.key));
    WithGets(f1, "match", Object(MatchFields(d.criteria)));
    WithGets(With(f1, "match", Object(MatchFields(d.criteria))), "override_builtin", Bool(d.overrideBuiltin));
  }

  lemma ListGets(d: Definition)
    ensures var f := ListFields(d);
            && OnlyKeys(f, {"key", "match", "override_builtin", "supplies", "meters"})
            && (forall name :: Has(f, name) ==> name in {"key", "match", "override_builtin", "supplies", "meters"})
            && Get(f, "key") == Text(d.key) && Get(f, "match") == Object(MatchFields(d.criteria))
            && Get(f, "override_builtin") == Bool(d.overrideBuiltin)
            && Get(f, "supplies") == ListOrNull(SuppliesJson(d.supplies))
            && Get(f, "meters") == ListOrNull(MetersJson(d.meters))
  {
    hide Has, Get, MatchFields, SuppliesJson, MetersJson, HeadFields, ListOrNull;
    HeadGets(d);
    WithListGets(HeadFields(d), "supplies", SuppliesJson(d.supplies));
    WithListGets(WithList(HeadFields(d), "supplies", SuppliesJson(d.supplies)), "meters", MetersJson(d.meters));
  }

  /** The keys and values of a definition's dictionary. */
  lemma DefinitionGets(d: Definition)
    ensures var f := DefinitionFields(d);
            && OnlyKeys(f, DEFINITION_KEYS)
            && Get(f, "key") == Text(d.key) && Get(f, "match") == Object(MatchFields(d.criteria))
            && Get(f, "override_builtin") == Bool(d.overrideBuiltin)
            && Get(f, "supplies") == ListOrNull(SuppliesJson(d.supplies))
            && Get(f, "meters") == ListOrNull(MetersJson(d.meters))
            && Get(f, "status_text") == ObjectOrNull(StatusFields(d.statusOid))
            && Get(f, "identity") == ObjectOrNull(IdentityOrNone(d.identity))
            && Get(f, "notes") == TextOrNull(d.notes)
  {
    hide Has, Get, MatchFields, SuppliesJson, MetersJson, ListFields, ListOrNull, StatusFields, IdentityOrNone;
    hide ObjectOrNull, TextOrNull;
    ListGets(d);
    var f6 := WithObject(ListFields(d), "status_text", StatusFields(d.statusOid));
    WithObjectGets(ListFields(d), "status_text", StatusFields(d.statusOid));
    WithObjectGets(f6, "identity", IdentityOrNone(d.identity));
    WithTextGets(WithObject(f6, "identity", IdentityOrNone(d.identity)), "notes", d.notes);
  }

  /** Some supply maps a device response of nothing but whitespace. */
  predicate HasBlankMapKey(raw: Json) {
    && raw.Object? && Get(raw.fields, "supplies").List?
    && BlankAmong(Get(raw.fields, "supplies").items)
  }

  /** `supplies` and `meters` read back from their dictionaries. */
  lemma ListsFixedIff(supplies: Json, meters: Json, d: Definition)
    requires Listed(supplies, MAX_SUPPLIES).Accepted? && Supplies(Listed(supplies, MAX_SUPPLIES).value) == Accepted(d.supplies)
    requires Listed(meters, MAX_METERS).Accepted? && Meters(Listed(meters, MAX_METERS).value) == Accepted(d.meters)
    ensures var again := Listed(ListOrNull(SuppliesJson(d.supplies)), MAX_SUPPLIES);
            && again == Accepted(SuppliesJson(d.supplies))
            && if supplies.List? && BlankAmong(supplies.items) then Supplies(again.value).Refused?
               else Supplies(again.value) == Accepted(d.supplies)
    ensures var again := Listed(ListOrNull(MetersJson(d.meters)), MAX_METERS);
            again == Accepted(MetersJson(d.meters)) && Meters(again.value) == Accepted(d.meters)
  {
    hide ValidateSupply, ValidateMeter, BlankInSupply, SupplyFields, MeterFields;
    SuppliesFixedIff(Listed(supplies, MAX_SUPPLIES).value, d.supplies);
    MetersFixed(Listed(meters, MAX_METERS).value, d.meters);
  }

  lemma ReadsFixed(status: Json, identity: Json, d: Definition)
    requires StatusOid(status) == Accepted(d.statusOid) && ValidateIdentity(identity) == Accepted(d.identity)
    ensures StatusOid(ObjectOrNull(StatusFields(d.statusOid))) == Accepted(d.statusOid)
    ensures ValidateIdentity(ObjectOrNull(IdentityOrNone(d.identity))) == Accepted(d.identity)
  {
    if d.statusOid.Some? {
      StatusFixed(status, d.statusOid.value);
    }
    if d.identity.Some? {
      IdentityFixed(identity, d.identity.value);
    }
    hide StatusOid, ValidateIdentity, IdentityFields;
    NoneReads();
  }

  lemma NoneReads()
    ensures StatusOid(Null) == Accepted(None) && ValidateIdentity(Null) == Accepted(None)
  {
  }

  lemma NormalisedFixedIff(raw: Json, d: Definition)
    requires raw.Object? && Normalised(raw.fields) == Accepted(d)
    ensures if HasBlankMapKey(raw) then Normalised(DefinitionFields(d)).Refused?
            else Normalised(DefinitionFields(d)) == Accepted(d)
  {
    hide Get, Slug, ValidateMatch, Supplies, Meters, StatusOid, ValidateIdentity, TextValue, OidsOf, BlankAmong;
    hide DefinitionFields, MatchFields, SuppliesJson, MetersJson;
    var f := raw.fields;
    DefinitionGets(d);
    SlugFixed(Get(f, "key"), d.key);
    MatchFixed(Get(f, "match"), d.criteria);
    ListsFixedIff(Get(f, "supplies"), Get(f, "meters"), d);
    ReadsFixed(Get(f, "status_text"), Get(f, "identity"), d);
    TextFixed(Get(f, "notes"), MAX_TEXT, d.notes);
  }

  /**
   * Validating the normalised definition returns it unchanged iff no supply of the original maps a
   * key of nothing but whitespace; otherwise it is refused.
   */
  lemma ValidatingTwiceIff(raw: Json, d: Definition)
    requires Validated(raw) == Accepted(d)
    ensures Validated(DefinitionJson(d)) == (if HasBlankMapKey(raw) then Refused else Accepted(d))
  {
    hide Normalised, HasForbidden, Depth, DefinitionFields, BlankAmong;
    NormalisedFixedIff(raw, d);
    DefinitionSound(d);
    DefinitionGets(d);
  }

  /** Words in normal form already. */
  lemma PlainWord(word: string)
    requires Trimmed(word) && IsLower(word) && IsTidy(word)
    ensures Strip(word) == word && Lower(word) == word && Tidy(word) == word
  {
    StripTrims(word);
    LowerLowers(word);
    TidyKeepsTidy(word);
  }

  lemma BlankEntries(values: seq<Field>)
    requires values == [Field(" ", Int(5))]
    ensures MapEntries(values) == Accepted([Entry("", 5)]) && BlankKey(values)
  {
  }

  lemma BlankMapDecodes()
    ensures ValidateDecode(DecodeJson(MapTo([Entry(" ", 5)])), SUPPLY_KINDS) == Accepted(MapTo([Entry("", 5)]))
    ensures BlankInDecode(DecodeJson(MapTo([Entry(" ", 5)])))
  {
    hide Has, Get, MapEntries, BlankKey;
    var values := EntryFields([Entry(" ", 5)]);
    BlankEntries(values);
    NothingGets();
    WithGets([], "kind", Text("map"));
    WithGets(With([], "kind", Text("map")), "values", Object(values));
  }

  lemma InkIsFixed()
    ensures TextValue(Text("ink"), 32) == Accepted(Some("ink")) && Lower("ink") == "ink"
  {
  }

  lemma AbcIsPlain()
    ensures Trimmed("abc") && IsLower("abc") && IsTidy("abc")
  {
  }

  lemma AbcIsFixed()
    ensures Slug(Text("abc")) == Accepted("abc") && OptionalTag(Text("abc")) == Accepted(Some("abc"))
  {
    hide Strip, Lower, Tidy, Trimmed, IsLower, IsTidy;
    AbcIsPlain();
    PlainWord("abc");
  }

  lemma OneIsOid()
    ensures OidValue(Text("1")) == Accepted(Some("1"))
  {
  }

  /** One supply that maps a lone space, and all else plain. */
  function BlankKeyDefinition(key: string): Definition {
    Definition("abc", Match(None, None, Some("abc")), false,
               [Supply("1", "ink", MapTo([Entry(key, 5)]), None, None)], [], None, None, None)
  }

  lemma BlankSupply(s: Supply)
    requires s == Supply("1", "ink", MapTo([Entry(" ", 5)]), None, None)
    ensures ValidateSupply(Object(SupplyFields(s))) == Accepted(Supply("1", "ink", MapTo([Entry("", 5)]), None, None))
    ensures BlankInSupply(Object(SupplyFields(s)))
  {
    hide Has, Get, OnlyKeys, TextValue, OidValue, ValidateDecode, Lower, SupplyFields, DecodeJson, BlankInDecode;
    SupplyGets(s);
    InkIsFixed();
    OneIsOid();
    BlankMapDecodes();
    NullIsNone();
  }

  lemma NullIsNone()
    ensures forall n: nat :: TextValue(Null, n) == Accepted(None)
  {
  }

  lemma BlankKeyNormalises()
    ensures Normalised(DefinitionFields(BlankKeyDefinition(" "))) == Accepted(BlankKeyDefinition(""))
    ensures BlankInSupply(SuppliesJson(BlankKeyDefinition(" ").supplies)[0])
  {
    hide Get, Slug, OptionalTag, ValidateSupply, BlankInSupply, TextValue, MatchFields, SupplyFields, DefinitionFields;
    hide ValidateMatch, OidsOf;
    var d, out := BlankKeyDefinition(" "), BlankKeyDefinition("");
    DefinitionGets(d);
    AbcIsFixed();
    AbcMatches();
    NullIsNone();
    NoneReads();
    hide StatusOid, ValidateIdentity;
    BlankSupplies(d.supplies, out.supplies);
    hide Supplies, SuppliesJson;
    OneOid(out);
  }

  lemma BlankSupplies(supplies: seq<Supply>, stored: seq<Supply>)
    requires supplies == [Supply("1", "ink", MapTo([Entry(" ", 5)]), None, None)]
    requires stored == [Supply("1", "ink", MapTo([Entry("", 5)]), None, None)]
    ensures |SuppliesJson(supplies)| == 1 && BlankInSupply(SuppliesJson(supplies)[0])
    ensures Supplies(SuppliesJson(supplies)) == Accepted(stored)
  {
    hide ValidateSupply, BlankInSupply, SupplyFields;
    BlankSupply(supplies[0]);
    assert SuppliesJson(supplies) == [] + [Object(SupplyFields(supplies[0]))];
    SuppliesAppend([], Object(SupplyFields(supplies[0])));
    assert [] + stored == stored;
  }

  lemma OneOid(d: Definition)
    requires d == BlankKeyDefinition("")
    ensures |OidsOf(d)| == 1
  {
    var oids := OidsOf(d);
    assert d.supplies[0].oid in oids;
    forall oid ensures oid in oids <==> oid == "1" {
    }
    assert oids == {"1"};
  }

  lemma AbcMatches()
    ensures ValidateMatch(Object(MatchFields(Match(None, None, Some("abc"))))) == Accepted(Match(None, None, Some("abc")))
  {
    AbcIsFixed();
    hide Slug, OptionalTag, Has, Get;
    NothingGets();
    AbsentIsNull([]);
    WithTextGets([], "model", Some("abc"));
    NullIsNoTag();
  }

  lemma NullIsNoTag()
    ensures OptionalTag(Null) == Accepted(None)
  {
  }

  /** Such a definition is accepted, and what it is normalised to is not. */
  lemma BlankKeyIsAcceptedOnce()
    ensures var raw := DefinitionJson(BlankKeyDefinition(" "));
            && Validated(raw) == Accepted(BlankKeyDefinition(""))
            && Validated(DefinitionJson(BlankKeyDefinition(""))).Refused?
  {
    hide Normalised, DefinitionFields, Depth, HasForbidden, BlankInSupply, SuppliesJson;
    var d := BlankKeyDefinition(" ");
    DefinitionSound(d);
    DefinitionGets(d);
    BlankKeyNormalises();
    SuppliesJsonLength(d.supplies);
    ValidatingTwiceIff(DefinitionJson(d), BlankKeyDefinition(""));
  }

  lemma SuppliesJsonLength(supplies: seq<Supply>)
    ensures |SuppliesJson(supplies)| == |supplies|
  {
  }

  // ------------------------------------------------------------------------------------------
  // Bounds
  // ------------------------------------------------------------------------------------------

  predicate DecodeInBounds(d: Decode) {
    match d
    case Plain(kind) => kind in DECODE_KINDS
    case RatioTo(max) => 0 < max <= MAX_RATIO
    case RatioOid(oid) => IsOid(oid)
    case MapTo(entries) => 1 <= |entries| <= MAX_MAP_ENTRIES && AreNormal(entries)
    case Between(after, before) =>
      && (after.Some? || before.Some?)
      && (after.Some? ==> 1 <= |after.value| <= MAX_DELIMITER) && (before.Some? ==> 1 <= |before.value| <= MAX_DELIMITER)
  }

  lemma DecodeBounds(j: Json, allowed: set<string>, d: Decode)
    requires ValidateDecode(j, allowed) == Accepted(d)
    ensures DecodeInBounds(d)
  {
    hide Has, MapEntries, Strip, DropDots, IsOid, OnlyKeys;
    if d.MapTo? {
      EntriesMeaning(Get(j.fields, "values").fields, d.entries);
    }
  }

  predicate OptionalWithin(text: Option<string>, least: nat, most: nat) {
    text.Some? ==> least <= |text.value| <= most
  }

  predicate SupplyInBounds(s: Supply) {
    && IsOid(s.oid) && s.supplyType in SUPPLY_TYPES && DecodeInBounds(s.decode) && s.decode != Plain("count")
    && OptionalWithin(s.color, 1, 32) && OptionalWithin(s.description, 1, MAX_TEXT)
  }

  lemma TextBounds(j: Json, most: nat, text: Option<string>)
    requires TextValue(j, most) == Accepted(text)
    ensures OptionalWithin(text, 1, most)
  {
    hide Strip;
  }

  lemma LabelBounds(j: Json, most: nat, text: Option<string>)
    requires OptionalLabel(j, most) == Accepted(text)
    ensures OptionalWithin(text, 1, most)
  {
    hide Lower, Tidy, CharsIn;
  }

  lemma TagBounds(j: Json, text: Option<string>)
    requires OptionalTag(j) == Accepted(text)
    ensures OptionalWithin(text, MIN_MATCH_TAG, MAX_TEXT)
  {
    hide Lower, Tidy;
  }

  predicate MeterInBounds(m: Meter) {
    IsOid(m.oid) && 1 <= |m.meter| <= 32 && m.decode == Plain("count")
  }

  /** The definition's own texts. */
  predicate TextsInBounds(d: Definition) {
    && MIN_MATCH_TAG <= |d.key| <= MAX_KEY_LEN
    && OptionalWithin(d.criteria.brand, MIN_MATCH_TAG, MAX_TEXT) && OptionalWithin(d.criteria.model, MIN_MATCH_TAG, MAX_TEXT)
    && (d.criteria.enterprise.Some? ==> IsOid(d.criteria.enterprise.value))
    && (d.identity.Some? ==> OptionalWithin(d.identity.value.brand, 1, 64))
    && OptionalWithin(d.notes, 1, MAX_TEXT)
  }

  /** Every list, text, OID and nesting stays within its bound, and something is read. */
  ghost predicate InBounds(d: Definition) {
    && TextsInBounds(d)
    && |d.supplies| <= MAX_SUPPLIES && |d.meters| <= MAX_METERS
    && (forall i :: 0 <= i < |d.supplies| ==> SupplyInBounds(d.supplies[i]))
    && (forall i :: 0 <= i < |d.meters| ==> MeterInBounds(d.meters[i]))
    && (forall oid :: oid in OidsOf(d) ==> IsOid(oid))
    && |OidsOf(d)| <= MAX_OIDS_PER_DEFINITION
    && ReadsSomething(d)
    && Depth(DefinitionJson(d)) <= MAX_JSON_DEPTH
  }

  lemma {:induction false} SuppliesBounds(items: seq<Json>, supplies: seq<Supply>)
    requires Supplies(items) == Accepted(supplies)
    ensures |supplies| == |items| && forall i :: 0 <= i < |supplies| ==> SupplyInBounds(supplies[i])
  {
    hide ValidateSupply, SupplyInBounds;
    if items != [] {
      var last := |items| - 1;
      SuppliesBounds(items[..last], Supplies(items[..last]).value);
      SupplyBounds(items[last], ValidateSupply(items[last]).value);
    }
  }

  lemma SupplyBounds(j: Json, s: Supply)
    requires ValidateSupply(j) == Accepted(s)
    ensures SupplyInBounds(s)
  {
    hide ValidateDecode, TextValue, OptionalLabel, OidValue, IsOid, Has, Get, OnlyKeys, DecodeInBounds, OptionalWithin;
    DecodeBounds(DecodeOr(j.fields, "percent"), SUPPLY_KINDS, s.decode);
    LabelBounds(Get(j.fields, "color"), 32, s.color);
    TextBounds(Get(j.fields, "description"), MAX_TEXT, s.description);
    RequiredOid(Get(j.fields, "oid"), s.oid);
    SupplyKind(DecodeOr(j.fields, "percent"), s.decode);
  }

  lemma SupplyKind(j: Json, d: Decode)
    requires ValidateDecode(j, SUPPLY_KINDS) == Accepted(d)
    ensures d != Plain("count")
  {
  }

  lemma {:induction false} MetersBounds(items: seq<Json>, meters: seq<Meter>)
    requires Meters(items) == Accepted(meters)
    ensures |meters| == |items| && forall i :: 0 <= i < |meters| ==> MeterInBounds(meters[i])
  {
    hide ValidateMeter, MeterInBounds;
    if items != [] {
      var last := |items| - 1;
      MetersBounds(items[..last], Meters(items[..last]).value);
      MeterBounds(items[last], ValidateMeter(items[last]).value);
    }
  }

  lemma MeterBounds(j: Json, m: Meter)
    requires ValidateMeter(j) == Accepted(m)
    ensures MeterInBounds(m)
  {
  }

  /** What is accepted is within every bound. */
  lemma AcceptedIsBounded(raw: Json, d: Definition)
    requires Validated(raw) == Accepted(d)
    ensures InBounds(d)
  {
    DefinitionSound(d);
    hide Depth, DefinitionJson, HasForbidden, Slug, ValidateMatch, Supplies, Meters, TextValue, OnlyKeys, Get, IsOid;
    hide SupplyInBounds, MeterInBounds, TextsInBounds;
    var f := raw.fields;
    SuppliesBounds(Listed(Get(f, "supplies"), MAX_SUPPLIES).value, d.supplies);
    MetersBounds(Listed(Get(f, "meters"), MAX_METERS).value, d.meters);
    OidsBounds(f, d);
    OwnTextBounds(f, d);
  }

  lemma OwnTextBounds(f: seq<Field>, d: Definition)
    requires Slug(Get(f, "key")) == Accepted(d.key)
    requires ValidateMatch(Get(f, "match")) == Accepted(d.criteria)
    requires ValidateIdentity(Get(f, "identity")) == Accepted(d.identity)
    requires TextValue(Get(f, "notes"), MAX_TEXT) == Accepted(d.notes)
    ensures TextsInBounds(d)
  {
    hide Get, Lower, Strip, CharsIn, OptionalTag, TextValue, OidValue, OnlyKeys, IsOid, OptionalWithin, DropDots, PyStr;
    TextBounds(Get(f, "notes"), MAX_TEXT, d.notes);
    var j := Get(f, "match");
    var fields := if j == Null then [] else j.fields;
    TagBounds(Get(fields, "brand"), d.criteria.brand);
    TagBounds(Get(fields, "model"), d.criteria.model);
    if d.identity.Some? {
      TextBounds(Get(Get(f, "identity").fields, "brand"), 64, d.identity.value.brand);
    }
  }

  lemma OidsBounds(f: seq<Field>, d: Definition)
    requires StatusOid(Get(f, "status_text")) == Accepted(d.statusOid)
    requires ValidateIdentity(Get(f, "identity")) == Accepted(d.identity)
    requires forall i :: 0 <= i < |d.supplies| ==> SupplyInBounds(d.supplies[i])
    requires forall i :: 0 <= i < |d.meters| ==> MeterInBounds(d.meters[i])
    ensures forall oid :: oid in OidsOf(d) ==> IsOid(oid)
  {
    hide IsOid, TextValue, OnlyKeys, Get, Strip, DropDots;
  }
}
