/**
 * Validation of device definitions (central/device_definitions.py).  An accepted definition is a
 * record here and a dictionary there; `DefinitionJson` is that dictionary.
 */
module DeviceDefinitions {
  import opened Json
  import opened Oids
  import opened Options
  import opened Texts

  const MAX_JSON_DEPTH := 8
  const MAX_OIDS_PER_DEFINITION := 32
  const MAX_SUPPLIES := 24
  const MAX_METERS := 12
  const MAX_MAP_ENTRIES := 64
  const MAX_TEXT := 200
  const MAX_DELIMITER := 32
  const MAX_KEY_LEN := 64
  const MIN_MATCH_TAG := 3
  const MAX_RATIO := 0x7FFF_FFFF

  const SUPPLY_TYPES := {"toner", "ink", "drum", "fuser", "waste", "staples", "developer", "other"}
  const DECODE_KINDS := {"percent", "ratio", "map", "count", "text", "text_between"}
  const SUPPLY_KINDS := {"percent", "ratio", "map", "text_between"}
  const METER_KINDS := {"count"}

  datatype Outcome<+T> = Accepted(value: T) | Refused {
    predicate IsFailure() { Refused? }

    function PropagateFailure<U>(): Outcome<U>
      requires Refused?
    {
      Refused
    }

    function Extract(): T
      requires Accepted?
    {
      value
    }
  }

  datatype Entry = Entry(key: string, percent: int)

  datatype Decode =
    | Plain(kind: string)
    | RatioTo(max: int)
    | RatioOid(maxOid: string)
    | MapTo(entries: seq<Entry>)
    | Between(after: Option<string>, before: Option<string>)

  datatype Supply = Supply(oid: string, supplyType: string, decode: Decode, color: Option<string>, description: Option<string>)

  datatype Meter = Meter(oid: string, meter: string, decode: Decode)

  datatype Match = Match(enterprise: Option<string>, brand: Option<string>, model: Option<string>)

  datatype Identity = Identity(brand: Option<string>, modelOid: Option<string>)

  datatype Definition = Definition(
    key: string,
    criteria: Match,
    overrideBuiltin: bool,
    supplies: seq<Supply>,
    meters: seq<Meter>,
    statusOid: Option<string>,
    identity: Option<Identity>,
    notes: Option<string>)

  // ------------------------------------------------------------------------------------------
  // Primitive checks
  // ------------------------------------------------------------------------------------------

  predicate OnlyKeys(fields: seq<Field>, allowed: set<string>) {
    forall i :: 0 <= i < |fields| ==> fields[i].name in allowed
  }

  predicate IsAbsent(j: Json) {
    j == Null || j == Text("")
  }

  function Required<T>(o: Outcome<Option<T>>): Outcome<T> {
    if o.Refused? || o.value.None? then Refused else Accepted(o.value.value)
  }

  function TextValue(j: Json, maxLength: nat): Outcome<Option<string>> {
    if IsAbsent(j) then Accepted(None)
    else if !j.Text? then Refused
    else
      var text := Strip(j.s);
      if text == "" then Accepted(None)
      else if |text| > maxLength then Refused
      else Accepted(Some(text))
  }

  function OidValue(j: Json): Outcome<Option<string>> {
    if IsAbsent(j) then Accepted(None)
    else if !j.Text? then Refused
    else
      var oid := DropDots(Strip(j.s));
      if IsOid(oid) then Accepted(Some(oid)) else Refused
  }

  predicate IsAlphanumeric(c: char) {
    '0' <= c <= '9' || 'a' <= c <= 'z' || 'A' <= c <= 'Z'
  }

  predicate CharsIn(text: string, extra: string) {
    forall i :: 0 <= i < |text| ==> IsAlphanumeric(text[i]) || text[i] in extra
  }

  function Slug(j: Json): Outcome<string> {
    if !j.Text? then Refused
    else
      var text := Lower(Strip(j.s));
      if MIN_MATCH_TAG <= |text| <= MAX_KEY_LEN && IsAlphanumeric(text[0]) && CharsIn(text, "._-") then Accepted(text)
      else Refused
  }

  function Tag(j: Json): Outcome<string> {
    if !j.Text? then Refused
    else
      var text := Lower(Tidy(j.s));
      if MIN_MATCH_TAG <= |text| <= MAX_TEXT then Accepted(text) else Refused
  }

  function Label(j: Json, maxLength: nat): Outcome<string> {
    if !j.Text? then Refused
    else
      var text := Lower(Tidy(j.s));
      if 1 <= |text| <= maxLength && CharsIn(text, " -_") then Accepted(text) else Refused
  }

  function OptionalTag(j: Json): Outcome<Option<string>> {
    if IsAbsent(j) then Accepted(None)
    else
      var tag :- Tag(j);
      Accepted(Some(tag))
  }

  function OptionalLabel(j: Json, maxLength: nat): Outcome<Option<string>> {
    if IsAbsent(j) then Accepted(None)
    else
      var text :- Label(j, maxLength);
      Accepted(Some(text))
  }

  // ------------------------------------------------------------------------------------------
  // Decoding
  // ------------------------------------------------------------------------------------------

  /** `mapped[key] = percent`: an existing key keeps its place. */
  function Put(entries: seq<Entry>, key: string, percent: int): seq<Entry> {
    if entries == [] then [Entry(key, percent)]
    else if entries[0].key == key then [Entry(key, percent)] + entries[1..]
    else [entries[0]] + Put(entries[1..], key, percent)
  }

  function MapEntries(fields: seq<Field>): Outcome<seq<Entry>> {
    if fields == [] then Accepted([])
    else
      var before :- MapEntries(fields[..|fields| - 1]);
      var f := fields[|fields| - 1];
      if 1 <= |f.name| <= MAX_KEY_LEN && f.value.Int? && 0 <= f.value.n <= 100 then
        Accepted(Put(before, Strip(f.name), f.value.n))
      else Refused
  }

  method MappedValues(fields: seq<Field>) returns (mapped: Outcome<seq<Entry>>)
    ensures mapped == MapEntries(fields)
  {
    var entries := [];
    for i := 0 to |fields|
      invariant MapEntries(fields[..i]) == Accepted(entries)
    {
      assert fields[..i + 1][..i] == fields[..i];
      var f := fields[i];
      if !(1 <= |f.name| <= MAX_KEY_LEN) || !f.value.Int? || !(0 <= f.value.n <= 100) {
        RefusalStays(fields, i + 1);
        return Refused;
      }
      entries := Put(entries, Strip(f.name), f.value.n);
    }
    assert fields[..|fields|] == fields;
    mapped := Accepted(entries);
  }

  lemma {:induction false} RefusalStays(fields: seq<Field>, i: nat)
    requires i <= |fields| && MapEntries(fields[..i]).Refused?
    ensures MapEntries(fields).Refused?
    decreases |fields| - i
  {
    if i < |fields| {
      assert fields[..i + 1][..i] == fields[..i];
      RefusalStays(fields, i + 1);
    } else {
      assert fields[..i] == fields;
    }
  }

  const DECODE_KEYS := {"kind", "max", "max_oid", "values", "after", "before"}

  function RatioDecode(fields: seq<Field>): Outcome<Decode> {
    if Has(fields, "max") == Has(fields, "max_oid") then Refused
    else if Has(fields, "max") then
      var max := Get(fields, "max");
      if max.Int? && 0 < max.n <= MAX_RATIO then Accepted(RatioTo(max.n)) else Refused
    else
      var oid :- Required(OidValue(Get(fields, "max_oid")));
      Accepted(RatioOid(oid))
  }

  function MapDecode(values: Json): Outcome<Decode> {
    if !values.Object? || values.fields == [] || |values.fields| > MAX_MAP_ENTRIES then Refused
    else
      var entries :- MapEntries(values.fields);
      Accepted(MapTo(entries))
  }

  function BetweenDecode(fields: seq<Field>): Outcome<Decode> {
    var after :- TextValue(Get(fields, "after"), MAX_DELIMITER);
    var before :- TextValue(Get(fields, "before"), MAX_DELIMITER);
    if after.None? && before.None? then Refused else Accepted(Between(after, before))
  }

  function ValidateDecode(j: Json, allowed: set<string>): Outcome<Decode> {
    if !j.Object? || !OnlyKeys(j.fields, DECODE_KEYS) then Refused
    else
      var fields, kind := j.fields, Get(j.fields, "kind");
      if !kind.Text? || kind.s !in DECODE_KINDS || kind.s !in allowed then Refused
      else if kind.s != "ratio" && (Has(fields, "max") || Has(fields, "max_oid")) then Refused
      else if kind.s != "map" && Has(fields, "values") then Refused
      else if kind.s != "text_between" && (Has(fields, "after") || Has(fields, "before")) then Refused
      else if kind.s == "ratio" then RatioDecode(fields)
      else if kind.s == "map" then MapDecode(Get(fields, "values"))
      else if kind.s == "text_between" then BetweenDecode(fields)
      else Accepted(Plain(kind.s))
  }

  // ------------------------------------------------------------------------------------------
  // Supplies, meters, match, identity
  // ------------------------------------------------------------------------------------------

  const SUPPLY_KEYS := {"oid", "type", "color", "description", "decode"}
  const METER_KEYS := {"oid", "meter", "decode"}
  const MATCH_KEYS := {"enterprise", "brand", "model"}

  function DecodeOr(fields: seq<Field>, kind: string): Json {
    if Has(fields, "decode") then Get(fields, "decode") else Object([Field("kind", Text(kind))])
  }

  function ValidateSupply(j: Json): Outcome<Supply> {
    if !j.Object? || !OnlyKeys(j.fields, SUPPLY_KEYS) then Refused
    else
      var supplyType :- Required(TextValue(Get(j.fields, "type"), 32));
      if Lower(supplyType) !in SUPPLY_TYPES then Refused
      else
        var oid :- Required(OidValue(Get(j.fields, "oid")));
        var decode :- ValidateDecode(DecodeOr(j.fields, "percent"), SUPPLY_KINDS);
        var color :- OptionalLabel(Get(j.fields, "color"), 32);
        var description :- TextValue(Get(j.fields, "description"), MAX_TEXT);
        Accepted(Supply(oid, Lower(supplyType), decode, color, description))
  }

  function ValidateMeter(j: Json): Outcome<Meter> {
    if !j.Object? || !OnlyKeys(j.fields, METER_KEYS) then Refused
    else
      var meter :- Label(Get(j.fields, "meter"), 32);
      var oid :- Required(OidValue(Get(j.fields, "oid")));
      var decode :- ValidateDecode(DecodeOr(j.fields, "count"), METER_KINDS);
      Accepted(Meter(oid, meter, decode))
  }

  function Supplies(items: seq<Json>): Outcome<seq<Supply>> {
    if items == [] then Accepted([])
    else
      var before :- Supplies(items[..|items| - 1]);
      var last :- ValidateSupply(items[|items| - 1]);
      Accepted(before + [last])
  }

  function Meters(items: seq<Json>): Outcome<seq<Meter>> {
    if items == [] then Accepted([])
    else
      var before :- Meters(items[..|items| - 1]);
      var last :- ValidateMeter(items[|items| - 1]);
      Accepted(before + [last])
  }

  function Decimal(n: nat): string {
    (if n < 10 then [] else Decimal(n / 10)) + [(n % 10 + '0' as int) as char]
  }

  /** `str(value)`, as far as it can be an OID: lists and objects begin with a bracket. */
  function PyStr(j: Json): string {
    match j
    case Null => "None"
    case Bool(truth) => if truth then "True" else "False"
    case Int(n) => if n < 0 then "-" + Decimal(-n) else Decimal(n)
    case Float(text, _) => text
    case Text(s) => s
    case List(_) => "["
    case Object(_) => "{"
  }

  function Enterprise(j: Json): Outcome<Option<string>> {
    if IsAbsent(j) then Accepted(None)
    else
      var oid := DropDots(Strip(PyStr(j)));
      if IsOid(oid) then Accepted(Some(oid)) else Refused
  }

  function ValidateMatch(j: Json): Outcome<Match> {
    if !(j == Null || j.Object?) then Refused
    else
      var fields := if j == Null then [] else j.fields;
      if !OnlyKeys(fields, MATCH_KEYS) then Refused
      else
        var enterprise :- Enterprise(Get(fields, "enterprise"));
        var brand :- OptionalTag(Get(fields, "brand"));
        var model :- OptionalTag(Get(fields, "model"));
        if enterprise.None? && brand.None? && model.None? then Refused
        else Accepted(Match(enterprise, brand, model))
  }

  /** Null, the empty text and the empty object all mean it was not given. */
  predicate NotGiven(j: Json) {
    IsAbsent(j) || j == Object([])
  }

  function StatusOid(j: Json): Outcome<Option<string>> {
    if NotGiven(j) then Accepted(None)
    else if !j.Object? || !OnlyKeys(j.fields, {"oid"}) then Refused
    else
      var oid :- Required(OidValue(Get(j.fields, "oid")));
      Accepted(Some(oid))
  }

  function ValidateIdentity(j: Json): Outcome<Option<Identity>> {
    if NotGiven(j) then Accepted(None)
    else if !j.Object? || !OnlyKeys(j.fields, {"brand", "model_oid"}) then Refused
    else
      var brand :- TextValue(Get(j.fields, "brand"), 64);
      var modelOid :- OidValue(Get(j.fields, "model_oid"));
      Accepted(if brand.None? && modelOid.None? then None else Some(Identity(brand, modelOid)))
  }

  // ------------------------------------------------------------------------------------------
  // The whole definition
  // ------------------------------------------------------------------------------------------

  const DEFINITION_KEYS := {"key", "match", "supplies", "meters", "status_text", "identity", "override_builtin", "notes"}

  predicate Truthy(j: Json) {
    match j
    case Null => false
    case Bool(truth) => truth
    case Int(n) => n != 0
    case Float(_, isZero) => !isZero
    case Text(s) => s != ""
    case List(items) => items != []
    case Object(fields) => fields != []
  }

  /** `obj.get(name) or []`, which must be a list no longer than its bound. */
  function Listed(j: Json, bound: nat): Outcome<seq<Json>> {
    if !Truthy(j) then Accepted([])
    else if !j.List? || |j.items| > bound then Refused
    else Accepted(j.items)
  }

  function OidsOf(d: Definition): set<string> {
    (set i | 0 <= i < |d.supplies| :: d.supplies[i].oid)
    + (set i | 0 <= i < |d.meters| :: d.meters[i].oid)
    + (set i | 0 <= i < |d.supplies| && d.supplies[i].decode.RatioOid? :: d.supplies[i].decode.maxOid)
    + (if d.statusOid.Some? then {d.statusOid.value} else {})
    + (if d.identity.Some? && d.identity.value.modelOid.Some? then {d.identity.value.modelOid.value} else {})
  }

  predicate ReadsSomething(d: Definition) {
    d.supplies != [] || d.meters != [] || d.statusOid.Some? || d.identity.Some?
  }

  /** Everything past the structural checks. */
  function Normalised(fields: seq<Field>): Outcome<Definition> {
    var key :- Slug(Get(fields, "key"));
    var criteria :- ValidateMatch(Get(fields, "match"));
    var supplyItems :- Listed(Get(fields, "supplies"), MAX_SUPPLIES);
    var supplies :- Supplies(supplyItems);
    var meterItems :- Listed(Get(fields, "meters"), MAX_METERS);
    var meters :- Meters(meterItems);
    var statusOid :- StatusOid(Get(fields, "status_text"));
    var identity :- ValidateIdentity(Get(fields, "identity"));
    var notes :- TextValue(Get(fields, "notes"), MAX_TEXT);
    var d := Definition(key, criteria, Truthy(Get(fields, "override_builtin")), supplies, meters, statusOid, identity, notes);
    if ReadsSomething(d) && |OidsOf(d)| <= MAX_OIDS_PER_DEFINITION then Accepted(d) else Refused
  }

  function Validated(raw: Json): Outcome<Definition> {
    if raw.Object? && Depth(raw) <= MAX_JSON_DEPTH && !HasForbidden(raw) && OnlyKeys(raw.fields, DEFINITION_KEYS) then
      Normalised(raw.fields)
    else Refused
  }

  method ValidateDefinition(raw: Json) returns (result: Outcome<Definition>)
    ensures result == Validated(raw)
  {
    hide Normalised, HasForbidden, Depth;
    if !raw.Object? {
      return Refused;
    }
    var shallow := CheckDepth(raw, MAX_JSON_DEPTH);
    if !shallow {
      return Refused;
    }
    var clean := RejectForbidden(raw);
    if !clean || !OnlyKeys(raw.fields, DEFINITION_KEYS) {
      return Refused;
    }
    result := Normalised(raw.fields);
  }

  // ------------------------------------------------------------------------------------------
  // The dictionary an accepted definition is returned as
  // ------------------------------------------------------------------------------------------

  function With(fields: seq<Field>, name: string, value: Json): seq<Field> {
    fields + [Field(name, value)]
  }

  function WithText(fields: seq<Field>, name: string, text: Option<string>): seq<Field> {
    if text.Some? then With(fields, name, Text(text.value)) else fields
  }

  function EntryFields(entries: seq<Entry>): seq<Field> {
    seq(|entries|, i requires 0 <= i < |entries| => Field(entries[i].key, Int(entries[i].percent)))
  }

  function DecodeFields(d: Decode): seq<Field> {
    match d
    case Plain(kind) => With([], "kind", Text(kind))
    case RatioTo(max) => With(With([], "kind", Text("ratio")), "max", Int(max))
    case RatioOid(oid) => With(With([], "kind", Text("ratio")), "max_oid", Text(oid))
    case MapTo(entries) => With(With([], "kind", Text("map")), "values", Object(EntryFields(entries)))
    case Between(after, before) => WithText(WithText(With([], "kind", Text("text_between")), "after", after), "before", before)
  }

  function DecodeJson(d: Decode): Json {
    Object(DecodeFields(d))
  }

  function SupplyFields(s: Supply): seq<Field> {
    WithText(WithText(With(With(With([], "oid", Text(s.oid)), "type", Text(s.supplyType)), "decode", DecodeJson(s.decode)),
                      "color", s.color), "description", s.description)
  }

  function MeterFields(m: Meter): seq<Field> {
    With(With(With([], "oid", Text(m.oid)), "meter", Text(m.meter)), "decode", DecodeJson(m.decode))
  }

  function MatchFields(m: Match): seq<Field> {
    WithText(WithText(WithText([], "enterprise", m.enterprise), "brand", m.brand), "model", m.model)
  }

  function IdentityFields(i: Identity): seq<Field> {
    WithText(WithText([], "brand", i.brand), "model_oid", i.modelOid)
  }

  function SuppliesJson(supplies: seq<Supply>): seq<Json> {
    seq(|supplies|, i requires 0 <= i < |supplies| => Object(SupplyFields(supplies[i])))
  }

  function MetersJson(meters: seq<Meter>): seq<Json> {
    seq(|meters|, i requires 0 <= i < |meters| => Object(MeterFields(meters[i])))
  }

  function WithList(fields: seq<Field>, name: string, items: seq<Json>): seq<Field> {
    if items == [] then fields else With(fields, name, List(items))
  }

  function WithObject(fields: seq<Field>, name: string, value: Option<seq<Field>>): seq<Field> {
    if value.Some? then With(fields, name, Object(value.value)) else fields
  }

  function StatusFields(oid: Option<string>): Option<seq<Field>> {
    if oid.Some? then Some(With([], "oid", Text(oid.value))) else None
  }

  function HeadFields(d: Definition): seq<Field> {
    With(With(With([], "key", Text(d.key)), "match", Object(MatchFields(d.criteria))), "override_builtin", Bool(d.overrideBuiltin))
  }

  function ListFields(d: Definition): seq<Field> {
    WithList(WithList(HeadFields(d), "supplies", SuppliesJson(d.supplies)), "meters", MetersJson(d.meters))
  }

  function IdentityOrNone(i: Option<Identity>): Option<seq<Field>> {
    if i.Some? then Some(IdentityFields(i.value)) else None
  }

  function DefinitionFields(d: Definition): seq<Field> {
    WithText(WithObject(WithObject(ListFields(d), "status_text", StatusFields(d.statusOid)),
                        "identity", IdentityOrNone(d.identity)), "notes", d.notes)
  }

  function DefinitionJson(d: Definition): Json {
    Object(DefinitionFields(d))
  }
}
