/**
 * Parsed JSON and the two walks over it (central/device_definitions.py): `check_depth` and
 * `_reject_forbidden`, each with its own stack instead of recursion.
 */
module Json {
  import opened Texts

  /** An object keeps the order its keys were inserted in; floats keep only their text. */
  datatype Json =
    | Null
    | Bool(truth: bool)
    | Int(n: int)
    | Float(text: string, isZero: bool)
    | Text(s: string)
    | List(items: seq<Json>)
    | Object(fields: seq<Field>)

  datatype Field = Field(name: string, value: Json)

  // ------------------------------------------------------------------------------------------
  // Objects
  // ------------------------------------------------------------------------------------------

  predicate Has(fields: seq<Field>, name: string) {
    fields != [] && (fields[0].name == name || Has(fields[1..], name))
  }

  /** `obj.get(name)`: null when absent. */
  function Get(fields: seq<Field>, name: string): Json {
    if fields == [] then Null
    else if fields[0].name == name then fields[0].value
    else Get(fields[1..], name)
  }

  lemma {:induction false} GetAppend(a: seq<Field>, b: seq<Field>, name: string)
    ensures Has(a + b, name) <==> Has(a, name) || Has(b, name)
    ensures Get(a + b, name) == if Has(a, name) then Get(a, name) else Get(b, name)
  {
    if a == [] {
      assert a + b == b;
    } else {
      assert (a + b)[1..] == a[1..] + b;
      GetAppend(a[1..], b, name);
    }
  }

  // ------------------------------------------------------------------------------------------
  // Depth
  // ------------------------------------------------------------------------------------------

  /** A scalar is one level; a container is one more than its deepest content. */
  function Depth(j: Json): nat {
    match j
    case List(items) => 1 + ItemsDepth(items)
    case Object(fields) => 1 + FieldsDepth(fields)
    case _ => 1
  }

  function ItemsDepth(items: seq<Json>): nat {
    if items == [] then 0
    else
      var rest, last := ItemsDepth(items[..|items| - 1]), Depth(items[|items| - 1]);
      if rest > last then rest else last
  }

  function FieldsDepth(fields: seq<Field>): nat {
    if fields == [] then 0
    else
      var rest, last := FieldsDepth(fields[..|fields| - 1]), Depth(fields[|fields| - 1].value);
      if rest > last then rest else last
  }

  /** How many values there are in a value: what the stack loops count down. */
  function Size(j: Json): nat {
    match j
    case List(items) => 1 + ItemsSize(items)
    case Object(fields) => 1 + FieldsSize(fields)
    case _ => 1
  }

  function ItemsSize(items: seq<Json>): nat {
    if items == [] then 0 else ItemsSize(items[..|items| - 1]) + Size(items[|items| - 1])
  }

  function FieldsSize(fields: seq<Field>): nat {
    if fields == [] then 0 else FieldsSize(fields[..|fields| - 1]) + Size(fields[|fields| - 1].value)
  }

  datatype Visit = Visit(node: Json, depth: nat)

  /** Everything still to be visited stays within the limit. */
  ghost predicate AllWithin(stack: seq<Visit>, limit: int) {
    forall i :: 0 <= i < |stack| ==> stack[i].depth + Depth(stack[i].node) - 1 <= limit
  }

  function VisitsSize(stack: seq<Visit>): nat {
    if stack == [] then 0 else VisitsSize(stack[..|stack| - 1]) + Size(stack[|stack| - 1].node)
  }

  lemma PushVisit(stack: seq<Visit>, v: Visit, limit: int)
    ensures VisitsSize(stack + [v]) == VisitsSize(stack) + Size(v.node)
    ensures AllWithin(stack + [v], limit) <==> AllWithin(stack, limit) && v.depth + Depth(v.node) - 1 <= limit
  {
  }

  lemma NothingLeft(limit: int)
    ensures AllWithin([], limit)
  {
  }

  lemma PopVisit(stack: seq<Visit>, limit: int)
    requires stack != []
    ensures var before, v := stack[..|stack| - 1], stack[|stack| - 1];
            && VisitsSize(stack) == VisitsSize(before) + Size(v.node)
            && (AllWithin(stack, limit) <==> AllWithin(before, limit) && v.depth + Depth(v.node) - 1 <= limit)
  {
  }

  method VisitFields(stack: seq<Visit>, fields: seq<Field>, depth: nat, ghost limit: int) returns (stacked: seq<Visit>)
    ensures VisitsSize(stacked) == VisitsSize(stack) + FieldsSize(fields)
    ensures AllWithin(stacked, limit) <==> AllWithin(stack, limit) && (fields != [] ==> depth + FieldsDepth(fields) - 1 <= limit)
  {
    hide AllWithin, VisitsSize, Depth, Size;
    stacked := stack;
    for i := 0 to |fields|
      invariant VisitsSize(stacked) == VisitsSize(stack) + FieldsSize(fields[..i])
      invariant AllWithin(stacked, limit) <==> AllWithin(stack, limit) && (i > 0 ==> depth + FieldsDepth(fields[..i]) - 1 <= limit)
    {
      assert fields[..i + 1][..i] == fields[..i];
      PushVisit(stacked, Visit(fields[i].value, depth), limit);
      stacked := stacked + [Visit(fields[i].value, depth)];
    }
    assert fields[..|fields|] == fields;
  }

  method VisitItems(stack: seq<Visit>, items: seq<Json>, depth: nat, ghost limit: int) returns (stacked: seq<Visit>)
    ensures VisitsSize(stacked) == VisitsSize(stack) + ItemsSize(items)
    ensures AllWithin(stacked, limit) <==> AllWithin(stack, limit) && (items != [] ==> depth + ItemsDepth(items) - 1 <= limit)
  {
    hide AllWithin, VisitsSize, Depth, Size;
    stacked := stack;
    for i := 0 to |items|
      invariant VisitsSize(stacked) == VisitsSize(stack) + ItemsSize(items[..i])
      invariant AllWithin(stacked, limit) <==> AllWithin(stack, limit) && (i > 0 ==> depth + ItemsDepth(items[..i]) - 1 <= limit)
    {
      assert items[..i + 1][..i] == items[..i];
      PushVisit(stacked, Visit(items[i], depth), limit);
      stacked := stacked + [Visit(items[i], depth)];
    }
    assert items[..|items|] == items;
  }

  /** The stack loop agrees with the recursive depth, for every structure and every limit. */
  method CheckDepth(j: Json, limit: int) returns (accepted: bool)
    ensures accepted <==> Depth(j) <= limit
  {
    var stack := [Visit(j, 1)];
    PushVisit([], Visit(j, 1), limit);
    NothingLeft(limit);
    assert [] + [Visit(j, 1)] == stack;
    while stack != []
      invariant AllWithin(stack, limit) <==> Depth(j) <= limit
      decreases VisitsSize(stack)
    {
      hide AllWithin, VisitsSize;
      PopVisit(stack, limit);
      var v := stack[|stack| - 1];
      stack := stack[..|stack| - 1];
      if v.depth > limit {
        return false;
      }
      match v.node {
        case Object(fields) => stack := VisitFields(stack, fields, v.depth + 1, limit);
        case List(items) => stack := VisitItems(stack, items, v.depth + 1, limit);
        case _ =>
      }
    }
    accepted := true;
  }

  // ------------------------------------------------------------------------------------------
  // Forbidden keys
  // ------------------------------------------------------------------------------------------

  const FORBIDDEN_KEYS := {"regex", "pattern", "re", "expr", "eval", "exec", "script", "code"}

  predicate ForbiddenKey(name: string) {
    Lower(Strip(name)) in FORBIDDEN_KEYS
  }

  /** The keys of a `values` object are device responses, not field names. */
  predicate Skipped(f: Field) {
    f.name == "values" && f.value.Object?
  }

  /** A forbidden key somewhere, outside `values` objects. */
  predicate HasForbidden(j: Json) {
    match j
    case List(items) => exists i :: 0 <= i < |items| && HasForbidden(items[i])
    case Object(fields) =>
      exists i :: 0 <= i < |fields| && (ForbiddenKey(fields[i].name) || (!Skipped(fields[i]) && HasForbidden(fields[i].value)))
    case _ => false
  }

  ghost predicate AnyForbidden(stack: seq<Json>) {
    exists i :: 0 <= i < |stack| && HasForbidden(stack[i])
  }

  lemma AnyForbiddenAppend(a: seq<Json>, b: seq<Json>)
    ensures AnyForbidden(a + b) <==> AnyForbidden(a) || AnyForbidden(b)
  {
    if AnyForbidden(a) {
      var i :| 0 <= i < |a| && HasForbidden(a[i]);
      assert (a + b)[i] == a[i];
    }
    if AnyForbidden(b) {
      var i :| 0 <= i < |b| && HasForbidden(b[i]);
      assert (a + b)[|a| + i] == b[i];
    }
  }

  lemma NoneForbidden()
    ensures !AnyForbidden([])
  {
  }

  lemma {:induction false} ItemsSizeAppend(a: seq<Json>, b: seq<Json>)
    ensures ItemsSize(a + b) == ItemsSize(a) + ItemsSize(b)
  {
    if b == [] {
      assert a + b == a;
    } else {
      ItemsSizeAppend(a, b[..|b| - 1]);
      assert (a + b)[..|a + b| - 1] == a + b[..|b| - 1];
    }
  }

  /** A forbidden key in some of an object's fields. */
  ghost predicate FieldsForbidden(fields: seq<Field>) {
    exists i :: 0 <= i < |fields| && (ForbiddenKey(fields[i].name) || (!Skipped(fields[i]) && HasForbidden(fields[i].value)))
  }

  lemma FieldsForbiddenAppend(fields: seq<Field>, f: Field)
    ensures FieldsForbidden(fields + [f])
       <==> FieldsForbidden(fields) || ForbiddenKey(f.name) || (!Skipped(f) && HasForbidden(f.value))
  {
    hide ForbiddenKey, HasForbidden, Skipped;
    if FieldsForbidden(fields) {
      var i :| 0 <= i < |fields| && (ForbiddenKey(fields[i].name) || (!Skipped(fields[i]) && HasForbidden(fields[i].value)));
      assert (fields + [f])[i] == fields[i];
    }
    assert (fields + [f])[|fields|] == f;
  }

  lemma OneForbidden(stack: seq<Json>, item: Json)
    ensures AnyForbidden(stack + [item]) <==> AnyForbidden(stack) || HasForbidden(item)
    ensures ItemsSize(stack + [item]) == ItemsSize(stack) + Size(item)
  {
    hide HasForbidden, Size;
    var more := stack + [item];
    assert more[..|stack|] == stack && more[|stack|] == item;
    assert forall i :: 0 <= i < |stack| ==> more[i] == stack[i];
  }

  /** Refuses at the first forbidden key; otherwise stacks the values that are not skipped. */
  method StackFields(stack: seq<Json>, fields: seq<Field>) returns (clean: bool, stacked: seq<Json>)
    ensures !clean ==> FieldsForbidden(fields)
    ensures clean ==> (AnyForbidden(stacked) <==> AnyForbidden(stack) || FieldsForbidden(fields))
    ensures clean ==> ItemsSize(stacked) <= ItemsSize(stack) + FieldsSize(fields)
  {
    hide ForbiddenKey, HasForbidden, Skipped, AnyForbidden, ItemsSize, Size;
    stacked := stack;
    for i := 0 to |fields|
      invariant ItemsSize(stacked) <= ItemsSize(stack) + FieldsSize(fields[..i])
      invariant AnyForbidden(stacked) <==> AnyForbidden(stack) || FieldsForbidden(fields[..i])
    {
      assert fields[..i + 1] == fields[..i] + [fields[i]] && fields[..i + 1][..i] == fields[..i];
      FieldsForbiddenAppend(fields[..i], fields[i]);
      if ForbiddenKey(fields[i].name) {
        assert fields[i] == fields[..i + 1][i];
        return false, stacked;
      }
      if Skipped(fields[i]) {
        continue;
      }
      OneForbidden(stacked, fields[i].value);
      stacked := stacked + [fields[i].value];
    }
    assert fields[..|fields|] == fields;
    clean := true;
  }

  /** The stack loop finds a forbidden key iff there is one. */
  method RejectForbidden(j: Json) returns (accepted: bool)
    ensures accepted <==> !HasForbidden(j)
  {
    hide ForbiddenKey, Skipped;
    var stack := [j];
    OneForbidden([], j);
    assert [] + [j] == stack;
    while stack != []
      invariant AnyForbidden(stack) <==> HasForbidden(j)
      decreases ItemsSize(stack)
    {
      hide AnyForbidden, ItemsSize;
      var item := stack[|stack| - 1];
      assert stack == stack[..|stack| - 1] + [item];
      stack := stack[..|stack| - 1];
      OneForbidden(stack, item);
      match item {
        case Object(fields) =>
          assert HasForbidden(item) <==> FieldsForbidden(fields);
          var clean;
          clean, stack := StackFields(stack, fields);
          if !clean {
            return false;
          }
        case List(items) =>
          assert HasForbidden(item) <==> AnyForbidden(items) by { ListForbidden(items); }
          AnyForbiddenAppend(stack, items);
          ItemsSizeAppend(stack, items);
          stack := stack + items;
        case _ =>
      }
    }
    NoneForbidden();
    accepted := true;
  }

  lemma ListForbidden(items: seq<Json>)
    ensures HasForbidden(List(items)) <==> AnyForbidden(items)
  {
  }

  // ------------------------------------------------------------------------------------------
  // Both walks in plain terms: chains of values, each directly inside the one before
  // ------------------------------------------------------------------------------------------

  ghost predicate Inside(inner: Json, outer: Json) {
    || (outer.List? && exists i :: 0 <= i < |outer.items| && outer.items[i] == inner)
    || (outer.Object? && exists i :: 0 <= i < |outer.fields| && outer.fields[i].value == inner)
  }

  /** Inside, and not as the object of device responses under the key `values`. */
  ghost predicate Searched(inner: Json, outer: Json) {
    || (outer.List? && exists i :: 0 <= i < |outer.items| && outer.items[i] == inner)
    || (outer.Object? && exists i ::
          0 <= i < |outer.fields| && outer.fields[i].value == inner && !(outer.fields[i].name == "values" && inner.Object?))
  }

  ghost predicate Nested(chain: seq<Json>, j: Json) {
    chain != [] && chain[0] == j && forall i :: 0 < i < |chain| ==> Inside(chain[i], chain[i - 1])
  }

  ghost predicate NestedSearched(chain: seq<Json>, j: Json) {
    chain != [] && chain[0] == j && forall i :: 0 < i < |chain| ==> Searched(chain[i], chain[i - 1])
  }

  lemma {:induction false} ItemsDepthIs(items: seq<Json>) returns (deepest: nat)
    ensures forall i :: 0 <= i < |items| ==> Depth(items[i]) <= ItemsDepth(items)
    ensures items != [] ==> deepest < |items| && Depth(items[deepest]) == ItemsDepth(items)
  {
    deepest := 0;
    if items != [] {
      deepest := ItemsDepthIs(items[..|items| - 1]);
      if |items| == 1 || Depth(items[|items| - 1]) == ItemsDepth(items) {
        deepest := |items| - 1;
      }
    }
  }

  lemma {:induction false} FieldsDepthIs(fields: seq<Field>) returns (deepest: nat)
    ensures forall i :: 0 <= i < |fields| ==> Depth(fields[i].value) <= FieldsDepth(fields)
    ensures fields != [] ==> deepest < |fields| && Depth(fields[deepest].value) == FieldsDepth(fields)
  {
    deepest := 0;
    if fields != [] {
      deepest := FieldsDepthIs(fields[..|fields| - 1]);
      if |fields| == 1 || Depth(fields[|fields| - 1].value) == FieldsDepth(fields) {
        deepest := |fields| - 1;
      }
    }
  }

  lemma ShallowerInside(inner: Json, outer: Json)
    requires Inside(inner, outer)
    ensures Depth(inner) < Depth(outer)
  {
    match outer {
      case List(items) => var _ := ItemsDepthIs(items);
      case Object(fields) => var _ := FieldsDepthIs(fields);
      case _ =>
    }
  }

  lemma {:induction false} ChainFits(chain: seq<Json>, j: Json)
    requires Nested(chain, j)
    ensures |chain| <= Depth(j)
    decreases |chain|
  {
    if |chain| > 1 {
      var rest := chain[1..];
      assert forall i :: 0 < i < |rest| ==> rest[i] == chain[i + 1] && rest[i - 1] == chain[i];
      ChainFits(rest, chain[1]);
      ShallowerInside(chain[1], j);
    }
  }

  lemma NestedLonger(chain: seq<Json>, inner: Json, outer: Json)
    requires Nested(chain, inner) && Inside(inner, outer)
    ensures Nested([outer] + chain, outer)
  {
    hide Inside;
    var longer := [outer] + chain;
    forall i | 0 < i < |longer| ensures Inside(longer[i], longer[i - 1]) {
      if i > 1 {
        assert Inside(chain[i - 1], chain[i - 2]);
      }
    }
  }

  lemma {:induction false} DeepestChain(j: Json) returns (chain: seq<Json>)
    ensures Nested(chain, j) && |chain| == Depth(j)
    decreases j
  {
    chain := [j];
    match j {
      case List(items) =>
        var k := ItemsDepthIs(items);
        if items != [] {
          var rest := DeepestChain(items[k]);
          NestedLonger(rest, items[k], j);
          chain := [j] + rest;
        }
      case Object(fields) =>
        var k := FieldsDepthIs(fields);
        if fields != [] {
          var rest := DeepestChain(fields[k].value);
          NestedLonger(rest, fields[k].value, j);
          chain := [j] + rest;
        }
      case _ =>
    }
  }

  /** What the depth walk accepts: no chain of nested values, the outermost included, is longer than the limit. */
  lemma DepthMeaning(j: Json, limit: int)
    ensures Depth(j) <= limit <==> forall chain :: Nested(chain, j) ==> |chain| <= limit
  {
    if Depth(j) <= limit {
      forall chain | Nested(chain, j) ensures |chain| <= limit {
        ChainFits(chain, j);
      }
    } else {
      var chain := DeepestChain(j);
    }
  }

  ghost predicate HasKeyword(j: Json) {
    j.Object? && exists i ::
      && 0 <= i < |j.fields|
      && Lower(Strip(j.fields[i].name)) in {"regex", "pattern", "re", "expr", "eval", "exec", "script", "code"}
  }

  lemma ForbiddenHere(j: Json)
    ensures HasForbidden(j) <==> HasKeyword(j) || exists inner :: Searched(inner, j) && HasForbidden(inner)
  {
    hide Strip, Lower;
    match j {
      case List(items) =>
        if i :| 0 <= i < |items| && HasForbidden(items[i]) {
          assert Searched(items[i], j);
        }
      case Object(fields) =>
        if i :| 0 <= i < |fields| && !Skipped(fields[i]) && HasForbidden(fields[i].value) {
          assert Searched(fields[i].value, j);
        }
      case _ =>
    }
  }

  lemma {:induction false} KeywordFound(chain: seq<Json>, j: Json)
    requires NestedSearched(chain, j) && HasKeyword(chain[|chain| - 1])
    ensures HasForbidden(j)
    decreases |chain|
  {
    hide HasKeyword, Searched, HasForbidden;
    ForbiddenHere(j);
    if |chain| > 1 {
      var rest := chain[1..];
      assert forall i :: 0 < i < |rest| ==> rest[i] == chain[i + 1] && rest[i - 1] == chain[i];
      KeywordFound(rest, chain[1]);
    }
  }

  lemma {:induction false} KeywordChain(j: Json) returns (chain: seq<Json>)
    requires HasForbidden(j)
    ensures NestedSearched(chain, j) && HasKeyword(chain[|chain| - 1])
    decreases Depth(j)
  {
    hide HasKeyword, HasForbidden, Depth;
    ForbiddenHere(j);
    chain := [j];
    if !HasKeyword(j) {
      var inner :| Searched(inner, j) && HasForbidden(inner);
      ShallowerInside(inner, j);
      var rest := KeywordChain(inner);
      chain := [j] + rest;
      forall i | 0 < i < |chain| ensures Searched(chain[i], chain[i - 1]) {
        if i > 1 {
          assert Searched(rest[i - 1], rest[i - 2]);
        }
      }
    }
  }

  /** What the key walk refuses: a keyword as a key of the value itself, or of one nested in it but not in `values`. */
  lemma ForbiddenMeaning(j: Json)
    ensures HasForbidden(j) <==> exists chain :: NestedSearched(chain, j) && HasKeyword(chain[|chain| - 1])
  {
    if HasForbidden(j) {
      var chain := KeywordChain(j);
    }
    if chain :| NestedSearched(chain, j) && HasKeyword(chain[|chain| - 1]) {
      KeywordFound(chain, j);
    }
  }
}
