/** `sorted(items, key=...)`: a stable sort by a total preorder. */
module Sorting {
  ghost predicate TotalPreorder<T(!new)>(le: (T, T) -> bool) {
    && (forall a, b :: le(a, b) || le(b, a))
    && (forall a, b, c :: le(a, b) && le(b, c) ==> le(a, c))
  }

  predicate SortedBy<T>(items: seq<T>, le: (T, T) -> bool) {
    forall i, j :: 0 <= i < j < |items| ==> le(items[i], items[j])
  }

  /** Before everything it does not come strictly after, so equal keys keep their order. */
  function Insert<T>(item: T, items: seq<T>, le: (T, T) -> bool): seq<T> {
    if items == [] || le(item, items[0]) then [item] + items
    else [items[0]] + Insert(item, items[1..], le)
  }

  function Sort<T>(items: seq<T>, le: (T, T) -> bool): seq<T> {
    if items == [] then [] else Insert(items[0], Sort(items[1..], le), le)
  }

  lemma {:induction false} InsertPermutes<T>(item: T, items: seq<T>, le: (T, T) -> bool)
    ensures multiset(Insert(item, items, le)) == multiset{item} + multiset(items)
  {
    if items != [] && !le(item, items[0]) {
      InsertPermutes(item, items[1..], le);
      assert items == [items[0]] + items[1..];
    }
  }

  lemma {:induction false} SortPermutes<T>(items: seq<T>, le: (T, T) -> bool)
    ensures multiset(Sort(items, le)) == multiset(items)
  {
    if items != [] {
      SortPermutes(items[1..], le);
      InsertPermutes(items[0], Sort(items[1..], le), le);
      assert items == [items[0]] + items[1..];
    }
  }

  lemma SameMembers<T>(a: seq<T>, b: seq<T>)
    requires multiset(a) == multiset(b)
    ensures forall t :: t in a <==> t in b
    ensures |a| == |b|
  {
    forall t ensures t in a <==> t in b {
      assert t in a <==> t in multiset(a);
      assert t in b <==> t in multiset(b);
    }
    assert |multiset(a)| == |a| && |multiset(b)| == |b|;
  }

  /** Where an element of the result stood in the input. */
  lemma SortOrigin<T>(items: seq<T>, le: (T, T) -> bool, i: nat) returns (origin: nat)
    requires i < |Sort(items, le)|
    ensures origin < |items| && items[origin] == Sort(items, le)[i]
  {
    var t := Sort(items, le)[i];
    SortPermutes(items, le);
    assert t in multiset(Sort(items, le));
    assert t in multiset(items);
    origin :| origin < |items| && items[origin] == t;
  }

  lemma {:induction false} InsertSorts<T(!new)>(item: T, items: seq<T>, le: (T, T) -> bool)
    requires TotalPreorder(le) && SortedBy(items, le)
    ensures SortedBy(Insert(item, items, le), le)
  {
    if items != [] {
      if le(item, items[0]) {
        assert forall i :: 0 <= i < |items| ==> le(item, items[i]);
      } else {
        var rest := Insert(item, items[1..], le);
        InsertSorts(item, items[1..], le);
        InsertPermutes(item, items[1..], le);
        SameMembers(rest, [item] + items[1..]);
        forall i | 0 <= i < |rest| ensures le(items[0], rest[i]) {
          assert rest[i] in rest;
        }
      }
    }
  }

  lemma {:induction false} SortSorts<T(!new)>(items: seq<T>, le: (T, T) -> bool)
    requires TotalPreorder(le)
    ensures SortedBy(Sort(items, le), le)
  {
    if items != [] {
      SortSorts(items[1..], le);
      InsertSorts(items[0], Sort(items[1..], le), le);
    }
  }

  // ------------------------------------------------------------------------------------------
  // Sorting things by a key computed beforehand
  // ------------------------------------------------------------------------------------------

  datatype Keyed<K, V> = Keyed(key: K, item: V)

  function ByKey<K, V>(le: (K, K) -> bool): (Keyed<K, V>, Keyed<K, V>) -> bool {
    (a: Keyed<K, V>, b: Keyed<K, V>) => le(a.key, b.key)
  }

  function Keys<K, V>(keyed: seq<Keyed<K, V>>): seq<K> {
    seq(|keyed|, i requires 0 <= i < |keyed| => keyed[i].key)
  }

  function Items<K, V>(keyed: seq<Keyed<K, V>>): seq<V> {
    seq(|keyed|, i requires 0 <= i < |keyed| => keyed[i].item)
  }

  lemma FirstKeyed<K, V>(keyed: seq<Keyed<K, V>>)
    requires keyed != []
    ensures Keys(keyed) == [keyed[0].key] + Keys(keyed[1..]) && Items(keyed) == [keyed[0].item] + Items(keyed[1..])
  {
  }

  lemma {:induction false} InsertByKey<K, V>(item: Keyed<K, V>, items: seq<Keyed<K, V>>, le: (K, K) -> bool)
    ensures Keys(Insert(item, items, ByKey(le))) == Insert(item.key, Keys(items), le)
    ensures multiset(Items(Insert(item, items, ByKey(le)))) == multiset{item.item} + multiset(Items(items))
  {
    var inserted := Insert(item, items, ByKey(le));
    FirstKeyed(inserted);
    if items == [] || le(item.key, items[0].key) {
      assert inserted[1..] == items;
    } else {
      InsertByKey(item, items[1..], le);
      FirstKeyed(items);
    }
  }

  /** Sorting by a key sorts the keys and permutes the things. */
  lemma {:induction false} SortByKey<K, V>(items: seq<Keyed<K, V>>, le: (K, K) -> bool)
    ensures Keys(Sort(items, ByKey(le))) == Sort(Keys(items), le)
    ensures multiset(Items(Sort(items, ByKey(le)))) == multiset(Items(items))
  {
    if items != [] {
      SortByKey(items[1..], le);
      InsertByKey(items[0], Sort(items[1..], ByKey(le)), le);
      FirstKeyed(items);
    }
  }

  ghost predicate Distinct<T>(items: seq<T>) {
    forall i, j :: 0 <= i < j < |items| ==> items[i] != items[j]
  }

  lemma {:induction false} DistinctIffOnce<T>(items: seq<T>)
    ensures Distinct(items) <==> forall t :: multiset(items)[t] <= 1
  {
    if items != [] {
      var before, last := items[..|items| - 1], items[|items| - 1];
      assert items == before + [last];
      DistinctIffOnce(before);
      if Distinct(items) {
        assert last !in before;
        assert Distinct(before);
      }
      if forall t :: multiset(items)[t] <= 1 {
        assert forall t :: multiset(before)[t] <= multiset(items)[t];
        assert multiset(items)[last] == multiset(before)[last] + 1;
        assert last !in before;
      }
    }
  }

  ghost predicate KeysDistinct<T(!new), K(!new)>(items: seq<T>, key: T -> K) {
    forall i, j :: 0 <= i < j < |items| ==> key(items[i]) != key(items[j])
  }

  lemma SameKeySamePlace<T(!new), K(!new)>(items: seq<T>, key: T -> K, i: nat, j: nat)
    requires KeysDistinct(items, key) && i < |items| && j < |items| && key(items[i]) == key(items[j])
    ensures i == j
  {
  }

  /** Sorting keeps distinct keys distinct. */
  lemma SortKeepsKeysDistinct<T(!new), K(!new)>(items: seq<T>, le: (T, T) -> bool, key: T -> K)
    requires KeysDistinct(items, key)
    ensures KeysDistinct(Sort(items, le), key)
  {
    var sorted := Sort(items, le);
    SortPermutes(items, le);
    DistinctIffOnce(items);
    DistinctIffOnce(sorted);
    forall i, j | 0 <= i < j < |sorted| ensures key(sorted[i]) != key(sorted[j]) {
      var a := SortOrigin(items, le, i);
      var b := SortOrigin(items, le, j);
      assert items[a] == sorted[i] && items[b] == sorted[j] && sorted[i] != sorted[j];
    }
  }
}
