/** Code-point order of text: ORDER BY on SQLite and Python's `<` on strings. */
module TextOrder {
  /** Lexicographic order of text, strictly. */
  predicate TextLess(a: string, b: string) {
    b != "" && (a == "" || a[0] < b[0] || (a[0] == b[0] && TextLess(a[1..], b[1..])))
  }

  lemma {:induction false} TextLessConcat(a: string, b: string, x: string, y: string)
    requires |a| == |b|
    ensures TextLess(a + x, b + y) <==> TextLess(a, b) || (a == b && TextLess(x, y))
  {
    if a == "" {
      assert a + x == x && b + y == y;
    } else {
      TextLessConcat(a[1..], b[1..], x, y);
      assert (a + x)[1..] == a[1..] + x && (b + y)[1..] == b[1..] + y;
      assert a == b <==> a[0] == b[0] && a[1..] == b[1..];
    }
  }

  lemma {:induction false} TextIrreflexive(a: string)
    ensures !TextLess(a, a)
  {
    if a != "" {
      TextIrreflexive(a[1..]);
    }
  }

  lemma {:induction false} TextTransitive(a: string, b: string, c: string)
    requires TextLess(a, b) && TextLess(b, c)
    ensures TextLess(a, c)
    decreases |a|
  {
    if a != "" && a[0] == b[0] == c[0] {
      TextTransitive(a[1..], b[1..], c[1..]);
    }
  }

  lemma {:induction false} TextTrichotomy(a: string, b: string)
    ensures a == b || TextLess(a, b) || TextLess(b, a)
    decreases |a|
  {
    if a != "" && b != "" && a[0] == b[0] {
      TextTrichotomy(a[1..], b[1..]);
      assert a == [a[0]] + a[1..] && b == [b[0]] + b[1..];
    }
  }

  /** A strict total order. */
  lemma TextIsOrdered()
    ensures forall a, b :: a == b || TextLess(a, b) || TextLess(b, a)
    ensures forall a, b :: TextLess(a, b) ==> !TextLess(b, a)
    ensures forall a, b, c :: TextLess(a, b) && TextLess(b, c) ==> TextLess(a, c)
  {
    forall a, b ensures a == b || TextLess(a, b) || TextLess(b, a) {
      TextTrichotomy(a, b);
    }
    forall a, b, c | TextLess(a, b) && TextLess(b, c) ensures TextLess(a, c) {
      TextTransitive(a, b, c);
    }
    forall a, b | TextLess(a, b) ensures !TextLess(b, a) {
      if TextLess(b, a) {
        TextTransitive(a, b, a);
        TextIrreflexive(a);
      }
    }
  }

  /** One text is before another where they first differ, or where it ends first. */
  ghost predicate DiffersAt(a: string, b: string, n: nat) {
    && n <= |a| && n < |b| && (forall i :: 0 <= i < n ==> a[i] == b[i])
    && (n < |a| ==> a[n] < b[n])
  }

  lemma {:induction false} TextLessMeaning(a: string, b: string)
    ensures TextLess(a, b) <==> exists n: nat :: DiffersAt(a, b, n)
  {
    if b == "" || a == "" {
      assert b != "" ==> DiffersAt(a, b, 0);
    } else if a[0] != b[0] {
      assert a[0] < b[0] <==> DiffersAt(a, b, 0);
    } else {
      TextLessMeaning(a[1..], b[1..]);
      if TextLess(a[1..], b[1..]) {
        var n: nat :| DiffersAt(a[1..], b[1..], n);
        assert forall i :: 0 < i < n + 1 ==> a[i] == a[1..][i - 1] && b[i] == b[1..][i - 1];
        assert DiffersAt(a, b, n + 1);
      }
      if exists n: nat :: DiffersAt(a, b, n) {
        var n: nat :| DiffersAt(a, b, n);
        assert n > 0;
        assert DiffersAt(a[1..], b[1..], n - 1);
      }
    }
  }
}
