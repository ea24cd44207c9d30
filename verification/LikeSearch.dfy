/**
 * The search pattern of `_like_contains` (central/queries.py) against the LIKE predicate of
 * ISO/IEC 9075-2 section 8.5 with escape character backslash.  Case folding is left out.
 */
module LikeSearch {
  const ESCAPE := '\\'

  /** `text.replace(c, sub)` for a one-character `c`. */
  function Replace(text: string, c: char, sub: string): string {
    if text == [] then [] else (if text[0] == c then sub else [text[0]]) + Replace(text[1..], c, sub)
  }

  function Escaped(term: string): string {
    Replace(Replace(Replace(term, ESCAPE, [ESCAPE, ESCAPE]), '%', [ESCAPE, '%']), '_', [ESCAPE, '_'])
  }

  function LikeContains(term: string): string {
    "%" + Escaped(term) + "%"
  }

  predicate Special(c: char) {
    c == ESCAPE || c == '%' || c == '_'
  }

  /** The escape of one character, and of each character of a term. */
  function EscapeEach(term: string): string {
    if term == [] then [] else (if Special(term[0]) then [ESCAPE, term[0]] else [term[0]]) + EscapeEach(term[1..])
  }

  lemma {:induction false} ReplaceSplits(a: string, b: string, c: char, sub: string)
    ensures Replace(a + b, c, sub) == Replace(a, c, sub) + Replace(b, c, sub)
  {
    if a == [] {
      assert a + b == b;
    } else {
      assert (a + b)[1..] == a[1..] + b;
      ReplaceSplits(a[1..], b, c, sub);
    }
  }

  lemma ReplaceOne(c: char, d: char, sub: string)
    ensures Replace([d], c, sub) == if d == c then sub else [d]
  {
  }

  lemma ReplacePair(a: char, b: char, c: char, sub: string)
    ensures Replace([a, b], c, sub) == (if a == c then sub else [a]) + (if b == c then sub else [b])
  {
    assert [a, b][1..] == [b];
    ReplaceOne(c, b, sub);
  }

  lemma EscapedOne(c: char)
    ensures Escaped([c]) == if Special(c) then [ESCAPE, c] else [c]
  {
    ReplaceOne(ESCAPE, c, [ESCAPE, ESCAPE]);
    if c == ESCAPE {
      ReplacePair(ESCAPE, ESCAPE, '%', [ESCAPE, '%']);
      ReplacePair(ESCAPE, ESCAPE, '_', [ESCAPE, '_']);
    } else {
      ReplaceOne('%', c, [ESCAPE, '%']);
      ReplaceOne('_', c, [ESCAPE, '_']);
      ReplacePair(ESCAPE, '%', '_', [ESCAPE, '_']);
    }
  }

  /** The three replacements in a row escape each character once. */
  lemma {:induction false} SequentialIsPerCharacter(term: string)
    ensures Escaped(term) == EscapeEach(term)
  {
    if term != [] {
      var head, rest := [term[0]], term[1..];
      assert term == head + rest;
      ReplaceSplits(head, rest, ESCAPE, [ESCAPE, ESCAPE]);
      var head1, rest1 := Replace(head, ESCAPE, [ESCAPE, ESCAPE]), Replace(rest, ESCAPE, [ESCAPE, ESCAPE]);
      ReplaceSplits(head1, rest1, '%', [ESCAPE, '%']);
      ReplaceSplits(Replace(head1, '%', [ESCAPE, '%']), Replace(rest1, '%', [ESCAPE, '%']), '_', [ESCAPE, '_']);
      EscapedOne(term[0]);
      SequentialIsPerCharacter(rest);
    }
  }

  // ------------------------------------------------------------------------------------------
  // LIKE
  // ------------------------------------------------------------------------------------------

  /** Every escape character is followed by a character that needs one; otherwise LIKE raises. */
  predicate WellFormed(pattern: string) {
    if pattern == [] then true
    else if pattern[0] == ESCAPE then |pattern| >= 2 && Special(pattern[1]) && WellFormed(pattern[2..])
    else WellFormed(pattern[1..])
  }

  predicate Like(s: string, pattern: string)
    requires WellFormed(pattern)
    decreases |pattern|
  {
    if pattern == [] then s == []
    else if pattern[0] == ESCAPE then s != [] && s[0] == pattern[1] && Like(s[1..], pattern[2..])
    else if pattern[0] == '%' then exists k :: 0 <= k <= |s| && Like(s[k..], pattern[1..])
    else if pattern[0] == '_' then s != [] && Like(s[1..], pattern[1..])
    else s != [] && s[0] == pattern[0] && Like(s[1..], pattern[1..])
  }

  predicate StartsWith(s: string, term: string) {
    |term| <= |s| && s[..|term|] == term
  }

  predicate Contains(s: string, term: string) {
    exists k :: 0 <= k <= |s| && StartsWith(s[k..], term)
  }

  lemma AnyTail(s: string)
    ensures WellFormed("%") && Like(s, "%")
  {
    assert "%"[1..] == "";
    assert s[|s|..] == [];
    assert Like(s[|s|..], "%"[1..]);
  }

  lemma {:induction false} EscapedTermMatchesPrefix(s: string, term: string)
    ensures WellFormed(EscapeEach(term) + "%")
    ensures Like(s, EscapeEach(term) + "%") <==> StartsWith(s, term)
    decreases |term|
  {
    var pattern := EscapeEach(term) + "%";
    if term == [] {
      assert pattern == "%";
      AnyTail(s);
    } else {
      var rest := EscapeEach(term[1..]) + "%";
      if Special(term[0]) {
        assert pattern == [ESCAPE, term[0]] + rest;
        assert pattern[2..] == rest;
      } else {
        assert pattern == [term[0]] + rest;
        assert pattern[1..] == rest;
      }
      EscapedTermMatchesPrefix(s[if s == [] then 0 else 1..], term[1..]);
      if s != [] {
        PrefixStep(s, term);
      }
    }
  }

  lemma PrefixStep(s: string, term: string)
    requires s != [] && term != []
    ensures StartsWith(s, term) <==> s[0] == term[0] && StartsWith(s[1..], term[1..])
  {
  }

  lemma PercentSkips(s: string, pattern: string)
    requires WellFormed(pattern)
    ensures WellFormed("%" + pattern)
    ensures Like(s, "%" + pattern) <==> exists k :: 0 <= k <= |s| && Like(s[k..], pattern)
  {
  }

  /** The pattern is always valid, and matches exactly the strings the term is a substring of. */
  lemma SearchFindsSubstrings(s: string, term: string)
    ensures WellFormed(LikeContains(term))
    ensures Like(s, LikeContains(term)) <==> Contains(s, term)
  {
    SequentialIsPerCharacter(term);
    var pattern, rest := LikeContains(term), EscapeEach(term) + "%";
    assert pattern == "%" + rest;
    assert pattern[1..] == rest;
    EscapedTermMatchesPrefix(s, term);
    hide WellFormed, EscapeEach;
    forall k | 0 <= k <= |s| ensures Like(s[k..], rest) <==> StartsWith(s[k..], term) {
      EscapedTermMatchesPrefix(s[k..], term);
    }
    hide StartsWith;
    PercentSkips(s, rest);
  }

  // ------------------------------------------------------------------------------------------
  // The order of the replacements
  // ------------------------------------------------------------------------------------------

  /** The same three replacements, the escape character last. */
  function EscapedLast(term: string): string {
    Replace(Replace(Replace(term, '%', [ESCAPE, '%']), '_', [ESCAPE, '_']), ESCAPE, [ESCAPE, ESCAPE])
  }

  function Wildcards(term: string): nat {
    if term == [] then 0 else (if term[0] == '%' || term[0] == '_' then 1 else 0) + Wildcards(term[1..])
  }

  lemma EscapedLastOne(c: char)
    ensures EscapedLast([c]) == (if c == '%' || c == '_' then [ESCAPE, ESCAPE, c] else if c == ESCAPE then [ESCAPE, c] else [c])
  {
    ReplaceOne('%', c, [ESCAPE, '%']);
    ReplaceOne('_', c, [ESCAPE, '_']);
    ReplaceOne(ESCAPE, c, [ESCAPE, ESCAPE]);
    ReplacePair(ESCAPE, '%', '_', [ESCAPE, '_']);
    ReplacePair(ESCAPE, c, ESCAPE, [ESCAPE, ESCAPE]);
  }

  /**
   * Escaping the escape character last escapes the escapes just added, one for each wildcard: it
   * gives the same pattern iff the term has no wildcard to escape.
   */
  lemma {:induction false} EscapeFirstIsNeededIff(term: string)
    ensures |EscapedLast(term)| == |EscapeEach(term)| + Wildcards(term)
    ensures EscapedLast(term) == EscapeEach(term) <==> Wildcards(term) == 0
  {
    if term != [] {
      var head, rest := [term[0]], term[1..];
      assert term == head + rest;
      ReplaceSplits(head, rest, '%', [ESCAPE, '%']);
      var head1, rest1 := Replace(head, '%', [ESCAPE, '%']), Replace(rest, '%', [ESCAPE, '%']);
      ReplaceSplits(head1, rest1, '_', [ESCAPE, '_']);
      ReplaceSplits(Replace(head1, '_', [ESCAPE, '_']), Replace(rest1, '_', [ESCAPE, '_']), ESCAPE, [ESCAPE, ESCAPE]);
      EscapedLastOne(term[0]);
      EscapeFirstIsNeededIff(rest);
    }
  }
}
