/** The text normalisations of central/device_definitions.py, each of which is done once and for all. */
module Texts {
  /** `str.isspace` for one character. */
  predicate IsSpace(c: char) {
    || '\t' <= c <= '\r' || '\U{1C}' <= c <= ' '
    || c == '\U{85}' || c == '\U{A0}' || c == '\U{1680}' || '\U{2000}' <= c <= '\U{200A}'
    || c == '\U{2028}' || c == '\U{2029}' || c == '\U{202F}' || c == '\U{205F}' || c == '\U{3000}'
  }

  /** The code points with a white-space property, one by one. */
  lemma SpaceMeaning(c: char)
    ensures IsSpace(c) <==>
      c as int in {9, 10, 11, 12, 13, 28, 29, 30, 31, 32, 133, 160, 5760, 8192, 8193, 8194, 8195, 8196, 8197, 8198,
                   8199, 8200, 8201, 8202, 8232, 8233, 8239, 8287, 12288}
  {
  }

  function LowerChar(c: char): char {
    if 'A' <= c <= 'Z' then (c as int - 'A' as int + 'a' as int) as char else c
  }

  /** `str.lower`, on ASCII letters. */
  function Lower(text: string): (lower: string)
    ensures |lower| == |text|
    ensures forall i :: 0 <= i < |text| ==> lower[i] == LowerChar(text[i])
  {
    if text == [] then [] else [LowerChar(text[0])] + Lower(text[1..])
  }

  /** `text.lstrip(...)` of the characters that are dropped. */
  function DropWhile(text: string, dropped: char -> bool): string {
    if text != [] && dropped(text[0]) then DropWhile(text[1..], dropped) else text
  }

  function DropSpaceEnd(text: string): string {
    if text != [] && IsSpace(text[|text| - 1]) then DropSpaceEnd(text[..|text| - 1]) else text
  }

  /** `text.strip()`. */
  function Strip(text: string): string {
    DropSpaceEnd(DropWhile(text, IsSpace))
  }

  /** `text.lstrip(".")`. */
  function DropDots(text: string): string {
    DropWhile(text, c => c == '.')
  }

  /** Nothing to strip. */
  predicate Trimmed(text: string) {
    text == [] || (!IsSpace(text[0]) && !IsSpace(text[|text| - 1]))
  }

  lemma {:induction false} DropWhileSuffix(text: string, dropped: char -> bool)
    ensures var rest := DropWhile(text, dropped);
            |rest| <= |text| && (rest == [] || !dropped(rest[0]))
    ensures text != [] && !dropped(text[0]) ==> DropWhile(text, dropped) == text
  {
    if text != [] && dropped(text[0]) {
      DropWhileSuffix(text[1..], dropped);
    }
  }

  lemma {:induction false} DropSpaceEndPrefix(text: string)
    ensures DropSpaceEnd(text) <= text
    ensures DropSpaceEnd(text) == [] || !IsSpace(DropSpaceEnd(text)[|DropSpaceEnd(text)| - 1])
  {
    if text != [] && IsSpace(text[|text| - 1]) {
      DropSpaceEndPrefix(text[..|text| - 1]);
    }
  }

  /** Stripping leaves nothing to strip, and changes nothing when there was nothing. */
  lemma StripTrims(text: string)
    ensures Trimmed(Strip(text)) && |Strip(text)| <= |text|
    ensures Trimmed(text) ==> Strip(text) == text
  {
    hide IsSpace;
    DropWhileSuffix(text, IsSpace);
    DropSpaceEndPrefix(DropWhile(text, IsSpace));
  }

  predicate IsLower(text: string) {
    forall i :: 0 <= i < |text| ==> !('A' <= text[i] <= 'Z')
  }

  lemma LowerLowers(text: string)
    ensures IsLower(Lower(text))
    ensures IsLower(text) ==> Lower(text) == text
    ensures Trimmed(text) ==> Trimmed(Lower(text))
  {
    if IsLower(text) {
      assert forall i :: 0 <= i < |text| ==> Lower(text)[i] == text[i];
    }
  }

  // ------------------------------------------------------------------------------------------
  // " ".join(text.split())
  // ------------------------------------------------------------------------------------------

  function WordLength(text: string): (n: nat)
    ensures n <= |text|
  {
    if text != [] && !IsSpace(text[0]) then 1 + WordLength(text[1..]) else 0
  }

  /** Words with one space between. */
  function Tidy(text: string): string
    decreases |text|
  {
    var rest := DropWhile(text, IsSpace);
    if rest == [] then []
    else
      DropWhileSuffix(text, IsSpace);
      var n := WordLength(rest);
      var more := Tidy(rest[n..]);
      if more == [] then rest[..n] else rest[..n] + " " + more
  }

  predicate IsTidy(text: string)
    decreases |text|
  {
    var n := WordLength(text);
    || text == []
    || (n > 0 && (n == |text| || (n + 1 < |text| && text[n] == ' ' && IsTidy(text[n + 1..]))))
  }

  lemma {:induction false} WordLengthIs(text: string, n: nat)
    requires n <= |text|
    requires forall i :: 0 <= i < n ==> !IsSpace(text[i])
    requires n == |text| || IsSpace(text[n])
    ensures WordLength(text) == n
  {
    hide IsSpace;
    if n > 0 {
      WordLengthIs(text[1..], n - 1);
    }
  }

  lemma {:induction false} WordLengthMeans(text: string)
    ensures var n := WordLength(text);
            (forall i :: 0 <= i < n ==> !IsSpace(text[i])) && (n == |text| || IsSpace(text[n]))
  {
    hide IsSpace;
    if text != [] && !IsSpace(text[0]) {
      WordLengthMeans(text[1..]);
    }
  }

  /** Tidying tidies, */
  lemma {:induction false} TidyTidies(text: string)
    ensures IsTidy(Tidy(text))
    decreases |text|
  {
    DropWhileSuffix(text, IsSpace);
    var rest := DropWhile(text, IsSpace);
    if rest != [] {
      var n := WordLength(rest);
      WordLengthMeans(rest);
      var more := Tidy(rest[n..]);
      TidyTidies(rest[n..]);
      var out := Tidy(text);
      if more == [] {
        WordLengthIs(out, n);
      } else {
        assert out == rest[..n] + " " + more;
        assert out[n] == ' ' && out[n + 1..] == more;
        WordLengthIs(out, n);
      }
    }
  }

  /** and leaves tidy text alone. */
  lemma {:induction false} TidyKeepsTidy(text: string)
    requires IsTidy(text)
    ensures Tidy(text) == text
    decreases |text|
  {
    if text != [] {
      var n := WordLength(text);
      WordLengthMeans(text);
      DropWhileSuffix(text, IsSpace);
      if n < |text| {
        var more := text[n + 1..];
        TidyKeepsTidy(more);
        TidySkipsSpace(text[n..]);
        assert text[n..][1..] == more;
        assert text == text[..n] + " " + more;
      } else {
        assert text[n..] == [] && text[..n] == text;
      }
    }
  }

  lemma TidySkipsSpace(text: string)
    requires text != [] && IsSpace(text[0])
    ensures Tidy(text) == Tidy(text[1..])
  {
  }

  lemma LowerKeepsSpaces(c: char)
    ensures IsSpace(LowerChar(c)) <==> IsSpace(c)
    ensures LowerChar(' ') == ' '
  {
  }

  /** Lowering keeps text tidy. */
  lemma {:induction false} LowerKeepsTidy(text: string)
    requires IsTidy(text)
    ensures IsTidy(Lower(text))
    decreases |text|
  {
    hide IsSpace, LowerChar;
    var n, low := WordLength(text), Lower(text);
    WordLengthMeans(text);
    forall i | 0 <= i < |text| ensures IsSpace(low[i]) <==> IsSpace(text[i]) {
      LowerKeepsSpaces(text[i]);
    }
    WordLengthIs(low, n);
    if 0 < n < |text| {
      LowerKeepsTidy(text[n + 1..]);
      LowerKeepsSpaces(text[n]);
      assert Lower(text)[n + 1..] == Lower(text[n + 1..]);
    }
  }

  // ------------------------------------------------------------------------------------------
  // What the three do to any text
  // ------------------------------------------------------------------------------------------

  predicate AllSpace(text: string) {
    forall i :: 0 <= i < |text| ==> IsSpace(text[i])
  }

  lemma {:induction false} DropWhileMeaning(text: string, dropped: char -> bool) returns (head: string)
    ensures text == head + DropWhile(text, dropped) && forall i :: 0 <= i < |head| ==> dropped(head[i])
    ensures DropWhile(text, dropped) != [] ==> !dropped(DropWhile(text, dropped)[0])
  {
    head := [];
    if text != [] && dropped(text[0]) {
      var rest := DropWhileMeaning(text[1..], dropped);
      head := [text[0]] + rest;
    }
  }

  lemma {:induction false} DropSpaceEndMeaning(text: string) returns (tail: string)
    ensures text == DropSpaceEnd(text) + tail && AllSpace(tail)
  {
    hide IsSpace;
    tail := [];
    if text != [] && IsSpace(text[|text| - 1]) {
      var rest := DropSpaceEndMeaning(text[..|text| - 1]);
      tail := rest + [text[|text| - 1]];
    }
  }

  /** Stripping takes spaces from both ends, all of them and nothing else. */
  lemma StripMeaning(text: string) returns (head: string, tail: string)
    ensures text == head + Strip(text) + tail && AllSpace(head) && AllSpace(tail)
    ensures Strip(text) != [] ==> !IsSpace(Strip(text)[0]) && !IsSpace(Strip(text)[|Strip(text)| - 1])
  {
    hide IsSpace;
    head := DropWhileMeaning(text, IsSpace);
    tail := DropSpaceEndMeaning(DropWhile(text, IsSpace));
    StripTrims(text);
  }

  /** Leading dots go, all of them and nothing else. */
  lemma DropDotsMeaning(text: string) returns (dots: string)
    ensures text == dots + DropDots(text) && forall i :: 0 <= i < |dots| ==> dots[i] == '.'
    ensures DropDots(text) != [] ==> DropDots(text)[0] != '.'
  {
    dots := DropWhileMeaning(text, c => c == '.');
  }

  /** Lowering moves the capital letters and leaves every other character. */
  lemma LowerMeaning(text: string, i: nat)
    requires i < |text|
    ensures |Lower(text)| == |text|
    ensures 'A' <= text[i] <= 'Z' ==> Lower(text)[i] as int == text[i] as int + 32
    ensures !('A' <= text[i] <= 'Z') ==> Lower(text)[i] == text[i]
  {
  }

  lemma TidyWord(word: string, rest: string)
    requires word != [] && (forall i :: 0 <= i < |word| ==> !IsSpace(word[i]))
    requires rest == [] || IsSpace(rest[0])
    ensures Tidy(word + rest) == if Tidy(rest) == [] then word else word + " " + Tidy(rest)
  {
    hide IsSpace;
    var text := word + rest;
    DropWhileSuffix(text, IsSpace);
    WordLengthIs(text, |word|);
    assert text[|word|..] == rest && text[..|word|] == word;
  }

  /** Tidying drops spaces before a word, keeps the word, and puts one space before the next. */
  lemma {:induction false} TidyMeaning(space: string, word: string, rest: string)
    requires AllSpace(space) && word != [] && (forall i :: 0 <= i < |word| ==> !IsSpace(word[i]))
    requires rest == [] || IsSpace(rest[0])
    ensures Tidy(space) == []
    ensures Tidy(space + word + rest) == if Tidy(rest) == [] then word else word + " " + Tidy(rest)
    decreases |space|
  {
    hide IsSpace, Tidy;
    if space == [] {
      assert space + word + rest == word + rest;
      TidyWord(word, rest);
      TidyNothing();
    } else {
      TidyMeaning(space[1..], word, rest);
      TidySkipsSpace(space);
      TidySkipsSpace(space + word + rest);
      assert (space + word + rest)[1..] == space[1..] + word + rest;
    }
  }

  lemma TidyNothing()
    ensures Tidy([]) == []
  {
  }
}
