/** `is_valid_oid` (central/device_definitions.py): one pass over the characters, no pattern. */
module Oids {
  const MAX_OID_LEN := 255
  const MAX_OID_ARCS := 64
  const MAX_ARC_DIGITS := 20

  predicate IsDigit(c: char) {
    '0' <= c <= '9'
  }

  /** The runs between dots; always at least one. */
  function Runs(text: string): (runs: seq<string>)
    ensures |runs| >= 1
  {
    if text == [] then [[]]
    else
      var before, c := Runs(text[..|text| - 1]), text[|text| - 1];
      if c == '.' then before + [[]]
      else before[..|before| - 1] + [before[|before| - 1] + [c]]
  }

  function Join(runs: seq<string>): string {
    if runs == [] then []
    else if |runs| == 1 then runs[0]
    else Join(runs[..|runs| - 1]) + "." + runs[|runs| - 1]
  }

  /** An arc still being read. */
  predicate IsPartialArc(run: string) {
    |run| <= MAX_ARC_DIGITS && forall i :: 0 <= i < |run| ==> IsDigit(run[i])
  }

  predicate IsArc(run: string) {
    run != [] && IsPartialArc(run)
  }

  predicate AllArcs(runs: seq<string>) {
    forall i :: 0 <= i < |runs| ==> IsArc(runs[i])
  }

  /** At most 64 dots, so up to 65 arcs. */
  predicate IsOid(text: string) {
    |text| <= MAX_OID_LEN && |Runs(text)| <= MAX_OID_ARCS + 1 && AllArcs(Runs(text))
  }

  function Last(runs: seq<string>): string
    requires runs != []
  {
    runs[|runs| - 1]
  }

  /** Not too many runs, and all are arcs except that the last is still being read. */
  ghost predicate SoFar(runs: seq<string>) {
    && 1 <= |runs| <= MAX_OID_ARCS + 1
    && AllArcs(runs[..|runs| - 1]) && IsPartialArc(Last(runs))
  }

  lemma RunsOfNothing()
    ensures Runs("") == [[]]
  {
  }

  /** The runs after one more character. */
  function Extended(runs: seq<string>, c: char): seq<string>
    requires runs != []
  {
    if c == '.' then runs + [[]] else runs[..|runs| - 1] + [Last(runs) + [c]]
  }

  lemma RunsAppend(text: string, c: char)
    ensures Runs(text + [c]) == Extended(Runs(text), c)
  {
  }

  /** Reading on never repairs what is wrong with the runs so far. */
  lemma {:induction false} SoFarOfPrefix(read: string, rest: string)
    requires SoFar(Runs(read + rest))
    ensures SoFar(Runs(read))
  {
    hide SoFar, Runs, Extended;
    if rest == [] {
      assert read + rest == read;
    } else {
      var more, c := rest[..|rest| - 1], rest[|rest| - 1];
      assert read + rest == (read + more) + [c];
      RunsAppend(read + more, c);
      SoFarBefore(Runs(read + more), c);
      SoFarOfPrefix(read, more);
    }
  }

  lemma SoFarBefore(before: seq<string>, c: char)
    requires before != [] && SoFar(Extended(before, c))
    ensures SoFar(before)
  {
    var last := |before| - 1;
    if c == '.' {
      assert (before + [[]])[..last + 1] == before;
    } else {
      var after := before[..last] + [Last(before) + [c]];
      assert after[..last] == before[..last];
      forall i | 0 <= i < |Last(before)| ensures IsDigit(Last(before)[i]) {
        assert Last(after)[i] == Last(before)[i];
      }
    }
  }

  lemma EmptyIsNoOid()
    ensures !IsOid("")
  {
    assert !IsArc(Runs("")[0]);
  }

  lemma OidSoFar(text: string)
    ensures IsOid(text) <==> |text| <= MAX_OID_LEN && SoFar(Runs(text)) && Last(Runs(text)) != []
  {
    var runs := Runs(text);
    assert runs == runs[..|runs| - 1] + [Last(runs)];
  }

  method IsValidOid(text: string) returns (valid: bool)
    ensures valid <==> IsOid(text)
  {
    EmptyIsNoOid();
    OidSoFar(text);
    hide IsOid, Runs;
    if text == "" || |text| > MAX_OID_LEN {
      return false;
    }
    var arcs, digitsInArc := 0, 0;
    assert text[..0] == "";
    RunsOfNothing();
    for i := 0 to |text|
      invariant SoFar(Runs(text[..i]))
      invariant arcs == |Runs(text[..i])| - 1
      invariant digitsInArc == |Last(Runs(text[..i]))|
    {
      var c := text[i];
      ghost var before, after := Runs(text[..i]), Runs(text[..i + 1]);
      assert text[..i + 1] == text[..i] + [c];
      RunsAppend(text[..i], c);
      if SoFar(Runs(text)) {
        assert text == text[..i + 1] + text[i + 1..];
        SoFarOfPrefix(text[..i + 1], text[i + 1..]);
      }
      if c == '.' {
        assert after[..arcs + 1] == before;
        if digitsInArc == 0 {
          assert after[arcs] == [];
          return false;
        }
        assert before == before[..arcs] + [Last(before)];
        arcs := arcs + 1;
        digitsInArc := 0;
        if arcs > MAX_OID_ARCS {
          return false;
        }
      } else if IsDigit(c) {
        assert after[..arcs] == before[..arcs];
        digitsInArc := digitsInArc + 1;
        if digitsInArc > MAX_ARC_DIGITS {
          return false;
        }
      } else {
        assert Last(after)[digitsInArc] == c;
        return false;
      }
    }
    assert text[..|text|] == text;
    valid := digitsInArc > 0;
  }

  // ------------------------------------------------------------------------------------------
  // Which texts those are
  // ------------------------------------------------------------------------------------------

  lemma JoinAppend(runs: seq<string>, run: string)
    requires runs != []
    ensures Join(runs + [run]) == Join(runs) + "." + run
  {
  }

  lemma JoinOne(run: string)
    ensures Join([run]) == run
  {
  }

  lemma Regroup(a: string, b: string, c: string)
    ensures a + (b + c) == (a + b) + c
  {
  }

  lemma JoinGrowLast(before: seq<string>, run: string, c: char)
    ensures Join(before + [run + [c]]) == Join(before + [run]) + [c]
  {
    hide Join;
    if before == [] {
      assert before + [run + [c]] == [run + [c]];
      assert before + [run] == [run];
      JoinOne(run + [c]);
      JoinOne(run);
    } else {
      JoinAppend(before, run + [c]);
      JoinAppend(before, run);
      Regroup(Join(before) + ".", run, [c]);
    }
  }

  lemma FrontAndLast(runs: seq<string>)
    requires runs != []
    ensures runs[..|runs| - 1] + [Last(runs)] == runs
  {
  }

  lemma JoinGrow(runs: seq<string>, c: char)
    requires runs != []
    ensures Join(runs[..|runs| - 1] + [Last(runs) + [c]]) == Join(runs) + [c]
  {
    hide Join, Last;
    FrontAndLast(runs);
    JoinGrowLast(runs[..|runs| - 1], Last(runs), c);
  }

  lemma {:induction false} JoinRuns(text: string)
    ensures Join(Runs(text)) == text
  {
    hide Join;
    if text != [] {
      var before, c := text[..|text| - 1], text[|text| - 1];
      assert text == before + [c];
      JoinRuns(before);
      RunsAppend(before, c);
      hide Runs;
      if c == '.' {
        JoinAppend(Runs(before), []);
        assert before + "." + [] == text;
      } else {
        JoinGrow(Runs(before), c);
      }
    } else {
      JoinNothing();
    }
  }

  lemma JoinNothing()
    ensures Join([[]]) == []
  {
  }

  lemma {:induction false} RunsExtend(text: string, run: string)
    requires forall i :: 0 <= i < |run| ==> run[i] != '.'
    ensures var before := Runs(text);
            Runs(text + run) == before[..|before| - 1] + [Last(before) + run]
    decreases |run|
  {
    hide Runs;
    var before := Runs(text);
    if run == [] {
      assert text + run == text;
      assert Last(before) + run == Last(before);
      assert before == before[..|before| - 1] + [Last(before)];
    } else {
      var last := |run| - 1;
      RunsExtend(text, run[..last]);
      RunsAppend(text + run[..last], run[last]);
      assert text + run == text + run[..last] + [run[last]];
      assert Last(before) + run == Last(before) + run[..last] + [run[last]];
    }
  }

  lemma {:induction false} RunsJoin(runs: seq<string>)
    requires runs != [] && forall k, i :: 0 <= k < |runs| && 0 <= i < |runs[k]| ==> runs[k][i] != '.'
    ensures Runs(Join(runs)) == runs
  {
    hide Runs;
    RunsOfNothing();
    var last := |runs| - 1;
    if last == 0 {
      RunsExtend([], runs[0]);
      assert [] + runs[0] == runs[0] && runs == [runs[0]];
      assert Last(Runs([])) + runs[0] == runs[0];
    } else {
      var before := Join(runs[..last]);
      RunsJoin(runs[..last]);
      RunsAppend(before, '.');
      RunsExtend(before + ".", runs[last]);
      assert [] + runs[last] == runs[last];
      assert runs == runs[..last] + [runs[last]];
    }
  }

  ghost predicate DotJoined(text: string, runs: seq<string>) {
    && 1 <= |runs| <= 65
    && (forall k :: 0 <= k < |runs| ==> 1 <= |runs[k]| <= 20 && forall i :: 0 <= i < |runs[k]| ==> '0' <= runs[k][i] <= '9')
    && text == Join(runs)
  }

  /** Accepted are exactly runs of 1 to 20 digits joined by at most 64 dots, in at most 255 characters. */
  lemma OidIff(text: string)
    ensures IsOid(text) <==> |text| <= 255 && exists runs :: DotJoined(text, runs)
  {
    if IsOid(text) {
      JoinRuns(text);
      assert DotJoined(text, Runs(text));
    }
    hide Runs, Join;
    if runs :| DotJoined(text, runs) {
      assert forall k, i :: 0 <= k < |runs| && 0 <= i < |runs[k]| ==> IsDigit(runs[k][i]);
      RunsJoin(runs);
      assert AllArcs(runs);
    }
  }

  lemma {:induction false} FirstRun(text: string)
    requires text != []
    ensures text[0] == '.' ==> Runs(text)[0] == []
    ensures text[0] != '.' ==> Runs(text)[0] != [] && Runs(text)[0][0] == text[0]
  {
    if |text| > 1 {
      FirstRun(text[..|text| - 1]);
    } else {
      assert text[..0] == [];
    }
  }

  /** An OID begins and ends with a digit. */
  lemma OidEnds(text: string)
    requires IsOid(text)
    ensures text != [] && IsDigit(text[0]) && IsDigit(text[|text| - 1])
  {
    EmptyIsNoOid();
    FirstRun(text);
    var runs := Runs(text);
    assert IsArc(runs[0]) && IsArc(runs[|runs| - 1]);
    if text[|text| - 1] != '.' {
      assert Last(runs)[|Last(runs)| - 1] == text[|text| - 1];
    }
  }

  // ------------------------------------------------------------------------------------------
  // Character by character
  // ------------------------------------------------------------------------------------------

  function Dots(text: string): set<nat> {
    set i | 0 <= i < |text| && text[i] == '.'
  }

  /** Digits and dots, each dot after a digit, and no 21 characters in a row without one. */
  ghost predicate WellSpaced(text: string) {
    && (forall i :: 0 <= i < |text| ==> text[i] == '.' || '0' <= text[i] <= '9')
    && (forall i :: 0 <= i < |text| && text[i] == '.' ==> 0 < i && text[i - 1] != '.')
    && (forall i :: 0 <= i < |text| - 20 ==> DotFrom(text, i))
  }

  predicate DotFrom(text: string, i: nat) {
    exists j :: i <= j <= i + 20 && j < |text| && text[j] == '.'
  }

  lemma DotsStep(text: string, c: char)
    ensures |text| !in Dots(text)
    ensures Dots(text + [c]) == if c == '.' then Dots(text) + {|text|} else Dots(text)
  {
  }

  lemma {:induction false} DotsCount(text: string)
    ensures |Runs(text)| == |Dots(text)| + 1
  {
    hide Runs, Dots;
    if text != [] {
      var before, c := text[..|text| - 1], text[|text| - 1];
      assert text == before + [c];
      DotsCount(before);
      DotsStep(before, c);
      RunsAppend(before, c);
    } else {
      RunsOfNothing();
      NoDots();
    }
  }

  lemma NoDots()
    ensures Dots("") == {}
  {
  }

  /** The last run is what follows the last dot. */
  lemma {:induction false} LastRun(text: string)
    ensures var from := |text| - |Last(Runs(text))|;
            && 0 <= from
            && text[from..] == Last(Runs(text))
            && '.' !in text[from..]
            && (from > 0 ==> text[from - 1] == '.')
  {
    hide Runs;
    RunsOfNothing();
    if text != [] {
      var before, c := text[..|text| - 1], text[|text| - 1];
      assert text == before + [c];
      LastRun(before);
      RunsAppend(before, c);
    }
  }

  ghost predicate ArcsSoFar(runs: seq<string>)
    requires runs != []
  {
    AllArcs(runs[..|runs| - 1]) && IsPartialArc(Last(runs))
  }

  lemma ArcsSoFarStep(runs: seq<string>, c: char)
    requires runs != []
    ensures ArcsSoFar(Extended(runs, c)) <==>
      ArcsSoFar(runs) && if c == '.' then Last(runs) != [] else |Last(runs)| < 20 && '0' <= c <= '9'
  {
    var more, last := Extended(runs, c), |runs| - 1;
    if c == '.' {
      assert more[..|more| - 1] == runs == runs[..last] + [Last(runs)];
    } else {
      assert more[..last] == runs[..last];
      assert forall i :: 0 <= i < |Last(runs)| ==> Last(more)[i] == Last(runs)[i];
      assert Last(more)[|Last(runs)|] == c;
    }
  }

  lemma WellSpacedStep(text: string, c: char, n: nat)
    requires n <= |text| && '.' !in text[|text| - n..] && (n < |text| ==> text[|text| - n - 1] == '.')
    requires WellSpaced(text) ==> n <= 20
    ensures WellSpaced(text + [c]) <==>
      WellSpaced(text) && if c == '.' then n != 0 else n < 20 && '0' <= c <= '9'
  {
    var more, end := text + [c], |text|;
    assert forall i :: end - n <= i < end ==> text[i] == text[end - n..][i - (end - n)];
    assert forall i :: 0 <= i < end ==> more[i] == text[i];
    assert more[end] == c;
    forall i: nat | i < end - 20
      ensures DotFrom(more, i) <==> DotFrom(text, i)
    {
      DotStaysFrom(text, c, i);
    }
    if end >= 20 {
      assert DotFrom(more, end - 20) <==> c == '.' || n < 20;
    }
    hide DotFrom;
  }

  lemma DotStaysFrom(text: string, c: char, i: nat)
    requires i < |text| - 20
    ensures DotFrom(text + [c], i) <==> DotFrom(text, i)
  {
    var more := text + [c];
    assert forall j :: 0 <= j < |text| ==> more[j] == text[j];
    if DotFrom(text, i) {
      var j :| i <= j <= i + 20 && j < |text| && text[j] == '.';
      assert more[j] == '.';
    }
  }

  lemma {:induction false} ArcsAreWellSpaced(text: string)
    ensures ArcsSoFar(Runs(text)) <==> WellSpaced(text)
  {
    if text != [] {
      var before, c := text[..|text| - 1], text[|text| - 1];
      assert text == before + [c];
      ArcsAreWellSpaced(before);
      LastRun(before);
      RunsAppend(before, c);
      ArcsSoFarStep(Runs(before), c);
      WellSpacedStep(before, c, |Last(Runs(before))|);
    }
  }

  /** An OID character by character; the bound on arcs is one on dots. */
  lemma OidInPlainTerms(text: string)
    ensures IsOid(text) <==>
      && 1 <= |text| <= 255 && |Dots(text)| <= 64
      && WellSpaced(text) && text[|text| - 1] != '.'
  {
    EmptyIsNoOid();
    OidSoFar(text);
    DotsCount(text);
    LastRun(text);
    ArcsAreWellSpaced(text);
    hide Runs, WellSpaced, Dots;
  }
}
