/** `RobustContentExtractor._clean_text`: collapse blank-line runs and space
    runs, keep the stripped lines longer than ten characters, join them with
    newlines, cap the result at 12000 characters plus a marker, strip. */
module TextCleaner {
  import opened Wrappers
  import opened PyText
  import Patterns

  /** Lines of this length or less are dropped as menu or navigation text */
  const ShortLine: nat := 10
  const CleanLimit: nat := 12000
  const CleanMarker: string := "... [truncado]"

  // ---------------------------------------------------------------------
  // re.sub(r'\n\s*\n', '\n\n', text)
  // ---------------------------------------------------------------------

  /** Index of the last '\n' in s[lo..hi], if any */
  function LastNewline(s: string, lo: nat, hi: nat): (r: Option<nat>)
    requires lo <= hi <= |s|
    ensures r.Some? ==> lo <= r.value < hi && s[r.value] == '\n'
                        && forall k :: r.value < k < hi ==> s[k] != '\n'
    ensures r.None? ==> forall k :: lo <= k < hi ==> s[k] != '\n'
    decreases hi
  {
    if hi <= lo then None
    else if s[hi - 1] == '\n' then Some(hi - 1)
    else LastNewline(s, lo, hi - 1)
  }

  /** The substitution applied to s[i..]. A match starts at a '\n' whose
      following whitespace run holds another '\n'; the greedy `\s*` then
      gives back characters down to the last such '\n', so the match ends
      just after it and is replaced by two newlines. */
  function CollapseBlankFrom(s: string, i: nat): (r: string)
    requires i <= |s|
    ensures |r| <= |s| - i
    decreases |s| - i
  {
    if i == |s| then []
    else if s[i] == '\n' then
      var j := Patterns.SpaceRun(s, i + 1);
      match LastNewline(s, i + 1, j)
      case Some(m) => "\n\n" + CollapseBlankFrom(s, m + 1)
      case None => [s[i]] + CollapseBlankFrom(s, i + 1)
    else [s[i]] + CollapseBlankFrom(s, i + 1)
  }

  function CollapseBlankLines(s: string): (r: string)
    ensures |r| <= |s|
  {
    CollapseBlankFrom(s, 0)
  }

  /** Every '\n' ends the string or is followed by a non-space: there is no
      blank line for the substitution to collapse. */
  predicate NoBlankLine(s: string) {
    forall k :: 0 <= k < |s| && s[k] == '\n' ==> k + 1 == |s| || !IsSpace(s[k + 1])
  }

  lemma {:induction false} CollapseBlankFromNoop(s: string, i: nat)
    requires i <= |s| && NoBlankLine(s)
    ensures CollapseBlankFrom(s, i) == s[i..]
    decreases |s| - i
  {
    if i < |s| {
      CollapseBlankFromNoop(s, i + 1);
      if s[i] == '\n' {
        assert Patterns.SpaceRun(s, i + 1) == i + 1;
      }
      assert s[i..] == [s[i]] + s[i + 1..];
    }
  }

  /** Text without blank lines passes the substitution unchanged */
  lemma CollapseBlankLinesNoop(s: string)
    requires NoBlankLine(s)
    ensures CollapseBlankLines(s) == s
  {
    CollapseBlankFromNoop(s, 0);
  }

  // ---------------------------------------------------------------------
  // re.sub(r' +', ' ', text)
  // ---------------------------------------------------------------------

  /** End of the run of ASCII spaces starting at i */
  function BlankRun(s: string, i: nat): (j: nat)
    requires i <= |s|
    ensures i <= j <= |s|
    ensures forall k :: i <= k < j ==> s[k] == ' '
    ensures j < |s| ==> s[j] != ' '
    decreases |s| - i
  {
    if i < |s| && s[i] == ' ' then BlankRun(s, i + 1) else i
  }

  /** Each run of spaces in s[i..] becomes a single space */
  function CollapseSpacesFrom(s: string, i: nat): (r: string)
    requires i <= |s|
    ensures |r| <= |s| - i
    ensures NoDoubleSpace(r)
    ensures r == [] <==> i == |s|
    ensures r != [] ==> (r[0] == ' ' <==> s[i] == ' ')
    ensures (forall k :: i <= k < |s| ==> s[k] != '\n') ==> (forall k :: 0 <= k < |r| ==> r[k] != '\n')
    decreases |s| - i
  {
    if i == |s| then []
    else if s[i] == ' ' then
      var j := BlankRun(s, i + 1);
      [' '] + CollapseSpacesFrom(s, j)
    else
      [s[i]] + CollapseSpacesFrom(s, i + 1)
  }

  function CollapseSpaces(s: string): (r: string)
    ensures |r| <= |s|
    ensures NoDoubleSpace(r)
  {
    CollapseSpacesFrom(s, 0)
  }

  lemma {:induction false} CollapseSpacesFromNoop(s: string, i: nat)
    requires i <= |s| && NoDoubleSpace(s)
    ensures CollapseSpacesFrom(s, i) == s[i..]
    decreases |s| - i
  {
    if i < |s| {
      CollapseSpacesFromNoop(s, i + 1);
      if s[i] == ' ' {
        assert BlankRun(s, i + 1) == i + 1;
      }
      assert s[i..] == [s[i]] + s[i + 1..];
    }
  }

  /** Text without two adjacent spaces passes the substitution unchanged */
  lemma CollapseSpacesNoop(s: string)
    requires NoDoubleSpace(s)
    ensures CollapseSpaces(s) == s
  {
    CollapseSpacesFromNoop(s, 0);
  }

  // ---------------------------------------------------------------------
  // The line filter, the join and the cap
  // ---------------------------------------------------------------------

  /** A line the cleaner keeps as it is */
  predicate IsKeptLine(l: string) {
    IsStripped(l) && |l| > ShortLine && NoLineBreak(l)
  }

  /** The loop over `splitlines()`: strip each line, keep those longer than
      ten characters, in order. */
  function CleanLines(ls: seq<string>): (r: seq<string>)
    requires forall l :: l in ls ==> NoLineBreak(l)
    ensures |r| <= |ls|
    ensures forall l :: l in r ==> IsKeptLine(l)
  {
    if ls == [] then []
    else
      var l := Strip(ls[0]);
      assert ls[0] in ls;
      StripKeepsNoLineBreak(ls[0]);
      var rest := CleanLines(ls[1..]);
      if |l| > ShortLine then [l] + rest else rest
  }

  /** Every kept line is the stripped form of an input line */
  lemma {:induction false} CleanLinesFromInput(ls: seq<string>)
    requires forall l :: l in ls ==> NoLineBreak(l)
    ensures forall l :: l in CleanLines(ls) ==> exists k :: 0 <= k < |ls| && l == Strip(ls[k])
  {
    if ls != [] {
      CleanLinesFromInput(ls[1..]);
      forall x | x in CleanLines(ls) ensures exists k :: 0 <= k < |ls| && x == Strip(ls[k]) {
        if x != Strip(ls[0]) {
          assert x in CleanLines(ls[1..]);
          var k :| 0 <= k < |ls[1..]| && x == Strip(ls[1..][k]);
          assert x == Strip(ls[k + 1]);
        }
      }
    }
  }

  /** One line is kept, stripped, exactly when its stripped form is longer
      than ten characters */
  lemma CleanLinesSingle(l: string)
    requires NoLineBreak(l)
    ensures CleanLines([l]) == if |Strip(l)| > ShortLine then [Strip(l)] else []
  {}

  /** Filtering a concatenation filters each part, in order: with
      `CleanLinesSingle` this fixes the result line by line */
  lemma {:induction false} CleanLinesAppend(a: seq<string>, b: seq<string>)
    requires forall l :: l in a ==> NoLineBreak(l)
    requires forall l :: l in b ==> NoLineBreak(l)
    ensures CleanLines(a + b) == CleanLines(a) + CleanLines(b)
  {
    if a == [] {
      assert a + b == b;
    } else {
      assert (a + b)[1..] == a[1..] + b;
      assert forall l :: l in a[1..] ==> l in a;
      CleanLinesAppend(a[1..], b);
    }
  }

  /** Every line whose stripped form is longer than ten characters is kept */
  lemma {:induction false} CleanLinesKeepsLong(ls: seq<string>, k: nat)
    requires forall l :: l in ls ==> NoLineBreak(l)
    requires k < |ls| && |Strip(ls[k])| > ShortLine
    ensures Strip(ls[k]) in CleanLines(ls)
  {
    if k > 0 {
      assert forall l :: l in ls[1..] ==> l in ls;
      assert ls[1..][k - 1] == ls[k];
      CleanLinesKeepsLong(ls[1..], k - 1);
    }
  }

  /** Input lines free of double spaces give kept lines free of them */
  lemma {:induction false} CleanLinesNoDoubleSpace(ls: seq<string>)
    requires forall l :: l in ls ==> NoLineBreak(l) && NoDoubleSpace(l)
    ensures forall l :: l in CleanLines(ls) ==> NoDoubleSpace(l)
  {
    if ls != [] {
      assert ls[0] in ls;
      StripKeepsNoDoubleSpace(ls[0]);
      CleanLinesNoDoubleSpace(ls[1..]);
    }
  }

  /** Lines that are already kept lines come through the filter unchanged */
  lemma {:induction false} CleanLinesNoop(ls: seq<string>)
    requires forall l :: l in ls ==> IsKeptLine(l)
    ensures forall l :: l in ls ==> NoLineBreak(l)
    ensures CleanLines(ls) == ls
  {
    if ls != [] {
      KeptHead(ls);
      KeptTail(ls);
      CleanLinesNoop(ls[1..]);
      assert [ls[0]] + ls[1..] == ls;
    }
  }

  lemma KeptTail(ls: seq<string>)
    requires ls != [] && forall l :: l in ls ==> IsKeptLine(l)
    ensures forall l :: l in ls[1..] ==> IsKeptLine(l)
  {
    forall l | l in ls[1..] ensures IsKeptLine(l) {
      assert l in ls;
    }
  }

  /** A kept line at the head is kept as it is */
  lemma KeptHead(ls: seq<string>)
    requires ls != [] && forall l :: l in ls ==> IsKeptLine(l)
    ensures forall l :: l in ls ==> NoLineBreak(l)
    ensures CleanLines(ls) == [ls[0]] + CleanLines(ls[1..])
  {
    assert ls[0] in ls;
    StripNoop(ls[0]);
  }

  /** `s[:limit] + marker` when s is longer than limit, else s */
  function Truncate(s: string, limit: nat, marker: string): (r: string)
    ensures |s| <= limit ==> r == s
    ensures |s| > limit ==> |r| == limit + |marker| && r[..limit] == s[..limit] && r[limit..] == marker
    ensures |r| <= limit + |marker| || r == s
  {
    if |s| > limit then s[..limit] + marker else s
  }

  /** The joined kept lines, before the cap */
  function JoinedLines(text: string): (j: string)
  {
    var lines := SplitLines(CollapseSpaces(CollapseBlankLines(text)));
    Join(CleanLines(lines), "\n")
  }

  /** `_clean_text(text)` */
  function CleanText(text: string): (r: string)
    ensures text == [] ==> r == []
    ensures |r| <= CleanLimit + |CleanMarker|
    ensures IsStripped(r)
  {
    if text == [] then []
    else
      var j := JoinedLines(text);
      var c := Truncate(j, CleanLimit, CleanMarker);
      assert |c| <= CleanLimit + |CleanMarker|;
      Strip(c)
  }

  // ---------------------------------------------------------------------
  // Joins of kept lines
  // ---------------------------------------------------------------------

  /** A join ends with its last part */
  lemma {:induction false} JoinEndsWithLast(parts: seq<string>, sep: string)
    requires parts != []
    ensures |Join(parts, sep)| >= |parts[|parts| - 1]|
    ensures Join(parts, sep)[|Join(parts, sep)| - |parts[|parts| - 1]|..] == parts[|parts| - 1]
  {
    if |parts| > 1 {
      JoinEndsWithLast(parts[1..], sep);
      var rest := Join(parts[1..], sep);
      assert Join(parts, sep) == (parts[0] + sep) + rest;
    }
  }

  /** Joining non-empty stripped lines gives a stripped, non-empty text */
  lemma JoinKeptIsStripped(ls: seq<string>)
    requires ls != []
    requires forall l :: l in ls ==> IsKeptLine(l)
    ensures Join(ls, "\n") != []
    ensures !IsSpace(Join(ls, "\n")[0])
    ensures IsStripped(Join(ls, "\n"))
  {
    assert ls[0] in ls;
    assert ls[|ls| - 1] in ls;
    JoinStartsWithFirst(ls, "\n");
    JoinEndsWithLast(ls, "\n");
    var j := Join(ls, "\n");
    var last := ls[|ls| - 1];
    assert j[0] == ls[0][0];
    assert j[|j| - 1] == last[|last| - 1] by {
      assert j[|j| - |last|..][|last| - 1] == j[|j| - 1];
    }
  }

  /** The newline-join of kept lines has no blank line and no double space */
  lemma {:induction false} JoinKeptIsClean(ls: seq<string>)
    requires forall l :: l in ls ==> IsKeptLine(l) && NoDoubleSpace(l)
    ensures NoBlankLine(Join(ls, "\n"))
    ensures NoDoubleSpace(Join(ls, "\n"))
  {
    if |ls| > 1 {
      var first := ls[0];
      assert first in ls;
      assert forall l :: l in ls[1..] ==> l in ls;
      JoinKeptIsClean(ls[1..]);
      var rest := Join(ls[1..], "\n");
      JoinKeptIsStripped(ls[1..]);
      var j := first + "\n" + rest;
      assert Join(ls, "\n") == j;
      forall k | 0 <= k < |j| && j[k] == '\n' ensures k + 1 == |j| || !IsSpace(j[k + 1]) {
        if k < |first| {
          assert j[k] == first[k];
          assert IsLineBreak(first[k]);
        } else if k > |first| {
          assert j[k] == rest[k - |first| - 1];
          if k + 1 < |j| {
            assert j[k + 1] == rest[k - |first|];
          }
        } else {
          assert j[k + 1] == rest[0];
        }
      }
      forall k | 0 <= k < |j| - 1 ensures !(j[k] == ' ' && j[k + 1] == ' ') {
        if k + 1 < |first| {
          assert j[k] == first[k] && j[k + 1] == first[k + 1];
        } else if k > |first| {
          assert j[k] == rest[k - |first| - 1] && j[k + 1] == rest[k - |first|];
        } else if k == |first| {
          assert j[k] == '\n';
        } else {
          assert j[k + 1] == '\n';
        }
      }
    } else if |ls| == 1 {
      assert ls[0] in ls;
      forall k | 0 <= k < |ls[0]| && ls[0][k] == '\n' ensures false {
        assert IsLineBreak(ls[0][k]);
      }
    }
  }

  // ---------------------------------------------------------------------
  // What the cleaner promises
  // ---------------------------------------------------------------------

  /** Under the cap the result is the joined kept lines: each line of it is
      stripped, longer than ten characters and free of double spaces. Over
      the cap it is the first 12000 characters followed by the marker. */
  lemma CleanTextLines(text: string)
    requires text != []
    ensures var j := JoinedLines(text);
            |j| <= CleanLimit ==> CleanText(text) == j
    ensures |JoinedLines(text)| > CleanLimit ==>
              CleanText(text) == JoinedLines(text)[..CleanLimit] + CleanMarker
              && |CleanText(text)| == CleanLimit + |CleanMarker|
    ensures |JoinedLines(text)| <= CleanLimit ==>
              forall l :: l in SplitLines(CleanText(text)) ==> IsKeptLine(l) && NoDoubleSpace(l)
  {
    var lines := SplitLines(CollapseSpaces(CollapseBlankLines(text)));
    var kept := CleanLines(lines);
    CleanLinesNoDoubleSpace(lines);
    var j := Join(kept, "\n");
    assert j == JoinedLines(text);
    if kept == [] {
      assert j == [];
      StripNoop(j);
    } else {
      JoinKeptIsStripped(kept);
      if |j| <= CleanLimit {
        StripNoop(j);
        forall l | l in kept ensures l != [] && NoLineBreak(l) {}
        SplitLinesJoin(kept);
      } else {
        var c := j[..CleanLimit] + CleanMarker;
        assert c[0] == j[0];
        assert c[|c| - 1] == ']';
        StripNoop(c);
      }
    }
  }

  /** Cleaning a result that was not capped changes nothing */
  lemma CleanTextIdempotent(text: string)
    requires |CleanText(text)| <= CleanLimit
    ensures CleanText(CleanText(text)) == CleanText(text)
  {
    if text != [] {
      CleanTextLines(text);
      var lines := SplitLines(CollapseSpaces(CollapseBlankLines(text)));
      var kept := CleanLines(lines);
      CleanLinesNoDoubleSpace(lines);
      var j := Join(kept, "\n");
      assert j == JoinedLines(text);
      assert |j| <= CleanLimit;
      assert CleanText(text) == j;
      if j != [] {
        assert kept != [];
        JoinKeptIsClean(kept);
        CollapseBlankLinesNoop(j);
        CollapseSpacesNoop(j);
        forall l | l in kept ensures l != [] && NoLineBreak(l) {}
        SplitLinesJoin(kept);
        CleanLinesNoop(kept);
        assert JoinedLines(j) == j;
        JoinKeptIsStripped(kept);
        StripNoop(j);
      }
    }
  }
}
