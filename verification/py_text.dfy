/** The parts of Python's `str` semantics that the modelled code relies on:
    `isspace`, `strip`, `split()`, `splitlines()`, `lower()`, the substring
    test `in`, `count`, `startswith`/`endswith` and `join`.

    Strings are sequences of Unicode scalar values, as Python's `str` is. The
    whitespace and line-break sets are Python's own (both are finite lists of
    code points); `lower()` is modelled for ASCII and the Latin-1 upper-case
    letters only. */
module PyText {

  // ---------------------------------------------------------------------
  // Character classes
  // ---------------------------------------------------------------------

  /** `c.isspace()` in Python 3: the ASCII controls TAB..CR and FS..US, space,
      NEL, NBSP, and the Unicode space separators and line/paragraph separators. */
  predicate IsSpace(c: char) {
    || ('\t' <= c <= '\r')
    || ('\U{1C}' <= c <= '\U{1F}')
    || c == ' '
    || c == '\U{85}'
    || c == '\U{A0}'
    || c == '\U{1680}'
    || ('\U{2000}' <= c <= '\U{200A}')
    || c == '\U{2028}'
    || c == '\U{2029}'
    || c == '\U{202F}'
    || c == '\U{205F}'
    || c == '\U{3000}'
  }

  /** The line boundaries of `str.splitlines()`: LF, VT, FF, CR, FS, GS, RS,
      NEL, LINE SEPARATOR and PARAGRAPH SEPARATOR (CR LF counts as one). */
  predicate IsLineBreak(c: char) {
    || ('\n' <= c <= '\r')
    || ('\U{1C}' <= c <= '\U{1E}')
    || c == '\U{85}'
    || c == '\U{2028}'
    || c == '\U{2029}'
  }

  lemma LineBreakIsSpace(c: char)
    ensures IsLineBreak(c) ==> IsSpace(c)
  {}

  /** ASCII decimal digit (the model's reading of the regex class `\d`) */
  predicate IsDigit(c: char) {
    '0' <= c <= '9'
  }

  /** Upper-case letters that `lower()` maps one position down by 32 code
      points: ASCII A-Z and Latin-1 U+00C0..U+00DE except the multiplication sign. */
  predicate IsUpperLatin(c: char) {
    ('A' <= c <= 'Z') || ('\U{C0}' <= c <= '\U{DE}' && c != '\U{D7}')
  }

  function LowerChar(c: char): (d: char)
    ensures IsUpperLatin(c) ==> d as int == c as int + 32
    ensures !IsUpperLatin(c) ==> d == c
    ensures !IsUpperLatin(d)
  {
    if IsUpperLatin(c) then (c as int + 32) as char else c
  }

  /** `s.lower()` restricted to the letters of `IsUpperLatin` */
  function Lower(s: string): (r: string)
    ensures |r| == |s|
    ensures forall i :: 0 <= i < |s| ==> r[i] == LowerChar(s[i])
  {
    seq(|s|, i requires 0 <= i < |s| => LowerChar(s[i]))
  }

  lemma LowerIdempotent(s: string)
    ensures Lower(Lower(s)) == Lower(s)
  {}

  // ---------------------------------------------------------------------
  // Predicates over whole strings
  // ---------------------------------------------------------------------

  predicate AllSpace(s: string) {
    forall i :: 0 <= i < |s| ==> IsSpace(s[i])
  }

  predicate NoLineBreak(s: string) {
    forall i :: 0 <= i < |s| ==> !IsLineBreak(s[i])
  }

  /** No two consecutive ASCII spaces */
  predicate NoDoubleSpace(s: string) {
    forall i :: 0 <= i < |s| - 1 ==> !(s[i] == ' ' && s[i + 1] == ' ')
  }

  /** Already stripped: empty, or neither end is whitespace */
  predicate IsStripped(s: string) {
    s == [] || (!IsSpace(s[0]) && !IsSpace(s[|s| - 1]))
  }

  lemma NoDoubleSpaceSlice(s: string, i: nat, j: nat)
    requires i <= j <= |s|
    requires NoDoubleSpace(s)
    ensures NoDoubleSpace(s[i..j])
  {
    var t := s[i..j];
    forall k | 0 <= k < |t| - 1
      ensures !(t[k] == ' ' && t[k + 1] == ' ')
    {
      assert t[k] == s[i + k] && t[k + 1] == s[i + k + 1];
    }
  }

  lemma NoLineBreakSlice(s: string, i: nat, j: nat)
    requires i <= j <= |s|
    requires NoLineBreak(s)
    ensures NoLineBreak(s[i..j])
  {
    var t := s[i..j];
    forall k | 0 <= k < |t|
      ensures !IsLineBreak(t[k])
    {
      assert t[k] == s[i + k];
    }
  }

  // ---------------------------------------------------------------------
  // strip()
  // ---------------------------------------------------------------------

  /** Number of leading whitespace characters */
  function LeadingSpaces(s: string): (n: nat)
    ensures n <= |s|
    ensures forall k :: 0 <= k < n ==> IsSpace(s[k])
    ensures n < |s| ==> !IsSpace(s[n])
  {
    if s == [] || !IsSpace(s[0]) then 0 else 1 + LeadingSpaces(s[1..])
  }

  /** Number of trailing whitespace characters */
  function TrailingSpaces(s: string): (n: nat)
    ensures n <= |s|
    ensures forall k :: |s| - n <= k < |s| ==> IsSpace(s[k])
    ensures n < |s| ==> !IsSpace(s[|s| - n - 1])
  {
    if s == [] || !IsSpace(s[|s| - 1]) then 0 else 1 + TrailingSpaces(s[..|s| - 1])
  }

  /** `s.strip()`: the slice of `s` left after removing whitespace at both
      ends. The result is the longest such slice: what was removed is all
      whitespace and what is left starts and ends with a non-space. */
  function Strip(s: string): (r: string)
    ensures |r| <= |s|
    ensures IsStripped(r)
    ensures LeadingSpaces(s) + |r| <= |s|
    ensures r == s[LeadingSpaces(s)..LeadingSpaces(s) + |r|]
    ensures AllSpace(s[..LeadingSpaces(s)]) && AllSpace(s[LeadingSpaces(s) + |r|..])
    ensures r == [] <==> AllSpace(s)
  {
    var a := LeadingSpaces(s);
    var t := s[a..];
    var b := TrailingSpaces(t);
    assert AllSpace(s[..a]);
    assert AllSpace(s[a + (|t| - b)..]) by {
      assert s[a + (|t| - b)..] == t[|t| - b..];
    }
    assert t[..|t| - b] == [] ==> AllSpace(s) by {
      if t[..|t| - b] == [] {
        assert a == |s|;
        assert s[..a] == s;
      }
    }
    t[..|t| - b]
  }

  /** Stripping an already stripped string changes nothing */
  lemma StripNoop(s: string)
    requires IsStripped(s)
    ensures Strip(s) == s
  {
    assert LeadingSpaces(s) == 0;
    if s != [] {
      assert TrailingSpaces(s) == 0;
    }
  }

  lemma StripIdempotent(s: string)
    ensures Strip(Strip(s)) == Strip(s)
  {
    StripNoop(Strip(s));
  }

  lemma StripKeepsNoLineBreak(s: string)
    requires NoLineBreak(s)
    ensures NoLineBreak(Strip(s))
  {
    NoLineBreakSlice(s, LeadingSpaces(s), LeadingSpaces(s) + |Strip(s)|);
  }

  lemma StripKeepsNoDoubleSpace(s: string)
    requires NoDoubleSpace(s)
    ensures NoDoubleSpace(Strip(s))
  {
    NoDoubleSpaceSlice(s, LeadingSpaces(s), LeadingSpaces(s) + |Strip(s)|);
  }

  // ---------------------------------------------------------------------
  // split() with no separator
  // ---------------------------------------------------------------------

  /** Length of the leading run of non-whitespace characters */
  function WordLength(s: string): (n: nat)
    ensures n <= |s|
    ensures forall k :: 0 <= k < n ==> !IsSpace(s[k])
    ensures n < |s| ==> IsSpace(s[n])
  {
    if s == [] || IsSpace(s[0]) then 0 else 1 + WordLength(s[1..])
  }

  /** `s.split()`: the maximal runs of non-whitespace characters, in order.
      Every word is non-empty and holds no whitespace. */
  function Words(s: string): (ws: seq<string>)
    ensures forall w :: w in ws ==> w != [] && !exists k :: 0 <= k < |w| && IsSpace(w[k])
    decreases |s|
  {
    var a := LeadingSpaces(s);
    if a == |s| then []
    else
      var t := s[a..];
      var n := WordLength(t);
      [t[..n]] + Words(t[n..])
  }

  /** Words are separated by whitespace, so a string of length L holds at
      most (L + 1) / 2 of them. */
  lemma {:induction false} WordCountBound(s: string)
    ensures 2 * |Words(s)| <= |s| + 1
    decreases |s|
  {
    var a := LeadingSpaces(s);
    if a < |s| {
      var t := s[a..];
      var n := WordLength(t);
      assert n > 0;
      if n < |t| {
        // the word is followed by at least one separator
        WordCountBoundAfterSpace(t[n..]);
      }
    }
  }

  /** A string that starts with whitespace has at most |s| / 2 words */
  lemma {:induction false} WordCountBoundAfterSpace(s: string)
    requires s != [] && IsSpace(s[0])
    ensures 2 * |Words(s)| <= |s|
    decreases |s|
  {
    assert Words(s) == Words(s[1..]) by {
      assert LeadingSpaces(s) == 1 + LeadingSpaces(s[1..]);
      assert s[LeadingSpaces(s)..] == s[1..][LeadingSpaces(s[1..])..];
    }
    WordCountBound(s[1..]);
  }

  // ---------------------------------------------------------------------
  // splitlines()
  // ---------------------------------------------------------------------

  /** Index of the first line boundary, or |s| when there is none */
  function LineEnd(s: string): (n: nat)
    ensures n <= |s|
    ensures forall k :: 0 <= k < n ==> !IsLineBreak(s[k])
    ensures n < |s| ==> IsLineBreak(s[n])
  {
    if s == [] || IsLineBreak(s[0]) then 0 else 1 + LineEnd(s[1..])
  }

  /** `s.splitlines()`: the pieces between line boundaries, with a final
      boundary not starting an extra empty line; CR LF is one boundary. */
  function SplitLines(s: string): (ls: seq<string>)
    ensures forall l :: l in ls ==> NoLineBreak(l)
    ensures NoDoubleSpace(s) ==> forall l :: l in ls ==> NoDoubleSpace(l)
    decreases |s|
  {
    if s == [] then []
    else
      var n := LineEnd(s);
      if n == |s| then [s]
      else
        var width := if s[n] == '\r' && n + 1 < |s| && s[n + 1] == '\n' then 2 else 1;
        assert NoDoubleSpace(s) ==> NoDoubleSpace(s[..n]) && NoDoubleSpace(s[n + width..]) by {
          if NoDoubleSpace(s) {
            NoDoubleSpaceSlice(s, 0, n);
            NoDoubleSpaceSlice(s, n + width, |s|);
          }
        }
        [s[..n]] + SplitLines(s[n + width..])
  }

  // ---------------------------------------------------------------------
  // join
  // ---------------------------------------------------------------------

  /** `sep.join(parts)` */
  function Join(parts: seq<string>, sep: string): (r: string)
    ensures parts == [] ==> r == []
    ensures |parts| == 1 ==> r == parts[0]
  {
    if parts == [] then []
    else if |parts| == 1 then parts[0]
    else parts[0] + sep + Join(parts[1..], sep)
  }

  /** Splitting the newline-join of non-empty, break-free lines gives the
      lines back: `splitlines` undoes `'\n'.join`. */
  lemma {:induction false} SplitLinesJoin(ls: seq<string>)
    requires forall l :: l in ls ==> l != [] && NoLineBreak(l)
    ensures SplitLines(Join(ls, "\n")) == ls
  {
    if |ls| > 1 {
      assert ls[0] in ls && ls[1] in ls;
      assert forall l :: l in ls[1..] ==> l in ls;
      var rest := Join(ls[1..], "\n");
      assert rest != [] by { JoinStartsWithFirst(ls[1..], "\n"); }
      SplitLinesStep(ls[0], rest);
      SplitLinesJoin(ls[1..]);
    } else if |ls| == 1 {
      assert ls[0] in ls;
      LineEndPrefix(ls[0], []);
      assert ls[0] + [] == ls[0];
    }
  }

  /** A line followed by "\n" and more text splits off as the first line */
  lemma SplitLinesStep(head: string, rest: string)
    requires NoLineBreak(head) && rest != []
    ensures SplitLines(head + "\n" + rest) == [head] + SplitLines(rest)
  {
    var s := head + "\n" + rest;
    assert LineEnd(s) == |head| by {
      assert s == head + ("\n" + rest);
      LineEndPrefix(head, "\n" + rest);
    }
    assert s[|head| + 1..] == rest;
    assert s[..|head|] == head;
  }


  lemma {:induction false} LineEndPrefix(a: string, b: string)
    requires NoLineBreak(a)
    requires b == [] || IsLineBreak(b[0])
    ensures LineEnd(a + b) == |a|
    decreases |a|
  {
    if a != [] {
      assert (a + b)[1..] == a[1..] + b;
      NoLineBreakSlice(a, 1, |a|);
      LineEndPrefix(a[1..], b);
    }
  }

  /** A join starts with its first part */
  lemma JoinStartsWithFirst(parts: seq<string>, sep: string)
    requires parts != []
    ensures |Join(parts, sep)| >= |parts[0]|
    ensures Join(parts, sep)[..|parts[0]|] == parts[0]
  {
    if |parts| > 1 {
      assert Join(parts, sep) == parts[0] + (sep + Join(parts[1..], sep));
    }
  }

  // ---------------------------------------------------------------------
  // Substrings
  // ---------------------------------------------------------------------

  /** `sub` occurs in `s` at index `i` */
  predicate OccursAt(s: string, sub: string, i: int) {
    0 <= i && i + |sub| <= |s| && s[i..i + |sub|] == sub
  }

  /** Python's `sub in s` */
  function Contains(s: string, sub: string): (b: bool)
    decreases |s|
  {
    if |sub| > |s| then false
    else if s[..|sub|] == sub then true
    else Contains(s[1..], sub)
  }

  /** `sub in s` holds exactly when `sub` occurs at some index of `s` */
  lemma {:induction false} ContainsIffOccurs(s: string, sub: string)
    ensures Contains(s, sub) <==> exists i :: OccursAt(s, sub, i)
    decreases |s|
  {
    if |sub| > |s| {
    } else if s[..|sub|] == sub {
      assert OccursAt(s, sub, 0);
    } else {
      ContainsIffOccurs(s[1..], sub);
      if Contains(s[1..], sub) {
        var i :| OccursAt(s[1..], sub, i);
        assert s[i + 1..i + 1 + |sub|] == s[1..][i..i + |sub|];
        assert OccursAt(s, sub, i + 1);
      }
      if exists i :: OccursAt(s, sub, i) {
        var i :| OccursAt(s, sub, i);
        assert i != 0;
        assert s[1..][i - 1..i - 1 + |sub|] == s[i..i + |sub|];
        assert OccursAt(s[1..], sub, i - 1);
      }
    }
  }

  /** `any(sub in s for sub in subs)` */
  predicate ContainsAny(s: string, subs: seq<string>) {
    exists k :: 0 <= k < |subs| && Contains(s, subs[k])
  }

  /** `s.startswith(p)` */
  predicate StartsWith(s: string, p: string) {
    |p| <= |s| && s[..|p|] == p
  }

  /** `s.endswith(p)` */
  predicate EndsWith(s: string, p: string) {
    |p| <= |s| && s[|s| - |p|..] == p
  }

  lemma EndsWithContains(s: string, p: string)
    requires EndsWith(s, p)
    ensures Contains(s, p)
  {
    assert OccursAt(s, p, |s| - |p|);
    ContainsIffOccurs(s, p);
  }

  /** `s.count(sub)`: non-overlapping occurrences scanned left to right;
      Python counts len(s) + 1 empty occurrences of the empty string. */
  function Count(s: string, sub: string): (n: nat)
    ensures sub != [] ==> n * |sub| <= |s|
    decreases |s|
  {
    if sub == [] then |s| + 1
    else if |sub| > |s| then 0
    else if s[..|sub|] == sub then 1 + Count(s[|sub|..], sub)
    else Count(s[1..], sub)
  }

  /** There is some occurrence to count exactly when `sub in s` */
  lemma {:induction false} CountPositiveIffContains(s: string, sub: string)
    requires sub != []
    ensures Count(s, sub) > 0 <==> Contains(s, sub)
    decreases |s|
  {
    if |sub| <= |s| && s[..|sub|] != sub {
      CountPositiveIffContains(s[1..], sub);
    }
  }
}
