/** The regular expressions of the modelled code, each as a matcher at one
    position, and Python's `re.findall` as a left-to-right scan that takes a
    match where one starts and otherwise moves one character on.

    `\d` is read as an ASCII digit and `\s` as Python's whitespace; `\w` is
    exact on Latin-1 (letters, digits, the numeric signs, underscore) and
    stops there. Case-insensitive matching compares `LowerChar` images.
    None of the patterns matches the empty string, so every match found
    advances the scan. */
module Patterns {
  import opened PyText

  datatype Pattern =
    | Percent      // \d+%
    | Currency     // R\$\s*[\d,\.]+                        (IGNORECASE)
    | Magnitude    // \d+\s*(mil|milhão|bilhão)             (IGNORECASE)
    | RecentYear   // 20(2[3-9]|[3-9]\d)
    | Quantity     // \d+\s*(empresas|clientes|usuários)    (IGNORECASE)
    | Number       // \d+(?:\.\d+)?%?
    | LongWord     // \b\w{4,}\b

  /** The regex class `\w` on Latin-1: `str.isalnum()` or underscore */
  predicate IsWordChar(c: char) {
    || ('a' <= c <= 'z') || ('A' <= c <= 'Z') || IsDigit(c) || c == '_'
    || c == '\U{AA}' || c == '\U{B2}' || c == '\U{B3}' || c == '\U{B5}'
    || c == '\U{B9}' || c == '\U{BA}' || ('\U{BC}' <= c <= '\U{BE}')
    || ('\U{C0}' <= c <= '\U{FF}' && c != '\U{D7}' && c != '\U{F7}')
  }

  /** The class `[\d,\.]` */
  predicate IsAmountChar(c: char) {
    IsDigit(c) || c == ',' || c == '.'
  }

  /** End of the run of digits starting at i */
  function DigitRun(s: string, i: nat): (j: nat)
    requires i <= |s|
    ensures i <= j <= |s|
    ensures forall k :: i <= k < j ==> IsDigit(s[k])
    ensures j < |s| ==> !IsDigit(s[j])
    decreases |s| - i
  {
    if i < |s| && IsDigit(s[i]) then DigitRun(s, i + 1) else i
  }

  /** End of the run of whitespace starting at i (greedy `\s*`) */
  function SpaceRun(s: string, i: nat): (j: nat)
    requires i <= |s|
    ensures i <= j <= |s|
    ensures forall k :: i <= k < j ==> IsSpace(s[k])
    ensures j < |s| ==> !IsSpace(s[j])
    decreases |s| - i
  {
    if i < |s| && IsSpace(s[i]) then SpaceRun(s, i + 1) else i
  }

  /** End of the run of `[\d,\.]` starting at i */
  function AmountRun(s: string, i: nat): (j: nat)
    requires i <= |s|
    ensures i <= j <= |s|
    ensures forall k :: i <= k < j ==> IsAmountChar(s[k])
    ensures j < |s| ==> !IsAmountChar(s[j])
    decreases |s| - i
  {
    if i < |s| && IsAmountChar(s[i]) then AmountRun(s, i + 1) else i
  }

  /** End of the run of `\w` starting at i */
  function WordRun(s: string, i: nat): (j: nat)
    requires i <= |s|
    ensures i <= j <= |s|
    ensures forall k :: i <= k < j ==> IsWordChar(s[k])
    ensures j < |s| ==> !IsWordChar(s[j])
    decreases |s| - i
  {
    if i < |s| && IsWordChar(s[i]) then WordRun(s, i + 1) else i
  }

  /** `w` matches at i ignoring case */
  predicate CaselessAt(s: string, i: nat, w: string) {
    i + |w| <= |s| && forall k :: 0 <= k < |w| ==> LowerChar(s[i + k]) == LowerChar(w[k])
  }

  /** Length of the first alternative of `alts` that matches at i, or 0 */
  function FirstAlternative(s: string, i: nat, alts: seq<string>): (n: nat)
    requires i <= |s|
    ensures i + n <= |s|
    ensures n > 0 ==> exists k :: 0 <= k < |alts| && CaselessAt(s, i, alts[k]) && n == |alts[k]|
  {
    if alts == [] then 0
    else if alts[0] != [] && CaselessAt(s, i, alts[0]) then |alts[0]|
    else
      var n := FirstAlternative(s, i, alts[1..]);
      assert n > 0 ==> exists k :: 0 <= k < |alts| && CaselessAt(s, i, alts[k]) && n == |alts[k]| by {
        if n > 0 {
          var k :| 0 <= k < |alts[1..]| && CaselessAt(s, i, alts[1..][k]) && n == |alts[1..][k]|;
          assert alts[k + 1] == alts[1..][k];
        }
      }
      n
  }

  /** `\d+\s*(alts)`: a digit run, optional whitespace, then an alternative */
  function CountedWord(s: string, i: nat, alts: seq<string>): (n: nat)
    requires i <= |s|
    ensures i + n <= |s|
    ensures n > 0 ==> IsDigit(s[i])
  {
    if i < |s| && IsDigit(s[i]) then
      var j := SpaceRun(s, DigitRun(s, i));
      var w := FirstAlternative(s, j, alts);
      if w > 0 then j + w - i else 0
    else 0
  }

  /** Length of the match of `p` starting at index i of s, or 0 when there
      is none. Greedy quantifiers never need to give characters back here:
      a shorter digit, space or word run is always followed by a character
      of the same run, which the rest of the pattern cannot start with. */
  function MatchLength(p: Pattern, s: string, i: nat): (n: nat)
    requires i <= |s|
    ensures i + n <= |s|
    ensures p == Number ==> (n > 0 <==> i < |s| && IsDigit(s[i]))
    ensures p == LongWord && n > 0 ==> n >= 4 && forall k :: i <= k < i + n ==> IsWordChar(s[k])
  {
    match p
    case Percent =>
      if i < |s| && IsDigit(s[i]) then
        var j := DigitRun(s, i);
        if j < |s| && s[j] == '%' then j + 1 - i else 0
      else 0
    case Currency =>
      if i + 1 < |s| && LowerChar(s[i]) == 'r' && s[i + 1] == '$' then
        var j := SpaceRun(s, i + 2);
        var k := AmountRun(s, j);
        if k > j then k - i else 0
      else 0
    case Magnitude =>
      CountedWord(s, i, ["mil", "milhão", "bilhão"])
    case RecentYear =>
      if i + 4 <= |s| && s[i] == '2' && s[i + 1] == '0'
         && ((s[i + 2] == '2' && '3' <= s[i + 3] <= '9')
             || ('3' <= s[i + 2] <= '9' && IsDigit(s[i + 3])))
      then 4 else 0
    case Quantity =>
      CountedWord(s, i, ["empresas", "clientes", "usuários"])
    case Number =>
      if i < |s| && IsDigit(s[i]) then
        var j := DigitRun(s, i);
        var k := if j + 1 < |s| && s[j] == '.' && IsDigit(s[j + 1]) then DigitRun(s, j + 1) else j;
        var m := if k < |s| && s[k] == '%' then k + 1 else k;
        m - i
      else 0
    case LongWord =>
      if i < |s| && IsWordChar(s[i]) && (i == 0 || !IsWordChar(s[i - 1])) then
        var j := WordRun(s, i);
        if j - i >= 4 then j - i else 0
      else 0
  }

  /** `re.findall(p, s[i..])` with lookbehind into s: the matched substrings,
      left to right, none overlapping. */
  function FindAllFrom(p: Pattern, s: string, i: nat): (ms: seq<string>)
    requires i <= |s|
    ensures |ms| <= |s| - i
    ensures forall m :: m in ms ==> m != []
    ensures p == LongWord ==> forall m :: m in ms ==> |m| >= 4 && forall k :: 0 <= k < |m| ==> IsWordChar(m[k])
    decreases |s| - i
  {
    if i == |s| then []
    else
      var n := MatchLength(p, s, i);
      if n > 0 then
        var m := s[i..i + n];
        assert p == LongWord ==> forall k :: 0 <= k < |m| ==> IsWordChar(m[k]) by {
          if p == LongWord {
            forall k | 0 <= k < |m| ensures IsWordChar(m[k]) { assert m[k] == s[i + k]; }
          }
        }
        [m] + FindAllFrom(p, s, i + n)
      else FindAllFrom(p, s, i + 1)
  }

  function FindAll(p: Pattern, s: string): (ms: seq<string>)
    ensures |ms| <= |s|
  {
    FindAllFrom(p, s, 0)
  }

  /** `len(re.findall(p, s))` */
  function CountMatches(p: Pattern, s: string): (n: nat)
    ensures n <= |s|
  {
    |FindAll(p, s)|
  }

  /** Decimal value of four ASCII digits */
  function FourDigitValue(t: string): int
    requires |t| == 4
  {
    var d := (c: char) => c as int - '0' as int;
    1000 * d(t[0]) + 100 * d(t[1]) + 10 * d(t[2]) + d(t[3])
  }

  /** The year pattern matches exactly the four-digit numbers 2023..2099 */
  lemma RecentYearMeaning(s: string, i: nat)
    requires i <= |s|
    ensures MatchLength(RecentYear, s, i) > 0 <==>
              i + 4 <= |s|
              && (forall k :: i <= k < i + 4 ==> IsDigit(s[k]))
              && 2023 <= FourDigitValue(s[i..i + 4]) <= 2099
  {
    if i + 4 <= |s| && (forall k :: i <= k < i + 4 ==> IsDigit(s[k])) {
      var t := s[i..i + 4];
      assert t[0] == s[i] && t[1] == s[i + 1] && t[2] == s[i + 2] && t[3] == s[i + 3];
      assert IsDigit(s[i]) && IsDigit(s[i + 1]) && IsDigit(s[i + 2]) && IsDigit(s[i + 3]);
    }
  }
}
