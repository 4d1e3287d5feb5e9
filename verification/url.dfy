/** The network-location part of `urllib.parse.urlparse(url).netloc`, the
    only part of a parsed URL the quality rubric reads. Parsing can raise
    `ValueError("Invalid IPv6 URL")`, which is kept as a Failure. */
module Url {
  import opened Wrappers
  import opened PyText

  const InvalidIPv6: string := "Invalid IPv6 URL"

  /** The WHATWG "C0 control or space" set that urlsplit strips on the left */
  predicate IsC0OrSpace(c: char) {
    c <= ' '
  }

  /** Characters that urlsplit deletes wherever they occur */
  predicate IsUnsafe(c: char) {
    c == '\t' || c == '\r' || c == '\n'
  }

  /** Characters allowed in a scheme */
  predicate IsSchemeChar(c: char) {
    ('a' <= c <= 'z') || ('A' <= c <= 'Z') || IsDigit(c) || c == '+' || c == '-' || c == '.'
  }

  /** Characters that end the network location */
  predicate IsNetlocDelimiter(c: char) {
    c == '/' || c == '?' || c == '#'
  }

  function LStripC0(s: string): (r: string)
    ensures r == [] || !IsC0OrSpace(r[0])
    ensures |r| <= |s| && r == s[|s| - |r|..]
  {
    if s != [] && IsC0OrSpace(s[0]) then LStripC0(s[1..]) else s
  }

  function RemoveUnsafe(s: string): (r: string)
    ensures forall k :: 0 <= k < |r| ==> !IsUnsafe(r[k])
    ensures (forall k :: 0 <= k < |s| ==> !IsUnsafe(s[k])) ==> r == s
  {
    if s == [] then []
    else (if IsUnsafe(s[0]) then [] else [s[0]]) + RemoveUnsafe(s[1..])
  }

  /** Index of the first occurrence of c, as `str.find` */
  function Find(s: string, c: char): (r: Option<nat>)
    ensures r.Some? ==> r.value < |s| && s[r.value] == c && forall k :: 0 <= k < r.value ==> s[k] != c
    ensures r.None? ==> forall k :: 0 <= k < |s| ==> s[k] != c
  {
    if s == [] then None
    else if s[0] == c then Some(0)
    else match Find(s[1..], c)
      case None => None
      case Some(i) => Some(i + 1)
  }

  /** Index of the first netloc delimiter, or |s| */
  function DelimiterIndex(s: string): (n: nat)
    ensures n <= |s|
    ensures forall k :: 0 <= k < n ==> !IsNetlocDelimiter(s[k])
    ensures n < |s| ==> IsNetlocDelimiter(s[n])
  {
    if s == [] || IsNetlocDelimiter(s[0]) then 0 else 1 + DelimiterIndex(s[1..])
  }

  /** What is left of the (sanitised) URL once a valid scheme and its colon
      are removed: the scheme is taken only when the text before the first
      colon is non-empty, starts with an ASCII letter and holds only scheme
      characters. */
  function AfterScheme(s: string): string {
    match Find(s, ':')
    case None => s
    case Some(i) =>
      if i > 0 && (('a' <= s[0] <= 'z') || ('A' <= s[0] <= 'Z'))
         && forall k :: 0 <= k < i ==> IsSchemeChar(s[k])
      then s[i + 1..]
      else s
  }

  /** Brackets that urlsplit rejects: one of '[' and ']' without the other */
  predicate UnbalancedBrackets(n: string) {
    Contains(n, "[") != Contains(n, "]")
  }

  /** The sanitising urlsplit does first: strip C0 controls and spaces on
      the left, then delete every TAB, CR and LF. */
  function Sanitise(url: string): string {
    RemoveUnsafe(LStripC0(url))
  }

  /** The network location of a scheme-less remainder: what lies between a
      leading "//" and the next '/', '?' or '#', or empty without "//". */
  function NetlocOf(s: string): (n: string)
    ensures forall k :: 0 <= k < |n| ==> !IsNetlocDelimiter(n[k])
    ensures |n| <= |s|
  {
    if StartsWith(s, "//") then
      var rest := s[2..];
      rest[..DelimiterIndex(rest)]
    else []
  }

  /** The text that urlsplit takes as the network location */
  function RawNetloc(url: string): (n: string)
    ensures forall k :: 0 <= k < |n| ==> !IsNetlocDelimiter(n[k])
  {
    NetlocOf(AfterScheme(Sanitise(url)))
  }

  /** `urlparse(url).netloc`, raising on an unmatched bracket */
  function Netloc(url: string): (r: Result<string, string>)
    ensures r.Failure? <==> UnbalancedBrackets(RawNetloc(url))
    ensures r.Failure? ==> r.error == InvalidIPv6
    ensures r.Success? ==> r.value == RawNetloc(url)
  {
    var n := RawNetloc(url);
    if UnbalancedBrackets(n) then Failure(InvalidIPv6) else Success(n)
  }

  lemma AfterSchemeIsSuffix(s: string)
    ensures |AfterScheme(s)| <= |s|
    ensures AfterScheme(s) == s[|s| - |AfterScheme(s)|..]
  {}

  /** For an http(s) URL written plainly, the netloc is the host part
      between "//" and the first delimiter. */
  lemma RawNetlocOfWebUrl(scheme: string, host: string, path: string)
    requires scheme == "http" || scheme == "https"
    requires forall k :: 0 <= k < |host| ==> !IsNetlocDelimiter(host[k]) && !IsUnsafe(host[k])
    requires path == [] || IsNetlocDelimiter(path[0])
    requires forall k :: 0 <= k < |path| ==> !IsUnsafe(path[k])
    ensures RawNetloc(scheme + "://" + host + path) == host
  {
    var url := scheme + "://" + host + path;
    var tail := "//" + host + path;
    assert Sanitise(url) == url by { SanitiseWebUrl(scheme, host, path); }
    assert AfterScheme(url) == tail by {
      assert url == scheme + ":" + tail;
      SchemeOfWebUrl(scheme, tail);
    }
    assert NetlocOf(tail) == host by { NetlocAfterSlashes(host, path); }
  }

  lemma SanitiseWebUrl(scheme: string, host: string, path: string)
    requires scheme == "http" || scheme == "https"
    requires forall k :: 0 <= k < |host| ==> !IsUnsafe(host[k])
    requires forall k :: 0 <= k < |path| ==> !IsUnsafe(path[k])
    ensures Sanitise(scheme + "://" + host + path) == scheme + "://" + host + path
  {
    var url := scheme + "://" + host + path;
    assert LStripC0(url) == url;
    forall k | 0 <= k < |url| ensures !IsUnsafe(url[k]) {
      if k >= |scheme| + 3 + |host| {
        assert url[k] == path[k - |scheme| - 3 - |host|];
      } else if k >= |scheme| + 3 {
        assert url[k] == host[k - |scheme| - 3];
      }
    }
  }

  lemma SchemeOfWebUrl(scheme: string, tail: string)
    requires scheme == "http" || scheme == "https"
    ensures AfterScheme(scheme + ":" + tail) == tail
  {
    var url := scheme + ":" + tail;
    FindAfterPrefix(scheme, ":" + tail, ':');
    assert url == scheme + (":" + tail);
    assert forall k :: 0 <= k < |scheme| ==> url[k] == scheme[k];
    assert url[|scheme| + 1..] == tail;
  }

  lemma NetlocAfterSlashes(host: string, path: string)
    requires forall k :: 0 <= k < |host| ==> !IsNetlocDelimiter(host[k])
    requires path == [] || IsNetlocDelimiter(path[0])
    ensures NetlocOf("//" + host + path) == host
  {
    var tail := "//" + host + path;
    assert tail[2..] == host + path;
    DelimiterIndexPrefix(host, path);
    assert (host + path)[..|host|] == host;
  }

  lemma {:induction false} FindAfterPrefix(a: string, b: string, c: char)
    requires forall k :: 0 <= k < |a| ==> a[k] != c
    requires b != [] && b[0] == c
    ensures Find(a + b, c) == Some(|a|)
    decreases |a|
  {
    if a != [] {
      assert (a + b)[1..] == a[1..] + b;
      FindAfterPrefix(a[1..], b, c);
    }
  }

  lemma NetlocOfWebUrl(scheme: string, host: string, path: string)
    requires scheme == "http" || scheme == "https"
    requires forall k :: 0 <= k < |host| ==> !IsNetlocDelimiter(host[k]) && !IsUnsafe(host[k])
    requires Contains(host, "[") == Contains(host, "]")
    requires path == [] || IsNetlocDelimiter(path[0])
    requires forall k :: 0 <= k < |path| ==> !IsUnsafe(path[k])
    ensures Netloc(scheme + "://" + host + path) == Success(host)
  {
    RawNetlocOfWebUrl(scheme, host, path);
  }

  /** A host with an opening bracket and no closing one makes parsing raise */
  lemma NetlocRaisesOnOpenBracket(scheme: string, host: string, path: string)
    requires scheme == "http" || scheme == "https"
    requires forall k :: 0 <= k < |host| ==> !IsNetlocDelimiter(host[k]) && !IsUnsafe(host[k])
    requires Contains(host, "[") && !Contains(host, "]")
    requires path == [] || IsNetlocDelimiter(path[0])
    requires forall k :: 0 <= k < |path| ==> !IsUnsafe(path[k])
    ensures Netloc(scheme + "://" + host + path) == Failure(InvalidIPv6)
  {
    RawNetlocOfWebUrl(scheme, host, path);
  }

  lemma {:induction false} DelimiterIndexPrefix(a: string, b: string)
    requires forall k :: 0 <= k < |a| ==> !IsNetlocDelimiter(a[k])
    requires b == [] || IsNetlocDelimiter(b[0])
    ensures DelimiterIndex(a + b) == |a|
    decreases |a|
  {
    if a != [] {
      assert (a + b)[1..] == a[1..] + b;
      DelimiterIndexPrefix(a[1..], b);
    }
  }
}
