/**
 * `URL_WITH_PORT_REGEX.search(line)` (python/launch_server.py), written out as
 * a matcher: `https?://(?:\[[^\]]+\]|[^/\s:]+):\d+`, leftmost match first,
 * with the regular-expression engine's preference for the bracketed host.
 */
module UrlPattern {
  import opened Base

  /** A character of the unbracketed host class `[^/\s:]`. */
  predicate HostChar(c: char) {
    c != '/' && c != ':' && !IsSpace(c)
  }

  /** `s` has `p` at index `i`. */
  predicate HasAt(s: string, i: nat, p: string) {
    i + |p| <= |s| && s[i..i + |p|] == p
  }

  // ---------------------------------------------------------------------------
  // The pattern, declaratively
  // ---------------------------------------------------------------------------

  /** A host the pattern accepts: a bracketed literal, or a run of host characters. */
  ghost predicate ValidHost(h: string) {
    BracketedHost(h) || PlainHost(h)
  }

  /** `[` + one or more characters other than `]` + `]`, as IPv6 literals are written. */
  ghost predicate BracketedHost(h: string) {
    |h| >= 3 && h[0] == '[' && h[|h| - 1] == ']' && forall m :: 1 <= m < |h| - 1 ==> h[m] != ']'
  }

  /** One or more characters that are not '/', ':' or whitespace. */
  ghost predicate PlainHost(h: string) {
    |h| >= 1 && forall m :: 0 <= m < |h| ==> HostChar(h[m])
  }

  /** `host:port` with a non-empty decimal port. */
  ghost predicate HostPort(t: string) {
    exists c :: 0 <= c < |t| - 1 && t[c] == ':' && ValidHost(t[..c]) && AllDigits(t[c + 1..])
  }

  /** The strings the pattern matches as a whole. */
  ghost predicate IsUrl(u: string) {
    || (HasAt(u, 0, "http://") && HostPort(u[7..]))
    || (HasAt(u, 0, "https://") && HostPort(u[8..]))
  }

  // ---------------------------------------------------------------------------
  // The matcher
  // ---------------------------------------------------------------------------

  /** End of the run of host characters from `k`. */
  function HostRunEnd(s: string, k: nat): (e: nat)
    requires k <= |s|
    ensures k <= e <= |s|
    ensures forall m :: k <= m < e ==> HostChar(s[m])
    ensures e == |s| || !HostChar(s[e])
    decreases |s| - k
  {
    if k < |s| && HostChar(s[k]) then HostRunEnd(s, k + 1) else k
  }

  /** End of the run of characters other than ']' from `k`. */
  function BracketBodyEnd(s: string, k: nat): (e: nat)
    requires k <= |s|
    ensures k <= e <= |s|
    ensures forall m :: k <= m < e ==> s[m] != ']'
    ensures e == |s| || s[e] == ']'
    decreases |s| - k
  {
    if k < |s| && s[k] != ']' then BracketBodyEnd(s, k + 1) else k
  }

  /** End of the run of digits from `k`. */
  function DigitRunEnd(s: string, k: nat): (e: nat)
    requires k <= |s|
    ensures k <= e <= |s|
    ensures forall m :: k <= m < e ==> IsDigit(s[m])
    ensures e == |s| || !IsDigit(s[e])
    decreases |s| - k
  {
    if k < |s| && IsDigit(s[k]) then DigitRunEnd(s, k + 1) else k
  }

  /** `https?://` at `i`: the index after it. */
  function SchemeEnd(s: string, i: nat): Option<nat> {
    if HasAt(s, i, "https://") then Some(i + 8)
    else if HasAt(s, i, "http://") then Some(i + 7)
    else None
  }

  /** `\[[^\]]+\]` at `k`: the index after the closing bracket. */
  function BracketHostEnd(s: string, k: nat): Option<nat>
    requires k <= |s|
  {
    if k < |s| && s[k] == '[' then
      var e := BracketBodyEnd(s, k + 1);
      if e > k + 1 && e < |s| then Some(e + 1) else None
    else None
  }

  /** `:\d+` at `k`, digits taken greedily: the index after the last digit. */
  function PortEnd(s: string, k: nat): Option<nat>
    requires k <= |s|
  {
    if k < |s| && s[k] == ':' then
      var e := DigitRunEnd(s, k + 1);
      if e > k + 1 then Some(e) else None
    else None
  }

  /** The bracketed alternative `\[[^\]]+\]:\d+` at `a`. */
  function BracketAlt(s: string, a: nat): Option<nat>
    requires a <= |s|
  {
    match BracketHostEnd(s, a)
    case Some(b) => PortEnd(s, b)
    case None => None
  }

  /** The plain alternative `[^/\s:]+:\d+` at `a`; the greedy host run cannot give back a ':'. */
  function PlainAlt(s: string, a: nat): Option<nat>
    requires a <= |s|
  {
    var h := HostRunEnd(s, a);
    if h > a then PortEnd(s, h) else None
  }

  /**
   * The end of the match starting at `i`, if any: the bracketed host is tried
   * first and the plain host when that alternative fails.
   */
  function MatchAt(s: string, i: nat): (r: Option<nat>)
    requires i <= |s|
    ensures r.Some? ==> i < r.value <= |s| && IsUrl(s[i..r.value])
    ensures r.Some? ==> r.value == |s| || !IsDigit(s[r.value])
  {
    match SchemeEnd(s, i)
    case None => None
    case Some(a) =>
      if BracketAlt(s, a).Some? then
        BracketMatchIsUrl(s, i, a);
        BracketAlt(s, a)
      else if PlainAlt(s, a).Some? then
        PlainMatchIsUrl(s, i, a);
        PlainAlt(s, a)
      else None
  }

  /** Shared step: `s[i..e]` is a URL when `s[a..e]` is `host:port` after the scheme ending at `a`. */
  lemma UrlFromParts(s: string, i: nat, a: nat, c: nat, e: nat)
    requires SchemeEnd(s, i) == Some(a)
    requires a < c < e <= |s| && s[c] == ':' && c + 1 < e
    requires ValidHost(s[a..c]) && AllDigits(s[c + 1..e])
    ensures IsUrl(s[i..e])
  {
    var t := s[a..e];
    assert t[c - a] == s[c] == ':';
    assert t[..c - a] == s[a..c];
    assert t[c - a + 1..] == s[c + 1..e];
    assert HostPort(t);
    var u := s[i..e];
    assert u[a - i..] == t;
    if a == i + 8 {
      assert HasAt(u, 0, "https://") by { assert u[..8] == s[i..i + 8]; }
    } else {
      assert HasAt(u, 0, "http://") by { assert u[..7] == s[i..i + 7]; }
    }
  }

  lemma BracketMatchIsUrl(s: string, i: nat, a: nat)
    requires i <= |s| && SchemeEnd(s, i) == Some(a)
    requires a <= |s| && BracketAlt(s, a).Some?
    ensures var e := BracketAlt(s, a).value;
      e <= |s| && IsUrl(s[i..e]) && (e == |s| || !IsDigit(s[e]))
  {
    var b := BracketHostEnd(s, a).value;
    var e := PortEnd(s, b).value;
    var h := s[a..b];
    assert h[0] == '[' && h[|h| - 1] == ']';
    assert forall m :: 1 <= m < |h| - 1 ==> h[m] == s[a + m];
    assert ValidHost(h);
    UrlFromParts(s, i, a, b, e);
  }

  lemma PlainMatchIsUrl(s: string, i: nat, a: nat)
    requires i <= |s| && SchemeEnd(s, i) == Some(a)
    requires a <= |s| && PlainAlt(s, a).Some?
    ensures var e := PlainAlt(s, a).value;
      e <= |s| && IsUrl(s[i..e]) && (e == |s| || !IsDigit(s[e]))
  {
    var c := HostRunEnd(s, a);
    var e := PortEnd(s, c).value;
    var h := s[a..c];
    assert forall m :: 0 <= m < |h| ==> h[m] == s[a + m];
    assert ValidHost(h);
    UrlFromParts(s, i, a, c, e);
  }

  /** A URL's scheme is the one `SchemeEnd` recognises, and the rest is `host:port`. */
  lemma UrlScheme(s: string, i: nat, j: nat) returns (a: nat)
    requires i <= j <= |s| && IsUrl(s[i..j])
    ensures i < a <= j && SchemeEnd(s, i) == Some(a) && HostPort(s[a..j])
  {
    var u := s[i..j];
    if HasAt(u, 0, "https://") {
      assert s[i..i + 8] == u[..8];
      assert u[4] == u[..8][4] == 's';
      a := i + 8;
      assert u[8..] == s[a..j];
    } else {
      assert s[i..i + 7] == u[..7];
      assert s[i + 4] == u[..7][4] == ':';
      HasAtChar(s, i, "https://", 4);
      a := i + 7;
      assert u[7..] == s[a..j];
    }
  }

  /** A bracketed host followed by ':' and a digit is taken by the bracketed alternative. */
  lemma BracketHostFound(s: string, a: nat, c: nat)
    requires a < c < |s| - 1 && s[c] == ':' && IsDigit(s[c + 1])
    requires BracketedHost(s[a..c])
    ensures BracketAlt(s, a) == Some(DigitRunEnd(s, c + 1))
  {
    var h := s[a..c];
    var e := BracketBodyEnd(s, a + 1);
    assert s[c - 1] == h[|h| - 1];
    assert BracketHostEnd(s, a) == Some(c);
  }

  /** A run of host characters followed by ':' and a digit is taken by the plain alternative. */
  lemma PlainHostFound(s: string, a: nat, c: nat)
    requires a < c < |s| - 1 && s[c] == ':' && IsDigit(s[c + 1])
    requires PlainHost(s[a..c])
    ensures PlainAlt(s, a) == Some(DigitRunEnd(s, c + 1))
  {
    var h := s[a..c];
    assert HostRunEnd(s, a) == c;
  }

  /** A valid host followed by ':' and a digit is taken by one of the two alternatives. */
  lemma HostFound(s: string, a: nat, c: nat)
    requires a < c < |s| - 1 && s[c] == ':' && IsDigit(s[c + 1]) && ValidHost(s[a..c])
    ensures BracketAlt(s, a).Some? || PlainAlt(s, a).Some?
  {
    if BracketAlt(s, a).None? {
      if BracketedHost(s[a..c]) {
        BracketHostFound(s, a, c);
      } else {
        PlainHostFound(s, a, c);
      }
    }
  }

  /** After the scheme, some `host:port` text is taken by one of the two alternatives. */
  lemma HostPortFound(s: string, a: nat, j: nat)
    requires a <= j <= |s| && HostPort(s[a..j])
    ensures BracketAlt(s, a).Some? || PlainAlt(s, a).Some?
  {
    var t := s[a..j];
    var c :| 0 <= c < |t| - 1 && t[c] == ':' && ValidHost(t[..c]) && AllDigits(t[c + 1..]);
    assert t[..c] == s[a..a + c];
    assert t[c + 1..][0] == t[c + 1] == s[a + c + 1];
    HostFound(s, a, a + c);
  }

  /** What the bracketed alternative takes is a bracketed host followed by ':' and a digit. */
  lemma BracketAltShape(s: string, a: nat)
    requires a <= |s|
    ensures BracketAlt(s, a).Some? ==>
      && BracketHostEnd(s, a).Some?
      && var b := BracketHostEnd(s, a).value;
         a < b < |s| - 1 && s[b] == ':' && IsDigit(s[b + 1]) && BracketedHost(s[a..b])
  {
    if BracketAlt(s, a).Some? {
      var b := BracketHostEnd(s, a).value;
      var h := s[a..b];
      assert h[0] == '[' && h[|h| - 1] == ']';
      assert forall m :: 1 <= m < |h| - 1 ==> h[m] == s[a + m];
    }
  }

  /**
   * The regular expression tries the bracketed host first: when the text
   * after the scheme reads as a bracketed host, ':' and a digit, that reading
   * is the match, with the port digits taken greedily.
   */
  lemma BracketReadingWins(s: string, i: nat, a: nat, c: nat)
    requires i <= |s| && SchemeEnd(s, i) == Some(a)
    requires a < c < |s| - 1 && s[c] == ':' && IsDigit(s[c + 1]) && BracketedHost(s[a..c])
    ensures MatchAt(s, i) == Some(DigitRunEnd(s, c + 1))
  {
    BracketHostFound(s, a, c);
  }

  /**
   * Only when no bracketed reading exists does the plain host alternative
   * decide the match.
   */
  lemma PlainReadingOtherwise(s: string, i: nat, a: nat, c: nat)
    requires i <= |s| && SchemeEnd(s, i) == Some(a)
    requires a < c < |s| - 1 && s[c] == ':' && IsDigit(s[c + 1]) && PlainHost(s[a..c])
    requires forall b :: a < b < |s| - 1 && s[b] == ':' && IsDigit(s[b + 1]) ==> !BracketedHost(s[a..b])
    ensures MatchAt(s, i) == Some(DigitRunEnd(s, c + 1))
  {
    BracketAltShape(s, a);
    PlainHostFound(s, a, c);
  }

  /**
   * The matcher misses no URL: if some URL starts at `i`, the matcher finds a
   * match starting at `i` (possibly ending elsewhere, by the greedy rules).
   */
  lemma MatchAtComplete(s: string, i: nat, j: nat)
    requires i <= j <= |s| && IsUrl(s[i..j])
    ensures MatchAt(s, i).Some?
  {
    var a := UrlScheme(s, i, j);
    HostPortFound(s, a, j);
  }

  /**
   * `URL_WITH_PORT_REGEX.search(s)` from index `i` on: the leftmost start with
   * a match, and where that match ends.
   */
  function FindFrom(s: string, i: nat): (r: Option<(nat, nat)>)
    requires i <= |s|
    ensures r.Some? ==> i <= r.value.0 <= |s| && MatchAt(s, r.value.0) == Some(r.value.1)
    ensures r.Some? ==> forall k :: i <= k < r.value.0 ==> MatchAt(s, k).None?
    ensures r.None? ==> forall k :: i <= k <= |s| ==> MatchAt(s, k).None?
    decreases |s| - i
  {
    if MatchAt(s, i).Some? then Some((i, MatchAt(s, i).value))
    else if i == |s| then None
    else FindFrom(s, i + 1)
  }

  /** The matched text of the leftmost match, `m.group(0)`. */
  function Search(s: string): (r: Option<string>)
    ensures r.Some? ==> IsUrl(r.value)
  {
    match FindFrom(s, 0)
    case Some((i, j)) => Some(s[i..j])
    case None => None
  }

  /**
   * Search finds a match exactly when the text contains a URL, and the match
   * starts no later than any URL in the text.
   */
  lemma SearchFindsLeftmost(s: string)
    ensures Search(s).None? <==> forall i, j :: 0 <= i <= j <= |s| ==> !IsUrl(s[i..j])
    ensures FindFrom(s, 0).Some? ==>
      forall i, j :: 0 <= i <= j <= |s| && IsUrl(s[i..j]) ==> FindFrom(s, 0).value.0 <= i
  {
    forall i, j | 0 <= i <= j <= |s| && IsUrl(s[i..j])
      ensures MatchAt(s, i).Some?
    {
      MatchAtComplete(s, i, j);
    }
    if FindFrom(s, 0).Some? {
      var (i, j) := FindFrom(s, 0).value;
      assert IsUrl(s[i..j]);
    }
  }

  /** ComfyUI's start-up banner URL is recognised whole. */
  lemma BannerExample()
    ensures Search("http://127.0.0.1:8188") == Some("http://127.0.0.1:8188")
  {
    var s := "http://127.0.0.1:8188";
    assert s[..8][4] == ':' && s[..7] == "http://";
    assert SchemeEnd(s, 0) == Some(7);
    assert HostRunEnd(s, 16) == 16;
    assert HostRunEnd(s, 7) == 16;
    assert DigitRunEnd(s, 17) == 21;
    assert PlainAlt(s, 7) == Some(21);
    assert BracketAlt(s, 7) == None;
    assert MatchAt(s, 0) == Some(21);
    assert s[0..21] == s;
  }

  /** The secure scheme is recognised as well. */
  lemma SecureExample()
    ensures Search("https://localhost:443") == Some("https://localhost:443")
  {
    var s := "https://localhost:443";
    assert s[..8] == "https://";
    assert SchemeEnd(s, 0) == Some(8);
    assert HostRunEnd(s, 17) == 17;
    assert HostRunEnd(s, 8) == 17;
    assert DigitRunEnd(s, 18) == 21;
    assert PlainAlt(s, 8) == Some(21);
    assert BracketAlt(s, 8) == None;
    assert MatchAt(s, 0) == Some(21);
    assert s[0..21] == s;
  }

  /** A bracketed IPv6 host is taken whole, and the path after the port is not part of the match. */
  lemma BracketExample()
    ensures Search("http://[::1]:8188/") == Some("http://[::1]:8188")
  {
    var s := "http://[::1]:8188/";
    assert s[..8][4] == ':' && s[..7] == "http://";
    assert SchemeEnd(s, 0) == Some(7);
    assert BracketBodyEnd(s, 8) == 11;
    assert s[7] == '[' && s[12] == ':';
    assert BracketHostEnd(s, 7) == Some(12);
    assert DigitRunEnd(s, 13) == 17;
    assert BracketAlt(s, 7) == Some(17);
    assert MatchAt(s, 0) == Some(17);
    assert s[0..17] == "http://[::1]:8188";
  }

  /** Text in which neither "http://" nor "https://" occurs holds no match. */
  lemma NoSchemeNoMatch(s: string)
    requires forall k :: 0 <= k <= |s| ==> !HasAt(s, k, "http://") && !HasAt(s, k, "https://")
    ensures Search(s).None?
  {
    forall k | 0 <= k <= |s|
      ensures MatchAt(s, k).None?
    {
      assert SchemeEnd(s, k).None?;
    }
  }

  /** Text without the letter 'h' contains no scheme. */
  lemma NoLetterNoScheme(s: string)
    requires 'h' !in s
    ensures forall k :: 0 <= k <= |s| ==> !HasAt(s, k, "http://") && !HasAt(s, k, "https://")
  {
    forall k | 0 <= k <= |s|
      ensures !HasAt(s, k, "http://") && !HasAt(s, k, "https://")
    {
      HasAtChar(s, k, "https://", 0);
      HasAtChar(s, k, "http://", 0);
    }
  }

  /** Where `p` is present at `i`, its character `m` is the one at `i + m`. */
  lemma HasAtChar(s: string, i: nat, p: string, m: nat)
    requires m < |p|
    ensures HasAt(s, i, p) ==> i + m < |s| && s[i + m] == p[m]
  {
    if HasAt(s, i, p) {
      assert s[i..i + |p|][m] == s[i + m];
    }
  }

  /** A bare `host:port` without a scheme is not reported. */
  lemma NoSchemeExample()
    ensures Search("127.0.0.1:8188") == None
  {
    NoLetterNoScheme("127.0.0.1:8188");
    NoSchemeNoMatch("127.0.0.1:8188");
  }
}
