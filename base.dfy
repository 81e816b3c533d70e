/**
 * Shared vocabulary: optional values and results, decimal text for integers,
 * Python whitespace and the two string operations the bridge relies on
 * (`str.rstrip()` and a whitespace tokeniser standing in for `shlex.split`).
 */
module Base {

  datatype Option<T> = None | Some(value: T)

  datatype Result<T, E> = Ok(value: T) | Err(error: E)

  // ---------------------------------------------------------------------------
  // Decimal text (Python's str() of an int)
  // ---------------------------------------------------------------------------

  predicate IsDigit(c: char) {
    '0' <= c <= '9'
  }

  predicate AllDigits(s: string) {
    forall m :: 0 <= m < |s| ==> IsDigit(s[m])
  }

  function DigitChar(d: nat): (c: char)
    requires d < 10
    ensures IsDigit(c) && (c as int) - ('0' as int) == d
  {
    (('0' as int) + d) as char
  }

  /** Decimal digits of `n`, most significant first, without leading zeros. */
  function NatToString(n: nat): (r: string)
    ensures |r| >= 1 && AllDigits(r)
    ensures n >= 10 ==> r[0] != '0'
  {
    if n < 10 then [DigitChar(n)] else NatToString(n / 10) + [DigitChar(n % 10)]
  }

  /** The value a string of decimal digits denotes. */
  function DecimalValue(s: string): nat
    requires AllDigits(s)
  {
    if s == [] then 0
    else DecimalValue(s[..|s| - 1]) * 10 + ((s[|s| - 1] as int) - ('0' as int))
  }

  /** Reading back the decimal text of `n` gives `n`. */
  lemma {:induction false} DecimalRoundTrip(n: nat)
    ensures DecimalValue(NatToString(n)) == n
  {
    var r := NatToString(n);
    if n >= 10 {
      DecimalRoundTrip(n / 10);
      assert r[..|r| - 1] == NatToString(n / 10);
    }
  }

  /** Distinct numbers have distinct decimal texts. */
  lemma NatToStringInjective(a: nat, b: nat)
    requires NatToString(a) == NatToString(b)
    ensures a == b
  {
    DecimalRoundTrip(a);
    DecimalRoundTrip(b);
  }

  /** Python's str() of an int: a leading '-' for negative numbers. */
  function IntToString(i: int): (r: string)
    ensures i >= 0 ==> r == NatToString(i)
    ensures i < 0 ==> r == "-" + NatToString(-i)
  {
    if i < 0 then "-" + NatToString(-i) else NatToString(i)
  }

  // ---------------------------------------------------------------------------
  // Whitespace
  // ---------------------------------------------------------------------------

  /**
   * Characters Python's `str.isspace()` (and so `str.rstrip()` and the regular
   * expression class `\s`) treats as whitespace, restricted to the Latin-1
   * range: space, tab, newline, vertical tab, form feed, carriage return, the
   * four information separators, NEL and no-break space.
   */
  predicate IsSpace(c: char) {
    var n := c as int;
    n == 32 || (9 <= n <= 13) || (28 <= n <= 31) || n == 133 || n == 160
  }

  /** The whitespace `shlex` splits on: space, tab, carriage return, newline. */
  predicate IsShellSpace(c: char) {
    c == ' ' || c == '\t' || c == '\r' || c == '\n'
  }

  /** `s.rstrip()`: drop trailing whitespace. */
  function RStrip(s: string): (r: string)
    ensures |r| <= |s| && r == s[..|r|]
    ensures r == [] || !IsSpace(r[|r| - 1])
    ensures forall m :: |r| <= m < |s| ==> IsSpace(s[m])
  {
    if s != [] && IsSpace(s[|s| - 1]) then RStrip(s[..|s| - 1]) else s
  }

  // ---------------------------------------------------------------------------
  // Whitespace tokenising (shlex.split without quoting)
  // ---------------------------------------------------------------------------

  /** Index of the first non-whitespace character at or after `k`. */
  function SkipSpaces(s: string, k: nat): (e: nat)
    requires k <= |s|
    ensures k <= e <= |s|
    ensures forall m :: k <= m < e ==> IsShellSpace(s[m])
    ensures e == |s| || !IsShellSpace(s[e])
    decreases |s| - k
  {
    if k < |s| && IsShellSpace(s[k]) then SkipSpaces(s, k + 1) else k
  }

  /** Index of the first whitespace character at or after `k`. */
  function WordEnd(s: string, k: nat): (e: nat)
    requires k <= |s|
    ensures k <= e <= |s|
    ensures forall m :: k <= m < e ==> !IsShellSpace(s[m])
    ensures e == |s| || IsShellSpace(s[e])
    decreases |s| - k
  {
    if k < |s| && !IsShellSpace(s[k]) then WordEnd(s, k + 1) else k
  }

  /** `WordEnd` stops at the first whitespace character, wherever that is. */
  lemma WordEndAt(s: string, k: nat, e: nat)
    requires k <= e <= |s| && (e == |s| || IsShellSpace(s[e]))
    requires forall m :: k <= m < e ==> !IsShellSpace(s[m])
    ensures WordEnd(s, k) == e
  {
  }

  predicate IsWord(w: string) {
    w != [] && forall m :: 0 <= m < |w| ==> !IsShellSpace(w[m])
  }

  /** The maximal runs of non-whitespace characters of `s`, in order. */
  function SplitWords(s: string): (ws: seq<string>)
    ensures forall t :: 0 <= t < |ws| ==> IsWord(ws[t])
    decreases |s|
  {
    var a := SkipSpaces(s, 0);
    if a == |s| then []
    else
      var b := WordEnd(s, a);
      [s[a..b]] + SplitWords(s[b..])
  }

  function Concat(ws: seq<string>): string {
    if ws == [] then "" else ws[0] + Concat(ws[1..])
  }

  /** `s` with every whitespace character removed. */
  function WithoutSpaces(s: string): string {
    if s == [] then ""
    else if IsShellSpace(s[0]) then WithoutSpaces(s[1..])
    else [s[0]] + WithoutSpaces(s[1..])
  }

  lemma {:induction false} WithoutSpacesAppend(a: string, b: string)
    ensures WithoutSpaces(a + b) == WithoutSpaces(a) + WithoutSpaces(b)
  {
    if a != [] {
      assert (a + b)[1..] == a[1..] + b;
      WithoutSpacesAppend(a[1..], b);
    } else {
      assert a + b == b;
    }
  }

  lemma {:induction false} WithoutSpacesOfSpaces(s: string)
    requires forall m :: 0 <= m < |s| ==> IsShellSpace(s[m])
    ensures WithoutSpaces(s) == ""
  {
    if s != [] {
      WithoutSpacesOfSpaces(s[1..]);
    }
  }

  lemma {:induction false} WithoutSpacesOfWord(s: string)
    requires forall m :: 0 <= m < |s| ==> !IsShellSpace(s[m])
    ensures WithoutSpaces(s) == s
  {
    if s != [] {
      WithoutSpacesOfWord(s[1..]);
    }
  }

  /** A string is its three consecutive pieces, put back together. */
  lemma SliceThree(s: string, a: nat, b: nat)
    requires a <= b <= |s|
    ensures s == s[..a] + (s[a..b] + s[b..])
  {
    assert s[a..b] + s[b..] == s[a..];
  }

  /** Removing whitespace piece by piece: before `a`, between `a` and `b`, and after `b`. */
  lemma WithoutSpacesThree(s: string, a: nat, b: nat)
    requires a <= b <= |s|
    ensures WithoutSpaces(s) == WithoutSpaces(s[..a]) + (WithoutSpaces(s[a..b]) + WithoutSpaces(s[b..]))
  {
    var p, q, r := s[..a], s[a..b], s[b..];
    calc {
      WithoutSpaces(s);
      { SliceThree(s, a, b); }
      WithoutSpaces(p + (q + r));
      { WithoutSpacesAppend(p, q + r); }
      WithoutSpaces(p) + WithoutSpaces(q + r);
      { WithoutSpacesAppend(q, r); }
      WithoutSpaces(p) + (WithoutSpaces(q) + WithoutSpaces(r));
    }
  }

  /**
   * Tokenising loses only the whitespace: gluing the tokens back together gives
   * the input with its whitespace removed.
   */
  lemma {:induction false} SplitWordsKeepsText(s: string)
    ensures Concat(SplitWords(s)) == WithoutSpaces(s)
    decreases |s|
  {
    var a := SkipSpaces(s, 0);
    WithoutSpacesOfSpaces(s[..a]);
    if a == |s| {
      assert s[..a] == s;
    } else {
      var b := WordEnd(s, a);
      WithoutSpacesOfWord(s[a..b]);
      SplitWordsKeepsText(s[b..]);
      WithoutSpacesThree(s, a, b);
      assert SplitWords(s) == [s[a..b]] + SplitWords(s[b..]);
    }
  }

  /** `" ".join(ws)`: the tokens separated by single spaces. */
  function JoinWords(ws: seq<string>): string {
    if |ws| == 0 then "" else if |ws| == 1 then ws[0] else ws[0] + " " + JoinWords(ws[1..])
  }

  /** `SkipSpaces` stops at the first non-whitespace character, wherever that is. */
  lemma SkipSpacesAt(s: string, k: nat, e: nat)
    requires k <= e <= |s| && (e == |s| || !IsShellSpace(s[e]))
    requires forall m :: k <= m < e ==> IsShellSpace(s[m])
    ensures SkipSpaces(s, k) == e
  {
  }

  /** A token found after leading whitespace is the first token of the split. */
  lemma SplitWordsAt(s: string, a: nat, b: nat)
    requires a < b <= |s|
    requires forall m :: 0 <= m < a ==> IsShellSpace(s[m])
    requires forall m :: a <= m < b ==> !IsShellSpace(s[m])
    requires b == |s| || IsShellSpace(s[b])
    ensures SplitWords(s) == [s[a..b]] + SplitWords(s[b..])
  {
    SkipSpacesAt(s, 0, a);
    WordEndAt(s, a, b);
  }

  /**
   * A token, after at most one leading space and followed by a space, is split
   * off whole, whatever comes after.
   */
  lemma SplitWordThenSpace(lead: string, w: string, rest: string)
    requires lead == "" || lead == " "
    requires IsWord(w)
    ensures SplitWords(lead + w + " " + rest) == [w] + SplitWords(" " + rest)
  {
    var s := lead + w + " " + rest;
    var a, b := |lead|, |lead| + |w|;
    assert s[a..b] == w && s[b..] == " " + rest && s[b] == ' ';
    forall m | a <= m < b
      ensures !IsShellSpace(s[m])
    {
      assert s[m] == w[m - a];
    }
    SplitWordsAt(s, a, b);
  }

  /** A single token, after at most one leading space, splits into itself. */
  lemma SplitOneWord(lead: string, w: string)
    requires lead == "" || lead == " "
    requires IsWord(w)
    ensures SplitWords(lead + w) == [w]
  {
    var s := lead + w;
    var a := |lead|;
    assert forall m :: a <= m < |s| ==> s[m] == w[m - a];
    SplitWordsAt(s, a, |s|);
    assert s[a..|s|] == w;
    assert SplitWords(s[|s|..]) == [];
  }

  /** The round trip below, with at most one leading space before the text. */
  lemma {:induction false} SplitJoinAfter(lead: string, ws: seq<string>)
    requires lead == "" || lead == " "
    requires forall t :: 0 <= t < |ws| ==> IsWord(ws[t])
    ensures SplitWords(lead + JoinWords(ws)) == ws
    decreases |ws|
  {
    if |ws| == 0 {
      assert lead + JoinWords(ws) == lead;
      BlankSplitsToNothing(lead);
    } else if |ws| == 1 {
      SplitOneWord(lead, ws[0]);
    } else {
      assert lead + JoinWords(ws) == lead + ws[0] + " " + JoinWords(ws[1..]);
      SplitWordThenSpace(lead, ws[0], JoinWords(ws[1..]));
      SplitJoinAfter(" ", ws[1..]);
      assert ws == [ws[0]] + ws[1..];
    }
  }

  /**
   * Splitting undoes joining: tokens separated by single spaces split back
   * into the same tokens, for every list of tokens.
   */
  lemma SplitJoinRoundTrip(ws: seq<string>)
    requires forall t :: 0 <= t < |ws| ==> IsWord(ws[t])
    ensures SplitWords(JoinWords(ws)) == ws
  {
    SplitJoinAfter("", ws);
    assert "" + JoinWords(ws) == JoinWords(ws);
  }

  /** A string made only of whitespace splits into no tokens. */
  lemma BlankSplitsToNothing(s: string)
    requires forall m :: 0 <= m < |s| ==> IsShellSpace(s[m])
    ensures SplitWords(s) == []
  {
    assert SkipSpaces(s, 0) == |s|;
  }
}
