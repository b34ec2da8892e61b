/**
 * The few pieces of java.lang.String and java.lang.Character that the
 * ledger relies on, over Dafny strings (sequences of Unicode scalar values):
 * Character.isWhitespace, String.isBlank, String.trim, String.strip,
 * String.replace with a one-character target, and Integer.toString for
 * non-negative values.
 */
module JavaStrings {

  // ---------------------------------------------------------------- whitespace

  /** Character.isWhitespace: the Unicode space, line and paragraph separators
      other than the non-breaking ones (U+00A0, U+2007, U+202F), and the
      control characters U+0009..U+000D and U+001C..U+001F. */
  predicate IsWhitespace(c: char) {
    || c == ' '
    || ('\t' <= c <= '\r')
    || ('\U{1C}' <= c <= '\U{1F}')
    || c == '\U{1680}'
    || ('\U{2000}' <= c <= '\U{2006}')
    || ('\U{2008}' <= c <= '\U{200A}')
    || c == '\U{2028}' || c == '\U{2029}' || c == '\U{205F}' || c == '\U{3000}'
  }

  /** The characters String.trim removes: every code point up to U+0020. */
  predicate IsTrimmable(c: char) {
    c <= ' '
  }

  /** String.isBlank: empty, or white space only (in the sense of IsWhitespace). */
  predicate IsBlank(s: string) {
    forall i | 0 <= i < |s| :: IsWhitespace(s[i])
  }

  // ------------------------------------------------------------ trim and strip

  /** Length of the longest prefix of s whose characters all satisfy p. */
  function LeadingRun(s: string, p: char -> bool): (k: nat)
    ensures k <= |s|
    ensures forall i | 0 <= i < k :: p(s[i])
    ensures k == |s| || !p(s[k])
  {
    if s == [] || !p(s[0]) then 0 else 1 + LeadingRun(s[1..], p)
  }

  /** Length of the longest suffix of s whose characters all satisfy p. */
  function TrailingRun(s: string, p: char -> bool): (k: nat)
    ensures k <= |s|
    ensures forall i | |s| - k <= i < |s| :: p(s[i])
    ensures k == |s| || !p(s[|s| - 1 - k])
  {
    if s == [] || !p(s[|s| - 1]) then 0 else 1 + TrailingRun(s[..|s| - 1], p)
  }

  /** s without its leading and trailing characters that satisfy p: the shape
      shared by String.trim and String.strip. The result is the slice of s that
      starts at LeadingRun(s, p); SpanShape states what is cut away. */
  function Span(s: string, p: char -> bool): (r: string)
    ensures LeadingRun(s, p) + |r| <= |s|
    ensures r == s[LeadingRun(s, p) .. LeadingRun(s, p) + |r|]
  {
    var t := s[LeadingRun(s, p)..];
    t[..|t| - TrailingRun(t, p)]
  }

  /** Everything Span cuts away satisfies p, what it keeps starts and ends
      with a character that does not, and it keeps nothing exactly when every
      character of s satisfies p. */
  lemma SpanShape(s: string, p: char -> bool)
    ensures forall i | LeadingRun(s, p) + |Span(s, p)| <= i < |s| :: p(s[i])
    ensures Span(s, p) == [] || (!p(Span(s, p)[0]) && !p(Span(s, p)[|Span(s, p)| - 1]))
    ensures Span(s, p) == [] <==> forall i | 0 <= i < |s| :: p(s[i])
  {
    var lead := LeadingRun(s, p);
    var t := s[lead..];
    var trail := TrailingRun(t, p);
    var r := Span(s, p);
    assert r == t[..|t| - trail];
    forall i | lead + |r| <= i < |s|
      ensures p(s[i])
    {
      assert s[i] == t[i - lead];
    }
    if r != [] {
      assert r[0] == s[lead];
      assert r[|r| - 1] == t[|t| - 1 - trail];
    }
  }

  /** String.trim. */
  function Trim(s: string): string {
    Span(s, IsTrimmable)
  }

  /** String.strip. */
  function Strip(s: string): string {
    Span(s, IsWhitespace)
  }

  /** Cutting away the p-characters a second time removes nothing. */
  lemma SpanIdempotent(s: string, p: char -> bool)
    ensures Span(Span(s, p), p) == Span(s, p)
  {
    var r := Span(s, p);
    SpanShape(s, p);
    if r != [] {
      assert LeadingRun(r, p) == 0;
      assert r[0..] == r;
      assert TrailingRun(r, p) == 0;
      assert r[..|r|] == r;
    }
  }

  /** A text that starts and ends with a character failing p is left whole. */
  lemma SpanStable(s: string, p: char -> bool)
    requires s != [] && !p(s[0]) && !p(s[|s| - 1])
    ensures Span(s, p) == s
  {
    assert LeadingRun(s, p) == 0 && s[0..] == s;
    assert TrailingRun(s, p) == 0 && s[..|s|] == s;
  }

  /** String.isBlank(s) holds exactly when String.strip(s) is empty. */
  lemma BlankIffStripEmpty(s: string)
    ensures IsBlank(s) <==> Strip(s) == []
  {
    SpanShape(s, IsWhitespace);
  }

  /** Every character of s satisfies p. */
  predicate All(s: string, p: char -> bool)
    decreases |s|
  {
    s == [] || (All(s[..|s| - 1], p) && p(s[|s| - 1]))
  }

  lemma {:induction false} AllAt(s: string, p: char -> bool, i: int)
    requires All(s, p) && 0 <= i < |s|
    ensures p(s[i])
  {
    if i < |s| - 1 {
      AllAt(s[..|s| - 1], p, i);
    }
  }

  lemma AllOne(c: char, p: char -> bool)
    requires p(c)
    ensures All([c], p)
  {
    assert [c][..0] == [];
  }

  lemma {:induction false} AllConcat(a: string, b: string, p: char -> bool)
    requires All(a, p) && All(b, p)
    ensures All(a + b, p)
  {
    if b == [] {
      assert a + b == a;
    } else {
      AllConcat(a, b[..|b| - 1], p);
      assert (a + b)[..|a + b| - 1] == a + b[..|b| - 1];
    }
  }

  /** A character that fails p does not occur in a text whose characters all
      satisfy p. */
  lemma {:induction false} NotIn(s: string, p: char -> bool, c: char)
    requires All(s, p) && !p(c)
    ensures c !in s
  {
    if s != [] {
      NotIn(s[..|s| - 1], p, c);
      assert s == s[..|s| - 1] + [s[|s| - 1]];
    }
  }

  /** String.startsWith. */
  predicate StartsWith(s: string, prefix: string) {
    |prefix| <= |s| && s[..|prefix|] == prefix
  }

  /** A text that differs from the prefix at position i, or is too short to
      reach it, does not start with the prefix. */
  lemma DiffersAt(s: string, prefix: string, i: nat)
    requires i < |prefix| && (i >= |s| || s[i] != prefix[i])
    ensures !StartsWith(s, prefix)
  {
    if |prefix| <= |s| {
      assert s[..|prefix|][i] == s[i];
    }
  }

  /** Slicing a concatenation at the seam gives back the two parts. */
  lemma SplitAt(a: string, b: string)
    ensures (a + b)[..|a|] == a && (a + b)[|a|..] == b
  {
  }

  // ------------------------------------------------------------------ replace

  /** String.replace(CharSequence, CharSequence) for a one-character target:
      every occurrence of target, scanned left to right, becomes replacement. */
  function Replace(s: string, target: char, replacement: string): (r: string)
    ensures target !in s ==> r == s
  {
    if s == [] then []
    else (if s[0] == target then replacement else [s[0]]) + Replace(s[1..], target, replacement)
  }

  lemma ReplaceOne(c: char, target: char, replacement: string)
    ensures Replace([c], target, replacement) == if c == target then replacement else [c]
  {
    assert [c][1..] == [];
  }

  lemma {:induction false} ReplaceConcat(a: string, b: string, target: char, replacement: string)
    ensures Replace(a + b, target, replacement) == Replace(a, target, replacement) + Replace(b, target, replacement)
  {
    if a == [] {
      assert a + b == b;
    } else {
      assert (a + b)[0] == a[0] && (a + b)[1..] == a[1..] + b;
      ReplaceConcat(a[1..], b, target, replacement);
    }
  }

  // ------------------------------------------------------- decimal rendering

  predicate IsDigit(c: char) {
    '0' <= c <= '9'
  }

  function DigitChar(d: nat): (c: char)
    requires d < 10
    ensures IsDigit(c)
  {
    ['0', '1', '2', '3', '4', '5', '6', '7', '8', '9'][d]
  }

  function DigitValue(c: char): (d: nat)
    requires IsDigit(c)
    ensures d < 10 && DigitChar(d) == c
  {
    (c - '0') as nat
  }

  /** Integer.toString for a non-negative value: its decimal digits, with no
      leading zero. */
  function NatToDecimal(n: nat): (r: string)
    ensures |r| >= 1
  {
    if n < 10 then [DigitChar(n)] else NatToDecimal(n / 10) + [DigitChar(n % 10)]
  }

  /** NatToDecimal writes decimal digits only. */
  lemma {:induction false} DecimalDigitsOnly(n: nat)
    ensures All(NatToDecimal(n), IsDigit)
  {
    if n < 10 {
      AllOne(DigitChar(n), IsDigit);
    } else {
      DecimalDigitsOnly(n / 10);
      AllOne(DigitChar(n % 10), IsDigit);
      AllConcat(NatToDecimal(n / 10), [DigitChar(n % 10)], IsDigit);
    }
  }

  /** NatToDecimal writes no leading zero: only 0 itself starts with '0'. */
  lemma {:induction false} DecimalNoLeadingZero(n: nat)
    ensures NatToDecimal(n)[0] == '0' ==> n == 0
  {
    if n >= 10 {
      DecimalNoLeadingZero(n / 10);
    }
  }

  /** The value of a string of decimal digits (the reader's side of NatToDecimal). */
  function ParseDecimal(s: string): nat
    requires All(s, IsDigit)
  {
    if s == [] then 0 else ParseDecimal(s[..|s| - 1]) * 10 + DigitValue(s[|s| - 1])
  }

  lemma {:induction false} DecimalRoundTrip(n: nat)
    ensures All(NatToDecimal(n), IsDigit)
    ensures ParseDecimal(NatToDecimal(n)) == n
  {
    DecimalDigitsOnly(n);
    if n >= 10 {
      var r := NatToDecimal(n);
      assert r[..|r| - 1] == NatToDecimal(n / 10);
      DecimalRoundTrip(n / 10);
    }
  }

  function Pow10(k: nat): nat {
    if k == 0 then 1 else 10 * Pow10(k - 1)
  }

  /** A value below 10^w has at most w digits. */
  lemma {:induction false} DecimalWidth(n: nat, w: nat)
    requires 1 <= w && n < Pow10(w)
    ensures |NatToDecimal(n)| <= w
  {
    if n >= 10 {
      DecimalWidth(n / 10, w - 1);
    }
  }

  /** s left-padded with '0' to at least w characters. */
  function PadZeros(s: string, w: nat): (r: string)
    ensures |r| == if |s| >= w then |s| else w
    decreases w - |s|
  {
    if |s| >= w then s else PadZeros(['0'] + s, w)
  }

  lemma {:induction false} ParseLeadingZeros(s: string, w: nat)
    requires All(s, IsDigit)
    ensures All(PadZeros(s, w), IsDigit)
    ensures ParseDecimal(PadZeros(s, w)) == ParseDecimal(s)
    decreases w - |s|
  {
    if |s| < w {
      ZeroPrefix(s);
      ParseLeadingZeros(['0'] + s, w);
    }
  }

  lemma {:induction false} ZeroPrefix(s: string)
    requires All(s, IsDigit)
    ensures All(['0'] + s, IsDigit)
    ensures ParseDecimal(['0'] + s) == ParseDecimal(s)
  {
    assert All(['0'], IsDigit) by { assert ['0'][..0] == []; }
    AllConcat(['0'], s, IsDigit);
    if s != [] {
      assert (['0'] + s)[..|s|] == ['0'] + s[..|s| - 1];
      ZeroPrefix(s[..|s| - 1]);
    }
  }
}
