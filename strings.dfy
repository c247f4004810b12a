/** Character classes and string functions the sources rely on: JavaScript's
    `\d`, `\s` and `String.prototype.trim`, Python's `str.strip`, `str(n)`,
    `str.lower` and `in`, and the code-point order of Python's `sorted`. */
module Strings {

  /** `\d` in a JavaScript regular expression: ASCII digits only. */
  predicate IsDigit(c: char) {
    '0' <= c <= '9'
  }

  predicate AllDigits(s: string) {
    forall i :: 0 <= i < |s| ==> IsDigit(s[i])
  }

  /** `\s` in a JavaScript regular expression, which is also the set that
      `String.prototype.trim` removes (WhiteSpace and LineTerminator of
      ECMAScript). */
  predicate IsJsWhitespace(c: char) {
    var n := c as int;
    (0x09 <= n <= 0x0D) || n == 0x20 || n == 0xA0 || n == 0x1680
    || (0x2000 <= n <= 0x200A) || n == 0x2028 || n == 0x2029 || n == 0x202F
    || n == 0x205F || n == 0x3000 || n == 0xFEFF
  }

  /** The characters Python's `str.strip()` removes (`str.isspace()`). */
  predicate IsPyWhitespace(c: char) {
    var n := c as int;
    (0x09 <= n <= 0x0D) || (0x1C <= n <= 0x20) || n == 0x85 || n == 0xA0 || n == 0x1680
    || (0x2000 <= n <= 0x200A) || n == 0x2028 || n == 0x2029 || n == 0x202F
    || n == 0x205F || n == 0x3000
  }

  /** Length of the longest prefix of `s` whose characters all satisfy `p`. */
  function LeadingCount(s: string, p: char -> bool): (n: nat)
    ensures n <= |s|
    ensures forall i :: 0 <= i < n ==> p(s[i])
    ensures n < |s| ==> !p(s[n])
  {
    if s == [] || !p(s[0]) then 0 else 1 + LeadingCount(s[1..], p)
  }

  /** Length of the longest suffix of `s` whose characters all satisfy `p`. */
  function TrailingCount(s: string, p: char -> bool): (n: nat)
    ensures n <= |s|
    ensures forall i :: |s| - n <= i < |s| ==> p(s[i])
    ensures n < |s| ==> !p(s[|s| - n - 1])
  {
    if s == [] || !p(s[|s| - 1]) then 0 else 1 + TrailingCount(s[..|s| - 1], p)
  }

  /** Removes every leading and trailing character that satisfies `p`. */
  function Trim(s: string, p: char -> bool): (r: string)
    ensures |r| <= |s|
    ensures r != [] ==> !p(r[0]) && !p(r[|r| - 1])
    ensures var a := LeadingCount(s, p);
      a + |r| <= |s| && r == s[a..a + |r|] && forall i :: a + |r| <= i < |s| ==> p(s[i])
  {
    var a := LeadingCount(s, p);
    var t := s[a..];
    t[..|t| - TrailingCount(t, p)]
  }

  /** `s.trim()` in JavaScript. */
  function JsTrim(s: string): string {
    Trim(s, IsJsWhitespace)
  }

  /** `s.strip()` in Python. */
  function PyStrip(s: string): string {
    Trim(s, IsPyWhitespace)
  }

  lemma {:induction false} LeadingCountAppend(w: string, s: string, p: char -> bool)
    requires forall i :: 0 <= i < |w| ==> p(w[i])
    ensures LeadingCount(w + s, p) == |w| + LeadingCount(s, p)
  {
    if w == [] {
      assert w + s == s;
    } else {
      assert (w + s)[0] == w[0] && (w + s)[1..] == w[1..] + s;
      LeadingCountAppend(w[1..], s, p);
    }
  }

  /** Characters that trimming removes anyway make no difference in front. */
  lemma TrimSkipsLeading(w: string, s: string, p: char -> bool)
    requires forall i :: 0 <= i < |w| ==> p(w[i])
    ensures Trim(w + s, p) == Trim(s, p)
  {
    LeadingCountAppend(w, s, p);
    assert (w + s)[|w| + LeadingCount(s, p)..] == s[LeadingCount(s, p)..];
  }

  /** Dropping some of the characters that trimming removes anyway changes
      nothing. */
  lemma TrimDropLeading(s: string, k: nat, p: char -> bool)
    requires k <= LeadingCount(s, p)
    ensures Trim(s[k..], p) == Trim(s, p)
  {
    calc {
      Trim(s[k..], p);
    == { TrimSkipsLeading(s[..k], s[k..], p); }
      Trim(s[..k] + s[k..], p);
    == { assert s[..k] + s[k..] == s; }
      Trim(s, p);
    }
  }

  /** A suffix of a suffix is a suffix. */
  lemma SliceOfSlice(s: string, k: nat, j: nat)
    requires k + j <= |s|
    ensures s[k..][j..] == s[k + j..]
  {
  }

  /** Trimming from `k` on is the same as trimming from the end of the run
      of removable characters that starts at `k`. */
  lemma TrimFromRun(s: string, k: nat, m: nat, p: char -> bool)
    requires k <= |s| && m == k + LeadingCount(s[k..], p)
    ensures m <= |s| && Trim(s[m..], p) == Trim(s[k..], p)
  {
    var t := s[k..];
    assert Trim(s[m..], p) == Trim(t[m - k..], p) by {
      SliceOfSlice(s, k, m - k);
    }
    TrimDropLeading(t, m - k, p);
  }

  /** A string that neither starts nor ends with a removable character is
      its own trimming. */
  lemma TrimUnchanged(s: string, p: char -> bool)
    requires s != [] ==> !p(s[0]) && !p(s[|s| - 1])
    ensures Trim(s, p) == s
  {
    if s != [] {
      assert LeadingCount(s, p) == 0;
      assert s[0..] == s;
      assert TrailingCount(s, p) == 0;
    }
  }

  function DigitChar(d: nat): (c: char)
    requires d < 10
    ensures IsDigit(c)
  {
    ('0' as int + d) as char
  }

  /** `str(n)` in Python for a natural number: its decimal digits, without
      leading zeros. */
  function NatToString(n: nat): (s: string)
    ensures |s| >= 1 && AllDigits(s)
  {
    if n < 10 then [DigitChar(n)] else NatToString(n / 10) + [DigitChar(n % 10)]
  }

  /** Distinct numbers are written differently. */
  lemma {:induction false} NatToStringInjective(a: nat, b: nat)
    requires NatToString(a) == NatToString(b)
    ensures a == b
  {
    var sa, sb := NatToString(a), NatToString(b);
    assert a >= 10 ==> |sa| == |NatToString(a / 10)| + 1 >= 2;
    assert b >= 10 ==> |sb| == |NatToString(b / 10)| + 1 >= 2;
    if a < 10 && b < 10 {
      assert DigitChar(a) == sa[0] == DigitChar(b);
    } else if a < 10 || b < 10 {
      assert false;
    } else {
      var pa, pb := NatToString(a / 10), NatToString(b / 10);
      assert sa[|sa| - 1] == DigitChar(a % 10) && sb[|sb| - 1] == DigitChar(b % 10);
      assert sa[..|sa| - 1] == pa && sb[..|sb| - 1] == pb;
      NatToStringInjective(a / 10, b / 10);
    }
  }

  /** Code-point lexicographic order: how Python compares strings. */
  predicate LexLeq(a: string, b: string) {
    a == [] || (b != [] && (a[0] < b[0] || (a[0] == b[0] && LexLeq(a[1..], b[1..]))))
  }

  lemma {:induction false} LexLeqTotal(a: string, b: string)
    ensures LexLeq(a, b) || LexLeq(b, a)
  {
    if a != [] && b != [] && a[0] == b[0] {
      LexLeqTotal(a[1..], b[1..]);
    }
  }

  lemma {:induction false} LexLeqTransitive(a: string, b: string, c: string)
    requires LexLeq(a, b) && LexLeq(b, c)
    ensures LexLeq(a, c)
  {
    if a != [] && b != [] && c != [] && a[0] == b[0] == c[0] {
      LexLeqTransitive(a[1..], b[1..], c[1..]);
    }
  }

  lemma {:induction false} LexLeqAntisymmetric(a: string, b: string)
    requires LexLeq(a, b) && LexLeq(b, a)
    ensures a == b
  {
    if a != [] && b != [] {
      LexLeqAntisymmetric(a[1..], b[1..]);
      assert a == [a[0]] + a[1..] && b == [b[0]] + b[1..];
    }
  }

  /** `s.lower()` restricted to ASCII letters. */
  function LowerAscii(s: string): (r: string)
    ensures |r| == |s|
  {
    seq(|s|, i requires 0 <= i < |s| => if 'A' <= s[i] <= 'Z' then (s[i] as int + 32) as char else s[i])
  }

  /** `needle in hay` for Python strings. */
  predicate Contains(hay: string, needle: string)
    decreases |hay|
  {
    (|needle| <= |hay| && hay[..|needle|] == needle) || (hay != [] && Contains(hay[1..], needle))
  }
}
