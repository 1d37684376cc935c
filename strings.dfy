/** String helpers used to build document ids: single-character replacement
    (Python's `str.replace` with a one-character pattern), the six-step id
    sanitisation chain, decimal rendering of the counter, and POSIX
    `os.path.basename`. */
module Strings {

  /** The characters that the id sanitisation replaces by '_'. */
  const Forbidden: set<char> := {'.', ' ', ':', '/', ',', '&'}

  /** `s.replace(from, to)` for a one-character pattern. */
  function ReplaceChar(s: string, from: char, to: char): (r: string)
    ensures |r| == |s|
    ensures forall i :: 0 <= i < |s| ==> r[i] == (if s[i] == from then to else s[i])
  {
    if s == [] then [] else [if s[0] == from then to else s[0]] + ReplaceChar(s[1..], from, to)
  }

  /** What sanitisation does to one character. */
  function SanitizeChar(c: char): char {
    if c in Forbidden then '_' else c
  }

  /** The id sanitisation, one character at a time. */
  function Sanitize(s: string): string {
    if s == [] then [] else [SanitizeChar(s[0])] + Sanitize(s[1..])
  }

  /** Sanitisation keeps the length and maps each character on its own. */
  lemma {:induction false} SanitizeAt(s: string)
    ensures |Sanitize(s)| == |s|
    ensures forall i :: 0 <= i < |s| ==> Sanitize(s)[i] == SanitizeChar(s[i])
  {
    if s != [] {
      SanitizeAt(s[1..]);
      forall i | 1 <= i < |s| ensures Sanitize(s)[i] == SanitizeChar(s[i]) {
        assert Sanitize(s)[i] == Sanitize(s[1..])[i - 1];
        assert s[1..][i - 1] == s[i];
      }
    }
  }

  /** The character-wise sanitisation is the source's chain
      `.replace(".", "_").replace(" ", "_").replace(":", "_")
      .replace("/", "_").replace(",", "_").replace("&", "_")`. */
  lemma SanitizeIsReplaceChain(s: string)
    ensures Sanitize(s) ==
      ReplaceChar(ReplaceChar(ReplaceChar(ReplaceChar(ReplaceChar(ReplaceChar(
        s, '.', '_'), ' ', '_'), ':', '_'), '/', '_'), ',', '_'), '&', '_')
  {
    SanitizeAt(s);
  }

  /** No sanitised string contains a forbidden character. */
  lemma SanitizeRemovesForbidden(s: string)
    ensures forall i :: 0 <= i < |Sanitize(s)| ==> Sanitize(s)[i] !in Forbidden
  {
    SanitizeAt(s);
  }

  /** Sanitisation works character by character, so it distributes over concatenation. */
  lemma SanitizeAppend(a: string, b: string)
    ensures Sanitize(a + b) == Sanitize(a) + Sanitize(b)
  {
    SanitizeAt(a);
    SanitizeAt(b);
    SanitizeAt(a + b);
    var l, r := Sanitize(a + b), Sanitize(a) + Sanitize(b);
    forall i | 0 <= i < |l| ensures l[i] == r[i] {
      if i < |a| {
        assert (a + b)[i] == a[i];
      } else {
        assert (a + b)[i] == b[i - |a|];
      }
    }
  }

  /** A string free of forbidden characters is left as it is. */
  lemma SanitizeKeepsClean(s: string)
    requires forall i :: 0 <= i < |s| ==> s[i] !in Forbidden
    ensures Sanitize(s) == s
  {
    SanitizeAt(s);
  }

  /** Appending a clean string commutes with sanitisation. */
  lemma SanitizeCleanSuffix(a: string, b: string)
    requires forall i :: 0 <= i < |b| ==> b[i] !in Forbidden
    ensures Sanitize(a + b) == Sanitize(a) + b
  {
    SanitizeKeepsClean(b);
    SanitizeAppend(a, b);
  }

  /** Sanitising twice is the same as sanitising once. */
  lemma SanitizeIdempotent(s: string)
    ensures Sanitize(Sanitize(s)) == Sanitize(s)
  {
    SanitizeRemovesForbidden(s);
    SanitizeKeepsClean(Sanitize(s));
  }

  predicate IsDigit(c: char) {
    '0' <= c <= '9'
  }

  function DigitChar(d: nat): (c: char)
    requires d < 10
    ensures IsDigit(c) && c as int - '0' as int == d
  {
    ('0' as int + d) as char
  }

  /** Every character is a decimal digit (checked from the last one back). */
  predicate AllDigits(s: string) {
    s == [] || (IsDigit(s[|s| - 1]) && AllDigits(s[..|s| - 1]))
  }

  /** Python's `str(n)` for a non-negative integer: decimal, no leading zeros. */
  function Decimal(n: nat): (r: string)
    ensures AllDigits(r)
    decreases n
  {
    if n < 10 then
      assert [DigitChar(n)][..0] == [];
      [DigitChar(n)]
    else
      var prefix := Decimal(n / 10);
      assert (prefix + [DigitChar(n % 10)])[..|prefix|] == prefix;
      prefix + [DigitChar(n % 10)]
  }

  /** The rendering is a non-empty string of digits, with no leading zero
      unless it is "0". */
  lemma {:induction false} DecimalDigits(n: nat)
    ensures 1 <= |Decimal(n)|
    ensures forall i :: 0 <= i < |Decimal(n)| ==> IsDigit(Decimal(n)[i])
    ensures Decimal(n)[0] == '0' ==> n == 0
    decreases n
  {
    if n >= 10 {
      DecimalDigits(n / 10);
      assert Decimal(n)[0] == Decimal(n / 10)[0];
    }
  }

  /** Reads a string of decimal digits back as a number (`int(s)`). */
  function DecimalValue(s: string): nat
    requires AllDigits(s)
  {
    if s == [] then 0 else DecimalValue(s[..|s| - 1]) * 10 + (s[|s| - 1] as int - '0' as int)
  }

  lemma {:induction false} DecimalRoundTrip(n: nat)
    ensures DecimalValue(Decimal(n)) == n
    decreases n
  {
    var r := Decimal(n);
    if n >= 10 {
      DecimalRoundTrip(n / 10);
      assert r[..|r| - 1] == Decimal(n / 10);
    }
  }

  /** Distinct counters render to distinct strings. */
  lemma DecimalInjective(a: nat, b: nat)
    ensures Decimal(a) == Decimal(b) <==> a == b
  {
    DecimalRoundTrip(a);
    DecimalRoundTrip(b);
  }

  /** POSIX `os.path.basename`: everything after the last '/'. */
  function Basename(path: string): string {
    if path == [] || path[|path| - 1] == '/' then []
    else Basename(path[..|path| - 1]) + [path[|path| - 1]]
  }

  /** The basename is the longest suffix of the path without a '/'. */
  lemma {:induction false} BasenameIsLastComponent(path: string)
    ensures var r := Basename(path);
      && '/' !in r
      && |r| <= |path| && r == path[|path| - |r|..]
      && (|r| < |path| ==> path[|path| - |r| - 1] == '/')
  {
    if path != [] && path[|path| - 1] != '/' {
      var init := path[..|path| - 1];
      BasenameIsLastComponent(init);
      var r, q := Basename(path), Basename(init);
      assert r == q + [path[|path| - 1]];
      assert q == init[|init| - |q|..];
      assert r == path[|path| - |r|..];
      if |r| < |path| {
        assert path[|path| - |r| - 1] == init[|init| - |q| - 1];
      }
    }
  }

  /** A path without '/' is its own basename. */
  lemma BasenameOfPlainName(path: string)
    requires '/' !in path
    ensures Basename(path) == path
  {
    BasenameIsLastComponent(path);
    forall i | 0 <= i < |path| ensures path[i] != '/' {
      assert path[i] in path;
    }
  }
}
