/** The JavaScript string behaviour the core relies on: `String.prototype.trim`,
    the regular expression `\S+@\S+\.\S+` used by `RegExp.prototype.test`, and
    the decimal rendering of a number in string concatenation. */
module JsText {

  /** The characters JavaScript counts as white space for both `trim` and the
      `\s` class: WhiteSpace (TAB, VT, FF, SP, NBSP, ZWNBSP and the Zs
      category) and LineTerminator (LF, CR, LS, PS). */
  predicate IsSpace(c: char) {
    var n := c as int;
    n == 0x09 || n == 0x0A || n == 0x0B || n == 0x0C || n == 0x0D || n == 0x20 ||
    n == 0xA0 || n == 0x1680 || (0x2000 <= n <= 0x200A) || n == 0x2028 ||
    n == 0x2029 || n == 0x202F || n == 0x205F || n == 0x3000 || n == 0xFEFF
  }

  /** Every character of `s` is white space (the empty string included). */
  predicate Blank(s: string) {
    forall k | 0 <= k < |s| :: IsSpace(s[k])
  }

  /** Drops leading white space. */
  function TrimStart(s: string): (r: string)
    ensures |r| <= |s| && r == s[|s| - |r|..]
    ensures forall k | 0 <= k < |s| - |r| :: IsSpace(s[k])
    ensures r == [] || !IsSpace(r[0])
  {
    if s != [] && IsSpace(s[0]) then
      var r := TrimStart(s[1..]);
      assert forall k | 1 <= k < |s| - |r| :: s[k] == s[1..][k - 1];
      r
    else
      s
  }

  /** Drops trailing white space. */
  function TrimEnd(s: string): (r: string)
    ensures |r| <= |s| && r == s[..|r|]
    ensures forall k | |r| <= k < |s| :: IsSpace(s[k])
    ensures r == [] || !IsSpace(r[|r| - 1])
  {
    if s != [] && IsSpace(s[|s| - 1]) then
      var r := TrimEnd(s[..|s| - 1]);
      assert forall k | |r| <= k < |s| - 1 :: s[k] == s[..|s| - 1][k];
      r
    else
      s
  }

  /** `s.trim()`. */
  function Trim(s: string): (r: string)
    ensures |r| <= |s|
    ensures r == [] || (!IsSpace(r[0]) && !IsSpace(r[|r| - 1]))
  {
    TrimEnd(TrimStart(s))
  }

  /** `!s.trim()` holds exactly for the blank strings. */
  lemma TrimEmptyIffBlank(s: string)
    ensures Trim(s) == [] <==> Blank(s)
  {
    var t := TrimStart(s);
    assert t != [] ==> t[0] == s[|s| - |t|];
  }

  /** `s[i..j]` is a non-empty run of non-white-space characters: one `\S+`. */
  predicate NonSpaceRun(s: string, i: int, j: int) {
    0 <= i < j <= |s| && forall k | i <= k < j :: !IsSpace(s[k])
  }

  /** `\S+@\S+\.\S+` matches `s[i..e]`, with the `@` at `p` and the `.` at `d`. */
  predicate EmailMatchAt(s: string, i: int, p: int, d: int, e: int) {
    NonSpaceRun(s, i, p) && p < |s| && s[p] == '@' &&
    NonSpaceRun(s, p + 1, d) && d < |s| && s[d] == '.' &&
    NonSpaceRun(s, d + 1, e)
  }

  /** `/\S+@\S+\.\S+/.test(s)`: the pattern is not anchored, so it is enough
      that some substring of `s` matches it. */
  predicate MatchesEmailPattern(s: string): (b: bool)
    ensures b ==> 5 <= |s|
  {
    exists i: nat, p: nat, d: nat, e: nat | i < p < d < e <= |s| :: EmailMatchAt(s, i, p, d, e)
  }

  /** A run of non-white-space inside `t` is one at the same place in any
      `s` that holds `t` from position `o` on. */
  lemma NonSpaceRunShift(t: string, s: string, o: nat, i: nat, j: nat)
    requires o + |t| <= |s|
    requires forall k | 0 <= k < |t| :: s[o + k] == t[k]
    requires NonSpaceRun(t, i, j)
    ensures NonSpaceRun(s, o + i, o + j)
  {
    forall x | o + i <= x < o + j ensures !IsSpace(s[x]) {
      assert s[o + (x - o)] == t[x - o];
    }
  }

  /** Because the pattern is not anchored, text around a matching string
      never makes it fail. */
  lemma {:induction false} EmailPatternUnanchored(u: string, t: string, v: string)
    requires MatchesEmailPattern(t)
    ensures MatchesEmailPattern(u + t + v)
  {
    var i: nat, p: nat, d: nat, e: nat :| i < p < d < e <= |t| && EmailMatchAt(t, i, p, d, e);
    var s := u + t + v;
    var o := |u|;
    forall k | 0 <= k < |t| ensures s[o + k] == t[k] {
    }
    NonSpaceRunShift(t, s, o, i, p);
    NonSpaceRunShift(t, s, o, p + 1, d);
    NonSpaceRunShift(t, s, o, d + 1, e);
    assert s[o + p] == t[p] && s[o + d] == t[d];
    assert EmailMatchAt(s, o + i, o + p, o + d, o + e);
  }

  /** Any matching string contains both an `@` and a `.`. */
  lemma EmailPatternNeedsAtAndDot(s: string)
    ensures MatchesEmailPattern(s) ==> '@' in s && '.' in s
  {
    if MatchesEmailPattern(s) {
      var i: nat, p: nat, d: nat, e: nat :| i < p < d < e <= |s| && EmailMatchAt(s, i, p, d, e);
      assert s[p] in s && s[d] in s;
    }
  }

  function DigitChar(n: nat): (c: char)
    requires n < 10
    ensures '0' <= c <= '9'
  {
    ('0' as int + n) as char
  }

  function DigitValue(c: char): (n: nat)
    requires '0' <= c <= '9'
    ensures n < 10 && DigitChar(n) == c
  {
    c as int - '0' as int
  }

  predicate AllDigits(s: string) {
    forall k | 0 <= k < |s| :: '0' <= s[k] <= '9'
  }

  /** How JavaScript renders a non-negative integer (below 10^21) when it is
      concatenated to a string. */
  function Decimal(n: nat): (s: string)
    ensures s != [] && AllDigits(s)
  {
    if n < 10 then [DigitChar(n)] else Decimal(n / 10) + [DigitChar(n % 10)]
  }

  /** Reads a string of decimal digits back as a number. */
  function ParseDecimal(s: string): nat
    requires AllDigits(s)
  {
    if s == [] then 0 else ParseDecimal(s[..|s| - 1]) * 10 + DigitValue(s[|s| - 1])
  }

  /** Parsing the rendering gives the number back. */
  lemma {:induction false} ParseDecimalOfDecimal(n: nat)
    ensures ParseDecimal(Decimal(n)) == n
  {
    var s := Decimal(n);
    if n < 10 {
      assert s[..0] == [];
      assert DigitValue(s[0]) == n by {
        assert DigitChar(DigitValue(s[0])) == DigitChar(n);
      }
    } else {
      ParseDecimalOfDecimal(n / 10);
      assert s[..|s| - 1] == Decimal(n / 10);
      assert DigitChar(DigitValue(s[|s| - 1])) == DigitChar(n % 10);
    }
  }

  /** Distinct numbers render as distinct strings. */
  lemma DecimalInjective(m: nat, n: nat)
    requires Decimal(m) == Decimal(n)
    ensures m == n
  {
    ParseDecimalOfDecimal(m);
    ParseDecimalOfDecimal(n);
  }
}
