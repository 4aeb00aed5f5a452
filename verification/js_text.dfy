/**
 * The few string operations of ECMAScript that the dashboard relies on:
 * `String.prototype.trim`, the truthiness of a string in `a || b`, and
 * `Number.prototype.toString` on a clock reading (a non-negative integer
 * below 10^21, where no exponent notation occurs).
 */
module JsText {
  import opened Wrappers

  /** The code points `String.prototype.trim` strips: ECMAScript's WhiteSpace and LineTerminator sets. */
  predicate IsSpace(c: char) {
    || c == '\t' || c == '\n' || c == '\U{000B}' || c == '\U{000C}' || c == '\r' || c == ' '
    || c == '\U{00A0}' || c == '\U{1680}' || ('\U{2000}' <= c <= '\U{200A}')
    || c == '\U{2028}' || c == '\U{2029}' || c == '\U{202F}' || c == '\U{205F}'
    || c == '\U{3000}' || c == '\U{FEFF}'
  }

  /** Every character of `s` is whitespace (vacuously true of ""). */
  predicate AllSpace(s: string) {
    forall i :: 0 <= i < |s| ==> IsSpace(s[i])
  }

  /** `s` has neither leading nor trailing whitespace. */
  predicate Trimmed(s: string) {
    s == [] || (!IsSpace(s[0]) && !IsSpace(s[|s| - 1]))
  }

  /** Drops leading whitespace: the result is the suffix of `s` after its leading blanks. */
  function TrimStart(s: string): (r: string)
    ensures |r| <= |s| && r == s[|s| - |r|..]
    ensures AllSpace(s[..|s| - |r|])
    ensures r == [] || !IsSpace(r[0])
  {
    if |s| > 0 && IsSpace(s[0]) then
      var r := TrimStart(s[1..]);
      assert s[..|s| - |r|] == [s[0]] + s[1..][..|s| - 1 - |r|];
      r
    else
      s
  }

  /** Drops trailing whitespace: the result is the prefix of `s` before its trailing blanks. */
  function TrimEnd(s: string): (r: string)
    ensures |r| <= |s| && r == s[..|r|]
    ensures AllSpace(s[|r|..])
    ensures r == [] || !IsSpace(r[|r| - 1])
  {
    if |s| > 0 && IsSpace(s[|s| - 1]) then
      var r := TrimEnd(s[..|s| - 1]);
      assert s[|r|..] == s[..|s| - 1][|r|..] + [s[|s| - 1]];
      r
    else
      s
  }

  /**
   * `s.trim()`. The result is the slice of `s` left once its leading and
   * trailing whitespace is cut off: it is trimmed, is empty exactly when `s`
   * is all whitespace, and leaves an already-trimmed string alone.
   */
  function Trim(s: string): (r: string)
    ensures exists i, j :: EdgeCut(s, r, i, j)
    ensures Trimmed(r)
    ensures |r| <= |s|
    ensures r == [] <==> AllSpace(s)
    ensures Trimmed(s) ==> r == s
  {
    var t := TrimStart(s);
    assert t == [] ==> s[..|s|] == s;
    var r := TrimEnd(t);
    assert t != [] ==> r != [];
    TrimIsSlice(s);
    r
  }

  /** Cutting the leading, then the trailing, whitespace leaves a slice of `s` with only blanks around it. */
  lemma TrimIsSlice(s: string)
    ensures exists i, j :: EdgeCut(s, TrimEnd(TrimStart(s)), i, j)
  {
    var t := TrimStart(s);
    var r := TrimEnd(t);
    var i := |s| - |t|;
    SliceOfSuffix(s, i, |r|);
    assert EdgeCut(s, r, i, i + |r|);
  }

  /** Slicing the suffix `s[i..]` at `n` splits `s` itself at `i + n`. */
  lemma SliceOfSuffix(s: string, i: nat, n: nat)
    requires i + n <= |s|
    ensures s[i..][..n] == s[i..i + n] && s[i..][n..] == s[i + n..]
  {
  }

  /** `r` is `s[i..j]` and only whitespace lies outside it. */
  predicate EdgeCut(s: string, r: string, i: int, j: int) {
    0 <= i <= j <= |s| && r == s[i..j] && AllSpace(s[..i]) && AllSpace(s[j..])
  }

  /** Trimming is idempotent: a trimmed text has nothing left to cut. */
  lemma TrimIdempotent(s: string)
    ensures Trim(Trim(s)) == Trim(s)
  {
  }

  /** The ECMAScript value of `a || b` for two strings: `a` unless it is the empty string. */
  function OrElse(a: string, b: string): (r: string)
    ensures r == a || r == b
    ensures a == [] ==> r == b
    ensures a != [] ==> r == a
  {
    if a != [] then a else b
  }

  /**
   * `a || b` where either side may be `undefined`: the left value is kept
   * only when it is present and non-empty.
   */
  function FirstTruthy(a: Option<string>, b: Option<string>): (r: Option<string>)
    ensures r == a || r == b
    ensures (a.Some? && a.value != []) ==> r == a
    ensures (a.None? || a.value == []) ==> r == b
  {
    if a.Some? && a.value != [] then a else b
  }

  /** `s.trim() || fallback`: the trimmed input, or the fallback when the input is blank. */
  function TrimOr(s: string, fallback: string): (r: string)
    ensures AllSpace(s) ==> r == fallback
    ensures !AllSpace(s) ==> r == Trim(s) && r != [] && Trimmed(r)
    ensures fallback != [] && Trimmed(fallback) ==> r != [] && Trimmed(r)
  {
    OrElse(Trim(s), fallback)
  }

  /** A single decimal digit, '0' to '9'. */
  function Digit(d: nat): (c: char)
    requires d < 10
    ensures '0' <= c <= '9'
  {
    (('0' as int) + d) as char
  }

  /** The value of a decimal digit character. */
  function DigitValue(c: char): int {
    c as int - '0' as int
  }

  /** `n.toString()` for a clock reading `n` (below 10^21): its decimal numeral without leading zeros. */
  function Decimal(n: nat): (r: string)
    ensures r != []
    ensures forall i :: 0 <= i < |r| ==> '0' <= r[i] <= '9'
    ensures r[0] == '0' ==> n == 0
  {
    if n < 10 then [Digit(n)] else Decimal(n / 10) + [Digit(n % 10)]
  }

  /** Reads a string of decimal digits back as a number. */
  function ParseDecimal(s: string): int {
    if s == [] then 0 else 10 * ParseDecimal(s[..|s| - 1]) + DigitValue(s[|s| - 1])
  }

  /** Reading back the numeral of `n` gives `n`. */
  lemma {:induction false} DecimalRoundTrip(n: nat)
    ensures ParseDecimal(Decimal(n)) == n
  {
    if n >= 10 {
      DecimalRoundTrip(n / 10);
      var r := Decimal(n);
      assert r[..|r| - 1] == Decimal(n / 10);
    }
  }

  /** Distinct clock readings give distinct numerals, so ids minted from them never collide. */
  lemma DecimalInjective(m: nat, n: nat)
    requires m != n
    ensures Decimal(m) != Decimal(n)
  {
    DecimalRoundTrip(m);
    DecimalRoundTrip(n);
  }
}
