/** String helpers: prefix and suffix tests, and the decimal rendering of a number
    that a JavaScript template literal produces for a non-negative integer. */
module Text {

  predicate StartsWith(s: string, prefix: string) {
    |prefix| <= |s| && s[..|prefix|] == prefix
  }

  predicate EndsWith(s: string, suffix: string) {
    |suffix| <= |s| && s[|s| - |suffix|..] == suffix
  }

  /** A suffix of the last part is a suffix of the whole. */
  lemma EndsWithAppend(a: string, b: string, suffix: string)
    requires EndsWith(b, suffix)
    ensures EndsWith(a + b, suffix)
  {
    assert (a + b)[|a + b| - |suffix|..] == b[|b| - |suffix|..];
  }

  predicate IsDigit(c: char) {
    '0' <= c <= '9'
  }

  predicate AllDigits(s: string) {
    forall i :: 0 <= i < |s| ==> IsDigit(s[i])
  }

  function DigitChar(d: nat): (c: char)
    requires d < 10
    ensures IsDigit(c) && c as int - '0' as int == d
  {
    ('0' as int + d) as char
  }

  /** `${n}` for an integral number n >= 0: its digits, most significant first, no leading zero. */
  function DecimalText(n: nat): (r: string)
    ensures |r| >= 1 && AllDigits(r)
    ensures |r| > 1 ==> r[0] != '0'
    decreases n
  {
    if n < 10 then [DigitChar(n)] else DecimalText(n / 10) + [DigitChar(n % 10)]
  }

  /** Reads a string of digits back as a number. */
  function ParseDecimal(s: string): nat
    requires AllDigits(s)
  {
    if s == [] then 0
    else ParseDecimal(s[..|s| - 1]) * 10 + (s[|s| - 1] as int - '0' as int)
  }

  /** Rendering a timestamp in decimal loses nothing: parsing gives it back. */
  lemma {:induction false} ParseDecimalText(n: nat)
    ensures ParseDecimal(DecimalText(n)) == n
    decreases n
  {
    var r := DecimalText(n);
    if n >= 10 {
      ParseDecimalText(n / 10);
      assert r[..|r| - 1] == DecimalText(n / 10);
    }
  }

  /** Distinct numbers have distinct decimal renderings. */
  lemma DecimalTextInjective(m: nat, n: nat)
    requires m != n
    ensures DecimalText(m) != DecimalText(n)
  {
    ParseDecimalText(m);
    ParseDecimalText(n);
  }
}
