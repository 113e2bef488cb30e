/** Decimal rendering of an unsigned integer, as Rust's `{}` formatter writes
    it (no sign, no leading zeros, "0" for zero), and its inverse. The
    connector's error text `"Error code: {}"` is built with it. */
module Decimal {

  predicate IsDigit(c: char) {
    '0' <= c <= '9'
  }

  predicate AllDigits(s: string) {
    forall i :: 0 <= i < |s| ==> IsDigit(s[i])
  }

  function DigitChar(d: nat): (c: char)
    requires d < 10
    ensures IsDigit(c) && (c == '0' <==> d == 0)
  {
    ('0' as int + d) as char
  }

  function DigitValue(c: char): (d: nat)
    requires IsDigit(c)
    ensures d < 10 && DigitChar(d) == c
  {
    c as int - '0' as int
  }

  /** The decimal digits of `n`, most significant first. */
  function Format(n: nat): (s: string)
    ensures |s| >= 1 && AllDigits(s)
    ensures s[0] == '0' ==> n == 0 && s == "0"
    decreases n
  {
    if n < 10 then [DigitChar(n)] else Format(n / 10) + [DigitChar(n % 10)]
  }

  /** The number a non-empty run of decimal digits denotes. */
  function Parse(s: string): (n: nat)
    requires |s| >= 1 && AllDigits(s)
    decreases |s|
  {
    if |s| == 1 then DigitValue(s[0])
    else Parse(s[..|s| - 1]) * 10 + DigitValue(s[|s| - 1])
  }

  /** Formatting loses nothing: the number can be read back from its text. */
  lemma {:induction false} ParseFormat(n: nat)
    ensures Parse(Format(n)) == n
    decreases n
  {
    if n >= 10 {
      var s := Format(n);
      assert s[..|s| - 1] == Format(n / 10);
      ParseFormat(n / 10);
    }
  }

  /** Hence distinct numbers have distinct texts. */
  lemma FormatInjective(a: nat, b: nat)
    ensures Format(a) == Format(b) ==> a == b
  {
    ParseFormat(a);
    ParseFormat(b);
  }
}
