/** Decimal numerals, as Python's `str` renders a non-negative `int`.
    The game keys its players by these strings, so the fact that matters
    is that different ids give different keys: `Parse` is a left inverse
    of `Digits`. */
module Decimal {

  predicate IsDigit(c: char) {
    '0' <= c <= '9'
  }

  function DigitChar(d: nat): (c: char)
    requires d < 10
    ensures IsDigit(c)
  {
    (48 + d) as char
  }

  function DigitValue(c: char): int {
    c as int - 48
  }

  /** The shortest decimal numeral of `n`: no sign, no leading zero. */
  function Digits(n: nat): (s: string)
    ensures |s| >= 1 && (|s| == 1 <==> n < 10)
    ensures forall i :: 0 <= i < |s| ==> IsDigit(s[i])
    ensures s[0] == '0' ==> n == 0
    decreases n
  {
    if n < 10 then [DigitChar(n)] else Digits(n / 10) + [DigitChar(n % 10)]
  }

  /** Reads a numeral back, most significant digit first. */
  function Parse(s: string): int
  {
    if s == [] then 0 else Parse(s[..|s| - 1]) * 10 + DigitValue(s[|s| - 1])
  }

  lemma {:induction false} ParseDigits(n: nat)
    ensures Parse(Digits(n)) == n
    decreases n
  {
    if n >= 10 {
      var s := Digits(n);
      assert s[..|s| - 1] == Digits(n / 10);
      ParseDigits(n / 10);
    }
  }

  /** Distinct ids give distinct keys. */
  lemma DigitsInjective(a: nat, b: nat)
    ensures Digits(a) == Digits(b) <==> a == b
  {
    ParseDigits(a);
    ParseDigits(b);
  }
}
