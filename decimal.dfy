/** Python's `str(n)` for the non-negative clock readings the backend turns into ids. */
module Decimal {

  predicate IsDigit(c: char) {
    '0' <= c <= '9'
  }

  function DigitChar(d: nat): (c: char)
    requires d < 10
    ensures IsDigit(c)
  {
    ('0' as int + d) as char
  }

  function DigitValue(c: char): nat {
    if IsDigit(c) then c as int - '0' as int else 0
  }

  /** Decimal digits of n, most significant first, with no leading zero. */
  function NatToString(n: nat): (s: string)
    ensures |s| > 0
    ensures forall i :: 0 <= i < |s| ==> IsDigit(s[i])
    ensures s[0] == '0' ==> n == 0
  {
    if n < 10 then [DigitChar(n)] else NatToString(n / 10) + [DigitChar(n % 10)]
  }

  /** The value of a string of decimal digits. */
  function ParseDigits(s: string): nat {
    if |s| == 0 then 0 else ParseDigits(s[..|s| - 1]) * 10 + DigitValue(s[|s| - 1])
  }

  /** Reading the digits back gives the number. */
  lemma {:induction false} ParseNatToString(n: nat)
    ensures ParseDigits(NatToString(n)) == n
  {
    if n >= 10 {
      var s := NatToString(n);
      ParseNatToString(n / 10);
      assert s[..|s| - 1] == NatToString(n / 10);
    }
  }

  /** Different numbers have different decimal renderings. */
  lemma NatToStringInjective(a: nat, b: nat)
    requires NatToString(a) == NatToString(b)
    ensures a == b
  {
    ParseNatToString(a);
    ParseNatToString(b);
  }

  /** A fixed prefix followed by the digits of n, as in `f"doc_{n}"`. */
  function Tagged(prefix: string, n: nat): string {
    prefix + NatToString(n)
  }

  /** Ids built from the same prefix are equal only for the same clock reading. */
  lemma TaggedInjective(prefix: string, a: nat, b: nat)
    requires Tagged(prefix, a) == Tagged(prefix, b)
    ensures a == b
  {
    assert NatToString(a) == Tagged(prefix, a)[|prefix|..];
    assert NatToString(b) == Tagged(prefix, b)[|prefix|..];
    NatToStringInjective(a, b);
  }
}
