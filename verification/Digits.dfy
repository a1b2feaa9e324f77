/** Decimal digits, powers of ten and the numeral of a natural number. */
module Digits {

  type Digit = d: int | 0 <= d < 10

  function Pow10(n: nat): nat { if n == 0 then 1 else 10 * Pow10(n - 1) }

  lemma {:induction false} Pow10Add(a: nat, b: nat)
    ensures Pow10(a + b) == Pow10(a) * Pow10(b)
  {
    if b > 0 { Pow10Add(a, b - 1); }
  }

  lemma {:induction false} Pow10Positive(n: nat)
    ensures Pow10(n) >= 1
  {
    if n > 0 { Pow10Positive(n - 1); }
  }

  /** The digits of a number, most significant first, without leading zeros. */
  function NatDigits(n: nat): (ds: seq<Digit>)
    ensures ds != [] && (ds[0] == 0 ==> ds == [0])
  {
    if n < 10 then [n] else NatDigits(n / 10) + [n % 10]
  }

  lemma {:induction false} PowerDigits(k: nat)
    ensures |NatDigits(Pow10(k))| == k + 1
  {
    if k > 0 {
      PowerDigits(k - 1);
      Pow10Positive(k - 1);
      assert Pow10(k) / 10 == Pow10(k - 1);
    }
  }

  function DigitChar(d: Digit): char { ('0' as int + d) as char }

  predicate IsDigit(c: char) { '0' <= c <= '9' }

  predicate IsDigits(x: string) { forall i :: 0 <= i < |x| ==> IsDigit(x[i]) }

  function ToText(ds: seq<Digit>): (x: string)
    ensures |x| == |ds| && IsDigits(x) && forall i :: 0 <= i < |x| ==> x[i] == DigitChar(ds[i])
  {
    seq(|ds|, i requires 0 <= i < |ds| => DigitChar(ds[i]))
  }

  /** Python's `str` of a natural number. */
  function Numeral(n: nat): string { ToText(NatDigits(n)) }
}
