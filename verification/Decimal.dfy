/** Whole numbers as decimal digits. */
module Decimal {
  predicate IsDigit(c: char) { '0' <= c <= '9' }

  function DigitValue(c: char): nat
    requires IsDigit(c)
  {
    (c - '0') as nat
  }

  function PrintNat(n: nat): (r: string)
    ensures |r| > 0 && forall k | 0 <= k < |r| :: '0' <= r[k] <= '9'
  {
    if n < 10 then ['0' + n as char] else PrintNat(n / 10) + ['0' + (n % 10) as char]
  }

  function PrintInt(i: int): string {
    if i < 0 then ['-'] + PrintNat(-i) else PrintNat(i)
  }

  predicate AllDigits(t: string) {
    t != "" && forall k | 0 <= k < |t| :: IsDigit(t[k])
  }

  /** Digits without a superfluous zero in front: what `PrintNat` writes. */
  predicate IsDecimal(t: string) {
    AllDigits(t) && (t[0] == '0' ==> |t| == 1)
  }

  /** What the digits stand for in base ten. */
  function DecimalValue(t: string): nat
    requires AllDigits(t)
  {
    var n := |t| - 1;
    if n == 0 then DigitValue(t[0]) else 10 * DecimalValue(t[..n]) + DigitValue(t[n])
  }

  lemma {:induction false} ValueOfPrinted(n: nat)
    ensures IsDecimal(PrintNat(n)) && DecimalValue(PrintNat(n)) == n
    ensures PrintNat(n)[0] == '0' ==> n == 0
  {
    var t := PrintNat(n);
    if n >= 10 {
      ValueOfPrinted(n / 10);
      assert t[..|t| - 1] == PrintNat(n / 10);
      assert t[0] == PrintNat(n / 10)[0];
    }
  }

  lemma {:induction false} PrintedValue(t: string)
    requires IsDecimal(t)
    ensures PrintNat(DecimalValue(t)) == t && (t[0] != '0' ==> DecimalValue(t) > 0)
  {
    var n := |t| - 1;
    if n > 0 {
      var high := t[..n];
      assert high[0] == t[0];
      PrintedValue(high);
      assert t == high + [t[n]];
      LastDigit(DecimalValue(high), DigitValue(t[n]));
    }
  }

  lemma {:induction false} LastDigit(high: nat, d: nat)
    requires d < 10
    ensures (10 * high + d) / 10 == high && (10 * high + d) % 10 == d
  {
  }

  function Pow10(k: nat): nat {
    if k == 0 then 1 else 10 * Pow10(k - 1)
  }

  lemma {:induction false} ShiftDigits(acc: nat, pow: nat, n: nat)
    ensures (acc * pow + n / 10) * 10 + n % 10 == acc * (10 * pow) + n
  {
    assert acc * (10 * pow) == acc * pow * 10;
  }
}
