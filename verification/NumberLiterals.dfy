/** Number literals: the compiler puts the text of a number token between the parentheses of `fl_int(...)`, and a C
    compiler reads it there. */
module NumberLiterals {
  import opened Wrappers
  import opened Bytes
  import opened Decimal
  import opened Lexer

  predicate AllOctal(t: string) {
    forall k | 0 <= k < |t| :: '0' <= t[k] <= '7'
  }

  function OctalValue(t: string): nat
    requires AllDigits(t) && AllOctal(t)
  {
    var n := |t| - 1;
    if n == 0 then DigitValue(t[0]) else 8 * OctalValue(t[..n]) + DigitValue(t[n])
  }

  /** What a C compiler makes of digits (C11 section 6.4.4.1): a zero in front makes them octal. None when they are no
      constant, or none that fits `long long`. */
  function CConstant(t: string): Option<nat>
    requires AllDigits(t)
  {
    if t[0] != '0' then Fitting(DecimalValue(t))
    else if AllOctal(t) then Fitting(OctalValue(t))
    else None
  }

  function Fitting(n: nat): Option<nat> {
    if n <= LLONG_MAX then Some(n) else None
  }

  lemma {:induction false} OctalIsSmaller(t: string)
    requires AllDigits(t) && AllOctal(t)
    ensures OctalValue(t) <= DecimalValue(t) && (OctalValue(t) == DecimalValue(t) <==> DecimalValue(t) < 8)
  {
    var n := |t| - 1;
    if n > 0 {
      OctalIsSmaller(t[..n]);
    }
  }

  lemma {:induction false} SmallIsOctal(t: string)
    requires AllDigits(t) && DecimalValue(t) < 8
    ensures AllOctal(t)
  {
    var n := |t| - 1;
    if n > 0 {
      SmallIsOctal(t[..n]);
      assert forall k | 0 <= k < n :: t[k] == t[..n][k];
    }
  }

  /** C reads the digits as the source means them if and only if they fit `long long` and have no zero in front, or
      stand for less than eight. */
  lemma {:induction false} DigitsDenoteExactly(t: string)
    requires AllDigits(t)
    ensures CConstant(t) == Some(DecimalValue(t))
            <==> DecimalValue(t) <= LLONG_MAX && (t[0] != '0' || DecimalValue(t) < 8)
  {
    if DecimalValue(t) < 8 {
      SmallIsOctal(t);
    }
    if AllOctal(t) {
      OctalIsSmaller(t);
    }
  }

  /** A run of digits and dots. */
  lemma {:induction false} RunOfDigits(s: string, i: nat, j: nat)
    requires i < j <= |s| && forall k | i <= k < j :: IsDigit(s[k]) || IsDot(s, k)
    ensures '.' !in s[i..j] ==> AllDigits(s[i..j])
  {
    forall k | 0 <= k < j - i && s[i..j][k] != '.'
      ensures IsDigit(s[i..j][k])
    {
      assert s[i..j][k] == s[i + k];
    }
  }

  /** A number token that starts with a digit: without a dot, its text is digits. */
  lemma {:induction false} NumberText(st: State)
    requires !AtEnd(st) && IsDigit(st.src[st.idx])
    ensures
      var j := TokenAt(st).idx;
      st.idx < j <= |st.src| && TokenAt(st).tokens == st.tokens + [Token(Number, st.src[st.idx..j], st.line, st.col)]
      && ('.' !in st.src[st.idx..j] ==> AllDigits(st.src[st.idx..j]))
  {
    NumberTaken(st, "", false, st.line, st.col);
    var j := NumberRest(st, "", false, st.line, st.col).idx;
    RunOfDigits(st.src, st.idx, j);
    assert "" + st.src[st.idx..j] == st.src[st.idx..j];
  }

  /** One that starts with a minus sign: the digits are behind it. */
  lemma {:induction false} NegativeText(st: State)
    requires st.idx + 1 < |st.src| && st.src[st.idx] == '-' && IsDigit(st.src[st.idx + 1])
    ensures
      var j := TokenAt(st).idx;
      st.idx + 1 < j <= |st.src|
      && TokenAt(st).tokens == st.tokens + [Token(Number, ['-'] + st.src[st.idx + 1..j], st.line, st.col)]
      && ('.' !in st.src[st.idx + 1..j] ==> AllDigits(st.src[st.idx + 1..j]))
  {
    var next := Advance(st);
    NumberTaken(next, ['-'], false, st.line, st.col);
    RunOfDigits(st.src, next.idx, NumberRest(next, ['-'], false, st.line, st.col).idx);
  }

  /** `010` is eight in C. */
  lemma {:induction false} LeadingZeroChanges()
    ensures DecimalValue("010") == 10 && CConstant("010") == Some(8)
  {
    assert "010"[..2] == "01" && "01"[..1] == "0";
  }

  /** `08` is no constant. */
  lemma {:induction false} EightIsNoOctal()
    ensures CConstant("08") == None
  {
    assert "08"[1] == '8';
  }
}
