// Decimal digits: what a string of them stands for, and how numbers print.
module Numerals {
  predicate IsDigit(c: char) { '0' <= c <= '9' }

  predicate AllDigits(s: string) { forall i :: 0 <= i < |s| ==> IsDigit(s[i]) }

  function DigitOf(c: char): (d: nat)
    requires IsDigit(c)
    ensures d <= 9
  {
    c as int - '0' as int
  }

  function Num(s: string): nat
    requires AllDigits(s)
  {
    if s == [] then 0 else 10 * Num(s[..|s| - 1]) + DigitOf(s[|s| - 1])
  }

  function DigitChar(d: nat): (c: char)
    requires d <= 9
    ensures IsDigit(c) && DigitOf(c) == d
  {
    (d + '0' as int) as char
  }

  // BigInt.toString of a non-negative number.
  function Digits(n: nat): (s: string)
    ensures s != [] && AllDigits(s) && Num(s) == n
  {
    if n < 10 then
      var s := [DigitChar(n)];
      assert s[..0] == [];
      s
    else
      var s := Digits(n / 10) + [DigitChar(n % 10)];
      assert s[..|s| - 1] == Digits(n / 10);
      s
  }

  function Pow10(n: nat): (p: nat)
    ensures p >= 1
  {
    if n == 0 then 1 else 10 * Pow10(n - 1)
  }

  lemma {:induction false} NumAppend(s: string, t: string)
    requires AllDigits(s) && AllDigits(t)
    ensures AllDigits(s + t) && Num(s + t) == Num(s) * Pow10(|t|) + Num(t)
  {
    if t == [] {
      assert s + t == s;
    } else {
      var init := t[..|t| - 1];
      NumAppend(s, init);
      assert (s + t)[..|s + t| - 1] == s + init;
      assert (s + t)[|s + t| - 1] == t[|t| - 1];
      ShiftIn(Num(s), Pow10(|init|), Num(init), DigitOf(t[|t| - 1]));
    }
  }

  lemma ShiftIn(n: nat, p: nat, m: nat, d: nat)
    ensures 10 * (n * p + m) + d == n * (10 * p) + (10 * m + d)
  {
  }

  lemma {:induction false} NumBound(s: string)
    requires AllDigits(s)
    ensures Num(s) < Pow10(|s|)
  {
    if s != [] { NumBound(s[..|s| - 1]); }
  }

  lemma AllDigitsAppend(s: string, t: string)
    requires AllDigits(s) && AllDigits(t)
    ensures AllDigits(s + t)
  {
  }

  lemma OneDigit(c: string)
    requires |c| == 1 && AllDigits(c)
    ensures Num(c) == DigitOf(c[0])
  {
    assert c[..0] == [];
  }

  lemma {:induction false} NumZero(s: string)
    requires AllDigits(s)
    ensures Num(s) == 0 <==> forall i :: 0 <= i < |s| ==> s[i] == '0'
  {
    if s != [] {
      var (init, last) := (s[..|s| - 1], s[|s| - 1]);
      NumZero(init);
      assert DigitOf(last) == 0 <==> last == '0';
      if forall i :: 0 <= i < |init| ==> init[i] == '0' {
        assert last == '0' ==> forall i :: 0 <= i < |s| ==> s[i] == '0';
      }
    }
  }

  // A number in exactly `width` digits.
  function Pad(n: nat, width: nat): (s: string)
    requires n < Pow10(width)
    ensures |s| == width && AllDigits(s) && Num(s) == n
  {
    if width == 0 then []
    else
      var s := Pad(n / 10, width - 1) + [DigitChar(n % 10)];
      assert s[..|s| - 1] == Pad(n / 10, width - 1);
      s
  }
}
