// Money on the dashboard: decimal strings, integer kobo, and their display.
module Money {
  import opened Common
  import opened Numerals

  // padStart(2, '0') of a number below 100.
  function TwoDigits(n: nat): (s: string)
    requires n < 100
    ensures |s| == 2 && AllDigits(s) && Num(s) == n
  {
    var d := Digits(n);
    DigitsLength(n);
    if |d| < 2 then
      var s := ['0'] + d;
      NumAppend(['0'], d);
      assert Num(['0']) == 0 by { assert ['0'][..0] == []; }
      s
    else d
  }

  lemma DigitsLength(n: nat)
    requires n < 100
    ensures 1 <= |Digits(n)| <= 2
  {
  }

  // ---- parsing ------------------------------------------------------------------------

  // White space and line terminators, as String.prototype.trim strips them.
  predicate IsSpace(c: char) {
    || '\t' <= c <= '\r' || c == ' ' || c == '\U{A0}' || c == '\U{1680}' || '\U{2000}' <= c <= '\U{200A}'
    || c == '\U{2028}' || c == '\U{2029}' || c == '\U{202F}' || c == '\U{205F}' || c == '\U{3000}' || c == '\U{FEFF}'
  }

  function TrimText(s: string): string {
    if s == [] then s
    else if IsSpace(s[0]) then TrimText(s[1..])
    else if IsSpace(s[|s| - 1]) then TrimText(s[..|s| - 1])
    else s
  }

  datatype Decimal = Decimal(negative: bool, whole: string, frac: string)

  predicate ValidDecimal(d: Decimal) { AllDigits(d.whole) && AllDigits(d.frac) && d.whole != [] }

  // The regular expression: an optional sign, digits, and optionally a point
  // followed by any number of digits (none is fine).
  function MatchDecimal(s: string): (r: Option<Decimal>)
    ensures r.Some? ==> ValidDecimal(r.value)
  {
    if s != [] && (s[0] == '+' || s[0] == '-') then MatchUnsigned(s[0] == '-', s[1..]) else MatchUnsigned(false, s)
  }

  function MatchUnsigned(negative: bool, s: string): (r: Option<Decimal>)
    ensures r.Some? ==> ValidDecimal(r.value) && r.value.negative == negative
  {
    var dot := IndexOf(s, '.');
    var whole := s[..dot];
    var frac := if dot < |s| then s[dot + 1..] else [];
    if whole != [] && AllDigits(whole) && AllDigits(frac) then Some(Decimal(negative, whole, frac)) else None
  }

  function Magnitude(d: Decimal): nat
    requires ValidDecimal(d)
  {
    var kobo := Num(d.whole) * 100 + Num((d.frac + "00")[..2]);
    if |d.frac| > 2 && d.frac[2] >= '5' then kobo + 1 else kobo
  }

  function KoboOf(d: Decimal): int
    requires ValidDecimal(d)
  {
    if d.negative then 0 - Magnitude(d) else Magnitude(d)
  }

  function ToKobo(value: Option<string>): Option<int> {
    if value.None? then None
    else
      match MatchDecimal(TrimText(value.value))
      case None => None
      case Some(d) => Some(KoboOf(d))
  }

  // ---- printing and the round trip --------------------------------------------------------

  function KoboToDecimalString(kobo: int): string {
    (if kobo < 0 then "-" else "") + Digits(Abs(kobo) / 100) + "." + TwoDigits(Abs(kobo) % 100)
  }

  lemma NothingToTrim(s: string)
    requires s != [] && !IsSpace(s[0]) && !IsSpace(s[|s| - 1])
    ensures TrimText(s) == s
  {
  }

  // Digits, and optionally a point with any number of digits behind it.
  predicate WrittenUnsigned(s: string, d: Decimal, dotted: bool) {
    && ValidDecimal(d) && (!dotted ==> d.frac == "")
    && s == d.whole + if dotted then "." + d.frac else ""
  }

  // `s` is a decimal as the grammar allows it: an optional sign before that.
  predicate Written(s: string, d: Decimal, sign: string, dotted: bool) {
    && (sign == "" || sign == "+" || sign == "-") && d.negative == (sign == "-")
    && sign <= s && WrittenUnsigned(s[|sign|..], d, dotted)
  }

  lemma UnsignedMatches(s: string, d: Decimal, dotted: bool)
    requires WrittenUnsigned(s, d, dotted)
    ensures MatchUnsigned(d.negative, s) == Some(d) && IsDigit(s[0])
  {
    hide IndexOf;
    assert s[..|d.whole|] == d.whole && s[0] == d.whole[0];
    if dotted {
      assert s[|d.whole|] == '.' && s[|d.whole| + 1..] == d.frac;
    }
    IndexOfFirst(s, '.', |d.whole|);
  }

  lemma UnsignedIsWritten(negative: bool, s: string) returns (dotted: bool)
    requires MatchUnsigned(negative, s).Some?
    ensures WrittenUnsigned(s, MatchUnsigned(negative, s).value, dotted)
  {
    hide IndexOf, AllDigits;
    var dot := IndexOf(s, '.');
    dotted := dot < |s|;
    if dotted {
      assert s == s[..dot] + ("." + s[dot + 1..]);
    } else {
      assert s == s[..dot] + "";
    }
  }

  lemma WrittenMatches(s: string, d: Decimal, sign: string, dotted: bool)
    requires Written(s, d, sign, dotted)
    ensures MatchDecimal(s) == Some(d)
  {
    hide MatchUnsigned, WrittenUnsigned;
    var rest := s[|sign|..];
    RestHasDigit(rest, d, dotted);
    UnsignedMatches(rest, d, dotted);
    if sign == "" { assert rest == s; } else { assert s[0] == sign[0] && rest == s[1..]; }
  }

  lemma RestHasDigit(s: string, d: Decimal, dotted: bool)
    requires WrittenUnsigned(s, d, dotted)
    ensures s != []
  {
  }

  lemma MatchIsWritten(s: string) returns (sign: string, dotted: bool)
    requires MatchDecimal(s).Some?
    ensures Written(s, MatchDecimal(s).value, sign, dotted)
  {
    hide MatchUnsigned, WrittenUnsigned;
    if s != [] && (s[0] == '+' || s[0] == '-') {
      sign := [s[0]];
      dotted := UnsignedIsWritten(s[0] == '-', s[1..]);
    } else {
      sign := "";
      dotted := UnsignedIsWritten(false, s);
      assert s[0..] == s;
    }
  }

  // Exactly the grammar is accepted, with this reading.
  lemma AcceptedIff(s: string, d: Decimal)
    ensures MatchDecimal(s) == Some(d) <==> exists sign, dotted :: Written(s, d, sign, dotted)
  {
    hide MatchDecimal, Written;
    if MatchDecimal(s) == Some(d) {
      var sign, dotted := MatchIsWritten(s);
    }
    if sign, dotted :| Written(s, d, sign, dotted) {
      WrittenMatches(s, d, sign, dotted);
    }
  }

  predicate AllSpace(s: string) { forall i :: 0 <= i < |s| ==> IsSpace(s[i]) }

  // White space around the text is ignored.
  lemma {:induction false} TrimsAround(before: string, s: string, after: string)
    requires AllSpace(before) && AllSpace(after) && s != [] && !IsSpace(s[0]) && !IsSpace(s[|s| - 1])
    ensures TrimText(before + s + after) == s
    decreases |before| + |after|
  {
    hide IsSpace;
    var t := before + s + after;
    if before != [] {
      assert t[0] == before[0] && t[1..] == before[1..] + s + after;
      TrimsAround(before[1..], s, after);
    } else if after != [] {
      assert t[0] == s[0] && t[|t| - 1] == after[|after| - 1];
      assert t[..|t| - 1] == before + s + after[..|after| - 1];
      TrimsAround(before, s, after[..|after| - 1]);
    } else {
      assert t == s;
    }
  }

  lemma SpaceIsIgnored(before: string, s: string, after: string)
    requires AllSpace(before) && AllSpace(after) && s != [] && !IsSpace(s[0]) && !IsSpace(s[|s| - 1])
    ensures ToKobo(Some(before + s + after)) == ToKobo(Some(s))
  {
    hide IsSpace, TrimText, MatchDecimal;
    TrimsAround(before, s, after);
    TrimsAround([], s, []);
    assert [] + s + [] == s;
  }

  lemma MatchPlain(sign: string, whole: string, frac: string)
    requires sign == "" || sign == "-"
    requires whole != [] && AllDigits(whole) && AllDigits(frac)
    ensures MatchDecimal(sign + whole + "." + frac) == Some(Decimal(sign == "-", whole, frac))
  {
    hide MatchDecimal;
    var s := sign + whole + "." + frac;
    assert s[|sign|..] == whole + ("." + frac) && s[..|sign|] == sign;
    WrittenMatches(sign + whole + "." + frac, Decimal(sign == "-", whole, frac), sign, true);
  }

  // Printing and parsing back is the identity on every amount.
  lemma RoundTrip(kobo: int)
    ensures ToKobo(Some(KoboToDecimalString(kobo))) == Some(kobo)
  {
    hide Num, Digits, TwoDigits, MatchDecimal, TrimText;
    var s := KoboToDecimalString(kobo);
    var (whole, frac) := (Digits(Abs(kobo) / 100), TwoDigits(Abs(kobo) % 100));
    assert IsDigit(whole[0]) && s[0] == if kobo < 0 then '-' else whole[0];
    assert IsDigit(frac[1]) && s[|s| - 1] == frac[1];
    NothingToTrim(s);
    MatchPlain(if kobo < 0 then "-" else "", whole, frac);
    assert (frac + "00")[..2] == frac;
  }

  // ---- rounding ------------------------------------------------------------------------------

  // The exact value of a decimal times 10 to the number of its decimals.
  function Scaled(d: Decimal): nat
    requires ValidDecimal(d)
  {
    AllDigitsAppend(d.whole, d.frac);
    Num(d.whole + d.frac)
  }

  // However many decimals, the magnitude in kobo is the exact magnitude
  // rounded half up: the remainder lies in [-1/2, 1/2) kobo. With the sign
  // put back that is rounding half away from zero.
  lemma RoundsHalfAwayFromZero(d: Decimal)
    requires ValidDecimal(d)
    ensures 0 - Pow10(|d.frac|) <= 2 * (100 * Scaled(d) - Magnitude(d) * Pow10(|d.frac|)) < Pow10(|d.frac|)
    ensures |d.frac| <= 2 ==> 100 * Scaled(d) == Magnitude(d) * Pow10(|d.frac|)
  {
    hide Num;
    NumAppend(d.whole, d.frac);
    var f := |d.frac|;
    if f <= 2 {
      ShortFraction(d.frac);
      Distribute(Num(d.whole), Num((d.frac + "00")[..2]), Pow10(f));
    } else {
      LongFraction(d.frac);
      var up := if d.frac[2] >= '5' then 1 else 0;
      assert (d.frac + "00")[..2] == d.frac[..2];
      Distribute(Num(d.whole), Num(d.frac[..2]) + up, Pow10(f));
    }
  }

  // The decimals after the second are all zero.
  predicate NoFurtherDecimals(d: Decimal) { forall i :: 2 <= i < |d.frac| ==> d.frac[i] == '0' }

  // Nothing is rounded away exactly when no further decimal is there to round.
  lemma ExactIffNoFurtherDecimals(d: Decimal)
    requires ValidDecimal(d)
    ensures 100 * Scaled(d) == Magnitude(d) * Pow10(|d.frac|) <==> NoFurtherDecimals(d)
  {
    hide Num;
    var f := |d.frac|;
    if f <= 2 {
      RoundsHalfAwayFromZero(d);
    } else {
      var (head, tail) := (d.frac[..2], d.frac[2..]);
      var up := if d.frac[2] >= '5' then 1 else 0;
      assert d.frac == head + tail && (d.frac + "00")[..2] == head;
      NumAppend(d.whole, d.frac);
      NumAppend(head, tail);
      NumBound(tail);
      NumZero(tail);
      assert forall i :: 0 <= i < |tail| ==> tail[i] == d.frac[i + 2];
      assert NoFurtherDecimals(d) <==> forall i :: 0 <= i < |tail| ==> tail[i] == '0' by {
        forall i | 2 <= i < |d.frac| ensures d.frac[i] == tail[i - 2] {}
      }
      PowTwo(|tail|);
      TailDecides(Num(d.whole), Num(head), up, Num(tail), Pow10(|tail|));
      assert tail[0] == d.frac[2];
    }
  }

  lemma PowTwo(m: nat)
    ensures Pow10(m + 2) == 100 * Pow10(m)
  {
    assert Pow10(m + 2) == 10 * Pow10(m + 1);
  }

  lemma TailDecides(w: nat, a: nat, up: nat, t: nat, q: nat)
    requires up <= 1 && t < q
    ensures 100 * (w * (100 * q) + (a * q + t)) == (w * 100 + (a + up)) * (100 * q) <==> up == 0 && t == 0
  {
    assert 100 * (w * (100 * q) + (a * q + t)) == (w * 100 + a) * (100 * q) + 100 * t;
    assert (w * 100 + (a + up)) * (100 * q) == (w * 100 + a) * (100 * q) + up * (100 * q);
    assert up == 1 ==> up * (100 * q) == 100 * q;
    assert up == 0 ==> up * (100 * q) == 0;
  }

  lemma Distribute(w: nat, a: int, p: nat)
    ensures (w * 100 + a) * p == 100 * (w * p) + a * p
  {
  }

  lemma ShortFraction(frac: string)
    requires AllDigits(frac) && |frac| <= 2
    ensures Num((frac + "00")[..2]) * Pow10(|frac|) == 100 * Num(frac)
  {
    var z := "00"[..2 - |frac|];
    assert (frac + "00")[..2] == frac + z;
    NumAppend(frac, z);
    assert Num(z) == 0 by {
      if |z| == 1 { assert z[..0] == []; }
      if |z| == 2 { assert z[..1] == "0" && "0"[..0] == []; }
    }
    assert Pow10(0) == 1 && Pow10(1) == 10 && Pow10(2) == 100;
  }

  lemma LongFraction(frac: string)
    requires AllDigits(frac) && |frac| > 2
    ensures var up := if frac[2] >= '5' then 1 else 0;
      0 - Pow10(|frac|) <= 2 * (100 * Num(frac) - (Num(frac[..2]) + up) * Pow10(|frac|)) < Pow10(|frac|)
  {
    hide Num;
    var (a, c, rest) := (frac[..2], frac[2..3], frac[3..]);
    var p := Pow10(|rest|);
    assert frac == a + (c + rest);
    NumAppend(a, c + rest);
    NumAppend(c, rest);
    NumBound(rest);
    assert Num(c) == DigitOf(frac[2]) by { OneDigit(c); }
    PowThree(|rest|);
    var (n, k, r) := (Num(a), Num(c), Num(rest));
    assert Num(frac) == n * (10 * p) + (k * p + r);
    Expand(n, k, r, p);
  }

  lemma PowThree(m: nat)
    ensures Pow10(m + 1) == 10 * Pow10(m) && Pow10(m + 3) == 1000 * Pow10(m)
  {
    assert Pow10(m + 2) == 10 * Pow10(m + 1);
  }

  lemma Expand(n: nat, k: nat, r: nat, p: nat)
    requires k <= 9 && r < p
    ensures var (num, up) := (n * (10 * p) + (k * p + r), if k >= 5 then 1 else 0);
      -1000 * p <= 2 * (100 * num - (n + up) * (1000 * p)) < 1000 * p
  {
    assert 100 * (n * (10 * p)) == n * (1000 * p);
    var up := if k >= 5 then 1 else 0;
    assert (n + up) * (1000 * p) == n * (1000 * p) + up * (1000 * p);
    assert k <= 4 ==> k * p <= 4 * p;
    assert k >= 5 ==> 5 * p <= k * p <= 9 * p;
  }

  // ---- sums --------------------------------------------------------------------------------------

  function SumKobo(values: seq<Option<string>>): int {
    if values == [] then 0
    else
      var v := ToKobo(values[|values| - 1]);
      SumKobo(values[..|values| - 1]) + if v.Some? then v.value else 0
  }

  predicate Parseable(value: Option<string>) { ToKobo(value).Some? }

  // The exact amount in kobo, as a rational.
  function ExactKobo(value: Option<string>): real {
    if !Parseable(value) then 0.0
    else
      var d := MatchDecimal(TrimText(value.value)).value;
      var x := (100 * Scaled(d)) as real / Pow10(|d.frac|) as real;
      if d.negative then -x else x
  }

  function SumExact(values: seq<Option<string>>): real {
    if values == [] then 0.0 else SumExact(values[..|values| - 1]) + ExactKobo(values[|values| - 1])
  }

  // A whole number of kobo, however many decimals it is written with.
  predicate WholeKobo(value: Option<string>) {
    Parseable(value) ==> NoFurtherDecimals(MatchDecimal(TrimText(value.value)).value)
  }

  function KoboOrZero(value: Option<string>): int {
    if ToKobo(value).Some? then ToKobo(value).value else 0
  }

  lemma OneValue(value: Option<string>)
    ensures -0.5 <= ExactKobo(value) - KoboOrZero(value) as real <= 0.5
    ensures ExactKobo(value) == KoboOrZero(value) as real <==> WholeKobo(value)
  {
    hide MatchDecimal, TrimText, Scaled, Magnitude, Pow10, NoFurtherDecimals;
    if Parseable(value) {
      var d := MatchDecimal(TrimText(value.value)).value;
      RoundsHalfAwayFromZero(d);
      ExactIffNoFurtherDecimals(d);
      Quotient(100 * Scaled(d), Magnitude(d), Pow10(|d.frac|));
    }
  }

  lemma Quotient(x: nat, k: nat, p: nat)
    requires p >= 1 && 0 - p <= 2 * (x - k * p) < p
    ensures -0.5 <= x as real / p as real - k as real <= 0.5
    ensures x == k * p <==> x as real / p as real == k as real
  {
    var kp := k * p;
    ProductAsReal(k, p);
    assert 0.0 - p as real <= 2.0 * (x as real - kp as real) <= p as real;
    QuotientOfReals(x as real, k as real, p as real);
  }

  lemma ProductAsReal(k: nat, p: nat)
    ensures (k * p) as real == k as real * p as real
  {
  }

  lemma QuotientOfReals(x: real, k: real, p: real)
    requires p > 0.0 && 0.0 - p <= 2.0 * (x - k * p) <= p
    ensures -0.5 <= x / p - k <= 0.5
    ensures x == k * p <==> x / p == k
  {
    var e := x / p - k;
    assert e * p == x - k * p;
    if e > 0.5 { ScaleUp(e, 0.5, p); }
    if e < -0.5 { ScaleUp(-0.5, e, p); }
    if x == k * p { Cancel(e, 0.0, p); }
  }

  lemma Cancel(x: real, y: real, p: real)
    requires x * p == y * p && p > 0.0
    ensures x == y
  {
    if x > y { ScaleUp(x, y, p); }
    if y > x { ScaleUp(y, x, p); }
  }

  lemma ScaleUp(x: real, y: real, p: real)
    requires x > y && p > 0.0
    ensures x * p > y * p
  {
  }

  // The sum is off by at most half a kobo per value, and exact over whole
  // numbers of kobo.
  lemma {:induction false} SumAccuracy(values: seq<Option<string>>)
    ensures AbsReal(SumExact(values) - SumKobo(values) as real) <= 0.5 * |values| as real
    ensures (forall v :: v in values ==> WholeKobo(v)) ==> SumExact(values) == SumKobo(values) as real
  {
    hide ToKobo, ExactKobo, WholeKobo;
    if values != [] {
      var (init, v) := (values[..|values| - 1], values[|values| - 1]);
      SumAccuracy(init);
      OneValue(v);
      assert forall x :: x in init ==> x in values;
    }
  }

  // Exactly when sums are exact: every sum over a set of values is, if and
  // only if each of them is a whole number of kobo, that is, has only zeros
  // after its second decimal.
  lemma SumsExactIff(values: iset<Option<string>>)
    ensures (forall vs: seq<Option<string>> :: (forall v :: v in vs ==> v in values) ==>
               SumExact(vs) == SumKobo(vs) as real) <==>
            (forall v :: v in values ==> WholeKobo(v))
  {
    hide SumExact, SumKobo, WholeKobo;
    if v :| v in values && !WholeKobo(v) {
      SumOfOne(v);
      OneValue(v);
      assert forall u :: u in [v] ==> u in values;
    }
    forall vs: seq<Option<string>> | (forall v :: v in vs ==> v in values) && forall v :: v in values ==> WholeKobo(v)
      ensures SumExact(vs) == SumKobo(vs) as real
    {
      SumAccuracy(vs);
    }
  }

  lemma SumOfOne(v: Option<string>)
    ensures SumExact([v]) == ExactKobo(v) && SumKobo([v]) == KoboOrZero(v)
  {
    hide ToKobo, ExactKobo;
    assert [v][..0] == [];
  }

  // With a third decimal the sum need not be exact: two values of 0.4 kobo
  // add up to nothing.
  lemma SumNotExact()
    ensures SumKobo([Some("0.004"), Some("0.004")]) == 0
    ensures SumExact([Some("0.004"), Some("0.004")]) > 0.5
  {
    var v := Some("0.004");
    SmallValue();
    SumOfOne(v);
    var vs := [v, v];
    assert vs[..1] == [v];
    hide ToKobo, ExactKobo;
    assert SumKobo(vs) == 0 && SumExact(vs) == 0.8;
  }

  lemma SmallValue()
    ensures ToKobo(Some("0.004")) == Some(0) && ExactKobo(Some("0.004")) == 0.4
  {
    hide Num, TrimText, MatchDecimal;
    NothingToTrim("0.004");
    MatchPlain("", "0", "004");
    assert "" + "0" + "." + "004" == "0.004";
    OneDigit("0");
    assert ("004" + "00")[..2] == "0" + "0";
    NumAppend("0", "0");
    assert "0" + "004" == ("0" + "0") + ("0" + "4");
    OneDigit("4");
    NumAppend("0", "4");
    NumAppend("0" + "0", "0" + "4");
    assert Pow10(3) == 1000 by { PowThree(0); assert Pow10(0) == 1; }
  }

  // ---- grouping ------------------------------------------------------------------------------------

  // A comma before every position inside the digits with a multiple of three
  // digits to its right.
  function GroupFrom(digits: string, i: nat): string
    requires i <= |digits|
    decreases |digits| - i
  {
    if i == |digits| then []
    else (if i > 0 && (|digits| - i) % 3 == 0 then [','] else []) + [digits[i]] + GroupFrom(digits, i + 1)
  }

  function GroupThousands(digits: string): string { GroupFrom(digits, 0) }

  function RemoveCommas(s: string): string { Filter(s, (c: char) => c != ',') }

  lemma {:induction false} UngroupFrom(digits: string, i: nat)
    requires AllDigits(digits) && i <= |digits|
    ensures RemoveCommas(GroupFrom(digits, i)) == digits[i..]
    decreases |digits| - i
  {
    if i < |digits| {
      UngroupFrom(digits, i + 1);
      var head := if i > 0 && (|digits| - i) % 3 == 0 then [',', digits[i]] else [digits[i]];
      assert GroupFrom(digits, i) == head + GroupFrom(digits, i + 1);
      FilterAppend(head, GroupFrom(digits, i + 1), (c: char) => c != ',');
      assert [digits[i]][1..] == [] && [',', digits[i]][1..] == [digits[i]];
      assert RemoveCommas([digits[i]]) == [digits[i]];
      assert RemoveCommas(head) == [digits[i]];
    }
  }

  // Removing the commas undoes the grouping, and counted from the right the
  // commas are exactly every fourth character.
  lemma GroupingUndone(digits: string)
    requires AllDigits(digits)
    ensures RemoveCommas(GroupThousands(digits)) == digits
    ensures var g := GroupThousands(digits);
      forall j :: 0 <= j < |g| ==> (g[j] == ',' <==> (|g| - j) % 4 == 0)
  {
    UngroupFrom(digits, 0);
    assert digits[0..] == digits;
    CommasFrom(digits, 0);
  }

  lemma CommaArithmetic(rest: nat)
    requires rest >= 1
    ensures rest / 3 == (rest - 1) / 3 + if rest % 3 == 0 then 1 else 0
    ensures (rest + rest / 3) % 4 == 0 <==> rest % 3 == 0
    ensures rest % 3 == 0 ==> (rest + rest / 3) % 4 == 0 && (rest + rest / 3 - 1) % 4 != 0
    ensures (rest + (rest - 1) / 3) % 4 != 0
  {
    var m := (rest - 1) / 3;
    var r := (rest - 1) % 3;
    assert rest == 3 * m + r + 1;
    assert rest + m == 4 * m + r + 1;
    if r == 2 { assert rest == 3 * (m + 1) && rest + rest / 3 == 4 * (m + 1); }
  }

  lemma {:induction false} CommasFrom(digits: string, i: nat)
    requires AllDigits(digits) && i <= |digits|
    ensures var (g, rest) := (GroupFrom(digits, i), |digits| - i);
      && |g| == rest + (if i == 0 then (if rest == 0 then 0 else (rest - 1) / 3) else rest / 3)
      && forall j :: 0 <= j < |g| ==> (g[j] == ',' <==> (|g| - j) % 4 == 0)
    decreases |digits| - i
  {
    if i < |digits| {
      CommasFrom(digits, i + 1);
      var (g, t, rest) := (GroupFrom(digits, i), GroupFrom(digits, i + 1), |digits| - i);
      assert |t| == rest - 1 + (rest - 1) / 3;
      var k := |g| - |t|;
      CommaArithmetic(rest);
      assert g == (if k == 2 then [','] else []) + [digits[i]] + t;
      CommaHead(t, digits[i], k == 2);
    }
  }

  // Prepending a digit, and a comma where the counts call for one, keeps the
  // commas on every fourth character from the right.
  lemma CommaHead(t: string, d: char, comma: bool)
    requires IsDigit(d) && forall j :: 0 <= j < |t| ==> (t[j] == ',' <==> (|t| - j) % 4 == 0)
    requires (|t| + 1) % 4 != 0 && (comma ==> (|t| + 2) % 4 == 0)
    ensures var g := (if comma then [','] else []) + [d] + t;
      forall j :: 0 <= j < |g| ==> (g[j] == ',' <==> (|g| - j) % 4 == 0)
  {
    var (k, g) := (if comma then 2 else 1, (if comma then [','] else []) + [d] + t);
    forall j | 0 <= j < |g| ensures g[j] == ',' <==> (|g| - j) % 4 == 0 {
      if j >= k { assert g[j] == t[j - k] && |g| - j == |t| - (j - k); }
    }
  }

  // ---- full display ---------------------------------------------------------------------------------

  const NAIRA := '\U{20A6}'
  const MINUS := '\U{2212}'

  function FormatKobo(kobo: int): string {
    (if kobo < 0 then [MINUS] else []) + [NAIRA] + GroupThousands(Digits(Abs(kobo) / 100)) + "."
      + TwoDigits(Abs(kobo) % 100)
  }

  // Reading a displayed amount: a minus sign, the currency sign, a number.
  function ReadSigned(s: string): (r: (bool, string)) {
    var negative := s != [] && s[0] == MINUS;
    var t := if negative then s[1..] else s;
    (negative, if t != [] then t[1..] else t)
  }

  function ReadDisplayed(s: string): Option<int> {
    var (negative, t) := ReadSigned(s);
    match ToKobo(Some(RemoveCommas(t)))
    case None => None
    case Some(k) => Some(if negative then -k else k)
  }

  // A displayed amount tells the exact kobo.
  lemma DisplayIsExact(kobo: int)
    ensures ReadDisplayed(FormatKobo(kobo)) == Some(kobo)
  {
    hide Num, Digits, TwoDigits, GroupThousands, ToKobo, Filter;
    var (whole, frac) := (Digits(Abs(kobo) / 100), TwoDigits(Abs(kobo) % 100));
    var g := GroupThousands(whole);
    var s := FormatKobo(kobo);
    assert ReadSigned(s) == (kobo < 0, g + "." + frac) by {
      assert kobo < 0 ==> s[1..] == [NAIRA] + (g + "." + frac);
      assert kobo >= 0 ==> s == [NAIRA] + (g + "." + frac);
    }
    var keep := (c: char) => c != ',';
    FilterAppend(g + ".", frac, keep);
    FilterAppend(g, ".", keep);
    GroupingUndone(whole);
    KeepsAll(".");
    KeepsAll(frac);
    assert RemoveCommas(g + "." + frac) == whole + "." + frac;
    PositiveText(Abs(kobo));
  }

  lemma {:induction false} KeepsAll(s: string)
    requires ',' !in s
    ensures Filter(s, (c: char) => c != ',') == s
  {
    if s != [] { KeepsAll(s[1..]); }
  }

  lemma PositiveText(k: nat)
    ensures ToKobo(Some(Digits(k / 100) + "." + TwoDigits(k % 100))) == Some(k)
  {
    hide Digits, TwoDigits, ToKobo;
    RoundTrip(k);
    assert KoboToDecimalString(k) == Digits(k / 100) + "." + TwoDigits(k % 100);
  }

  // ---- compact display -------------------------------------------------------------------------------

  datatype Step = Step(size: nat, suffix: string)

  // The first step not above the amount; below a thousand there is none.
  function StepFor(naira: nat): (s: Step)
    ensures s.size >= 1 && (s.size > 1 ==> naira >= s.size)
  {
    if naira >= 1_000_000_000_000 then Step(1_000_000_000_000, "T")
    else if naira >= 1_000_000_000 then Step(1_000_000_000, "B")
    else if naira >= 1_000_000 then Step(1_000_000, "M")
    else if naira >= 1_000 then Step(1_000, "K")
    else Step(1, "")
  }

  function CompactNumber(naira: nat, size: nat): string
    requires size >= 1
  {
    var tenths := naira * 10 / size;
    var (whole, decimal) := (tenths / 10, tenths % 10);
    Digits(whole) + if decimal == 0 || whole >= 100 then "" else "." + Digits(decimal)
  }

  function CompactAmount(naira: nat): string {
    var step := StepFor(naira);
    if step.size > 1 then CompactNumber(naira, step.size) + step.suffix else Digits(naira)
  }

  function FormatKoboCompact(kobo: int): string {
    (if kobo < 0 then [MINUS] else []) + [NAIRA] + CompactAmount(Abs(kobo) / 100)
  }

  function SizeOf(c: char): nat {
    if c == 'T' then 1_000_000_000_000
    else if c == 'B' then 1_000_000_000
    else if c == 'M' then 1_000_000
    else if c == 'K' then 1_000
    else 1
  }

  // Reading a compact amount back, in kobo.
  function ReadAmount(t: string): Option<int> {
    if t == [] then None
    else
      var size := SizeOf(t[|t| - 1]);
      match ToKobo(Some(if size > 1 then t[..|t| - 1] else t))
      case None => None
      case Some(k) => Some(Scale(k, size))
  }

  function ReadCompact(s: string): Option<int> {
    var (negative, t) := ReadSigned(s);
    match ReadAmount(t)
    case None => None
    case Some(k) => Some(if negative then -k else k)
  }

  // What the compact number shows, in hundredths of the step.
  function Shown(naira: nat, size: nat): nat
    requires size >= 1
  {
    var tenths := naira * 10 / size;
    if tenths / 10 >= 100 then tenths / 10 * 100 else tenths * 10
  }

  lemma WholeText(n: nat)
    ensures ToKobo(Some(Digits(n))) == Some(100 * n)
  {
    hide Num, Digits, TrimText;
    var s := Digits(n);
    assert IsDigit(s[0]) && IsDigit(s[|s| - 1]);
    NothingToTrim(s);
    assert s[..|s|] == s;
    IndexOfFirst(s, '.', |s|);
    ZeroFraction();
    assert MatchDecimal(s) == Some(Decimal(false, s, []));
  }

  lemma ZeroFraction()
    ensures Num(([] + "00")[..2]) == 0
  {
    assert ([] + "00")[..2] == "0" + "0";
    OneDigit("0");
    NumAppend("0", "0");
  }

  lemma TenthText(whole: nat, tenth: nat)
    requires tenth <= 9
    ensures ToKobo(Some(Digits(whole) + "." + Digits(tenth))) == Some(100 * whole + 10 * tenth)
  {
    hide Num, TrimText, MatchDecimal;
    var (w, d) := (Digits(whole), Digits(tenth));
    var s := w + "." + d;
    assert |d| == 1;
    assert IsDigit(w[0]) && s[0] == w[0] && IsDigit(d[0]) && s[|s| - 1] == d[0];
    NothingToTrim(s);
    MatchPlain("", w, d);
    assert "" + w + "." + d == s;
    assert (d + "00")[..2] == d + "0";
    NumAppend(d, "0");
    OneDigit("0");
    assert Pow10(1) == 10;
  }

  lemma CompactText(naira: nat, size: nat)
    requires size >= 1
    ensures ToKobo(Some(CompactNumber(naira, size))) == Some(Shown(naira, size))
    ensures CompactNumber(naira, size) != []
  {
    hide Digits, ToKobo;
    var tenths := naira * 10 / size;
    var (whole, decimal) := (tenths / 10, tenths % 10);
    WholeText(whole);
    TenthText(whole, decimal);
    assert Digits(whole) + "" == Digits(whole);
    assert Digits(whole) + ("." + Digits(decimal)) == Digits(whole) + "." + Digits(decimal);
  }

  lemma TenthsBound(naira: nat, size: nat)
    requires size >= 1 && naira >= size
    ensures var x := naira * 10 / size * size; x <= 10 * naira < x + size && x >= 10 * size
  {
    var tenths := naira * 10 / size;
    assert tenths * size + naira * 10 % size == naira * 10;
    TimesMonotone(10, tenths, size);
  }

  lemma TimesMonotone(k: nat, n: nat, size: nat)
    requires size >= 1 && n * size + size > k * size
    ensures n >= k && n * size >= k * size
  {
    assert n < k ==> (n + 1) * size <= k * size;
    assert n >= k ==> n * size >= k * size;
  }

  lemma DropTenth(tenths: nat, size: nat)
    requires tenths / 10 >= 100
    ensures var (x, y) := (tenths * size, tenths / 10 * size); 10 * y <= x <= 10 * y + 9 * size && y >= 100 * size
  {
    var (w, d) := (tenths / 10, tenths % 10);
    TimesOfTenths(w, d, size);
    TimesAtMost(d, 9, size);
    TimesAtMost(100, w, size);
  }

  lemma TimesOfTenths(w: nat, d: nat, size: nat)
    ensures (10 * w + d) * size == 10 * (w * size) + d * size
  {
  }

  lemma TimesAtMost(k: nat, n: nat, size: nat)
    requires k <= n
    ensures k * size <= n * size
  {
    assert (n - k) * size >= 0;
  }

  // The shown figure never exceeds the amount, and is less than a tenth of it
  // below.
  lemma ShownBelow(naira: nat, size: nat)
    requires size >= 1 && naira >= size
    ensures Scale(Shown(naira, size), size) <= 100 * naira
    ensures 10 * (100 * naira - Scale(Shown(naira, size), size)) < 100 * naira
  {
    var tenths := naira * 10 / size;
    TenthsBound(naira, size);
    if tenths / 10 >= 100 {
      DropTenth(tenths, size);
      assert Scale(tenths / 10 * 100, size) == 100 * (tenths / 10 * size);
    } else {
      assert Scale(tenths * 10, size) == 10 * (tenths * size);
    }
  }

  function Scale(k: int, size: nat): (r: int)
    ensures k >= 0 ==> r >= 0
    ensures size == 1 ==> r == k
  {
    k * size
  }

  // Reading the compact form back gives an amount of the same sign that never
  // exceeds the true one and, from a thousand naira on, is less than a tenth
  // below it; under a thousand only the kobo are dropped.
  lemma CompactNeverExceeds(kobo: int)
    ensures var r := ReadCompact(FormatKoboCompact(kobo));
      && r.Some? && Abs(r.value) <= Abs(kobo) && (kobo >= 0 ==> r.value >= 0) && (kobo < 0 ==> r.value <= 0)
      && (Abs(kobo) >= 100_000 ==> 10 * (Abs(kobo) - Abs(kobo) % 100 - Abs(r.value)) < Abs(kobo))
      && (Abs(kobo) < 100_000 ==> Abs(kobo) - Abs(r.value) == Abs(kobo) % 100)
  {
    hide CompactAmount, ReadAmount;
    var (s, text) := (FormatKoboCompact(kobo), CompactAmount(Abs(kobo) / 100));
    assert kobo < 0 ==> s[1..] == [NAIRA] + text;
    assert kobo >= 0 ==> s == [NAIRA] + text;
    AmountReadsBack(Abs(kobo) / 100);
  }

  lemma AmountReadsBack(naira: nat)
    ensures var r := ReadAmount(CompactAmount(naira));
      && r.Some? && 0 <= r.value <= 100 * naira
      && (naira >= 1000 ==> 10 * (100 * naira - r.value) < 100 * naira)
      && (naira < 1000 ==> r.value == 100 * naira)
  {
    hide CompactNumber, Digits, ToKobo, Shown, Scale, SizeOf, StepFor;
    var (step, text) := (StepFor(naira), CompactAmount(naira));
    StepIsReadable(naira);
    if step.size > 1 {
      CompactText(naira, step.size);
      ShownBelow(naira, step.size);
      assert text[|text| - 1] == step.suffix[0] && text[..|text| - 1] == CompactNumber(naira, step.size);
    } else {
      WholeText(naira);
      NoSuffix(text[|text| - 1]);
    }
  }

  lemma StepIsReadable(naira: nat)
    ensures var step := StepFor(naira);
      && (step.size > 1 <==> naira >= 1000)
      && (step.size > 1 ==> |step.suffix| == 1 && SizeOf(step.suffix[0]) == step.size)
  {
  }

  lemma NoSuffix(c: char)
    ensures IsDigit(c) ==> SizeOf(c) == 1
  {
  }

  // The compact form takes at most five characters up to 999 trillion, sign
  // and currency apart: no step is passed over for a smaller one.
  lemma CompactIsShort(kobo: int)
    requires Abs(kobo) < 100_000_000_000_000_000
    ensures |FormatKoboCompact(kobo)| <= if kobo < 0 then 7 else 6
  {
    hide Digits;
    var naira := Abs(kobo) / 100;
    var step := StepFor(naira);
    if step.size > 1 {
      StepIsReadable(naira);
      StepFits(naira);
      ShortNumber(naira, step.size);
    } else {
      ShortDigits(naira);
    }
  }

  lemma StepFits(naira: nat)
    requires naira < 1_000_000_000_000_000
    ensures naira < 1000 * StepFor(naira).size
  {
  }

  lemma ShortDigits(n: nat)
    ensures n < 10 ==> |Digits(n)| <= 1
    ensures n < 100 ==> |Digits(n)| <= 2
    ensures n < 1000 ==> |Digits(n)| <= 3
  {
  }

  lemma ShortNumber(naira: nat, size: nat)
    requires 1 <= size && naira < 1000 * size
    ensures |CompactNumber(naira, size)| <= 4
  {
    hide Digits;
    var tenths := naira * 10 / size;
    assert tenths < 10_000 by { FewTenths(naira * 10, size); }
    ShortDigits(tenths / 10);
    ShortDigits(tenths % 10);
  }

  lemma FewTenths(n: nat, size: nat)
    requires 1 <= size && n < 10_000 * size
    ensures n / size < 10_000
  {
    var q := n / size;
    assert q * size <= n;
    assert q < 10_000 || (q - 10_000) * size >= 0;
  }

  // ---- animated counters ------------------------------------------------------------------------------

  // BigInt division truncates toward zero.
  function TruncDiv(a: int, b: int): int
    requires b > 0
  {
    if a >= 0 then a / b else -((-a) / b)
  }

  // Math.round rounds half up.
  function RoundHalfUp(x: real): int { (x + 0.5).Floor }

  function InterpolateKobo(from: int, to: int, t: real): int {
    if t <= 0.0 then from
    else if t >= 1.0 then to
    else from + TruncDiv((to - from) * RoundHalfUp(t * 10_000.0), 10_000)
  }

  lemma StepsInRange(t: real, u: real)
    requires 0.0 < t <= u < 1.0
    ensures 0 <= RoundHalfUp(t * 10_000.0) <= RoundHalfUp(u * 10_000.0) <= 10_000
  {
  }

  // Truncated shares of a span stay within it and grow with the share.
  lemma SharesGrow(span: nat, i: nat, j: nat)
    requires i <= j <= 10_000
    ensures 0 <= span * i / 10_000 <= span * j / 10_000 <= span
  {
    assert span * j == span * i + span * (j - i);
    assert span * 10_000 == span * j + span * (10_000 - j);
    assert span * (j - i) >= 0 && span * (10_000 - j) >= 0;
  }

  lemma TruncShare(from: int, to: int, i: nat)
    ensures from <= to ==> TruncDiv((to - from) * i, 10_000) == (to - from) * i / 10_000
    ensures from > to ==> TruncDiv((to - from) * i, 10_000) == -((from - to) * i / 10_000)
  {
    if from <= to {
      assert (to - from) * i >= 0;
    } else {
      assert (to - from) * i == -((from - to) * i);
      assert (from - to) * i >= 0;
    }
  }

  // An animated counter stays between its endpoints, starts and ends on them,
  // and never moves away from its target.
  lemma InterpolationMonotone(from: int, to: int, t: real, u: real)
    requires t <= u
    ensures var (x, y) := (InterpolateKobo(from, to, t), InterpolateKobo(from, to, u));
      if from <= to then from <= x <= y <= to else to <= y <= x <= from
    ensures t <= 0.0 ==> InterpolateKobo(from, to, t) == from
    ensures u >= 1.0 ==> InterpolateKobo(from, to, u) == to
  {
    hide TruncDiv, RoundHalfUp;
    var span := Abs(to - from);
    if 0.0 < t < 1.0 {
      StepsInRange(t, t);
      TruncShare(from, to, RoundHalfUp(t * 10_000.0));
      SharesGrow(span, RoundHalfUp(t * 10_000.0), RoundHalfUp(t * 10_000.0));
    }
    if 0.0 < u < 1.0 {
      StepsInRange(u, u);
      TruncShare(from, to, RoundHalfUp(u * 10_000.0));
      SharesGrow(span, RoundHalfUp(u * 10_000.0), RoundHalfUp(u * 10_000.0));
    }
    if 0.0 < t && u < 1.0 {
      StepsInRange(t, u);
      SharesGrow(span, RoundHalfUp(t * 10_000.0), RoundHalfUp(u * 10_000.0));
    }
  }

  lemma TruncWithinOne(n: int)
    ensures -1.0 < TruncDiv(n, 10_000) as real - n as real / 10_000.0 < 1.0
  {
    if n >= 0 {
      assert n == 10_000 * (n / 10_000) + n % 10_000;
    } else {
      assert -n == 10_000 * (-n / 10_000) + -n % 10_000;
    }
  }

  lemma RoundWithinHalf(x: real)
    ensures -0.5 <= RoundHalfUp(x) as real - x <= 0.5
  {
  }

  // An animated counter shows the exact point of the way, up to one kobo and
  // half of a ten-thousandth of the distance.
  lemma InterpolationClose(from: int, to: int, t: real)
    requires 0.0 <= t <= 1.0
    ensures var exact := from as real + (to - from) as real * t;
      AbsReal(InterpolateKobo(from, to, t) as real - exact) <= 1.0 + AbsReal((to - from) as real) / 20_000.0
  {
    if 0.0 < t < 1.0 {
      BetweenEnds(from, to, t);
    } else if t == 1.0 {
      assert (to - from) as real * 1.0 == to as real - from as real;
    } else {
      assert (to - from) as real * 0.0 == 0.0;
    }
  }

  lemma BetweenEnds(from: int, to: int, t: real)
    requires 0.0 < t < 1.0
    ensures var exact := from as real + (to - from) as real * t;
      AbsReal(InterpolateKobo(from, to, t) as real - exact) <= 1.0 + AbsReal((to - from) as real) / 20_000.0
  {
    hide RoundHalfUp, TruncDiv;
    ShareClose(to - from, t);
    assert InterpolateKobo(from, to, t) == from + TruncDiv((to - from) * RoundHalfUp(t * 10_000.0), 10_000);
  }

  lemma ShareClose(d: int, t: real)
    ensures AbsReal(TruncDiv(d * RoundHalfUp(t * 10_000.0), 10_000) as real - d as real * t)
            <= 1.0 + AbsReal(d as real) / 20_000.0
  {
    hide RoundHalfUp, TruncDiv, AbsReal;
    var k := RoundHalfUp(t * 10_000.0);
    TruncWithinOne(d * k);
    RoundWithinHalf(t * 10_000.0);
    ProductOfInts(d, k);
    Regrouped(d as real, k as real, t);
    var spread := d as real * (k as real - t * 10_000.0);
    Spread(d as real, k as real - t * 10_000.0, spread);
    ErrorsAdd(TruncDiv(d * k, 10_000) as real, d as real * k as real, d as real * t, spread, d as real);
  }

  // The two errors, of the quantised share and of the truncation, add up.
  lemma ErrorsAdd(shift: real, product: real, exact: real, spread: real, d: real)
    requires -1.0 < shift - product / 10_000.0 < 1.0
    requires product / 10_000.0 - exact == spread / 10_000.0 && AbsReal(spread) <= AbsReal(d) / 2.0
    ensures AbsReal(shift - exact) <= 1.0 + AbsReal(d) / 20_000.0
  {
  }

  lemma ProductOfInts(d: int, k: int)
    ensures (d * k) as real == d as real * k as real
  {
  }

  lemma Spread(d: real, e: real, p: real)
    requires -0.5 <= e <= 0.5 && p == d * e
    ensures AbsReal(p) <= AbsReal(d) / 2.0
  {
    var (above, below) := (0.5 - e, 0.5 + e);
    Expanded(d, e);
    if d >= 0.0 {
      NotNegative(d, above);
      NotNegative(d, below);
    } else {
      NotNegative(-d, above);
      NotNegative(-d, below);
      Negated(d, above);
      Negated(d, below);
    }
  }

  lemma Expanded(d: real, e: real)
    ensures d * (0.5 - e) == d / 2.0 - d * e && d * (0.5 + e) == d / 2.0 + d * e
  {
  }

  lemma Negated(x: real, y: real)
    ensures -x * y == -(x * y)
  {
  }

  lemma NotNegative(x: real, y: real)
    requires x >= 0.0 && y >= 0.0
    ensures x * y >= 0.0
  {
  }

  lemma Regrouped(d: real, k: real, t: real)
    ensures d * k / 10_000.0 - d * t == d * (k - t * 10_000.0) / 10_000.0
  {
  }
}
