// The text `isoformat` gives for a timestamp in UTC, and its order.
module IsoTime {
  import opened Numerals
  import opened Texts

  datatype Stamp = Stamp(year: nat, month: nat, day: nat, hour: nat, minute: nat, second: nat, micro: nat)

  predicate IsLeap(year: nat) { year % 4 == 0 && (year % 100 != 0 || year % 400 == 0) }

  function DaysIn(year: nat, month: nat): nat {
    if month == 2 then (if IsLeap(year) then 29 else 28)
    else if month == 4 || month == 6 || month == 9 || month == 11 then 30
    else 31
  }

  predicate Valid(d: Stamp) {
    && 1 <= d.year <= 9999 && 1 <= d.month <= 12 && 1 <= d.day <= DaysIn(d.year, d.month)
    && d.hour < 24 && d.minute < 60 && d.second < 60 && d.micro < 1_000_000
  }

  // Days of the year before the first of a month; the 13th begins the next
  // year.
  function DaysBeforeMonth(year: nat, month: nat): nat {
    if month <= 1 then 0 else DaysBeforeMonth(year, month - 1) + DaysIn(year, month - 1)
  }

  function DaysBeforeYear(year: nat): nat {
    if year == 0 then 0 else DaysBeforeYear(year - 1) + DaysBeforeMonth(year - 1, 13)
  }

  function DayNumber(d: Stamp): int { DaysBeforeYear(d.year) + DaysBeforeMonth(d.year, d.month) + d.day }

  // Microseconds on one time line.
  function Micros(d: Stamp): int {
    (((DayNumber(d) * 24 + d.hour) * 60 + d.minute) * 60 + d.second) * 1_000_000 + d.micro
  }

  // ---- the text ------------------------------------------------------------------

  function Field(n: nat, width: nat, rest: string): string
    requires n < Pow10(width)
  {
    Pad(n, width) + rest
  }

  // Six digits of a second, left out when they are zero, and the offset.
  function Fraction(micro: nat): string
    requires micro < 1_000_000
  {
    Widths();
    if micro == 0 then "+00:00" else ['.'] + Field(micro, 6, "+00:00")
  }

  lemma Widths()
    ensures Pow10(2) == 100 && Pow10(4) == 10_000 && Pow10(6) == 1_000_000
  {
    assert Pow10(1) == 10;
    assert Pow10(3) == 1000;
    assert Pow10(5) == 100_000;
  }

  function TimeText(d: Stamp): string
    requires Valid(d)
  {
    Widths();
    Field(d.hour, 2, [':'] + Field(d.minute, 2, [':'] + Field(d.second, 2, Fraction(d.micro))))
  }

  function Iso(d: Stamp): string
    requires Valid(d)
  {
    Widths();
    Field(d.year, 4, ['-'] + Field(d.month, 2, ['-'] + Field(d.day, 2, ['T'] + TimeText(d))))
  }

  // ---- text order is time order ---------------------------------------------------

  lemma {:induction false} FixedWidthOrder(s: string, t: string, r: string, q: string)
    requires |s| == |t| && AllDigits(s) && AllDigits(t)
    requires TextLe(s + r, t + q)
    ensures Num(s) < Num(t) || (Num(s) == Num(t) && TextLe(r, q))
  {
    if s == [] {
      assert s + r == r && t + q == q;
    } else {
      FirstDigit(s);
      FirstDigit(t);
      assert (s + r)[0] == s[0] && (s + r)[1..] == s[1..] + r;
      assert (t + q)[0] == t[0] && (t + q)[1..] == t[1..] + q;
      if s[0] == t[0] {
        FixedWidthOrder(s[1..], t[1..], r, q);
      } else {
        Leads(DigitOf(s[0]), DigitOf(t[0]), Num(s[1..]), Num(t[1..]), Pow10(|s| - 1));
      }
    }
  }

  lemma FirstDigit(s: string)
    requires s != [] && AllDigits(s)
    ensures Num(s) == DigitOf(s[0]) * Pow10(|s| - 1) + Num(s[1..]) && Num(s[1..]) < Pow10(|s| - 1)
  {
    assert s == [s[0]] + s[1..];
    NumAppend([s[0]], s[1..]);
    OneDigit([s[0]]);
    NumBound(s[1..]);
  }

  lemma Leads(a: nat, b: nat, x: nat, y: nat, p: nat)
    requires a < b && x < p
    ensures a * p + x < b * p + y
  {
    assert (a + 1) * p <= b * p;
  }

  lemma FieldOrder(n: nat, m: nat, width: nat, r: string, q: string)
    requires n < Pow10(width) && m < Pow10(width) && TextLe(Field(n, width, r), Field(m, width, q))
    ensures n < m || (n == m && TextLe(r, q))
  {
    hide Pad, TextLe, Num;
    FixedWidthOrder(Pad(n, width), Pad(m, width), r, q);
  }

  lemma Behind(c: char, r: string, q: string)
    requires TextLe([c] + r, [c] + q)
    ensures TextLe(r, q)
  {
    assert ([c] + r)[1..] == r && ([c] + q)[1..] == q;
  }

  lemma FractionOrder(a: nat, b: nat)
    requires a < 1_000_000 && b < 1_000_000 && TextLe(Fraction(a), Fraction(b))
    ensures a <= b
  {
    hide Field, Pow10;
    Widths();
    if a > 0 && b > 0 {
      Behind('.', Field(a, 6, "+00:00"), Field(b, 6, "+00:00"));
      FieldOrder(a, b, 6, "+00:00", "+00:00");
    }
  }

  // Seconds of the day, in microseconds.
  function OfDay(d: Stamp): int { ((d.hour * 60 + d.minute) * 60 + d.second) * 1_000_000 + d.micro }

  lemma TimeOrder(a: Stamp, b: Stamp)
    requires Valid(a) && Valid(b) && TextLe(TimeText(a), TimeText(b))
    ensures OfDay(a) <= OfDay(b)
  {
    hide Field, Pow10, TextLe, Fraction;
    Widths();
    var (sa, sb) := (Field(a.second, 2, Fraction(a.micro)), Field(b.second, 2, Fraction(b.micro)));
    var (ma, mb) := (Field(a.minute, 2, [':'] + sa), Field(b.minute, 2, [':'] + sb));
    FieldOrder(a.hour, b.hour, 2, [':'] + ma, [':'] + mb);
    if a.hour == b.hour {
      Behind(':', ma, mb);
      FieldOrder(a.minute, b.minute, 2, [':'] + sa, [':'] + sb);
      if a.minute == b.minute {
        Behind(':', sa, sb);
        FieldOrder(a.second, b.second, 2, Fraction(a.micro), Fraction(b.micro));
        if a.second == b.second { FractionOrder(a.micro, b.micro); }
      }
    }
  }

  // The date decides, and within one day the time does.
  lemma DateOrder(a: Stamp, b: Stamp)
    requires Valid(a) && Valid(b) && TextLe(Iso(a), Iso(b))
    ensures DayNumber(a) < DayNumber(b) || (DayNumber(a) == DayNumber(b) && TextLe(TimeText(a), TimeText(b)))
  {
    hide Field, Pow10, TextLe, TimeText, DaysBeforeYear, DaysBeforeMonth;
    Widths();
    var (da, db) := (Field(a.day, 2, ['T'] + TimeText(a)), Field(b.day, 2, ['T'] + TimeText(b)));
    var (ma, mb) := (Field(a.month, 2, ['-'] + da), Field(b.month, 2, ['-'] + db));
    FieldOrder(a.year, b.year, 4, ['-'] + ma, ['-'] + mb);
    if a.year < b.year {
      YearsLater(a, b);
    } else {
      Behind('-', ma, mb);
      FieldOrder(a.month, b.month, 2, ['-'] + da, ['-'] + db);
      if a.month < b.month {
        MonthEnds(a.year, a.month, b.month);
      } else {
        Behind('-', da, db);
        FieldOrder(a.day, b.day, 2, ['T'] + TimeText(a), ['T'] + TimeText(b));
        if a.day == b.day { Behind('T', TimeText(a), TimeText(b)); }
      }
    }
  }

  lemma {:induction false} MonthEnds(year: nat, m: nat, n: nat)
    requires 1 <= m < n
    ensures DaysBeforeMonth(year, m) + DaysIn(year, m) <= DaysBeforeMonth(year, n)
    decreases n
  {
    if m < n - 1 { MonthEnds(year, m, n - 1); }
  }

  lemma {:induction false} YearEnds(y: nat, z: nat)
    requires y < z
    ensures DaysBeforeYear(y) + DaysBeforeMonth(y, 13) <= DaysBeforeYear(z)
    decreases z
  {
    hide DaysBeforeMonth;
    if y < z - 1 { YearEnds(y, z - 1); }
  }

  lemma YearsLater(a: Stamp, b: Stamp)
    requires Valid(a) && Valid(b) && a.year < b.year
    ensures DayNumber(a) < DayNumber(b)
  {
    hide DaysBeforeMonth, DaysBeforeYear;
    MonthEnds(a.year, a.month, 13);
    YearEnds(a.year, b.year);
  }

  // Whatever sorts first as text is not later, with or without a fraction of
  // a second: '+' sorts before '.'.
  lemma TextOrderIsTimeOrder(a: Stamp, b: Stamp)
    requires Valid(a) && Valid(b) && TextLe(Iso(a), Iso(b))
    ensures Micros(a) <= Micros(b)
  {
    hide TextLe, Iso, TimeText, DayNumber;
    DateOrder(a, b);
    if DayNumber(a) == DayNumber(b) { TimeOrder(a, b); }
    assert Micros(a) == DayNumber(a) * 86_400_000_000 + OfDay(a);
    assert Micros(b) == DayNumber(b) * 86_400_000_000 + OfDay(b);
  }

  // ---- a text names one instant ---------------------------------------------------

  lemma SameField(n: nat, m: nat, width: nat, r: string, q: string)
    requires n < Pow10(width) && m < Pow10(width) && Field(n, width, r) == Field(m, width, q)
    ensures n == m && r == q
  {
    hide Pad, Num, Pow10;
    var (s, t) := (Pad(n, width), Pad(m, width));
    assert s == (s + r)[..width] && t == (t + q)[..width];
    assert r == (s + r)[width..] && q == (t + q)[width..];
  }

  lemma SameRest(c: char, r: string, q: string)
    requires [c] + r == [c] + q
    ensures r == q
  {
    assert ([c] + r)[1..] == r && ([c] + q)[1..] == q;
  }

  lemma SameFraction(a: nat, b: nat)
    requires a < 1_000_000 && b < 1_000_000 && Fraction(a) == Fraction(b)
    ensures a == b
  {
    hide Field, Pow10;
    Widths();
    assert a == 0 <==> Fraction(a)[0] == '+';
    assert b == 0 <==> Fraction(b)[0] == '+';
    if a > 0 && b > 0 {
      SameRest('.', Field(a, 6, "+00:00"), Field(b, 6, "+00:00"));
      SameField(a, b, 6, "+00:00", "+00:00");
    }
  }

  lemma SameTime(a: Stamp, b: Stamp)
    requires Valid(a) && Valid(b) && TimeText(a) == TimeText(b)
    ensures a.hour == b.hour && a.minute == b.minute && a.second == b.second && a.micro == b.micro
  {
    hide Field, Pow10, Fraction;
    Widths();
    var (sa, sb) := (Field(a.second, 2, Fraction(a.micro)), Field(b.second, 2, Fraction(b.micro)));
    var (ma, mb) := (Field(a.minute, 2, [':'] + sa), Field(b.minute, 2, [':'] + sb));
    SameField(a.hour, b.hour, 2, [':'] + ma, [':'] + mb);
    SameRest(':', ma, mb);
    SameField(a.minute, b.minute, 2, [':'] + sa, [':'] + sb);
    SameRest(':', sa, sb);
    SameField(a.second, b.second, 2, Fraction(a.micro), Fraction(b.micro));
    SameFraction(a.micro, b.micro);
  }

  lemma IsoInjective(a: Stamp, b: Stamp)
    requires Valid(a) && Valid(b) && Iso(a) == Iso(b)
    ensures a == b
  {
    hide Field, Pow10, TimeText;
    Widths();
    var (da, db) := (Field(a.day, 2, ['T'] + TimeText(a)), Field(b.day, 2, ['T'] + TimeText(b)));
    var (ma, mb) := (Field(a.month, 2, ['-'] + da), Field(b.month, 2, ['-'] + db));
    SameField(a.year, b.year, 4, ['-'] + ma, ['-'] + mb);
    SameRest('-', ma, mb);
    SameField(a.month, b.month, 2, ['-'] + da, ['-'] + db);
    SameRest('-', da, db);
    SameField(a.day, b.day, 2, ['T'] + TimeText(a), ['T'] + TimeText(b));
    SameRest('T', TimeText(a), TimeText(b));
    SameTime(a, b);
  }
}
