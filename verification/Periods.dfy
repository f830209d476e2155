/** `YYYY-MM` periods: their months in calendar order, and the string functions that step between them. */
module Periods {
  import opened Ordering
  import opened Decimals

  /** The pattern validator of a period: four digits, a dash, and 01 to 12. */
  predicate IsPeriod(s: string) {
    && |s| == 7 && s[4] == '-' && AllDigits(s[..4]) && AllDigits(s[5..])
    && 1 <= Parse(s[5..]) <= 12
  }

  function YearOf(s: string): nat
    requires IsPeriod(s)
  {
    Parse(s[..4])
  }

  function MonthOf(s: string): nat
    requires IsPeriod(s)
  {
    Parse(s[5..])
  }

  /** Months since the start of year 0. */
  function Month(s: string): nat
    requires IsPeriod(s)
  {
    12 * YearOf(s) + MonthOf(s) - 1
  }

  /** `f"{n:0{width}d}"` of any integer: the sign counts toward the width. */
  function PaddedInt(n: int, width: nat): string {
    if n >= 0 then Padded(n, width) else "-" + Padded(-n, if width == 0 then 0 else width - 1)
  }

  function PrevMonth(s: string): string
    requires IsPeriod(s)
  {
    if MonthOf(s) == 1 then PaddedInt(YearOf(s) - 1, 4) + "-12"
    else PaddedInt(YearOf(s), 4) + "-" + PaddedInt(MonthOf(s) - 1, 2)
  }

  function PrevYear(s: string): string
    requires IsPeriod(s)
  {
    PaddedInt(YearOf(s) - 1, 4) + "-" + s[5..]
  }

  function NextPeriod(s: string): string
    requires IsPeriod(s)
  {
    if MonthOf(s) == 12 then PaddedInt(YearOf(s) + 1, 4) + "-01"
    else PaddedInt(YearOf(s), 4) + "-" + PaddedInt(MonthOf(s) + 1, 2)
  }

  /** `strftime("%Y-%m")` */
  function PeriodOf(year: nat, month: nat): string {
    Padded(year, 4) + "-" + Padded(month, 2)
  }

  /* ---------- periods are months ---------- */

  lemma PeriodOfIs(year: nat, month: nat)
    requires year < 10000 && 1 <= month <= 12
    ensures IsPeriod(PeriodOf(year, month))
    ensures YearOf(PeriodOf(year, month)) == year && MonthOf(PeriodOf(year, month)) == month
  {
    Powers();
    PaddedParses(year, 4);
    PaddedLength(year, 4);
    PaddedParses(month, 2);
    PaddedLength(month, 2);
    assert PeriodOf(year, month)[..4] == Padded(year, 4);
    assert PeriodOf(year, month)[5..] == Padded(month, 2);
  }

  lemma Powers()
    ensures Pow10(2) == 100 && Pow10(4) == 10000
  {
    assert Pow10(1) == 10 && Pow10(3) == 1000;
  }

  /** A period is what its year and month print as. */
  lemma PeriodParts(s: string)
    requires IsPeriod(s)
    ensures s == PeriodOf(YearOf(s), MonthOf(s)) && YearOf(s) < 10000
  {
    Powers();
    ParsePads(s[..4]);
    ParsePads(s[5..]);
    assert s == s[..4] + [s[4]] + s[5..];
  }

  lemma SameMonth(s: string, t: string)
    requires IsPeriod(s) && IsPeriod(t) && Month(s) == Month(t)
    ensures s == t
  {
    PeriodParts(s);
    PeriodParts(t);
    assert YearOf(s) == YearOf(t) && MonthOf(s) == MonthOf(t);
  }

  /* ---------- lexicographic order is calendar order ---------- */

  lemma {:induction false} ParseFront(s: string)
    requires AllDigits(s) && s != ""
    ensures Parse(s) == DigitValue(s[0]) * Pow10(|s| - 1) + Parse(s[1..]) && Parse(s[1..]) < Pow10(|s| - 1)
  {
    if |s| == 1 {
      assert s[..0] == "" && s[1..] == "";
    } else {
      var init := s[..|s| - 1];
      ParseFront(init);
      assert s[1..][..|s| - 2] == init[1..];
      Shift(DigitValue(s[0]), Pow10(|s| - 2), Parse(init[1..]), DigitValue(s[|s| - 1]));
    }
  }

  lemma Shift(d: nat, p: nat, m: nat, e: nat)
    requires m < p && e < 10
    ensures (d * p + m) * 10 + e == d * (10 * p) + (m * 10 + e) && m * 10 + e < 10 * p
  {}

  /** Digit strings of one length compare as the numbers they print. */
  lemma {:induction false} DigitsCompare(a: string, b: string)
    requires |a| == |b| && AllDigits(a) && AllDigits(b)
    ensures Less(a, b) <==> Parse(a) < Parse(b)
  {
    if a != "" {
      ParseFront(a);
      ParseFront(b);
      DigitsCompare(a[1..], b[1..]);
      LeadingDecides(DigitValue(a[0]), DigitValue(b[0]), Pow10(|a| - 1), Parse(a[1..]), Parse(b[1..]));
    }
  }

  lemma LeadingDecides(d: nat, e: nat, p: nat, m: nat, n: nat)
    requires m < p && n < p
    ensures d * p + m < e * p + n <==> d < e || (d == e && m < n)
  {
    if d < e {
      assert (d + 1) * p <= e * p;
    } else if e < d {
      assert (e + 1) * p <= d * p;
    }
  }

  lemma {:induction false} LessConcat(a: string, x: string, b: string, y: string)
    requires |a| == |b|
    ensures Less(a + x, b + y) <==> Less(a, b) || (a == b && Less(x, y))
  {
    if a == "" {
      assert a + x == x && b + y == y;
    } else {
      assert (a + x)[1..] == a[1..] + x && (b + y)[1..] == b[1..] + y;
      assert (a + x)[0] == a[0] && (b + y)[0] == b[0];
      LessConcat(a[1..], x, b[1..], y);
      assert a == [a[0]] + a[1..] && b == [b[0]] + b[1..];
    }
  }

  /** Comparing period strings compares months. */
  lemma PeriodsCompare(s: string, t: string)
    requires IsPeriod(s) && IsPeriod(t)
    ensures Less(s, t) <==> Month(s) < Month(t)
  {
    assert s == s[..4] + ("-" + s[5..]) && t == t[..4] + ("-" + t[5..]);
    LessConcat(s[..4], "-" + s[5..], t[..4], "-" + t[5..]);
    LessConcat("-", s[5..], "-", t[5..]);
    LessIrreflexive("-");
    DigitsCompare(s[..4], t[..4]);
    DigitsCompare(s[5..], t[5..]);
    if YearOf(s) == YearOf(t) {
      ParsePads(s[..4]);
      ParsePads(t[..4]);
    }
  }

  /* ---------- stepping ---------- */

  lemma TwoDigits()
    ensures Padded(1, 2) == "01" && Padded(12, 2) == "12"
  {
    assert Decimal(1) == "1" && Zeros(1) == "0" + Zeros(0);
  }

  lemma Bounds(s: string)
    requires IsPeriod(s)
    ensures YearOf(s) < 10000 && 1 <= MonthOf(s) <= 12
  {
    PeriodParts(s);
  }

  lemma Dashed(year: string, month: string)
    ensures year + ("-" + month) == year + "-" + month
  {}

  lemma PrevMonthIs(s: string)
    requires IsPeriod(s) && Month(s) > 0
    ensures var y, m := if MonthOf(s) == 1 then YearOf(s) - 1 else YearOf(s), if MonthOf(s) == 1 then 12 else MonthOf(s) - 1;
            y >= 0 && PrevMonth(s) == PeriodOf(y, m)
  {
    Bounds(s);
    hide IsPeriod, Padded, YearOf, MonthOf;
    TwoDigits();
    if MonthOf(s) == 1 {
      Dashed(Padded(YearOf(s) - 1, 4), "12");
      assert "-" + "12" == "-12";
    }
  }

  lemma NextPeriodIs(s: string)
    requires IsPeriod(s)
    ensures var y, m := if MonthOf(s) == 12 then YearOf(s) + 1 else YearOf(s), if MonthOf(s) == 12 then 1 else MonthOf(s) + 1;
            NextPeriod(s) == PeriodOf(y, m)
  {
    Bounds(s);
    hide IsPeriod, Padded, YearOf, MonthOf;
    TwoDigits();
    if MonthOf(s) == 12 {
      Dashed(Padded(YearOf(s) + 1, 4), "01");
      assert "-" + "01" == "-01";
    }
  }

  lemma PrevYearIs(s: string)
    requires IsPeriod(s) && YearOf(s) > 0
    ensures PrevYear(s) == PeriodOf(YearOf(s) - 1, MonthOf(s))
  {
    ParsePads(s[5..]);
    assert s[5..] == Padded(MonthOf(s), 2);
    hide IsPeriod, Padded, Parse;
  }

  /** A string that starts with a sign is no period. */
  lemma SignIsNoPeriod(s: string)
    requires s != "" && s[0] == '-'
    ensures !IsPeriod(s)
  {
    hide Parse;
    assert s[0] < '0';
    assert |s| >= 4 ==> s[..4][0] == s[0];
  }

  /** The previous month is one earlier, unless the period is the first of year 0, which has none. */
  lemma PrevMonthSteps(s: string)
    requires IsPeriod(s)
    ensures IsPeriod(PrevMonth(s)) <==> Month(s) > 0
    ensures Month(s) > 0 ==> Month(PrevMonth(s)) == Month(s) - 1
  {
    Bounds(s);
    hide IsPeriod, Padded, YearOf, MonthOf;
    if Month(s) > 0 {
      var y, m := if MonthOf(s) == 1 then YearOf(s) - 1 else YearOf(s), if MonthOf(s) == 1 then 12 else MonthOf(s) - 1;
      PrevMonthIs(s);
      PeriodOfIs(y, m);
    } else {
      SignIsNoPeriod(PrevMonth(s));
    }
  }

  /** The next period is one month later, unless the period is the last of year 9999, which has none. */
  lemma NextPeriodSteps(s: string)
    requires IsPeriod(s)
    ensures IsPeriod(NextPeriod(s)) <==> Month(s) < 119999
    ensures Month(s) < 119999 ==> Month(NextPeriod(s)) == Month(s) + 1
  {
    Bounds(s);
    hide IsPeriod, Padded, YearOf, MonthOf, NextPeriod, PeriodOf;
    NextPeriodIs(s);
    if Month(s) < 119999 {
      var y, m := if MonthOf(s) == 12 then YearOf(s) + 1 else YearOf(s), if MonthOf(s) == 12 then 1 else MonthOf(s) + 1;
      PeriodOfIs(y, m);
    } else {
      FiveDigits();
    }
  }

  lemma FiveDigits()
    ensures !IsPeriod(PeriodOf(10000, 1))
  {
    assert Decimal(10) == "10" && Decimal(100) == "100" && Decimal(1000) == "1000";
    assert Decimal(10000) == Decimal(1000) + [Digit(0)];
    TwoDigits();
    assert |PeriodOf(10000, 1)| == 8;
  }

  /** The year before is twelve months earlier, while there is one. */
  lemma PrevYearSteps(s: string)
    requires IsPeriod(s)
    ensures IsPeriod(PrevYear(s)) <==> Month(s) >= 12
    ensures Month(s) >= 12 ==> Month(PrevYear(s)) == Month(s) - 12
  {
    Bounds(s);
    hide IsPeriod, Padded, YearOf, MonthOf, PeriodOf;
    if YearOf(s) > 0 {
      PrevYearIs(s);
      PeriodOfIs(YearOf(s) - 1, MonthOf(s));
    } else {
      YearZeroSigned(s);
      SignIsNoPeriod(PrevYear(s));
    }
  }

  lemma YearZeroSigned(s: string)
    requires IsPeriod(s) && YearOf(s) == 0
    ensures PrevYear(s) != "" && PrevYear(s)[0] == '-'
  {}

  /** Where stepping leaves the four-digit years: one month back, a year back, one month on. */
  lemma StepsOutside()
    ensures IsPeriod("0000-01") && !IsPeriod(PrevMonth("0000-01"))
    ensures IsPeriod("0000-12") && !IsPeriod(PrevYear("0000-12"))
    ensures IsPeriod("9999-12") && !IsPeriod(NextPeriod("9999-12"))
  {
    hide IsPeriod, PrevMonth, PrevYear, NextPeriod, YearOf, MonthOf;
    Printed();
    PeriodOfIs(0, 1);
    PeriodOfIs(0, 12);
    PeriodOfIs(9999, 12);
    PrevMonthSteps("0000-01");
    PrevYearSteps("0000-12");
    NextPeriodSteps("9999-12");
  }

  lemma Printed()
    ensures PeriodOf(0, 1) == "0000-01" && PeriodOf(0, 12) == "0000-12" && PeriodOf(9999, 12) == "9999-12"
  {
    TwoDigits();
    assert Zeros(1) == "0" + Zeros(0) && Zeros(2) == "0" + Zeros(1) && Zeros(3) == "0" + Zeros(2);
    assert Decimal(0) == "0" && Padded(0, 4) == "0000";
    assert Decimal(99) == "99" && Decimal(999) == "999" && Decimal(9999) == "9999";
  }

  /** What the steps print there: a year before 0 with its sign, and one after 9999 with five digits. */
  lemma PrintedOutside(s: string)
    requires IsPeriod(s)
    ensures Month(s) == 0 ==> PrevMonth(s) == "-001-12"
    ensures YearOf(s) == 0 ==> PrevYear(s) == "-001-" + s[5..]
    ensures Month(s) == 119999 ==> NextPeriod(s) == "10000-01"
  {
    hide Parse, AllDigits, PaddedInt;
    Bounds(s);
    MinusOne();
    TenThousand();
    assert "-001" + "-12" == "-001-12" && "10000" + "-01" == "10000-01";
    assert "-001" + "-" == "-001-";
  }

  lemma MinusOne()
    ensures PaddedInt(-1, 4) == "-001"
  {
    assert Zeros(1) == "0" + Zeros(0) && Zeros(2) == "0" + Zeros(1);
    assert Decimal(1) == "1";
  }

  lemma TenThousand()
    ensures PaddedInt(10000, 4) == "10000"
  {
    assert Decimal(10) == "10" && Decimal(100) == "100" && Decimal(1000) == "1000";
  }

  /** Stepping forward undoes stepping back, and the other way round. */
  lemma StepsUndo(s: string)
    requires IsPeriod(s)
    ensures Month(s) > 0 ==> IsPeriod(PrevMonth(s)) && NextPeriod(PrevMonth(s)) == s
    ensures Month(s) < 119999 ==> IsPeriod(NextPeriod(s)) && PrevMonth(NextPeriod(s)) == s
  {
    hide IsPeriod, PrevMonth, NextPeriod, Month;
    PeriodMonthBound(s);
    PrevMonthSteps(s);
    NextPeriodSteps(s);
    if Month(s) > 0 {
      NextPeriodSteps(PrevMonth(s));
      SameMonth(NextPeriod(PrevMonth(s)), s);
    }
    if Month(s) < 119999 {
      PrevMonthSteps(NextPeriod(s));
      SameMonth(PrevMonth(NextPeriod(s)), s);
    }
  }

  lemma PeriodMonthBound(s: string)
    requires IsPeriod(s)
    ensures Month(s) <= 119999
  {
    PeriodParts(s);
  }

  /** `n` months back. */
  function MonthsBack(s: string, n: nat): (t: string)
    requires IsPeriod(s) && n <= Month(s)
    ensures IsPeriod(t) && Month(t) == Month(s) - n
  {
    if n == 0 then s else
      var u := MonthsBack(s, n - 1);
      PrevMonthSteps(u);
      PrevMonth(u)
  }

  /** Twelve months back is the year before. */
  lemma TwelveMonthsIsAYear(s: string)
    requires IsPeriod(s) && Month(s) >= 12
    ensures MonthsBack(s, 12) == PrevYear(s)
  {
    PrevYearSteps(s);
    SameMonth(MonthsBack(s, 12), PrevYear(s));
  }
}
