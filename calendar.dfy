/**
 Calendar dates of the proleptic Gregorian calendar as Python's `datetime`
 handles them: years 1 through 9999, the day number (`toordinal`, with
 0001-01-01 as day 1), the next day (`+ timedelta(days=1)`, which overflows
 past 9999-12-31), and the canonical `"%Y-%m-%d"` text of a date.

 The central fact is `FormatOrder`: for canonical date strings, the order of
 Python's `sorted` on strings is the chronological order.
 */
module Calendar {
  import opened Collections
  import opened Text

  datatype Date = Date(year: int, month: int, day: int)

  const MinYear := 1
  const MaxYear := 9999

  /** The last date `datetime` can represent. */
  const MaxDate := Date(9999, 12, 31)

  predicate IsLeap(y: int)
  {
    y % 4 == 0 && (y % 100 != 0 || y % 400 == 0)
  }

  function DaysInYear(y: int): int
  {
    if IsLeap(y) then 366 else 365
  }

  function DaysInMonth(y: int, m: int): (n: int)
    requires 1 <= m <= 12
    ensures 28 <= n <= 31
  {
    if m == 2 then (if IsLeap(y) then 29 else 28)
    else if m == 4 || m == 6 || m == 9 || m == 11 then 30
    else 31
  }

  predicate Valid(d: Date)
  {
    MinYear <= d.year <= MaxYear && 1 <= d.month <= 12 && 1 <= d.day <= DaysInMonth(d.year, d.month)
  }

  /** Days in the years before `y` (Python's `_days_before_year`). */
  function DaysBeforeYear(y: int): int
  {
    var p := y - 1;
    p * 365 + p / 4 - p / 100 + p / 400
  }

  /** Days in the months of year `y` before month `m` (Python's `_days_before_month`). */
  function DaysBeforeMonth(y: int, m: int): int
    requires 1 <= m <= 12
  {
    var table := [0, 31, 59, 90, 120, 151, 181, 212, 243, 273, 304, 334];
    table[m - 1] + (if m > 2 && IsLeap(y) then 1 else 0)
  }

  /** Python's `date.toordinal()`: 0001-01-01 is day 1. */
  function Ordinal(d: Date): int
    requires Valid(d)
  {
    DaysBeforeYear(d.year) + DaysBeforeMonth(d.year, d.month) + d.day
  }

  lemma YearStep(y: int)
    ensures DaysBeforeYear(y + 1) == DaysBeforeYear(y) + DaysInYear(y)
  {
    var p := y - 1;
    DivStep4(p);
    DivStep100(p);
    DivStep400(p);
    DivisorChain(y);
    var a, b, c := p / 4, p / 100, p / 400;
    assert DaysBeforeYear(y) == p * 365 + a - b + c;
    assert (p + 1) * 365 == p * 365 + 365;
  }

  /** A multiple of 400 is a multiple of 100, and a multiple of 100 is a multiple of 4. */
  lemma DivisorChain(y: int)
    ensures y % 400 == 0 ==> y % 100 == 0
    ensures y % 100 == 0 ==> y % 4 == 0
  {
    if y % 400 == 0 {
      Multiple400(y);
    }
    if y % 100 == 0 {
      Multiple100(y);
    }
  }

  lemma Multiple400(y: int)
    requires y % 400 == 0
    ensures y % 100 == 0
  {
    var k := y / 400;
    assert y == 400 * k;
  }

  lemma Multiple100(y: int)
    requires y % 100 == 0
    ensures y % 4 == 0
  {
    var k := y / 100;
    assert y == 4 * (25 * k);
  }

  // Counting multiples: `(p + 1) / d` goes up by one exactly when `d` divides `p + 1`.

  lemma DivStep4(p: int)
    ensures (p + 1) / 4 == p / 4 + (if (p + 1) % 4 == 0 then 1 else 0)
  {
    var q, r := p / 4, p % 4;
    assert p == 4 * q + r;
    assert r == 3 ==> p + 1 == 4 * (q + 1);
  }

  lemma DivStep100(p: int)
    ensures (p + 1) / 100 == p / 100 + (if (p + 1) % 100 == 0 then 1 else 0)
  {
    var q, r := p / 100, p % 100;
    assert p == 100 * q + r;
    assert r == 99 ==> p + 1 == 100 * (q + 1);
  }

  lemma DivStep400(p: int)
    ensures (p + 1) / 400 == p / 400 + (if (p + 1) % 400 == 0 then 1 else 0)
  {
    var q, r := p / 400, p % 400;
    assert p == 400 * q + r;
    assert r == 399 ==> p + 1 == 400 * (q + 1);
  }

  lemma MonthStep(y: int, m: int)
    requires 1 <= m <= 12
    ensures m < 12 ==> DaysBeforeMonth(y, m + 1) == DaysBeforeMonth(y, m) + DaysInMonth(y, m)
    ensures m == 12 ==> DaysBeforeMonth(y, m) + DaysInMonth(y, m) == DaysInYear(y)
  {
  }

  lemma {:induction false} DaysBeforeYearMonotone(a: int, b: int)
    requires a <= b
    ensures DaysBeforeYear(a) + 365 * (b - a) <= DaysBeforeYear(b)
    decreases b - a
  {
    if a < b {
      YearStep(a);
      DaysBeforeYearMonotone(a + 1, b);
    }
  }

  lemma DaysBeforeMonthMonotone(y: int, a: int, b: int)
    requires 1 <= a < b <= 12
    ensures DaysBeforeMonth(y, a) + DaysInMonth(y, a) <= DaysBeforeMonth(y, b)
  {
  }

  /** Chronological order of dates as (year, month, day) tuples, as `datetime` compares them. */
  predicate Before(a: Date, b: Date)
  {
    a.year < b.year || (a.year == b.year && (a.month < b.month || (a.month == b.month && a.day < b.day)))
  }

  /** Day numbers increase exactly with the calendar order. */
  lemma OrdinalOrder(a: Date, b: Date)
    requires Valid(a) && Valid(b)
    ensures Before(a, b) <==> Ordinal(a) < Ordinal(b)
    ensures a == b <==> Ordinal(a) == Ordinal(b)
  {
    if Before(a, b) {
      OrdinalBefore(a, b);
    } else if Before(b, a) {
      OrdinalBefore(b, a);
    }
  }

  lemma OrdinalBefore(a: Date, b: Date)
    requires Valid(a) && Valid(b) && Before(a, b)
    ensures Ordinal(a) < Ordinal(b)
  {
    if a.year < b.year {
      OrdinalInYear(a);
      OrdinalInYear(b);
      DaysBeforeYearMonotone(a.year + 1, b.year);
    } else if a.month < b.month {
      DaysBeforeMonthMonotone(a.year, a.month, b.month);
    }
  }

  /** A date's day number lies within its own year. */
  lemma OrdinalInYear(d: Date)
    requires Valid(d)
    ensures DaysBeforeYear(d.year) < Ordinal(d) <= DaysBeforeYear(d.year + 1)
  {
    YearStep(d.year);
    MonthStep(d.year, 12);
    if d.month < 12 {
      DaysBeforeMonthMonotone(d.year, d.month, 12);
    }
  }

  /** Every valid date is on or before 9999-12-31. */
  lemma MaxDateIsLast(d: Date)
    requires Valid(d)
    ensures Valid(MaxDate) && Ordinal(d) <= Ordinal(MaxDate)
    ensures Ordinal(d) == Ordinal(MaxDate) ==> d == MaxDate
  {
    OrdinalOrder(d, MaxDate);
  }

  /** `d + timedelta(days=1)`; `None` is the `OverflowError` past 9999-12-31. */
  function NextDay(d: Date): (n: Option<Date>)
    requires Valid(d)
    ensures n.None? <==> d == MaxDate
    ensures n.Some? ==> Valid(n.value) && Ordinal(n.value) == Ordinal(d) + 1
  {
    MonthStep(d.year, d.month);
    YearStep(d.year);
    if d.day < DaysInMonth(d.year, d.month) then Some(Date(d.year, d.month, d.day + 1))
    else if d.month < 12 then Some(Date(d.year, d.month + 1, 1))
    else if d.year < MaxYear then Some(Date(d.year + 1, 1, 1))
    else None
  }

  /** `d.strftime("%Y-%m-%d")` for a valid date: year 4 digits, month and day 2 digits. */
  function Format(d: Date): (s: string)
    requires Valid(d)
    ensures |s| == 10
  {
    FixedDigits(d.year, 4) + "-" + FixedDigits(d.month, 2) + "-" + FixedDigits(d.day, 2)
  }

  /**
   `datetime.strptime(s, "%Y-%m-%d")` on canonical text: exactly four year
   digits, two month digits and two day digits that name a valid date.
   `None` stands for the `ValueError`.
   */
  function Parse(s: string): (r: Option<Date>)
    ensures r.Some? ==> Valid(r.value) && Format(r.value) == s
  {
    if |s| == 10 && s[4] == '-' && s[7] == '-'
       && AllDigits(s[..4]) && AllDigits(s[5..7]) && AllDigits(s[8..]) then
      var d := Date(DigitsValue(s[..4]), DigitsValue(s[5..7]), DigitsValue(s[8..]));
      if Valid(d) then
        FieldsFormat(s, d);
        Some(d)
      else None
    else None
  }

  /** The date read off canonical text formats back to that text. */
  lemma FieldsFormat(s: string, d: Date)
    requires |s| == 10 && s[4] == '-' && s[7] == '-'
    requires AllDigits(s[..4]) && AllDigits(s[5..7]) && AllDigits(s[8..])
    requires d == Date(DigitsValue(s[..4]), DigitsValue(s[5..7]), DigitsValue(s[8..])) && Valid(d)
    ensures Format(d) == s
  {
    DigitsValueFixed(s[..4]);
    DigitsValueFixed(s[5..7]);
    DigitsValueFixed(s[8..]);
    assert s == s[..4] + "-" + s[5..7] + "-" + s[8..];
  }

  /** Formatting then parsing gives the date back. */
  lemma FormatParse(d: Date)
    requires Valid(d)
    ensures Parse(Format(d)) == Some(d)
  {
    var s := Format(d);
    assert s[..4] == FixedDigits(d.year, 4);
    assert s[5..7] == FixedDigits(d.month, 2);
    assert s[8..] == FixedDigits(d.day, 2);
    FixedDigitsValue(d.year, 4);
    FixedDigitsValue(d.month, 2);
    FixedDigitsValue(d.day, 2);
  }

  /** Distinct dates have distinct text. */
  lemma FormatInjective(a: Date, b: Date)
    requires Valid(a) && Valid(b) && Format(a) == Format(b)
    ensures a == b
  {
    FormatParse(a);
    FormatParse(b);
  }

  /**
   The order of canonical date strings under Python's `str` comparison is the
   chronological order, which is what makes the first and last of the sorted
   keys the earliest and the latest date.
   */
  lemma FormatOrder(a: Date, b: Date)
    requires Valid(a) && Valid(b)
    ensures LexLess(Format(a), Format(b)) <==> Ordinal(a) < Ordinal(b)
  {
    FieldsLex(FixedDigits(a.year, 4), FixedDigits(a.month, 2), FixedDigits(a.day, 2),
              FixedDigits(b.year, 4), FixedDigits(b.month, 2), FixedDigits(b.day, 2));
    FixedDigitsOrder(a.year, b.year, 4);
    FixedDigitsOrder(a.month, b.month, 2);
    FixedDigitsOrder(a.day, b.day, 2);
    OrdinalOrder(a, b);
  }

  /** Text of three dash-separated fields of fixed widths compares field by field. */
  lemma FieldsLex(ya: string, ma: string, da: string, yb: string, mb: string, db: string)
    requires |ya| == |yb| && |ma| == |mb|
    ensures LexLess(ya + "-" + ma + "-" + da, yb + "-" + mb + "-" + db)
      <==> LexLess(ya, yb) || (ya == yb && (LexLess(ma, mb) || (ma == mb && LexLess(da, db))))
  {
    assert ya + "-" + ma + "-" + da == ya + ("-" + (ma + ("-" + da)));
    assert yb + "-" + mb + "-" + db == yb + ("-" + (mb + ("-" + db)));
    LexConcat(ya, "-" + (ma + ("-" + da)), yb, "-" + (mb + ("-" + db)));
    LexConcat("-", ma + ("-" + da), "-", mb + ("-" + db));
    LexConcat(ma, "-" + da, mb, "-" + db);
    LexConcat("-", da, "-", db);
    LexIrreflexive("-");
  }
}
