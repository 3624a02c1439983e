/**
 ISO 8601 week dates (ISO 8601:2004, section 4.1.4) as Python's
 `date.isocalendar()` computes them, the week labels `"{isoyear}-W{week:02d}"`
 the weekly series is keyed by, and the part of
 `datetime.strptime(text, "%G-W%V-%u")` the Monday reconstruction depends on.

 Days are day numbers (`Calendar.Ordinal`, Python's `toordinal`); the Monday
 of a week is given as a day number.
 */
module IsoWeek {
  import opened Collections
  import opened Text
  import opened Calendar

  /** The `(year, week, weekday)` triple of `isocalendar()`; weekday 1 is Monday. */
  datatype IsoDate = IsoDate(year: int, week: int, weekday: int)

  /** Python's `weekday()` of a day number: Monday is 0, Sunday 6. */
  function Weekday(ordinal: int): (w: int)
    ensures 0 <= w < 7
  {
    (ordinal + 6) % 7
  }

  /** The day number of 1 January of year `y` (`_ymd2ord(y, 1, 1)`). */
  function JanFirst(y: int): int
  {
    DaysBeforeYear(y) + 1
  }

  /**
   The Monday that starts ISO week 1 of `y` (Python's `_isoweek1monday`):
   week 1 is the week that holds 4 January, the first week with a Thursday.
   */
  function Week1Monday(y: int): (m: int)
    ensures Weekday(m) == 0
    ensures m <= JanFirst(y) + 3 < m + 7
  {
    MondayOfFirstWeek(JanFirst(y))
  }

  /** The rule of `_isoweek1monday`, applied to the day number of 1 January. */
  function MondayOfFirstWeek(firstday: int): (m: int)
    ensures Weekday(m) == 0
    ensures m <= firstday + 3 < m + 7
  {
    var firstweekday := Weekday(firstday);
    var week1monday := firstday - firstweekday;
    assert week1monday + 6 == 7 * ((firstday + 6) / 7);
    if firstweekday > 3 then week1monday + 7 else week1monday
  }

  /** The Monday of ISO week `week` of ISO year `year`, the date the weekly series labels a week with. */
  function WeekMonday(year: int, week: int): int
  {
    Week1Monday(year) + 7 * (week - 1)
  }

  /** Python's `date.isocalendar()`, branch for branch. */
  function IsoCalendar(d: Date): IsoDate
    requires Valid(d)
  {
    IsoOfDay(d.year, Ordinal(d))
  }

  /** `isocalendar()` of day number `today` of calendar year `year`. */
  function IsoOfDay(year: int, today: int): IsoDate
  {
    IsoFromDay(year, today, Week1Monday(year - 1), Week1Monday(year), Week1Monday(year + 1))
  }

  /**
   The branches of `isocalendar()` for day number `today` of calendar year
   `year`, given the Mondays of week 1 of the previous, the same and the next
   year. The week number and weekday come from `divmod(today - week1monday, 7)`.
   */
  function IsoFromDay(year: int, today: int, prev: int, cur: int, next: int): IsoDate
  {
    var week, day := (today - cur) / 7, (today - cur) % 7;
    if week < 0 then
      IsoDate(year - 1, (today - prev) / 7 + 1, (today - prev) % 7 + 1)
    else if week >= 52 && today >= next then
      IsoDate(year + 1, 1, day + 1)
    else
      IsoDate(year, week + 1, day + 1)
  }

  /** Consecutive ISO years are 52 or 53 weeks apart. */
  lemma Week1MondayGap(y: int)
    ensures Week1Monday(y + 1) - Week1Monday(y) == 364 || Week1Monday(y + 1) - Week1Monday(y) == 371
  {
    YearStep(y);
    var a, b := Week1Monday(y), Week1Monday(y + 1);
    var qa, qb := (a + 6) / 7, (b + 6) / 7;
    assert a + 6 == 7 * qa && b + 6 == 7 * qb;
    assert b - a == 7 * (qb - qa);
  }

  /** Python's `weekday()` is unchanged by whole weeks. */
  lemma WeekdayShift(m: int, n: int)
    ensures Weekday(m + 7 * n) == Weekday(m)
  {
    var q, r := (m + 6) / 7, (m + 6) % 7;
    assert m + 7 * n + 6 == 7 * (q + n) + r;
  }

  /**
   The arithmetic behind `isocalendar()`, on plain day numbers: `today` lies in
   the calendar year that starts on day `jf` and ends before `jfNext`, and
   `prev`, `cur` and `next` are the Mondays of week 1 of the previous, the same
   and the next ISO year.
   */
  lemma IsoWeekArith(year: int, today: int, jf: int, jfNext: int, prev: int, cur: int, next: int)
    requires jf <= today < jfNext && (jfNext - jf == 365 || jfNext - jf == 366)
    requires Weekday(prev) == 0 && Weekday(cur) == 0 && Weekday(next) == 0
    requires cur <= jf + 3 < cur + 7 && next <= jfNext + 3 < next + 7
    requires cur - prev == 364 || cur - prev == 371
    requires next - cur == 364 || next - cur == 371
    ensures var iso := IsoFromDay(year, today, prev, cur, next);
      && 1 <= iso.week <= 53
      && iso.weekday == Weekday(today) + 1
      && ((iso.year == year - 1 && prev <= today < cur && today == prev + 7 * (iso.week - 1) + iso.weekday - 1)
       || (iso.year == year && cur <= today < next && today == cur + 7 * (iso.week - 1) + iso.weekday - 1)
       || (iso.year == year + 1 && next <= today < next + 364 && today == next + 7 * (iso.week - 1) + iso.weekday - 1))
  {
    WeekOf(today, cur);
    if (today - cur) / 7 < 0 {
      WeekOf(today, prev);
    }
  }

  /** `divmod(today - m, 7)` from a Monday `m`: the week count and the weekday. */
  lemma WeekOf(today: int, m: int)
    requires Weekday(m) == 0
    ensures today == m + 7 * ((today - m) / 7) + (today - m) % 7
    ensures Weekday(today) == (today - m) % 7
  {
    var k := (m + 6) / 7;
    assert m + 6 == 7 * k;
    var w, d := (today - m) / 7, (today - m) % 7;
    assert today + 6 == 7 * (w + k) + d;
  }

  /**
   `isocalendar()` is an ISO week date: the weekday is the day's weekday, the
   week number lies in 1..53, the ISO year is the calendar year or a
   neighbour, and the day lies in week `week` of ISO year `year`, counting
   from the Monday of week 1, and before week 1 of the next ISO year, so that
   the ISO year and week are determined by the day.
   */
  lemma IsoCalendarIsIsoWeek(d: Date)
    requires Valid(d)
    ensures var iso := IsoCalendar(d);
      && 1 <= iso.week <= 53
      && 1 <= iso.weekday <= 7
      && iso.weekday == Weekday(Ordinal(d)) + 1
      && d.year - 1 <= iso.year <= d.year + 1
      && Ordinal(d) == WeekMonday(iso.year, iso.week) + iso.weekday - 1
      && BeforeNextIsoYear(Ordinal(d), iso.year)
  {
    OrdinalInYear(d);
    IsoOfDayNumber(d.year, Ordinal(d));
  }

  /** Day number `today` falls before the Monday of week 1 of ISO year `year + 1`. */
  predicate BeforeNextIsoYear(today: int, year: int)
  {
    today < Week1Monday(year + 1)
  }

  /** `IsoCalendarIsIsoWeek` for day number `today` of calendar year `y`. */
  lemma IsoOfDayNumber(y: int, today: int)
    requires JanFirst(y) <= today < JanFirst(y + 1)
    ensures var iso := IsoOfDay(y, today);
      && 1 <= iso.week <= 53
      && iso.weekday == Weekday(today) + 1
      && y - 1 <= iso.year <= y + 1
      && today == WeekMonday(iso.year, iso.week) + iso.weekday - 1
      && BeforeNextIsoYear(today, iso.year)
  {
    YearStep(y);
    Week1MondayGap(y - 1);
    Week1MondayGap(y);
    Week1MondayGap(y + 1);
    IsoWeekYear(y, today, JanFirst(y), JanFirst(y + 1), Week1Monday);
    IsoBeforeNextYear(y, today);
  }

  /** The day `IsoOfDay` places in ISO year `year` lies before week 1 of ISO year `year + 1`. */
  lemma IsoBeforeNextYear(y: int, today: int)
    requires JanFirst(y) <= today < JanFirst(y + 1)
    ensures BeforeNextIsoYear(today, IsoOfDay(y, today).year)
  {
    var w: int -> int := Week1Monday;
    IsoYearOfDay(y, today);
    assert w(y - 1) == Week1Monday(y - 1) && w(y) == Week1Monday(y) && w(y + 1) == Week1Monday(y + 1);
    var iso := IsoFromDay(y, today, w(y - 1), w(y), w(y + 1));
    assert iso == IsoOfDay(y, today);
    assert w(iso.year + 1) == Week1Monday(iso.year + 1);
  }

  /** `IsoWeekYear` for the week-1 Mondays of `_isoweek1monday`. */
  lemma IsoYearOfDay(y: int, today: int)
    requires JanFirst(y) <= today < JanFirst(y + 1)
    ensures var w: int -> int := Week1Monday;
      var iso := IsoFromDay(y, today, w(y - 1), w(y), w(y + 1));
      w(iso.year) <= today < w(iso.year + 1)
  {
    YearStep(y);
    Week1MondayGap(y - 1);
    Week1MondayGap(y);
    Week1MondayGap(y + 1);
    IsoWeekYear(y, today, JanFirst(y), JanFirst(y + 1), Week1Monday);
  }

  /**
   The ISO year of day number `today` is the one whose week 1 starts on or
   before it and whose successor's week 1 starts after it, for any choice `w`
   of week-1 Mondays that are Mondays, hold 4 January and lie 52 or 53 weeks apart.
   */
  lemma IsoWeekYear(y: int, today: int, jf: int, jfNext: int, w: int -> int)
    requires jf <= today < jfNext && (jfNext - jf == 365 || jfNext - jf == 366)
    requires Weekday(w(y - 1)) == 0 && Weekday(w(y)) == 0 && Weekday(w(y + 1)) == 0
    requires w(y) <= jf + 3 < w(y) + 7 && w(y + 1) <= jfNext + 3 < w(y + 1) + 7
    requires w(y) - w(y - 1) == 364 || w(y) - w(y - 1) == 371
    requires w(y + 1) - w(y) == 364 || w(y + 1) - w(y) == 371
    requires w(y + 2) - w(y + 1) == 364 || w(y + 2) - w(y + 1) == 371
    ensures var iso := IsoFromDay(y, today, w(y - 1), w(y), w(y + 1));
      && 1 <= iso.week <= 53
      && iso.weekday == Weekday(today) + 1
      && y - 1 <= iso.year <= y + 1
      && today == w(iso.year) + 7 * (iso.week - 1) + iso.weekday - 1
      && w(iso.year) <= today < w(iso.year + 1)
  {
    IsoWeekArith(y, today, jf, jfNext, w(y - 1), w(y), w(y + 1));
  }

  /** The Monday of the week a day falls in is at most six days before it. */
  lemma MondayOfWeek(d: Date)
    requires Valid(d)
    ensures var iso := IsoCalendar(d);
      && Weekday(WeekMonday(iso.year, iso.week)) == 0
      && WeekMonday(iso.year, iso.week) <= Ordinal(d) <= WeekMonday(iso.year, iso.week) + 6
  {
    IsoCalendarIsIsoWeek(d);
    var iso := IsoCalendar(d);
    WeekdayShift(Week1Monday(iso.year), iso.week - 1);
  }

  /** The week label `f"{year}-W{week:02d}"`. */
  function WeekLabel(year: nat, week: nat): string
    requires week < 100
  {
    DecimalString(year) + "-W" + FixedDigits(week, 2)
  }

  /** The label of the ISO week a date falls in (source lines 139-141). */
  function WeekLabelOf(d: Date): string
    requires Valid(d)
  {
    IsoCalendarIsIsoWeek(d);
    var iso := IsoCalendar(d);
    WeekLabel(iso.year, iso.week)
  }

  /** Does the separator `-W` start at position `i` of `k`? */
  predicate SepAt(k: string, i: int)
  {
    0 <= i && i + 1 < |k| && k[i] == '-' && k[i + 1] == 'W'
  }

  /** The first position at or after `from` where `-W` starts, or -1. */
  function FirstSep(k: string, from: nat): (i: int)
    ensures i == -1 || (from <= i && SepAt(k, i))
    decreases |k| - from
  {
    if from + 1 >= |k| then -1
    else if k[from] == '-' && k[from + 1] == 'W' then from
    else FirstSep(k, from + 1)
  }

  /**
   `year_str, week_str = week_key.split('-W')` followed by `int()` of each part;
   `None` is the `ValueError` of a key with no or several separators or a
   part that is not a number.
   */
  function ParseWeekLabel(k: string): Option<(nat, nat)>
  {
    var i := FirstSep(k, 0);
    if i < 0 || FirstSep(k, i + 2) >= 0 then None
    else
      match (ParseNat(k[..i]), ParseNat(k[i + 2..]))
      case (Some(y), Some(w)) => Some((y, w))
      case _ => None
  }

  lemma {:induction false} FirstSepSkipsDigits(k: string, lo: int, hi: int)
    requires 0 <= lo <= hi <= |k|
    requires forall j :: lo <= j < hi ==> IsDigit(k[j])
    ensures SepAt(k, hi) ==> FirstSep(k, lo) == hi
    ensures hi == |k| ==> FirstSep(k, lo) == -1
    decreases hi - lo
  {
    if lo < hi {
      FirstSepSkipsDigits(k, lo + 1, hi);
    }
  }

  /** A week label can be read back into its year and its week. */
  lemma WeekLabelParses(year: nat, week: nat)
    requires week < 100
    ensures ParseWeekLabel(WeekLabel(year, week)) == Some((year, week))
  {
    var ys, ws := DecimalString(year), FixedDigits(week, 2);
    var k := WeekLabel(year, week);
    assert k == ys + "-W" + ws;
    assert k[..|ys|] == ys && k[|ys| + 2..] == ws;
    FirstSepSkipsDigits(k, 0, |ys|);
    FirstSepSkipsDigits(k, |ys| + 2, |k|);
    DecimalStringValue(year);
    Pow10Two();
    FixedDigitsValue(week, 2);
  }

  lemma Pow10Two()
    ensures Pow10(2) == 100 && Pow10(3) == 1000 && Pow10(4) == 10000
  {
    assert Pow10(1) == 10;
    assert Pow10(3) == 1000;
  }

  /** Two different weeks never share a label. */
  lemma WeekLabelInjective(y1: nat, w1: nat, y2: nat, w2: nat)
    requires w1 < 100 && w2 < 100 && WeekLabel(y1, w1) == WeekLabel(y2, w2)
    ensures y1 == y2 && w1 == w2
  {
    WeekLabelParses(y1, w1);
    WeekLabelParses(y2, w2);
  }

  /**
   For four-digit ISO years, sorting week labels as strings (line 149) is
   sorting the weeks by year and then by week.
   */
  lemma WeekLabelOrder(y1: nat, w1: nat, y2: nat, w2: nat)
    requires 1000 <= y1 < 10000 && 1000 <= y2 < 10000 && w1 < 100 && w2 < 100
    ensures LexLess(WeekLabel(y1, w1), WeekLabel(y2, w2)) <==> y1 < y2 || (y1 == y2 && w1 < w2)
  {
    Pow10Two();
    DecimalFixed(y1, 4);
    DecimalFixed(y2, 4);
    var a1, a2 := FixedDigits(y1, 4), FixedDigits(y2, 4);
    var c1, c2 := FixedDigits(w1, 2), FixedDigits(w2, 2);
    assert WeekLabel(y1, w1) == a1 + ("-W" + c1);
    assert WeekLabel(y2, w2) == a2 + ("-W" + c2);
    LexConcat(a1, "-W" + c1, a2, "-W" + c2);
    LexConcat("-W", c1, "-W", c2);
    LexIrreflexive("-W");
    FixedDigitsOrder(y1, y2, 4);
    FixedDigitsOrder(w1, w2, 2);
  }

  /**
   The date `_strptime` builds from `%G`, `%V` and `%u` (its
   `_calc_julian_from_V`): counted from 4 January of the ISO year, whose
   own weekday fixes where week 1 begins.
   */
  function IsoWeekDateOrdinal(isoYear: int, isoWeek: int, isoWeekday: int): int
  {
    DayFromJan4(JanFirst(isoYear), isoWeek, isoWeekday)
  }

  /** `_calc_julian_from_V` for the year whose 1 January is day number `jf`. */
  function DayFromJan4(jf: int, isoWeek: int, isoWeekday: int): int
  {
    var jan4 := jf + 3;
    var correction := (Weekday(jan4) + 1) + 3;
    jf - 1 + isoWeek * 7 + isoWeekday - correction
  }

  lemma DayFromJan4IsMonday(jf: int, isoWeek: int)
    ensures DayFromJan4(jf, isoWeek, 1) == MondayOfFirstWeek(jf) + 7 * (isoWeek - 1)
  {
    var m := MondayOfFirstWeek(jf);
    var k := (m + 6) / 7;
    assert m + 6 == 7 * k;
    var off := jf + 3 - m;
    assert jf + 3 + 6 == 7 * k + off;
  }

  /** The Monday `strptime` reconstructs is the Monday of the week. */
  lemma IsoWeekDateOrdinalIsWeekMonday(isoYear: int, isoWeek: int)
    ensures IsoWeekDateOrdinal(isoYear, isoWeek, 1) == WeekMonday(isoYear, isoWeek)
  {
    DayFromJan4IsMonday(JanFirst(isoYear), isoWeek);
  }

  /** How many characters `%V` (regular expression `5[0-3]|0[1-9]|[1-4]\d|\d`) takes from the front of `t`; 0 if none. */
  function IsoWeekFieldLength(t: string): (n: nat)
    ensures n <= 2 && n <= |t| && AllDigits(t[..n])
  {
    if |t| >= 2 && ((t[0] == '5' && '0' <= t[1] <= '3') || (t[0] == '0' && '1' <= t[1] <= '9')
                    || ('1' <= t[0] <= '4' && IsDigit(t[1]))) then 2
    else if |t| >= 1 && IsDigit(t[0]) then 1
    else 0
  }

  /**
   `datetime.strptime(s, "%G-W%V-%u")`, as the day number of the result:
   four digits of ISO year, a literal `-W`, the week field, `-` and one
   weekday digit 1..7, and nothing after. `None` is the `ValueError`. The
   `W` is matched case-sensitively, while Python's `strptime` ignores case.
   */
  function IsoWeekStrptime(s: string): (r: Option<int>)
    ensures r.Some? ==> 'W' in s
  {
    if |s| >= 9 && AllDigits(s[..4]) && s[4] == '-' && s[5] == 'W' then
      assert s[5] in s;
      var t := s[6..];
      var n := IsoWeekFieldLength(t);
      if n > 0 && |t| == n + 2 && t[n] == '-' && '1' <= t[n + 1] <= '7' then
        Some(IsoWeekDateOrdinal(DigitsValue(s[..4]), DigitsValue(t[..n]), DigitValue(t[n + 1])))
      else None
    else None
  }

  /** The text line 167 of the source builds: `f"{year}-{week_num}-1"`, with no `W`. */
  function MondayText(year: nat, week: nat): string
  {
    DecimalString(year) + "-" + DecimalString(week) + "-1"
  }

  /** The line-167 text never matches the `"%G-W%V-%u"` format: the literal `W` is missing. */
  lemma MondayTextRejected(year: nat, week: nat)
    ensures IsoWeekStrptime(MondayText(year, week)) == None
  {
    var ys, ws := DecimalString(year), DecimalString(week);
    var s := MondayText(year, week);
    assert s == ys + "-" + ws + "-1";
    forall i | 0 <= i < |s| ensures s[i] != 'W' {
      if i < |ys| {
        assert s[i] == ys[i];
      } else if |ys| < i < |ys| + 1 + |ws| {
        assert s[i] == ws[i - |ys| - 1];
      }
    }
  }

  /** With the `W` in place (`week_key + "-1"`), the same call yields the Monday of the week. */
  lemma LabelTextParses(year: nat, week: nat)
    requires 1000 <= year <= 9999 && 1 <= week <= 53
    ensures IsoWeekStrptime(WeekLabel(year, week) + "-1") == Some(WeekMonday(year, week))
  {
    Pow10Two();
    DecimalIsFixedFour(year);
    var ys, ws := FixedDigits(year, 4), FixedDigits(week, 2);
    var s := WeekLabel(year, week) + "-1";
    assert s == ys + "-W" + ws + "-1";
    assert s[..4] == ys;
    var t := s[6..];
    assert t == ws + "-1";
    FixedDigitsValue(year, 4);
    FixedDigitsValue(week, 2);
    assert ws[0] == DigitChar(week / 10) && ws[1] == DigitChar(week % 10);
    assert IsoWeekFieldLength(t) == 2;
    assert t[..2] == ws;
    assert DigitValue(t[3]) == 1;
    IsoWeekDateOrdinalIsWeekMonday(year, week);
  }

  /** A four-digit year prints without padding as its zero-padded form. */
  lemma DecimalIsFixedFour(n: nat)
    requires 1000 <= n <= 9999
    ensures DecimalString(n) == FixedDigits(n, 4)
  {
    assert DecimalString(n / 1000) == FixedDigits(n / 1000, 1);
    assert DecimalString(n / 100) == FixedDigits(n / 100, 2);
    assert DecimalString(n / 10) == FixedDigits(n / 10, 3);
  }
}
