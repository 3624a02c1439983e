/**
 `calculate_weekly_data` (src/template/main.py:124-187): the records bucketed
 by the ISO week of their date, `"{isoyear}-W{week:02d}"`, with the total and
 the distinct active users of each week, the labels in sorted order, and the
 Monday of each week as its date.

 The pipeline is written once, in `WeeklyData`, over the step that turns a
 week label into its Monday (source lines 163-168). `CalculateWeeklyData`
 plugs in that step as the source writes it, whose text is never accepted by
 the format it is parsed with, so every input gives the all-empty result;
 `CalculateWeeklyDataIntended` plugs in the text with the `W` in place.
 */
module Weekly {
  import opened Collections
  import opened Text
  import opened Calendar
  import opened IsoWeek
  import opened Aggregation

  /** The bucket of a weekly record: the ISO week label of its date, when `strptime(s, "%Y-%m-%d")` accepts it. */
  function WeekKey(s: string): (k: Option<string>)
    ensures k.Some? <==> Parse(s).Some?
  {
    match Parse(s)
    case Some(d) => Some(WeekLabelOf(d))
    case None => None
  }

  /** The four lists of the returned dictionary; a week's date is the day number of its Monday. */
  datatype WeeklySeries = WeeklySeries(
    dates: seq<int>,           // 'fechas'
    commits: seq<int>,         // 'commits'
    activeUsers: seq<int>,     // 'active_users'
    weekLabels: seq<string>)   // 'week_labels'

  const EmptyWeekly := WeeklySeries([], [], [], [])

  /** The step from a week label to its Monday; `None` is the `ValueError` it may raise. */
  type MondayFn = string -> Option<int>

  /** Lines 164-167 as written: split the label, then parse `f"{year}-{week_num}-1"` with `"%G-W%V-%u"`. */
  function AsWrittenMonday(k: string): Option<int>
  {
    match ParseWeekLabel(k)
    case None => None
    case Some((year, week)) => IsoWeekStrptime(MondayText(year, week))
  }

  /** The same step with the `W` the format asks for: parse `f"{year_str}-W{week_str}-1"`, that is the label followed by `-1`. */
  function IntendedMonday(k: string): Option<int>
  {
    match ParseWeekLabel(k)
    case None => None
    case Some(_) => IsoWeekStrptime(k + "-1")
  }

  /** The weeks some record falls in. */
  ghost function WeekKeys(data: Input): set<string>
  {
    BucketKeys(data, WeekKey)
  }

  /** The cases in which the source returns the all-empty result, for a given Monday step. */
  ghost predicate WeeklyEmptyCase(data: Input, monday: MondayFn)
  {
    || !AllKeyed(data, WeekKey)
    || WeekKeys(data) == {}
    || exists k :: k in WeekKeys(data) && monday(k).None?
  }

  /**
   What the source returns outside `WeeklyEmptyCase`: every week label once,
   in sorted order; for each, its Monday, its total and its number of
   distinct active users; and nothing lost from the total.
   */
  ghost predicate WeeklySpec(data: Input, monday: MondayFn, r: WeeklySeries)
  {
    && WeekLabels(data, r)
    && |r.dates| == |r.weekLabels| && |r.commits| == |r.weekLabels| && |r.activeUsers| == |r.weekLabels|
    && (forall i :: 0 <= i < |r.weekLabels| ==> monday(r.weekLabels[i]) == Some(r.dates[i]))
    && WeekCommits(data, r)
    && WeekUsers(data, r)
  }

  /** The `week_labels` of `WeeklySpec`: every week some record falls in, once each, in sorted order. */
  ghost predicate WeekLabels(data: Input, r: WeeklySeries)
  {
    && StrictlySorted(r.weekLabels)
    && (forall k :: k in r.weekLabels <==> k in WeekKeys(data))
  }

  /** Each week's total commits, and nothing lost from the input's total. */
  ghost predicate WeekCommits(data: Input, r: WeeklySeries)
    requires |r.commits| == |r.weekLabels|
  {
    && (forall i :: 0 <= i < |r.weekLabels| ==> r.commits[i] == BucketSum(data, WeekKey, r.weekLabels[i]))
    && SeqSum(r.commits) == InputTotal(data)
  }

  /** Each week's number of distinct active users. */
  ghost predicate WeekUsers(data: Input, r: WeeklySeries)
    requires |r.activeUsers| == |r.weekLabels|
  {
    forall i :: 0 <= i < |r.weekLabels| ==> r.activeUsers[i] == |BucketUsers(data, WeekKey, r.weekLabels[i])|
  }

  /** `calculate_weekly_data` on the parsed contents of the file, with the Monday step `monday`. */
  method WeeklyData(data: Input, monday: MondayFn) returns (r: WeeklySeries)
    ensures r == EmptyWeekly <==> WeeklyEmptyCase(data, monday)
    ensures !WeeklyEmptyCase(data, monday) ==> WeeklySpec(data, monday, r)
  {
    var ok, commits, active := Aggregate(data, WeekKey);
    if !ok {
      return EmptyWeekly;
    }
    WeekTotalsHold(data, commits, active);
    var weeks := SortKeys(commits.Keys);
    if |weeks| == 0 {
      return EmptyWeekly;
    }
    var found, weekDates := Mondays(weeks, monday);
    if !found {
      MissingMonday(data, monday, commits, weeks);
      return EmptyWeekly;
    }
    r := WeeklySeries(weekDates, Lookups(commits, weeks), UserCounts(active, weeks), weeks);
    WeeklyFromTotals(data, monday, commits, active, weeks, weekDates);
  }

  /** What the accumulation loop establishes for the weekly key, when no date fails to parse. */
  ghost predicate WeekTotals(data: Input, commits: map<string, int>, active: map<string, set<string>>)
  {
    && AllKeyed(data, WeekKey)
    && commits.Keys == WeekKeys(data)
    && (forall k :: Lookup(commits, k) == BucketSum(data, WeekKey, k))
    && (forall k :: Members(active, k) == BucketUsers(data, WeekKey, k))
    && MapTotal(commits) == InputTotal(data)
  }

  /** `Aggregate`'s promise for the weekly key, gathered into `WeekTotals`. */
  lemma WeekTotalsHold(data: Input, commits: map<string, int>, active: map<string, set<string>>)
    requires AllKeyed(data, WeekKey)
    requires commits.Keys == BucketKeys(data, WeekKey)
    requires forall k :: Lookup(commits, k) == BucketSum(data, WeekKey, k)
    requires forall k :: Members(active, k) == BucketUsers(data, WeekKey, k)
    requires MapTotal(commits) == InputTotal(data)
    ensures WeekTotals(data, commits, active)
  {
  }

  /** `[len(active_users_by_week[w]) for w in weeks]`. */
  function UserCounts(active: map<string, set<string>>, ks: seq<string>): (vs: seq<int>)
    ensures |vs| == |ks|
    ensures forall i :: 0 <= i < |ks| ==> vs[i] == |Members(active, ks[i])|
  {
    seq(|ks|, i requires 0 <= i < |ks| => |Members(active, ks[i])|)
  }

  /** The loop over `weeks` that builds `week_dates`; `found` is false when some label's step raises. */
  method Mondays(weeks: seq<string>, monday: MondayFn) returns (found: bool, dates: seq<int>)
    ensures found <==> forall j :: 0 <= j < |weeks| ==> monday(weeks[j]).Some?
    ensures found ==> |dates| == |weeks| && forall j :: 0 <= j < |weeks| ==> monday(weeks[j]) == Some(dates[j])
  {
    dates := [];
    var i := 0;
    while i < |weeks|
      invariant 0 <= i <= |weeks| && |dates| == i
      invariant forall j :: 0 <= j < i ==> monday(weeks[j]) == Some(dates[j])
    {
      var date := monday(weeks[i]);
      if date.None? {
        return false, dates;
      }
      dates := dates + [date.value];
      i := i + 1;
    }
    found := true;
  }

  /** A label whose step raises is a week some record falls in. */
  lemma MissingMonday(data: Input, monday: MondayFn, commits: map<string, int>, weeks: seq<string>)
    requires commits.Keys == WeekKeys(data) && forall k :: k in weeks <==> k in commits
    requires !forall j :: 0 <= j < |weeks| ==> monday(weeks[j]).Some?
    ensures WeeklyEmptyCase(data, monday)
  {
    var j :| 0 <= j < |weeks| && monday(weeks[j]).None?;
    assert weeks[j] in WeekKeys(data);
  }

  /** The columns read from the totals, one per sorted week label, meet `WeeklySpec`. */
  lemma WeeklyFromTotals(data: Input, monday: MondayFn, commits: map<string, int>, active: map<string, set<string>>,
                         weeks: seq<string>, dates: seq<int>)
    requires WeekTotals(data, commits, active)
    requires StrictlySorted(weeks) && |weeks| >= 1
    requires forall k :: k in weeks <==> k in commits.Keys
    requires |dates| == |weeks|
    requires forall j :: 0 <= j < |weeks| ==> monday(weeks[j]) == Some(dates[j])
    ensures var r := WeeklySeries(dates, Lookups(commits, weeks), UserCounts(active, weeks), weeks);
      !WeeklyEmptyCase(data, monday) && WeeklySpec(data, monday, r) && r != EmptyWeekly
  {
    var r := WeeklySeries(dates, Lookups(commits, weeks), UserCounts(active, weeks), weeks);
    LabelsFromTotals(data, commits, active, r);
    CommitsFromTotals(data, commits, active, r);
    UsersFromTotals(data, commits, active, r);
    AllMondays(data, monday, weeks, dates);
    NotEmptyCase(data, monday, weeks[0]);
  }

  lemma LabelsFromTotals(data: Input, commits: map<string, int>, active: map<string, set<string>>, r: WeeklySeries)
    requires WeekTotals(data, commits, active)
    requires StrictlySorted(r.weekLabels)
    requires forall k :: k in r.weekLabels <==> k in commits
    ensures WeekLabels(data, r)
  {
  }

  lemma UsersFromTotals(data: Input, commits: map<string, int>, active: map<string, set<string>>, r: WeeklySeries)
    requires WeekTotals(data, commits, active)
    requires r.activeUsers == UserCounts(active, r.weekLabels)
    ensures WeekUsers(data, r)
  {
  }

  lemma NotEmptyCase(data: Input, monday: MondayFn, k: string)
    requires AllKeyed(data, WeekKey) && k in WeekKeys(data)
    requires forall k :: k in WeekKeys(data) ==> monday(k).Some?
    ensures !WeeklyEmptyCase(data, monday)
  {
  }

  lemma CommitsFromTotals(data: Input, commits: map<string, int>, active: map<string, set<string>>, r: WeeklySeries)
    requires WeekTotals(data, commits, active)
    requires StrictlySorted(r.weekLabels)
    requires forall k :: k in r.weekLabels <==> k in commits
    requires r.commits == Lookups(commits, r.weekLabels)
    ensures WeekCommits(data, r)
  {
    SortedDistinct(r.weekLabels);
    LookupsTotal(commits, r.weekLabels);
  }

  lemma AllMondays(data: Input, monday: MondayFn, weeks: seq<string>, dates: seq<int>)
    requires |dates| == |weeks| && forall k :: k in weeks <==> k in WeekKeys(data)
    requires forall j :: 0 <= j < |weeks| ==> monday(weeks[j]) == Some(dates[j])
    ensures forall k :: k in WeekKeys(data) ==> monday(k).Some?
  {
    forall k | k in WeekKeys(data)
      ensures monday(k).Some?
    {
      var j :| 0 <= j < |weeks| && weeks[j] == k;
    }
  }

  /** `calculate_weekly_data(json_file)` exactly as written. */
  method CalculateWeeklyData(data: Input) returns (r: WeeklySeries)
    ensures r == EmptyWeekly
  {
    r := WeeklyData(data, AsWrittenMonday);
    AsWrittenAlwaysEmpty(data);
  }

  /** As written, no week's Monday can be computed, so every input reaches the `except` branch or the empty-weeks branch. */
  lemma AsWrittenAlwaysEmpty(data: Input)
    ensures WeeklyEmptyCase(data, AsWrittenMonday)
  {
    if AllKeyed(data, WeekKey) && WeekKeys(data) != {} {
      var k :| k in WeekKeys(data);
      AsWrittenRejects(k);
    }
  }

  /** The step as written fails on every label. */
  lemma AsWrittenRejects(k: string)
    ensures AsWrittenMonday(k) == None
  {
    match ParseWeekLabel(k)
    case None =>
    case Some((year, week)) => MondayTextRejected(year, week);
  }

  /** Every record date's ISO year has four digits, as `%G` demands. */
  ghost predicate FourDigitIsoYears(data: Input)
  {
    forall u, s :: u in data && s in data[u] && Parse(s).Some? ==> 1000 <= IsoCalendar(Parse(s).value).year <= 9999
  }

  /**
   Every record of the week labelled `r.weekLabels[i]` is dated within the
   six days after the Monday `r.dates[i]`.
   */
  ghost predicate MondaysOf(data: Input, r: WeeklySeries)
    requires |r.dates| == |r.weekLabels|
  {
    forall i, u, s :: 0 <= i < |r.weekLabels| && u in data && s in data[u] && WeekKey(s) == Some(r.weekLabels[i])
      ==> Weekday(r.dates[i]) == 0 && r.dates[i] <= Ordinal(Parse(s).value) <= r.dates[i] + 6
  }

  /** `calculate_weekly_data` with the line-167 text corrected. */
  method CalculateWeeklyDataIntended(data: Input) returns (r: WeeklySeries)
    ensures r == EmptyWeekly <==> !AllKeyed(data, WeekKey) || WeekKeys(data) == {} || !FourDigitIsoYears(data)
    ensures r != EmptyWeekly ==> WeeklySpec(data, IntendedMonday, r) && MondaysOf(data, r)
  {
    r := WeeklyData(data, IntendedMonday);
    if AllKeyed(data, WeekKey) {
      IntendedEmptyCase(data);
    }
    if r != EmptyWeekly {
      IntendedMondays(data, r);
    }
  }

  /** With the corrected text, a week's Monday is missing exactly when its ISO year does not have four digits. */
  lemma IntendedEmptyCase(data: Input)
    requires AllKeyed(data, WeekKey)
    ensures WeeklyEmptyCase(data, IntendedMonday) <==> WeekKeys(data) == {} || !FourDigitIsoYears(data)
  {
    if !FourDigitIsoYears(data) {
      IntendedBadYear(data);
    }
    if exists k :: k in WeekKeys(data) && IntendedMonday(k).None? {
      var k :| k in WeekKeys(data) && IntendedMonday(k).None?;
      IntendedMissing(data, k);
    }
  }

  lemma IntendedBadYear(data: Input)
    requires !FourDigitIsoYears(data)
    ensures exists k :: k in WeekKeys(data) && IntendedMonday(k).None?
  {
    var u, s :| u in data && s in data[u] && Parse(s).Some? && !(1000 <= IsoCalendar(Parse(s).value).year <= 9999);
    var d := Parse(s).value;
    IntendedOfDate(d);
    assert (u, s) in Records(data);
    assert WeekKey(s) == Some(WeekLabelOf(d));
    assert WeekLabelOf(d) in WeekKeys(data);
  }

  lemma IntendedMissing(data: Input, k: string)
    requires k in WeekKeys(data) && IntendedMonday(k).None?
    ensures !FourDigitIsoYears(data)
  {
    var rec := KeysInMember(WeekKey, Records(data), k);
    var d := Parse(rec.1).value;
    IntendedOfDate(d);
  }

  /** The corrected step applied to the week of `d`. */
  lemma IntendedOfDate(d: Date)
    requires Valid(d)
    ensures var iso := IsoCalendar(d);
      IntendedMonday(WeekLabelOf(d)) == if 1000 <= iso.year <= 9999 then Some(WeekMonday(iso.year, iso.week)) else None
  {
    IsoCalendarIsIsoWeek(d);
    var iso := IsoCalendar(d);
    IntendedOfLabel(iso.year, iso.week);
  }

  /** The corrected step on a label: the Monday of the week for a four-digit year, else the `ValueError` of `%G`. */
  lemma IntendedOfLabel(year: nat, week: nat)
    requires 1 <= week <= 53
    ensures IntendedMonday(WeekLabel(year, week)) == if 1000 <= year <= 9999 then Some(WeekMonday(year, week)) else None
  {
    WeekLabelParses(year, week);
    var ys := DecimalString(year);
    var s := WeekLabel(year, week) + "-1";
    assert s == ys + "-W" + FixedDigits(week, 2) + "-1";
    if year < 1000 {
      Pow10Two();
      assert Pow10(3) == 1000;
      DecimalBelow(year, 3);
      assert s[|ys|] == '-';
      if |s| >= 9 {
        assert !IsDigit(s[..4][|ys|]);
      }
    } else if year > 9999 {
      Pow10Two();
      DecimalAtLeast(year, 4);
      assert s[4] == ys[4];
    } else {
      LabelTextParses(year, week);
    }
  }

  /** The Monday that the corrected step gives each week is the Monday of every record in that week. */
  lemma IntendedMondays(data: Input, r: WeeklySeries)
    requires |r.dates| == |r.weekLabels|
    requires AllKeyed(data, WeekKey) && FourDigitIsoYears(data)
    requires forall i :: 0 <= i < |r.weekLabels| ==> IntendedMonday(r.weekLabels[i]) == Some(r.dates[i])
    ensures MondaysOf(data, r)
  {
    forall i, u, s | 0 <= i < |r.weekLabels| && u in data && s in data[u] && WeekKey(s) == Some(r.weekLabels[i])
      ensures Weekday(r.dates[i]) == 0 && r.dates[i] <= Ordinal(Parse(s).value) <= r.dates[i] + 6
    {
      var d := Parse(s).value;
      IntendedOfDate(d);
      MondayOfWeek(d);
    }
  }

  /** No week has more active users than the input has users. */
  lemma WeeklyUsersBound(data: Input, monday: MondayFn, r: WeeklySeries)
    requires WeeklySpec(data, monday, r)
    ensures forall i :: 0 <= i < |r.weekLabels| ==> 0 <= r.activeUsers[i] <= |data|
  {
    forall i | 0 <= i < |r.weekLabels|
      ensures r.activeUsers[i] <= |data|
    {
      BucketUsersBound(data, WeekKey, r.weekLabels[i]);
    }
  }
}
