/**
 `load_and_process_data` (src/template/main.py:12-107): the per-date totals
 and distinct active users of every record, laid out as a dense run of
 calendar days from the earliest recorded date to the latest, with 0 for the
 days nobody recorded, and the rolling average of both columns.

 Every exception of the source (an unparsable date, the `OverflowError` of
 stepping past 9999-12-31) and the empty input give the all-empty result.
 */
module Daily {
  import opened Collections
  import opened Text
  import opened Calendar
  import opened Rolling
  import opened Aggregation

  /** The bucket of a daily record: the date string itself, when `strptime(s, "%Y-%m-%d")` accepts it. */
  function DayKey(s: string): (k: Option<string>)
    ensures k.Some? <==> Parse(s).Some?
    ensures k.Some? ==> k.value == s
  {
    if Parse(s).Some? then Some(s) else None
  }

  /** The five lists of the returned dictionary. */
  datatype DailySeries = DailySeries(
    dates: seq<Date>,               // 'fechas'
    commitsRollingAvg: seq<real>,   // 'commits_rolling_avg'
    usersRollingAvg: seq<real>,     // 'users_rolling_avg'
    rawCommits: seq<int>,           // 'raw_commits'
    rawUsers: seq<int>)             // 'raw_users'

  const EmptyDaily := DailySeries([], [], [], [], [])

  /** Every record's date string parses. */
  ghost predicate AllDatesParse(data: Input)
  {
    forall u, s :: u in data && s in data[u] ==> Parse(s).Some?
  }

  /** The recorded dates: every date string of every record. */
  ghost function DayKeys(data: Input): set<string>
  {
    BucketKeys(data, DayKey)
  }

  /** The range to fill reaches 9999-12-31, so stepping past it overflows. */
  ghost predicate Overflows(data: Input)
  {
    |DayKeys(data)| > 1 && Format(MaxDate) in DayKeys(data)
  }

  /** The cases in which the source returns the all-empty result. */
  ghost predicate EmptyCase(data: Input)
  {
    !AllDatesParse(data) || DayKeys(data) == {} || Overflows(data)
  }

  /** Consecutive calendar days starting at `dates[0]`. */
  ghost predicate DayRun(dates: seq<Date>)
  {
    && (forall i :: 0 <= i < |dates| ==> Valid(dates[i]))
    && (forall i :: 0 <= i < |dates| ==> Ordinal(dates[i]) == Ordinal(dates[0]) + i)
  }

  /**
   What the source returns for an input outside `EmptyCase`: a run of
   consecutive days that begins and ends on a recorded date and lists every
   recorded date; on each day the total and the number of distinct active
   users of that date (0 and 0 for a day without records), the rolling
   averages of both, and nothing lost from the total.
   */
  ghost predicate DenseSeries(data: Input, w: int, r: DailySeries)
    requires w >= 1
  {
    DenseDays(data, r) && DenseColumns(data, w, r)
  }

  /** The `fechas` of `DenseSeries`: consecutive days from the first recorded date to the last, listing all of them. */
  ghost predicate DenseDays(data: Input, r: DailySeries)
  {
    && |r.dates| >= 1
    && DayRun(r.dates)
    && Format(r.dates[0]) in DayKeys(data)
    && Format(r.dates[|r.dates| - 1]) in DayKeys(data)
    && (forall k :: k in DayKeys(data) ==> exists i :: 0 <= i < |r.dates| && Format(r.dates[i]) == k)
  }

  /** The four columns of `DenseSeries`, day by day. */
  ghost predicate DenseColumns(data: Input, w: int, r: DailySeries)
    requires w >= 1 && DayRun(r.dates)
  {
    CommitColumn(data, w, r) && UserColumn(data, w, r)
  }

  /** Each day's total commits, their rolling average, and nothing lost from the input's total. */
  ghost predicate CommitColumn(data: Input, w: int, r: DailySeries)
    requires w >= 1 && DayRun(r.dates)
  {
    && |r.rawCommits| == |r.dates|
    && (forall i :: 0 <= i < |r.dates| ==> r.rawCommits[i] == BucketSum(data, DayKey, Format(r.dates[i])))
    && r.commitsRollingAvg == RollingSpec(r.rawCommits, w)
    && SeqSum(r.rawCommits) == InputTotal(data)
  }

  /** Each day's number of distinct active users, and their rolling average. */
  ghost predicate UserColumn(data: Input, w: int, r: DailySeries)
    requires w >= 1 && DayRun(r.dates)
  {
    && |r.rawUsers| == |r.dates|
    && (forall i :: 0 <= i < |r.dates| ==> r.rawUsers[i] == |BucketUsers(data, DayKey, Format(r.dates[i]))|)
    && r.usersRollingAvg == RollingSpec(r.rawUsers, w)
  }

  /** `load_and_process_data(json_file, window_size)` on the parsed contents of the file. */
  method LoadAndProcessData(data: Input, windowSize: int) returns (r: DailySeries)
    requires windowSize >= 1
    ensures r == EmptyDaily <==> EmptyCase(data)
    ensures !EmptyCase(data) ==> DenseSeries(data, windowSize, r)
  {
    var ok, commits, active := Aggregate(data, DayKey);
    DayKeyAllKeyed(data);
    if !ok {
      return EmptyDaily;
    }
    var fechas := SortKeys(commits.Keys);
    if |fechas| == 0 {
      return EmptyDaily;
    }
    DayKeysParse(data, fechas);
    var filled, dates, counts, users := FillDays(fechas, commits, active);
    if !filled {
      return EmptyDaily;
    }
    var commitsRollingAvg := RollingAverage(counts, windowSize);
    var usersRollingAvg := RollingAverage(users, windowSize);
    r := DailySeries(dates, commitsRollingAvg, usersRollingAvg, counts, users);
    DenseFromTotals(data, windowSize, commits, active, r);
  }

  /**
   What the day-by-day lists satisfy once the sorted keys are known: a run
   of consecutive days that starts and ends on a key and lists every key,
   with each day's total (0 for a day that is not a key) and its number of
   active users (0 for a day that is not a key).
   */
  ghost predicate DayFacts(commits: map<string, int>, active: map<string, set<string>>,
                           dates: seq<Date>, counts: seq<int>, users: seq<int>)
  {
    && |dates| >= 1 && DayRun(dates)
    && Format(dates[0]) in commits && Format(dates[|dates| - 1]) in commits
    && (forall k :: k in commits ==> exists i :: 0 <= i < |dates| && Format(dates[i]) == k)
    && |counts| == |dates| && |users| == |dates|
    && (forall i :: 0 <= i < |dates| ==> counts[i] == Lookup(commits, Format(dates[i])))
    && (forall i :: 0 <= i < |dates| ==>
          users[i] == if Format(dates[i]) in commits then |Members(active, Format(dates[i]))| else 0)
  }

  /**
   Source lines 47-84: the sorted keys as dates with their totals and user
   counts, and, with more than one key, the gap-filled run from the first
   key to the last. `filled` is false when stepping past the last day
   overflows: exactly when there are several keys and 9999-12-31 is one.
   */
  method FillDays(fechas: seq<string>, commits: map<string, int>, active: map<string, set<string>>)
    returns (filled: bool, dates: seq<Date>, counts: seq<int>, users: seq<int>)
    requires StrictlySorted(fechas) && |fechas| >= 1
    requires forall k :: k in fechas <==> k in commits
    requires forall i :: 0 <= i < |fechas| ==> Parse(fechas[i]).Some?
    ensures filled <==> !(|fechas| > 1 && Format(MaxDate) in commits)
    ensures filled ==> DayFacts(commits, active, dates, counts, users)
  {
    var fechasDt := seq(|fechas|, i requires 0 <= i < |fechas| => Parse(fechas[i]).value);
    counts := Lookups(commits, fechas);
    users := seq(|fechas|, i requires 0 <= i < |fechas| => |Members(active, fechas[i])|);
    if |fechasDt| > 1 {
      var first, last := fechasDt[0], fechasDt[|fechasDt| - 1];
      SortedKeyBounds(fechas, fechasDt);
      LastKeyOverflow(commits, fechas, fechasDt);
      var rangeOk, range := DateRange(first, last);
      if !rangeOk {
        return false, [], [], [];
      }
      RangeCoversKeys(fechas, fechasDt, range);
      dates := range;
      counts, users := GapFill(range, commits, active);
      RunFacts(commits, active, fechas, dates, counts, users);
    } else {
      dates := fechasDt;
      SingleKey(commits, active, fechas, dates, counts, users);
    }
    filled := true;
  }

  /** What the accumulation loop establishes for the daily key, when no date fails to parse. */
  ghost predicate Totals(data: Input, commits: map<string, int>, active: map<string, set<string>>)
  {
    && commits.Keys == DayKeys(data)
    && (forall k :: Lookup(commits, k) == BucketSum(data, DayKey, k))
    && (forall k :: Members(active, k) == BucketUsers(data, DayKey, k))
    && ActiveWellFormed(commits, active)
    && MapTotal(commits) == InputTotal(data)
  }

  /** The dates of a run, as `strftime("%Y-%m-%d")` text. */
  function DayStrings(dates: seq<Date>): (ks: seq<string>)
    requires forall i :: 0 <= i < |dates| ==> Valid(dates[i])
    ensures |ks| == |dates| && forall i :: 0 <= i < |dates| ==> ks[i] == Format(dates[i])
  {
    seq(|dates|, i requires 0 <= i < |dates| => Format(dates[i]))
  }

  /** A run of consecutive days names each date once. */
  lemma RunNoDuplicates(dates: seq<Date>)
    requires DayRun(dates)
    ensures NoDuplicates(DayStrings(dates))
  {
    forall i, j | 0 <= i < j < |dates|
      ensures DayStrings(dates)[i] != DayStrings(dates)[j]
    {
      if Format(dates[i]) == Format(dates[j]) {
        FormatInjective(dates[i], dates[j]);
      }
    }
  }

  /**
   The series assembled from the accumulated totals: a run of days that
   starts and ends on recorded dates and lists each of them, read off the
   totals day by day, is the dense series.
   */
  lemma DenseFromTotals(data: Input, w: int, commits: map<string, int>, active: map<string, set<string>>, r: DailySeries)
    requires w >= 1 && Totals(data, commits, active)
    requires DayFacts(commits, active, r.dates, r.rawCommits, r.rawUsers)
    requires r.commitsRollingAvg == RollingSpec(r.rawCommits, w) && r.usersRollingAvg == RollingSpec(r.rawUsers, w)
    ensures DenseSeries(data, w, r) && r != EmptyDaily
  {
    DenseDaysFromTotals(data, commits, active, r);
    DenseCommits(data, w, commits, active, r);
    DenseUsers(data, w, commits, active, r);
  }

  lemma DenseDaysFromTotals(data: Input, commits: map<string, int>, active: map<string, set<string>>, r: DailySeries)
    requires Totals(data, commits, active)
    requires DayFacts(commits, active, r.dates, r.rawCommits, r.rawUsers)
    ensures DenseDays(data, r)
  {
  }

  /** The commit column: each day's bucket total, and together all of the input. */
  lemma DenseCommits(data: Input, w: int, commits: map<string, int>, active: map<string, set<string>>, r: DailySeries)
    requires w >= 1 && Totals(data, commits, active)
    requires DayFacts(commits, active, r.dates, r.rawCommits, r.rawUsers)
    requires r.commitsRollingAvg == RollingSpec(r.rawCommits, w)
    ensures CommitColumn(data, w, r)
  {
    RunTotal(commits, r.dates, r.rawCommits);
  }

  /** Reading the totals of a run of days that lists every key loses no count. */
  lemma RunTotal(commits: map<string, int>, dates: seq<Date>, raw: seq<int>)
    requires DayRun(dates)
    requires forall k :: k in commits ==> exists i :: 0 <= i < |dates| && Format(dates[i]) == k
    requires |raw| == |dates| && forall i :: 0 <= i < |dates| ==> raw[i] == Lookup(commits, Format(dates[i]))
    ensures SeqSum(raw) == MapTotal(commits)
  {
    RunListsKeys(commits, dates);
    RunNoDuplicates(dates);
    assert raw == Lookups(commits, DayStrings(dates));
    LookupsTotal(commits, DayStrings(dates));
  }

  /** The user column: each day's number of distinct active users. */
  lemma DenseUsers(data: Input, w: int, commits: map<string, int>, active: map<string, set<string>>, r: DailySeries)
    requires w >= 1 && Totals(data, commits, active)
    requires DayFacts(commits, active, r.dates, r.rawCommits, r.rawUsers)
    requires r.usersRollingAvg == RollingSpec(r.rawUsers, w)
    ensures UserColumn(data, w, r)
  {
    forall i | 0 <= i < |r.dates|
      ensures r.rawUsers[i] == |BucketUsers(data, DayKey, Format(r.dates[i]))|
    {
      var k := Format(r.dates[i]);
      assert Members(active, k) == BucketUsers(data, DayKey, k);
      if k !in commits {
        assert k !in active;
      }
    }
  }

  lemma RunListsKeys(commits: map<string, int>, dates: seq<Date>)
    requires DayRun(dates)
    requires forall k :: k in commits ==> exists i :: 0 <= i < |dates| && Format(dates[i]) == k
    ensures forall k :: k in commits ==> k in DayStrings(dates)
  {
    var ks := DayStrings(dates);
    forall k | k in commits
      ensures k in ks
    {
      var i :| 0 <= i < |dates| && Format(dates[i]) == k;
      assert ks[i] == k;
    }
  }

  /** `AllKeyed` for the daily key is `AllDatesParse`. */
  lemma DayKeyAllKeyed(data: Input)
    ensures AllKeyed(data, DayKey) <==> AllDatesParse(data)
  {
    forall u, s | u in data && s in data[u]
      ensures DayKey(s).Some? <==> Parse(s).Some?
    {
    }
  }

  /** Every recorded date is its own canonical text. */
  lemma DayKeysParse(data: Input, fechas: seq<string>)
    requires forall k :: k in fechas ==> k in DayKeys(data)
    ensures forall i :: 0 <= i < |fechas| ==> Parse(fechas[i]).Some?
  {
    forall i | 0 <= i < |fechas|
      ensures Parse(fechas[i]).Some?
    {
      assert fechas[i] in fechas;
      var r := KeysInMember(DayKey, Records(data), fechas[i]);
    }
  }

  /**
   The first and last of the sorted recorded dates are the earliest and the
   latest: the string order of canonical dates is the calendar order.
   */
  lemma SortedKeyBounds(fechas: seq<string>, dates: seq<Date>)
    requires StrictlySorted(fechas) && |fechas| > 1 && |dates| == |fechas|
    requires forall i :: 0 <= i < |fechas| ==> Parse(fechas[i]) == Some(dates[i]) && Valid(dates[i])
    ensures Ordinal(dates[0]) < Ordinal(dates[|dates| - 1])
    ensures forall i :: 0 <= i < |dates| ==> Ordinal(dates[0]) <= Ordinal(dates[i]) <= Ordinal(dates[|dates| - 1])
  {
    forall i | 0 <= i < |dates|
      ensures Ordinal(dates[0]) <= Ordinal(dates[i]) <= Ordinal(dates[|dates| - 1])
      ensures i == |dates| - 1 ==> Ordinal(dates[0]) < Ordinal(dates[i])
    {
      if 0 < i {
        FormatOrder(dates[0], dates[i]);
      }
      if i < |dates| - 1 {
        FormatOrder(dates[i], dates[|dates| - 1]);
      }
    }
  }

  /** With several keys, 9999-12-31 is one of them exactly when it is the latest. */
  lemma LastKeyOverflow(commits: map<string, int>, fechas: seq<string>, dates: seq<Date>)
    requires |fechas| > 1 && |dates| == |fechas| && (forall k :: k in fechas <==> k in commits)
    requires forall i :: 0 <= i < |fechas| ==> Parse(fechas[i]) == Some(dates[i]) && Valid(dates[i])
    requires forall i :: 0 <= i < |dates| ==> Ordinal(dates[i]) <= Ordinal(dates[|dates| - 1])
    ensures Format(MaxDate) in commits <==> dates[|dates| - 1] == MaxDate
  {
    var last := dates[|dates| - 1];
    FormatParse(MaxDate);
    if Format(MaxDate) in commits {
      var j :| 0 <= j < |fechas| && fechas[j] == Format(MaxDate);
      MaxDateIsLast(last);
    }
    if last == MaxDate {
      assert fechas[|fechas| - 1] in fechas;
    }
  }

  /** A run from the first to the last of the sorted dates lists every one of them. */
  lemma RangeCoversKeys(fechas: seq<string>, dates: seq<Date>, range: seq<Date>)
    requires |fechas| > 1 && |dates| == |fechas|
    requires forall i :: 0 <= i < |fechas| ==> Parse(fechas[i]) == Some(dates[i]) && Valid(dates[i])
    requires forall i :: 0 <= i < |dates| ==> Ordinal(dates[0]) <= Ordinal(dates[i]) <= Ordinal(dates[|dates| - 1])
    requires |range| == Ordinal(dates[|dates| - 1]) - Ordinal(dates[0]) + 1
    requires forall i :: 0 <= i < |range| ==> Valid(range[i]) && Ordinal(range[i]) == Ordinal(dates[0]) + i
    ensures DayRun(range)
    ensures Format(range[0]) == fechas[0] && Format(range[|range| - 1]) == fechas[|fechas| - 1]
    ensures forall k :: k in fechas ==> exists i :: 0 <= i < |range| && Format(range[i]) == k
  {
    forall k | k in fechas
      ensures exists i :: 0 <= i < |range| && Format(range[i]) == k
    {
      var j :| 0 <= j < |fechas| && fechas[j] == k;
      var i := Ordinal(dates[j]) - Ordinal(dates[0]);
      OrdinalOrder(range[i], dates[j]);
      assert Format(range[i]) == k;
    }
    OrdinalOrder(range[0], dates[0]);
    OrdinalOrder(range[|range| - 1], dates[|dates| - 1]);
  }

  /** With a single key the series is that one day. */
  lemma SingleKey(commits: map<string, int>, active: map<string, set<string>>,
                  fechas: seq<string>, dates: seq<Date>, counts: seq<int>, users: seq<int>)
    requires |fechas| == 1 && |dates| == 1 && (forall k :: k in fechas <==> k in commits)
    requires Parse(fechas[0]) == Some(dates[0])
    requires counts == Lookups(commits, fechas)
    requires users == seq(1, i requires 0 <= i < 1 => |Members(active, fechas[i])|)
    ensures DayFacts(commits, active, dates, counts, users)
  {
    assert fechas == [fechas[0]];
    assert Format(dates[0]) == fechas[0];
  }

  /** The gap-filled run with its columns, when the run lists every key. */
  lemma RunFacts(commits: map<string, int>, active: map<string, set<string>>,
                 fechas: seq<string>, dates: seq<Date>, counts: seq<int>, users: seq<int>)
    requires |fechas| > 1 && |dates| >= 1 && (forall k :: k in fechas <==> k in commits)
    requires DayRun(dates)
    requires Format(dates[0]) == fechas[0] && Format(dates[|dates| - 1]) == fechas[|fechas| - 1]
    requires forall k :: k in fechas ==> exists i :: 0 <= i < |dates| && Format(dates[i]) == k
    requires |counts| == |dates| && |users| == |dates|
    requires forall i :: 0 <= i < |dates| ==> counts[i] == Lookup(commits, Format(dates[i]))
    requires forall i :: 0 <= i < |dates| ==>
      users[i] == if Format(dates[i]) in commits then |Members(active, Format(dates[i]))| else 0
    ensures DayFacts(commits, active, dates, counts, users)
  {
    assert fechas[0] in fechas && fechas[|fechas| - 1] in fechas;
  }

  /**
   The `while current_date_fill <= end_date_fill` loop (source lines 57-61):
   every day from `first` to `last`, in order; `ok` is false when the step
   past `last` overflows, which happens exactly when `last` is 9999-12-31 and
   the loop ran.
   */
  method DateRange(first: Date, last: Date) returns (ok: bool, range: seq<Date>)
    requires Valid(first) && Valid(last)
    ensures ok <==> !(Ordinal(first) <= Ordinal(last) && last == MaxDate)
    ensures ok ==> |range| == if Ordinal(first) <= Ordinal(last) then Ordinal(last) - Ordinal(first) + 1 else 0
    ensures ok ==> forall i :: 0 <= i < |range| ==> Valid(range[i]) && Ordinal(range[i]) == Ordinal(first) + i
  {
    range := [];
    var current := first;
    MaxDateIsLast(last);
    while Ordinal(current) <= Ordinal(last)
      invariant Valid(current) && Ordinal(current) == Ordinal(first) + |range|
      invariant Ordinal(first) <= Ordinal(current) || range == []
      invariant Ordinal(current) <= Ordinal(last) + 1 || range == []
      invariant range != [] ==> Ordinal(first) <= Ordinal(last)
      invariant forall i :: 0 <= i < |range| ==> Valid(range[i]) && Ordinal(range[i]) == Ordinal(first) + i
      decreases Ordinal(last) + 1 - Ordinal(current)
    {
      range := range + [current];
      var next := NextDay(current);
      if next.None? {
        MaxDateIsLast(current);
        return false, range;
      }
      current := next.value;
    }
    ok := true;
  }

  /**
   The gap-filling `for date_in_range in date_range` loop (source lines
   64-78): the summed count of each day, or 0, and the size of its set of
   active users, or 0.
   */
  method GapFill(range: seq<Date>, commits: map<string, int>, active: map<string, set<string>>)
    returns (counts: seq<int>, users: seq<int>)
    requires forall i :: 0 <= i < |range| ==> Valid(range[i])
    ensures |counts| == |range| && |users| == |range|
    ensures forall i :: 0 <= i < |range| ==> counts[i] == Lookup(commits, Format(range[i]))
    ensures forall i :: 0 <= i < |range| ==>
      users[i] == if Format(range[i]) in commits then |Members(active, Format(range[i]))| else 0
  {
    counts, users := [], [];
    for i := 0 to |range|
      invariant |counts| == i && |users| == i
      invariant forall j :: 0 <= j < i ==> counts[j] == Lookup(commits, Format(range[j]))
      invariant forall j :: 0 <= j < i ==>
        users[j] == if Format(range[j]) in commits then |Members(active, Format(range[j]))| else 0
    {
      var dateStr := Format(range[i]);
      if dateStr in commits {
        counts := counts + [commits[dateStr]];
        users := users + [|Members(active, dateStr)|];
      } else {
        counts := counts + [0];
        users := users + [0];
      }
    }
  }

  /**
   The run starts on the earliest recorded date and ends on the latest:
   every recorded date lies between its first and last day, and the run is
   `last - first + 1` days long.
   */
  lemma DenseSpan(data: Input, r: DailySeries)
    requires DenseDays(data, r)
    ensures |r.dates| == Ordinal(r.dates[|r.dates| - 1]) - Ordinal(r.dates[0]) + 1
    ensures forall k :: k in DayKeys(data) ==>
      (Parse(k).Some? && Ordinal(r.dates[0]) <= Ordinal(Parse(k).value) <= Ordinal(r.dates[|r.dates| - 1]))
  {
    forall k | k in DayKeys(data)
      ensures Parse(k).Some? && Ordinal(r.dates[0]) <= Ordinal(Parse(k).value) <= Ordinal(r.dates[|r.dates| - 1])
    {
      var i :| 0 <= i < |r.dates| && Format(r.dates[i]) == k;
      FormatParse(r.dates[i]);
    }
  }

  /** A day without records is filled with 0 commits and 0 users. */
  lemma DenseGapIsZero(data: Input, w: int, r: DailySeries, i: int)
    requires w >= 1 && DenseSeries(data, w, r) && 0 <= i < |r.dates|
    requires Format(r.dates[i]) !in DayKeys(data)
    ensures r.rawCommits[i] == 0 && r.rawUsers[i] == 0
  {
    AbsentBucket(data, DayKey, Format(r.dates[i]));
  }

  /** No day has more active users than the input has users. */
  lemma DenseUsersBound(data: Input, w: int, r: DailySeries)
    requires w >= 1 && DenseSeries(data, w, r)
    ensures forall i :: 0 <= i < |r.dates| ==> 0 <= r.rawUsers[i] <= |data|
  {
    forall i | 0 <= i < |r.dates|
      ensures r.rawUsers[i] <= |data|
    {
      BucketUsersBound(data, DayKey, Format(r.dates[i]));
    }
  }

  /** With exactly one recorded date the series has one day. */
  lemma DenseSingle(data: Input, r: DailySeries)
    requires DenseDays(data, r) && |DayKeys(data)| == 1
    ensures |r.dates| == 1
  {
    var first, last := r.dates[0], r.dates[|r.dates| - 1];
    SingletonMembers(Format(first), Format(last), DayKeys(data));
    FormatInjective(first, last);
    assert Ordinal(last) == Ordinal(first) + |r.dates| - 1;
  }

  lemma SingletonMembers(a: string, b: string, s: set<string>)
    requires |s| == 1 && a in s && b in s
    ensures a == b
  {
    SubsetCard({a, b}, s);
  }

  /** `"9999-12-31"`, the text of the last representable date. */
  lemma MaxDateText()
    ensures Format(MaxDate) == "9999-12-31"
  {
  }

  /**
   The overflow case in the source's own terms: more than one recorded date,
   one of which is the text `"9999-12-31"`, from which `+= timedelta(days=1)`
   raises.
   */
  lemma OverflowsText(data: Input)
    ensures Overflows(data) <==> |DayKeys(data)| > 1 && "9999-12-31" in DayKeys(data)
  {
    MaxDateText();
  }
}
