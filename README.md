# Commit activity series, modelled in Dafny

This project models the data side of `src/template/main.py`. That file reads
per-user commit counts of the form `user_id → {"daily_commits": {date → count}}`
and produces four things:

- **Daily series** (`load_and_process_data`): the commits summed per date and
  the distinct active users per date. Both are laid out over every calendar day
  from the earliest recorded date to the latest, with 0 on days nobody
  recorded, together with their trailing rolling averages.
- **Rolling average** (`calculate_rolling_average`): a trailing mean whose
  window grows at the start of the series.
- **Percentage change**: the day-over-day change of a rolling series, computed
  inside `plot_percentage_change`, with its own policy for division by zero.
- **Weekly series** (`calculate_weekly_data`): the same totals bucketed by ISO
  8601 week (ISO 8601:2004, section 4.1.4), labelled `"{isoyear}-W{week:02d}"`,
  with the Monday of each week as its date.

## Modules

- `Collections`:
  - sums over sets and sequences;
  - `defaultdict(int)` reads (`Lookup`);
  - reading a list of keys out of a map and summing what was read.
- `Text`:
  - digit strings, that is `%Y`/`%m`/`%d`, `{:02d}`, `int()` and `f"{n}"`;
  - Python's ordering of `str`;
  - `sorted` over a set of keys, done by insertion.
- `Calendar`:
  - proleptic Gregorian dates and `toordinal`;
  - `+ timedelta(days=1)`, including its `OverflowError` after 9999-12-31;
  - `strftime`/`strptime` with `"%Y-%m-%d"`.
- `IsoWeek`:
  - `isocalendar()`, built from `_isoweek1monday`, branch by branch;
  - the week label and its `split('-W')`/`int()` parse;
  - the part of `strptime(..., "%G-W%V-%u")` the weekly series depends on.
- `Rolling`: the rolling average. It is an append loop, proved equal to a
  specification function, with lemmas about that function.
- `Aggregation`: the doubly nested accumulation loop into
  `commits_by_day`/`active_users_by_day` (and their weekly counterparts). It is
  generic in the key of a record and proved against bucket totals over the set
  of all records.
- `Daily`: `load_and_process_data`, including the gap-filling `while` loop and
  the `for` loop that fills in the lists.
- `PercentChange`: the percentage-change loop.
- `Weekly`: `calculate_weekly_data`:
  - as written;
  - with line 167 corrected (see Findings).

Counts and sums are unbounded integers, as Python's `int` is. Means and
percentages are exact `real`s.

Two behaviours follow the code rather than the design description of the
series:

- A week (or day) whose records all have count 0 is still listed, with 0
  commits and 0 users. The `+=` at lines 29 and 144 creates the key whatever
  the count, and only the user set depends on `cnt > 0`
  (`Aggregation.ZeroRecordsBucket`).
- Week labels are sorted as strings (line 149), not as `(year, week)` pairs.
  The two orders agree for four-digit ISO years (`IsoWeek.WeekLabelOrder`).

## Model

| member | source | states |
|---|---|---|
| Rolling.RollingAverage | src/template/main.py:109-122 | The loop's result is `RollingSpec`: same length as the input (empty for empty), and entry `i` is the mean of the last `w` values up to `i`, or of all values so far while `i < w - 1` |
| Rolling.RollingSpec | src/template/main.py:116-120 | Has exactly one entry per input position |
| Rolling.Window | src/template/main.py:117-120 | The window of entry `i` holds between 1 and `w` values |
| Rolling.RollingBounds | src/template/main.py:116-120 | Every rolling mean lies between any lower and upper bound of the input values |
| Rolling.Mean | src/template/main.py:118-120 | `np.mean` of a non-empty slice, its sum over its length; `MeanBounds` states its contract |
| Rolling.MeanBounds | src/template/main.py:118-120 | The mean of a window lies between its bounds |
| Rolling.RollingConstant | src/template/main.py:116-120 | A constant series is its own rolling average |
| Rolling.RollingSlide | src/template/main.py:119-120 | Once the window is full, `avg[i] = avg[i-1] + (data[i] - data[i-w]) / w` |
| Rolling.RollingCausal | src/template/main.py:116-120 | Entry `i` depends only on values up to `i`: appending values leaves earlier entries unchanged |
| Rolling.RollingWindowOne | src/template/main.py:116-120 | A window of 1 reproduces the series |
| Rolling.RollingExample | src/template/main.py:109-122 | `[1, 2, 3, 4]` with window 2 gives `[1.0, 1.5, 2.5, 3.5]` |
| Aggregation.Aggregate | src/template/main.py:24-31 | `ok` exactly when every record's date has a bucket (no `strptime` raises); then the buckets are exactly the keys met (a zero count still creates one), each bucket's total is the sum of its records, its users are the distinct users with a positive record in it, and the bucket totals add up to the input total |
| Aggregation.VisitUser | src/template/main.py:25-31 | The inner loop over one user's records either meets a date without a bucket, in which case not every record is keyed, or extends the replayed totals by exactly that user's records, each once |
| Aggregation.AddCount | src/template/main.py:29 | `+=` on a `defaultdict(int)`: adds the key, changes only that key by `c`, raises the total by `c` |
| Aggregation.AddActive | src/template/main.py:30-31 | `.add(u)` on a `defaultdict(set)`: adds the key and puts `u` into that key's set only |
| Aggregation.Members | src/template/main.py:75 | `active_users_by_day[k]` on a `defaultdict(set)`, the empty set for a missing key; `ActivesAt` and `AbsentBucket` state what it holds |
| Aggregation.CountAt | src/template/main.py:29 | After any set of distinct records, a bucket's replayed total is the sum of the visited records in it |
| Aggregation.ActivesAt | src/template/main.py:30-31 | After any set of distinct records, a bucket's replayed users are the users of its positive visited records |
| Aggregation.CountTotal | src/template/main.py:24-31 | When every visited record had a bucket, the bucket totals add up to the visited counts |
| Aggregation.ActivesWellFormed | src/template/main.py:30-31 | A users entry exists only for a bucket with a total entry and at least one user |
| Aggregation.AbsentBucket | src/template/main.py:73-78 | A bucket no record falls in has total 0 and no users |
| Aggregation.BucketUsersBound | src/template/main.py:49 | A bucket's users are users of the input, so never more than the input's number of users |
| Aggregation.ZeroRecordsBucket | src/template/main.py:29-31 | A bucket whose records all have count 0 exists, with total 0 and no users |
| Aggregation.ActiveRecord | src/template/main.py:30-31 | A user with a positive record in a bucket is one of the bucket's users |
| Collections.Lookup | src/template/main.py:73-74 | `commits_by_day[k]` on a `defaultdict(int)`: the stored value for a present key and 0 for a missing one |
| Collections.Lookups | src/template/main.py:48 | `[commits_by_day[f] for f in fechas]`, and `[commits_by_week[w] for w in weeks]` at line 171: one `defaultdict(int)` read per key, in order; by `LookupsTotal` and `LookupsSum`, over a duplicate-free key list covering the map the reads sum to the map's total |
| Collections.LookupsTotal | src/template/main.py:48 | Reading every key of a duplicate-free list that holds all the map's keys and summing the reads gives the map's total, because missing keys read 0 |
| Text.SortKeys | src/template/main.py:34 | `sorted(keys)`: strictly increasing in Python's `str` order, the same length as the key set, and holding exactly its keys |
| Text.SortedEnds | src/template/main.py:54-55 | In a sorted list the first key is the least and the last key is the greatest |
| Text.LexLess | src/template/main.py:34 | Python's `<` on `str`, the order `sorted` uses here and at line 149; `LexTransitive`, `LexTotal` and `LexIrreflexive` state that it is a strict total order |
| Text.LexTransitive | src/template/main.py:34 | Python's `str` `<` is transitive |
| Text.LexTotal | src/template/main.py:34 | Python's `str` `<` is total on distinct strings |
| Text.LexIrreflexive | src/template/main.py:34 | Python's `str` `<` is irreflexive |
| Text.SortedDistinct | src/template/main.py:149 | A strictly sorted key list holds no key twice |
| Text.DecimalString | src/template/main.py:141 | `f"{year}"` for a non-negative integer; `DecimalStringValue` states that `int()` reads it back |
| Text.ParseNat | src/template/main.py:164-165 | `int()` on a plain digit string; `DecimalStringValue` and `FixedDigitsValue` state what it returns |
| Text.DecimalStringValue | src/template/main.py:164-165 | `int(f"{n}") == n` |
| Text.FixedDigitsOrder | src/template/main.py:34 | Zero-padded numbers of one width compare as text exactly as they compare as numbers, and are equal exactly when the numbers are |
| Text.FixedDigitsValue | src/template/main.py:165 | `int()` of a zero-padded number is the number |
| Calendar.Parse | src/template/main.py:26 | A successful parse returns a valid date whose `"%Y-%m-%d"` text is exactly the parsed string |
| Calendar.Format | src/template/main.py:69 | `strftime("%Y-%m-%d")`, ten characters; `FormatParse`, `FormatInjective` and `FormatOrder` state its round trip, injectivity and order |
| Calendar.Ordinal | src/template/main.py:59 | `toordinal()`, the day number behind `<=` at line 59; `OrdinalOrder` states that it orders dates as tuples do |
| Calendar.FormatParse | src/template/main.py:47 | Formatting a valid date and parsing the text gives the date back |
| Calendar.FormatInjective | src/template/main.py:69-73 | Distinct dates have distinct `strftime` text |
| Calendar.FormatOrder | src/template/main.py:34 | The `str` order of canonical date texts is the chronological order |
| Calendar.OrdinalOrder | src/template/main.py:59 | `datetime` comparison as tuples agrees with the day-number order, and equal day numbers mean equal dates |
| Calendar.NextDay | src/template/main.py:61 | `+ timedelta(days=1)` raises exactly on 9999-12-31; otherwise it gives a valid date one day number later |
| Calendar.MaxDateIsLast | src/template/main.py:61 | 9999-12-31 is the latest valid date |
| Calendar.OrdinalInYear | src/template/main.py:61 | A date's day number lies within its own year |
| Calendar.YearStep | src/template/main.py:61 | The days before year `y + 1` are the days before `y` plus the length of `y` |
| Calendar.FieldsLex | src/template/main.py:34 | Text of three dash-separated fields of fixed widths compares field by field |
| IsoWeek.Weekday | src/template/main.py:140 | `weekday()` of a day number, Monday 0 to Sunday 6, as `isocalendar()` uses it |
| IsoWeek.IsoCalendar | src/template/main.py:140 | `date.isocalendar()` branch for branch; `IsoCalendarIsIsoWeek` states its contract |
| IsoWeek.IsoOfDay | src/template/main.py:140 | `isocalendar()` on day number `today` of a calendar year; `IsoOfDayNumber` states its contract |
| IsoWeek.IsoFromDay | src/template/main.py:140 | The three branches of `isocalendar()` given the week-1 Mondays; `IsoWeekYear` states its contract |
| IsoWeek.IsoOfDayNumber | src/template/main.py:140 | On a day of calendar year `y`: week 1..53, weekday matching the day of the week, ISO year within one of `y`, the day is that weekday of that week, and it lies before week 1 of the next ISO year |
| IsoWeek.IsoCalendarIsIsoWeek | src/template/main.py:140 | `isocalendar()` of a valid date: week 1..53, weekday 1..7 matching the day of the week, ISO year within one of the calendar year, the date is that weekday of that week, and it lies before week 1 of the next ISO year, so year and week are determined |
| IsoWeek.MondayOfWeek | src/template/main.py:140 | The Monday of the ISO week a date falls in is a Monday, at most six days before the date |
| IsoWeek.Week1MondayGap | src/template/main.py:140 | Consecutive ISO years are 52 or 53 weeks long |
| IsoWeek.Week1Monday | src/template/main.py:140 | Week 1 begins on the Monday of the week that holds 4 January |
| IsoWeek.WeekLabel | src/template/main.py:141 | `f"{year}-W{week:02d}"`; `WeekLabelParses`, `WeekLabelInjective` and `WeekLabelOrder` state its read-back, injectivity and order |
| IsoWeek.WeekLabelOf | src/template/main.py:139-141 | The label of the ISO week a valid date falls in; `Weekly.WeekKey` states when a record has one |
| IsoWeek.ParseWeekLabel | src/template/main.py:163-165 | `split('-W')` then `int()` of both parts; `WeekLabelParses` states that it inverts `WeekLabel` |
| IsoWeek.WeekLabelParses | src/template/main.py:163-165 | `split('-W')` and `int()` of a week label give back its year and week |
| IsoWeek.WeekLabelInjective | src/template/main.py:141 | Distinct (ISO year, week) pairs have distinct labels |
| IsoWeek.WeekLabelOrder | src/template/main.py:149 | For four-digit years, one label is less than another as a string exactly when its (year, week) pair is less |
| IsoWeek.IsoWeekStrptime | src/template/main.py:167 | The model's case-sensitive reading of `strptime(s, "%G-W%V-%u")`: it succeeds only on text containing the literal `W` |
| IsoWeek.MondayText | src/template/main.py:167 | The text `f"{year}-{week_num}-1"`; `MondayTextRejected` states that the format rejects it |
| IsoWeek.MondayTextRejected | src/template/main.py:167 | The text `f"{year}-{week_num}-1"` is rejected by `"%G-W%V-%u"` for every year and week |
| IsoWeek.LabelTextParses | src/template/main.py:167 | With the `W` in place, `strptime(label + "-1", "%G-W%V-%u")` gives the Monday of that week, for a four-digit year |
| IsoWeek.IsoWeekDateOrdinal | src/template/main.py:167 | `_calc_julian_from_V`, the day number `strptime` builds from `%G`, `%V` and `%u`; `IsoWeekDateOrdinalIsWeekMonday` states its contract |
| IsoWeek.IsoWeekDateOrdinalIsWeekMonday | src/template/main.py:167 | The date `%G-W%V-1` denotes is the Monday of that ISO week |
| Daily.DayKey | src/template/main.py:26-29 | A record's date is its own bucket exactly when `strptime` accepts it |
| Daily.LoadAndProcessData | src/template/main.py:12-107 | The result is all-empty exactly when some date fails to parse, there are no dates, or the range to fill reaches 9999-12-31 with more than one date (the `OverflowError`). Otherwise the dates form a run of consecutive days from the first recorded date to the last that lists every recorded date; each day has its bucket total and number of distinct active users; the averages are the rolling averages with the given window; and the raw totals add up to the input total |
| Daily.FillDays | src/template/main.py:47-83 | Fills in the columns for the sorted keys; fails exactly on the overflow case; reports a run of consecutive days, each with the value read for its text |
| Daily.DateRange | src/template/main.py:52-61 | The `while` loop from the first date to the last: fails exactly when the last date is 9999-12-31 and not before the first; otherwise the consecutive day numbers from first to last |
| Daily.GapFill | src/template/main.py:68-78 | Each day of the range gets its stored total, and its number of users if its text is a key, or 0 and 0 |
| Daily.SortedKeyBounds | src/template/main.py:54-55 | `fechas_dt[0]` and `fechas_dt[-1]` are the earliest and latest recorded dates |
| Daily.DenseSpan | src/template/main.py:52-61 | A dense series has length `last - first + 1`, and every recorded date lies between its first and last day |
| Daily.DenseGapIsZero | src/template/main.py:76-78 | A day without records has 0 commits and 0 users |
| Daily.DenseUsersBound | src/template/main.py:49 | No day has more active users than the input has users |
| Daily.DenseSingle | src/template/main.py:46-52 | With exactly one recorded date the series has exactly one day |
| Daily.OverflowsText | src/template/main.py:59-61 | The range overflows exactly when there are several recorded dates and one of them is the text `"9999-12-31"`, the last date `timedelta` can reach |
| PercentChange.Change | src/template/main.py:430-436 | For a non-zero yesterday, `today = yesterday * (1 + change / 100)`, and for a positive yesterday the sign of the change is the direction of the move; from zero, the change is 0% exactly when today is zero and 100% otherwise |
| PercentChange.ChangeInverse | src/template/main.py:431 | `((t - y) / y) * 100` undone gives `t` back, with the sign of `t - y` for positive `y` |
| PercentChange.Changes | src/template/main.py:426-439 | One change per consecutive pair of days: `n - 1` entries for a series of `n > 0`, none for an empty one |
| PercentChange.PercentageChange | src/template/main.py:417-439 | No dates or no averages give two empty lists; otherwise the changes are `Changes(avg)`, dated with `dates[1..n]` |
| PercentChange.Compound | src/template/main.py:430-431 | Rebuilding a series from its first value and its changes yields one value per change, plus the first |
| PercentChange.CompoundChanges | src/template/main.py:430-431 | When no day but the last is zero, compounding the changes from the first average gives back the whole series |
| PercentChange.ChangesFromZero | src/template/main.py:430-436 | `[0, 0, 5]` gives `[0, 100]` |
| PercentChange.ChangesExample | src/template/main.py:426-439 | `[4, 2]` gives `[-50]`; `[4, 2, 3]` gives `[-50, 50]` |
| Weekly.WeekKey | src/template/main.py:137-141 | A record's date has a week bucket exactly when `strptime` accepts it |
| Weekly.WeeklyData | src/template/main.py:124-187 | For any week-to-Monday step: the result is all-empty exactly when some date fails to parse, there are no weeks, or the step fails on some week. Otherwise the labels are exactly the weeks met, sorted and distinct; each week has its Monday, its total and its number of distinct active users; and the totals add up to the input total |
| Weekly.Mondays | src/template/main.py:161-168 | The `week_dates` loop succeeds exactly when every label's step succeeds, and then lists each label's result in order |
| Weekly.UserCounts | src/template/main.py:172 | One count per label, the size of that label's user set |
| Weekly.CalculateWeeklyData | src/template/main.py:124-187 | As written, the result is all-empty for every input |
| Weekly.AsWrittenMonday | src/template/main.py:163-167 | The label-to-Monday step as written; `AsWrittenRejects` states that it fails on every label |
| Weekly.IntendedMonday | src/template/main.py:167 | The same step parsing the label with its `W`; `IntendedOfLabel` states that it gives the week's Monday |
| Weekly.AsWrittenRejects | src/template/main.py:163-167 | As written, the step from label to Monday fails on every label |
| Weekly.AsWrittenAlwaysEmpty | src/template/main.py:152-187 | As written, every input falls in the empty case |
| Weekly.CalculateWeeklyDataIntended | src/template/main.py:124-187 | With line 167 corrected, the result is all-empty exactly when some date fails to parse, there are no weeks, or some record's ISO year does not have four digits. Otherwise it meets the weekly specification, and every record lies within its week's Monday and the six days after |
| Weekly.IntendedOfLabel | src/template/main.py:167 | The corrected step on a label gives the Monday of its week for a four-digit year, and fails otherwise |
| Weekly.IntendedOfDate | src/template/main.py:137-141 | The corrected step on the week of a date gives the Monday of that date's ISO week, for a four-digit ISO year |
| Weekly.IntendedEmptyCase | src/template/main.py:167 | With the correction, some week's Monday is missing exactly when the records include an ISO year without four digits |
| Weekly.IntendedMondays | src/template/main.py:160-168 | With the correction, each week's date is a Monday, and the records of that week fall on it or the six days after |
| Weekly.WeeklyUsersBound | src/template/main.py:172 | No week has more active users than the input has users |

## Left out

- Plotting, axis limits, file I/O, JSON decoding, `print` and the `__main__` driver are not modelled. The input is the parsed JSON, and a file that cannot be read is not represented.
- Aggregation.Aggregate: the input maps each user straight to their `daily_commits` map. A user without that key is the empty map that `stats.get("daily_commits", {})` gives. A count that is not an integer is not represented.
- Calendar.Parse: only the canonical `YYYY-MM-DD` text (four-digit year, two-digit month and day) is accepted. Python's `strptime` also accepts shorter fields such as `2024-1-5`. CPython's `_strptime` compiles its patterns without `re.ASCII`, so `\d` in `%Y`/`%m`/`%d` also matches non-ASCII decimal digits: a key such as full-width `２０２４-０１-０１` parses in Python, but not in the model. Such a key is treated as unparsable, that is as the exception, whereas the source would keep it under its original text. In the corrected weekly series, the source would likewise count such a record under the ISO week of its parsed date, while the model returns the empty result.
- Calendar.Format: the model writes `%Y` with four digits, zero-padded, as Python documents. On platforms whose C `strftime` prints years below 1000 unpadded (glibc gives `999-12-31`), the text at line 69 misses the key `strptime` produced (`0999-12-31`), so the source writes 0 for such a recorded day. The model keeps its count: Daily.GapFill and Daily.LoadAndProcessData differ from the source there.
- Rolling.RollingAverage: requires a window of at least 1. With a window of 0 or less the source takes the mean of an empty slice, which is `nan` with a warning; that is not modelled.
- Daily.LoadAndProcessData: requires a window of at least 1, for the same reason.
- Means and percentages are exact rationals, not float64. Rounding and `nan`/`inf` are not modelled.
- Daily.LoadAndProcessData: the branch `elif not fechas_dt` (lines 84-86) is not modelled. It is reached only with an empty `fechas`, which has already returned at line 37.
- PercentChange.PercentageChange: requires no more averages than dates whenever there is a date. A series from `load_and_process_data` always has equally many. With no dates the guard returns empty lists, as modelled. With some dates but more averages, the source would raise `IndexError`, which its `except FileNotFoundError` does not catch.
- PercentChange.PercentageChange: the running minimum and maximum across countries only feed chart limits and are left out.
- Weekly.WeeklyData: a week's date is its Monday as a day number, not a `datetime` object.
- IsoWeek.IsoWeekStrptime: models `%G-W%V-%u` only as far as the series needs. That covers four digits of ISO year, the literal `-W`, the week field, `-` and a weekday digit. Python's range checks on the week number (rejecting week 53 of a 52-week year) are not modelled. Labels from `isocalendar()` never need them. The literal `W` is matched case-sensitively, while Python's `strptime` ignores case (`2024-w29-1` parses there). The text built at line 167 contains neither `W` nor `w`, so the finding stands either way.
- Weekly.CalculateWeeklyDataIntended: whether a week reaches ISO year 10000 is not decided. The contract states the four-digit condition on the ISO year of each record, and year 10000 fails it just as the source would.

## Findings

| source | as written | input that shows it | evidently intended | confidence | as-written member | corrected member |
|---|---|---|---|---|---|---|
| src/template/main.py:167 | `dt.datetime.strptime(f"{year}-{week_num}-1", "%G-W%V-%u")`: the text has no `W`, but the format requires the literal `W`, so the call raises `ValueError` for every week and the `except` branch returns four empty lists | any input with a valid date, e.g. one user with `{"2024-07-15": 3}` (week `2024-W29`, text `2024-29-1`) | parse the week label with the `W`, e.g. `f"{year}-W{week_num:02d}-1"`, so each week is dated by its Monday | not executed | Weekly.CalculateWeeklyData | Weekly.CalculateWeeklyDataIntended |
