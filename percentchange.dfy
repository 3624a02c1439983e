/**
 The day-over-day percentage change of a rolling-average series, as computed
 by the loop in `plot_percentage_change`: entry `i` compares day `i + 1` with
 day `i`; a change from zero is 0% when the value stays at zero and counts as
 a 100% rise otherwise. The change of day `i + 1` is dated with that day.
 */
module PercentChange {
  import opened Calendar

  /** The change from `yesterday` to `today`, in percent, with the source's zero policy. */
  function Change(yesterday: real, today: real): (c: real)
    ensures yesterday != 0.0 ==> today == yesterday * (1.0 + c / 100.0)
    ensures yesterday == 0.0 ==> (c == 0.0 <==> today == 0.0)
    ensures yesterday == 0.0 && today != 0.0 ==> c == 100.0
    ensures yesterday > 0.0 ==> (c > 0.0 <==> today > yesterday) && (c < 0.0 <==> today < yesterday)
  {
    if yesterday != 0.0 then
      ChangeInverse(yesterday, today);
      (today - yesterday) / yesterday * 100.0
    else if today == 0.0 then 0.0
    else 100.0
  }

  lemma ChangeInverse(y: real, t: real)
    requires y != 0.0
    ensures t == y * (1.0 + (t - y) / y * 100.0 / 100.0)
    ensures y > 0.0 ==> ((t - y) / y * 100.0 > 0.0 <==> t > y) && ((t - y) / y * 100.0 < 0.0 <==> t < y)
  {
    var q := (t - y) / y;
    assert q * y == t - y;
    assert q * 100.0 / 100.0 == q;
    assert y * (1.0 + q) == y + q * y;
    if y > 0.0 {
      assert q > 0.0 <==> q * y > 0.0;
      assert q < 0.0 <==> q * y < 0.0;
    }
  }

  /** The whole change series: one entry per consecutive pair of days. */
  function Changes(avg: seq<real>): (p: seq<real>)
    ensures |avg| > 0 ==> |p| == |avg| - 1
    ensures |avg| == 0 ==> p == []
  {
    if |avg| == 0 then []
    else seq(|avg| - 1, i requires 0 <= i < |avg| - 1 => Change(avg[i], avg[i + 1]))
  }

  /**
   The change loop over a country's daily series. A series with no dates or
   no averages yields two empty lists; otherwise the changes and the dates of
   days `1 .. |avg| - 1`. With no dates the length of `avg` does not matter.
   */
  method PercentageChange(dates: seq<Date>, avg: seq<real>) returns (changeDates: seq<Date>, pct: seq<real>)
    requires |dates| == 0 || |avg| <= |dates|
    ensures |dates| == 0 || |avg| == 0 ==> changeDates == [] && pct == []
    ensures |dates| > 0 ==> pct == Changes(avg)
    ensures |dates| > 0 && |avg| > 0 ==> changeDates == dates[1..|avg|]
  {
    changeDates, pct := [], [];
    if |dates| == 0 || |avg| == 0 {
      return;
    }
    var i := 1;
    while i < |avg|
      invariant 1 <= i <= |avg|
      invariant |pct| == i - 1 && changeDates == dates[1..i]
      invariant forall j :: 0 <= j < i - 1 ==> pct[j] == Change(avg[j], avg[j + 1])
    {
      var today, yesterday := avg[i], avg[i - 1];
      var change;
      if yesterday != 0.0 {
        change := (today - yesterday) / yesterday * 100.0;
      } else {
        if today == 0.0 {
          change := 0.0;
        } else {
          change := 100.0;
        }
      }
      pct := pct + [change];
      changeDates := changeDates + [dates[i]];
      i := i + 1;
    }
  }

  /** Rebuilding a series from its first value by applying each change in turn. */
  function Compound(start: real, p: seq<real>): (s: seq<real>)
    ensures |s| == |p| + 1 && s[0] == start
    decreases |p|
  {
    if |p| == 0 then [start]
    else [start] + Compound(start * (1.0 + p[0] / 100.0), p[1..])
  }

  /**
   The changes lose nothing while no day but the last is zero: compounding
   them from the first average gives back the whole series.
   */
  lemma {:induction false} CompoundChanges(avg: seq<real>)
    requires |avg| > 0
    requires forall i :: 0 <= i < |avg| - 1 ==> avg[i] != 0.0
    ensures Compound(avg[0], Changes(avg)) == avg
  {
    if |avg| > 1 {
      var p, rest := Changes(avg), avg[1..];
      ChangesTail(avg);
      CompoundChanges(rest);
      CompoundStep(avg[0], p, avg[1]);
      assert avg == [avg[0]] + rest;
    } else {
      assert Changes(avg) == [];
      assert Compound(avg[0], []) == [avg[0]];
      assert avg == [avg[0]];
    }
  }

  lemma CompoundStep(start: real, p: seq<real>, next: real)
    requires |p| >= 1 && start * (1.0 + p[0] / 100.0) == next
    ensures Compound(start, p) == [start] + Compound(next, p[1..])
  {
  }

  lemma ChangesTail(avg: seq<real>)
    requires |avg| > 1
    ensures Changes(avg)[1..] == Changes(avg[1..])
    ensures Changes(avg)[0] == Change(avg[0], avg[1])
  {
  }

  /** A series that stays at zero for a day, then rises, reads as 0% then 100%. */
  lemma ChangesFromZero()
    ensures Changes([0.0, 0.0, 5.0]) == [0.0, 100.0]
  {
  }

  /** A fall from 4 to 2 is a 50% drop; a rise from 2 to 3 a 50% rise. */
  lemma ChangesExample()
    ensures Changes([4.0, 2.0]) == [-50.0]
    ensures Changes([4.0, 2.0, 3.0]) == [-50.0, 50.0]
  {
  }
}
