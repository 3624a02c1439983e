/**
 The trailing rolling mean of `calculate_rolling_average`: entry `i` is the
 mean of the last `w` values up to and including position `i`, or of all the
 values so far while fewer than `w` of them exist. Means are exact rationals
 (`real`), where the source uses `numpy.mean` in float64.
 */
module Rolling {
  import opened Collections

  /** `numpy.mean` of a non-empty series of counts. */
  function Mean(s: seq<int>): (m: real)
    requires |s| > 0
  {
    SeqSum(s) as real / |s| as real
  }

  /** First index of the window that ends at `i`: `0` while `i < w - 1`, else `i - w + 1`. */
  function WindowStart(i: int, w: int): (start: int)
    requires 0 <= i && w >= 1
    ensures 0 <= start <= i
    ensures start == 0 || i - start + 1 == w
    ensures i - start + 1 <= w
  {
    if i < w - 1 then 0 else i - w + 1
  }

  /** The window `data[start..i]` (inclusive) the mean of entry `i` is taken over. */
  function Window(data: seq<int>, i: int, w: int): (s: seq<int>)
    requires 0 <= i < |data| && w >= 1
    ensures 1 <= |s| <= w
  {
    data[WindowStart(i, w)..i + 1]
  }

  /** The rolling average as a whole: one mean per input position. */
  function RollingSpec(data: seq<int>, w: int): (r: seq<real>)
    requires w >= 1
    ensures |r| == |data|
  {
    seq(|data|, i requires 0 <= i < |data| => Mean(Window(data, i, w)))
  }

  /** `calculate_rolling_average(data_series, window_size)`, the append loop over `range(len(data_series))`. */
  method RollingAverage(data: seq<int>, w: int) returns (r: seq<real>)
    requires w >= 1
    ensures r == RollingSpec(data, w)
  {
    r := [];
    if |data| == 0 {
      return;
    }
    var i := 0;
    while i < |data|
      invariant 0 <= i <= |data|
      invariant |r| == i
      invariant forall j :: 0 <= j < i ==> r[j] == Mean(Window(data, j, w))
    {
      if i < w - 1 {
        r := r + [Mean(data[..i + 1])];
      } else {
        r := r + [Mean(data[i - w + 1..i + 1])];
      }
      i := i + 1;
    }
  }

  /** The mean of a window lies between its smallest and its largest value. */
  lemma MeanBounds(s: seq<int>, lo: int, hi: int)
    requires |s| > 0
    requires forall j :: 0 <= j < |s| ==> lo <= s[j] <= hi
    ensures lo as real <= Mean(s) <= hi as real
  {
    SeqSumBounds(s, lo, hi);
    QuotientBounds(SeqSum(s) as real, |s| as real, lo as real, hi as real);
  }

  lemma QuotientBounds(x: real, n: real, lo: real, hi: real)
    requires n > 0.0 && n * lo <= x <= n * hi
    ensures lo <= x / n <= hi
  {
    var q := x / n;
    assert n * (q - lo) >= 0.0 && n * (hi - q) >= 0.0;
  }

  lemma QuotientSum(x: real, y: real, n: real)
    requires n != 0.0
    ensures (x + y) / n == x / n + y / n
  {
    var a, b := x / n, y / n;
    assert x == a * n && y == b * n;
    assert x + y == (a + b) * n;
  }

  /** Every rolling mean lies within the bounds of the input series. */
  lemma RollingBounds(data: seq<int>, w: int, lo: int, hi: int)
    requires w >= 1
    requires forall j :: 0 <= j < |data| ==> lo <= data[j] <= hi
    ensures forall i :: 0 <= i < |data| ==> lo as real <= RollingSpec(data, w)[i] <= hi as real
  {
    forall i | 0 <= i < |data|
      ensures lo as real <= RollingSpec(data, w)[i] <= hi as real
    {
      var s := Window(data, i, w);
      assert forall j :: 0 <= j < |s| ==> s[j] == data[WindowStart(i, w) + j];
      MeanBounds(s, lo, hi);
    }
  }

  /** A constant series has itself as its rolling average. */
  lemma RollingConstant(data: seq<int>, w: int, c: int)
    requires w >= 1
    requires forall j :: 0 <= j < |data| ==> data[j] == c
    ensures RollingSpec(data, w) == seq(|data|, _ => c as real)
  {
    RollingBounds(data, w, c, c);
  }

  /**
   Once the window is full, moving one step adds the new value and drops the
   oldest one: `avg[i] = avg[i-1] + (data[i] - data[i-w]) / w`.
   */
  lemma RollingSlide(data: seq<int>, w: int, i: int)
    requires w >= 1 && w <= i < |data|
    ensures RollingSpec(data, w)[i] == RollingSpec(data, w)[i - 1] + (data[i] - data[i - w]) as real / w as real
  {
    var a, b := data[i - w..i], data[i - w + 1..i + 1];
    assert Window(data, i - 1, w) == a && Window(data, i, w) == b;
    assert a == [data[i - w]] + data[i - w + 1..i];
    assert b == data[i - w + 1..i] + [data[i]];
    SeqSumConcat([data[i - w]], data[i - w + 1..i]);
    SeqSumConcat(data[i - w + 1..i], [data[i]]);
    assert SeqSum([data[i - w]]) == data[i - w] by {
      assert [data[i - w]][..0] == [];
    }
    assert SeqSum([data[i]]) == data[i] by {
      assert [data[i]][..0] == [];
    }
    QuotientSum(SeqSum(a) as real, (data[i] - data[i - w]) as real, w as real);
  }

  /** Entry `i` depends only on the values up to `i`: extending the series leaves earlier entries alone. */
  lemma RollingCausal(data: seq<int>, more: seq<int>, w: int)
    requires w >= 1
    ensures RollingSpec(data + more, w)[..|data|] == RollingSpec(data, w)
  {
    forall i | 0 <= i < |data|
      ensures RollingSpec(data + more, w)[i] == RollingSpec(data, w)[i]
    {
      assert Window(data + more, i, w) == Window(data, i, w);
    }
  }

  /** A window of 1 reproduces the series. */
  lemma RollingWindowOne(data: seq<int>)
    ensures RollingSpec(data, 1) == seq(|data|, i requires 0 <= i < |data| => data[i] as real)
  {
    forall i | 0 <= i < |data|
      ensures RollingSpec(data, 1)[i] == data[i] as real
    {
      var s := Window(data, i, 1);
      assert s == [data[i]];
      assert s[..0] == [];
      assert SeqSum(s) == data[i];
    }
  }

  /** `calculate_rolling_average([1, 2, 3, 4], 2) == [1.0, 1.5, 2.5, 3.5]`. */
  lemma RollingExample()
    ensures RollingSpec([1, 2, 3, 4], 2) == [1.0, 1.5, 2.5, 3.5]
  {
    var d := [1, 2, 3, 4];
    assert Window(d, 0, 2) == [1];
    assert Window(d, 1, 2) == [1, 2];
    assert Window(d, 2, 2) == [2, 3];
    assert Window(d, 3, 2) == [3, 4];
    assert SeqSum([1]) == 1 by { assert [1][..0] == []; }
    assert SeqSum([1, 2]) == 3 by { assert [1, 2][..1] == [1]; assert [1][..0] == []; }
    assert SeqSum([2, 3]) == 5 by { assert [2, 3][..1] == [2]; assert [2][..0] == []; }
    assert SeqSum([3, 4]) == 7 by { assert [3, 4][..1] == [3]; assert [3][..0] == []; }
  }
}
