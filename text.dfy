/**
 Strings as Python treats them in the source: decimal digit strings (the
 `%Y`, `%m`, `%d` and `{:02d}` fields, `int()` and `f"{n}"`), the ordering
 of `str` values (code point by code point), and `sorted` over a set of
 dictionary keys.
 */
module Text {
  import opened Collections

  predicate IsDigit(c: char)
  {
    '0' <= c <= '9'
  }

  predicate AllDigits(s: string)
  {
    forall i :: 0 <= i < |s| ==> IsDigit(s[i])
  }

  function DigitChar(n: int): (c: char)
    requires 0 <= n < 10
    ensures IsDigit(c)
  {
    (48 + n) as char
  }

  function DigitValue(c: char): (n: int)
    requires IsDigit(c)
    ensures 0 <= n < 10 && DigitChar(n) == c
  {
    c as int - 48
  }

  function Pow10(w: nat): (p: nat)
    ensures p >= 1
  {
    if w == 0 then 1 else 10 * Pow10(w - 1)
  }

  /** `n` written with exactly `w` digits, zero-padded on the left (`{n:0wd}` for n < 10^w). */
  function FixedDigits(n: nat, w: nat): (s: string)
    ensures |s| == w && AllDigits(s)
  {
    if w == 0 then [] else FixedDigits(n / 10, w - 1) + [DigitChar(n % 10)]
  }

  /** The number a digit string denotes (leading zeros allowed, as `int("05")`). */
  function DigitsValue(s: string): nat
    requires AllDigits(s)
  {
    if s == [] then 0 else DigitsValue(s[..|s| - 1]) * 10 + DigitValue(s[|s| - 1])
  }

  /** `f"{n}"` for a non-negative integer: no padding, no sign. */
  function DecimalString(n: nat): (s: string)
    ensures |s| >= 1 && AllDigits(s)
  {
    if n < 10 then [DigitChar(n)] else DecimalString(n / 10) + [DigitChar(n % 10)]
  }

  /** `int(s)` on plain ASCII digit strings; other texts are outside the model. */
  function ParseNat(s: string): Option<nat>
  {
    if |s| > 0 && AllDigits(s) then Some(DigitsValue(s)) else None
  }

  lemma {:induction false} FixedDigitsValue(n: nat, w: nat)
    requires n < Pow10(w)
    ensures DigitsValue(FixedDigits(n, w)) == n
  {
    if w > 0 {
      var s := FixedDigits(n, w);
      assert s[..|s| - 1] == FixedDigits(n / 10, w - 1);
      FixedDigitsValue(n / 10, w - 1);
    }
  }

  lemma {:induction false} DigitsValueFixed(s: string)
    requires AllDigits(s)
    ensures DigitsValue(s) < Pow10(|s|)
    ensures FixedDigits(DigitsValue(s), |s|) == s
  {
    if s != [] {
      var p := s[..|s| - 1];
      DigitsValueFixed(p);
      var n := DigitsValue(s);
      assert n / 10 == DigitsValue(p) && n % 10 == DigitValue(s[|s| - 1]);
      assert s == p + [s[|s| - 1]];
    }
  }

  lemma {:induction false} DecimalStringValue(n: nat)
    ensures ParseNat(DecimalString(n)) == Some(n)
    decreases n
  {
    var s := DecimalString(n);
    if n < 10 {
      assert s[..|s| - 1] == [];
      assert DigitValue(s[0]) == n;
      assert DigitsValue(s) == DigitsValue(s[..|s| - 1]) * 10 + DigitValue(s[|s| - 1]);
      assert DigitsValue(s) == n;
      assert |s| > 0 && AllDigits(s);
    } else {
      assert s[..|s| - 1] == DecimalString(n / 10);
      DecimalStringValue(n / 10);
      assert DigitValue(s[|s| - 1]) == n % 10;
    }
  }

  /** A number below `10^k` prints in at most `k` digits. */
  lemma {:induction false} DecimalBelow(n: nat, k: nat)
    requires k >= 1 && n < Pow10(k)
    ensures |DecimalString(n)| <= k
  {
    if n >= 10 {
      assert k >= 2;
      assert n / 10 < Pow10(k - 1);
      DecimalBelow(n / 10, k - 1);
    }
  }

  /** A number with exactly `k` digits prints as its `k`-digit zero-padded form. */
  lemma {:induction false} DecimalFixed(n: nat, k: nat)
    requires k >= 1 && Pow10(k - 1) <= n < Pow10(k)
    ensures DecimalString(n) == FixedDigits(n, k)
  {
    if n < 10 {
      assert k == 1;
      assert FixedDigits(n / 10, 0) == [];
    } else {
      assert k >= 2;
      assert Pow10(k - 2) <= n / 10 < Pow10(k - 1);
      DecimalFixed(n / 10, k - 1);
    }
  }

  /** A number of at least `10^k` prints in more than `k` digits. */
  lemma {:induction false} DecimalAtLeast(n: nat, k: nat)
    requires n >= Pow10(k)
    ensures |DecimalString(n)| > k
  {
    if k > 0 {
      assert n / 10 >= Pow10(k - 1);
      DecimalAtLeast(n / 10, k - 1);
    }
  }

  /** Python's `a < b` on `str`: lexicographic by code point, a proper prefix first. */
  predicate LexLess(a: string, b: string)
  {
    if |a| == 0 then |b| > 0
    else if |b| == 0 then false
    else if a[0] != b[0] then a[0] < b[0]
    else LexLess(a[1..], b[1..])
  }

  lemma {:induction false} LexIrreflexive(a: string)
    ensures !LexLess(a, a)
  {
    if |a| > 0 {
      LexIrreflexive(a[1..]);
    }
  }

  lemma {:induction false} LexTransitive(a: string, b: string, c: string)
    requires LexLess(a, b) && LexLess(b, c)
    ensures LexLess(a, c)
  {
    if |a| > 0 && a[0] == b[0] && b[0] == c[0] {
      LexTransitive(a[1..], b[1..], c[1..]);
    }
  }

  lemma {:induction false} LexTotal(a: string, b: string)
    requires a != b
    ensures LexLess(a, b) || LexLess(b, a)
  {
    if |a| > 0 && |b| > 0 && a[0] == b[0] {
      assert a == [a[0]] + a[1..] && b == [b[0]] + b[1..];
      LexTotal(a[1..], b[1..]);
    }
  }

  /** Comparing two concatenations whose first parts have the same length. */
  lemma {:induction false} LexConcat(a: string, b: string, c: string, d: string)
    requires |a| == |c|
    ensures LexLess(a + b, c + d) <==> LexLess(a, c) || (a == c && LexLess(b, d))
  {
    if |a| == 0 {
      assert a + b == b && c + d == d;
    } else {
      assert (a + b)[1..] == a[1..] + b && (c + d)[1..] == c[1..] + d;
      LexConcat(a[1..], b, c[1..], d);
      if a[0] == c[0] && a[1..] == c[1..] {
        assert a == [a[0]] + a[1..] && c == [c[0]] + c[1..];
      }
    }
  }

  /** Zero-padded numbers of one width sort as strings exactly as they sort as numbers. */
  lemma {:induction false} FixedDigitsOrder(x: nat, y: nat, w: nat)
    requires x < Pow10(w) && y < Pow10(w)
    ensures LexLess(FixedDigits(x, w), FixedDigits(y, w)) <==> x < y
    ensures FixedDigits(x, w) == FixedDigits(y, w) <==> x == y
  {
    if w == 0 {
      assert x == 0 && y == 0;
    } else {
      var hx, hy := FixedDigits(x / 10, w - 1), FixedDigits(y / 10, w - 1);
      var cx, cy := DigitChar(x % 10), DigitChar(y % 10);
      FixedDigitsOrder(x / 10, y / 10, w - 1);
      LexConcat(hx, [cx], hy, [cy]);
      assert LexLess([cx], [cy]) <==> x % 10 < y % 10 by {
        assert [cx][1..] == [] && [cy][1..] == [];
      }
      if FixedDigits(x, w) == FixedDigits(y, w) {
        assert hx == FixedDigits(x, w)[..w - 1] && hy == FixedDigits(y, w)[..w - 1];
        assert cx == FixedDigits(x, w)[w - 1] && cy == FixedDigits(y, w)[w - 1];
        assert DigitValue(cx) == x % 10 && DigitValue(cy) == y % 10;
      }
    }
  }

  /** Strictly increasing under `LexLess`: sorted, and so without duplicates. */
  predicate StrictlySorted(r: seq<string>)
  {
    forall i, j :: 0 <= i < j < |r| ==> LexLess(r[i], r[j])
  }

  /** A strictly sorted list holds no key twice. */
  lemma SortedDistinct(r: seq<string>)
    requires StrictlySorted(r)
    ensures NoDuplicates(r)
  {
    forall i, j | 0 <= i < j < |r|
      ensures r[i] != r[j]
    {
      LexIrreflexive(r[i]);
    }
  }

  /** Insert a new key into a strictly sorted list at its place. */
  function Insert(r: seq<string>, k: string): (r': seq<string>)
    requires StrictlySorted(r) && k !in r
    ensures StrictlySorted(r') && |r'| == |r| + 1
    ensures forall x :: x in r' <==> x in r || x == k
  {
    if r == [] then [k]
    else if LexLess(k, r[0]) then
      assert forall j :: 0 <= j < |r| ==> LexLess(k, r[j]) by {
        forall j | 0 <= j < |r| ensures LexLess(k, r[j]) {
          if j > 0 { LexTransitive(k, r[0], r[j]); }
        }
      }
      [k] + r
    else
      LexTotal(k, r[0]);
      var t := Insert(r[1..], k);
      assert forall x :: x in t ==> LexLess(r[0], x) by {
        forall x | x in t ensures LexLess(r[0], x) {
          if x != k {
            var j :| 0 <= j < |r[1..]| && r[1..][j] == x;
            assert r[j + 1] == x;
          }
        }
      }
      assert r == [r[0]] + r[1..];
      [r[0]] + t
  }

  /** Python's `sorted(d.keys())`: the keys of the set, each once, in increasing `str` order. */
  method SortKeys(s: set<string>) returns (r: seq<string>)
    ensures StrictlySorted(r) && |r| == |s|
    ensures forall x :: x in r <==> x in s
  {
    r := [];
    var rest := s;
    while rest != {}
      invariant rest <= s
      invariant StrictlySorted(r) && |r| + |rest| == |s|
      invariant forall x :: x in r <==> x in s && x !in rest
      decreases |rest|
    {
      var k :| k in rest;
      r := Insert(r, k);
      rest := rest - {k};
    }
  }

  /** In a strictly sorted list the first element is below every other, the last above. */
  lemma SortedEnds(r: seq<string>, x: string)
    requires StrictlySorted(r) && x in r
    ensures x == r[0] || LexLess(r[0], x)
    ensures x == r[|r| - 1] || LexLess(x, r[|r| - 1])
  {
  }
}
