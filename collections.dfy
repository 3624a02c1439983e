/**
 Order-independent sums over sets and maps, and sums over sequences.

 The source accumulates totals in Python dictionaries whose iteration order is
 irrelevant to the result; `SetSum` is the reference definition of such a
 total, and the lemmas below are what lets a loop that visits the elements in
 any order be proved equal to it.
 */
module Collections {

  datatype Option<T> = None | Some(value: T)

  /** The sum of `f` over the finite set `s`, taken in no particular order. */
  ghost function SetSum<T>(s: set<T>, f: T -> int): int
    decreases s
  {
    if s == {} then 0 else var x :| x in s; f(x) + SetSum(s - {x}, f)
  }

  /** Any element can be taken out first: the sum does not depend on the order. */
  lemma {:induction false} SetSumRemove<T>(s: set<T>, f: T -> int, y: T)
    requires y in s
    ensures SetSum(s, f) == f(y) + SetSum(s - {y}, f)
    decreases s
  {
    var x :| x in s && SetSum(s, f) == f(x) + SetSum(s - {x}, f);
    if x != y {
      SetSumRemove(s - {x}, f, y);
      SetSumRemove(s - {y}, f, x);
      assert s - {x} - {y} == s - {y} - {x};
    }
  }

  /** Adding a new element adds its value. */
  lemma SetSumAdd<T>(s: set<T>, f: T -> int, y: T)
    requires y !in s
    ensures SetSum(s + {y}, f) == SetSum(s, f) + f(y)
  {
    SetSumRemove(s + {y}, f, y);
    assert s + {y} - {y} == s;
  }

  /** Two functions that agree on `s` have the same sum over `s`. */
  lemma {:induction false} SetSumExt<T>(s: set<T>, f: T -> int, g: T -> int)
    requires forall x :: x in s ==> f(x) == g(x)
    ensures SetSum(s, f) == SetSum(s, g)
    decreases s
  {
    if s != {} {
      var x :| x in s;
      SetSumRemove(s, f, x);
      SetSumRemove(s, g, x);
      SetSumExt(s - {x}, f, g);
    }
  }

  /** A function that vanishes on `s` sums to zero over `s`. */
  lemma {:induction false} SetSumZero<T>(s: set<T>, f: T -> int)
    requires forall x :: x in s ==> f(x) == 0
    ensures SetSum(s, f) == 0
    decreases s
  {
    if s != {} {
      var x :| x in s;
      SetSumRemove(s, f, x);
      SetSumZero(s - {x}, f);
    }
  }

  /** Splitting a set in two splits its sum. */
  lemma {:induction false} SetSumSplit<T>(a: set<T>, b: set<T>, f: T -> int)
    requires b <= a
    ensures SetSum(a, f) == SetSum(b, f) + SetSum(a - b, f)
    decreases b
  {
    if b == {} {
      assert a - b == a;
    } else {
      var x :| x in b;
      SetSumRemove(a, f, x);
      SetSumRemove(b, f, x);
      SetSumSplit(a - {x}, b - {x}, f);
      assert (a - {x}) - (b - {x}) == a - b;
    }
  }

  /** The value of `k` in `m`, with 0 for a missing key (a `defaultdict(int)` read). */
  function Lookup(m: map<string, int>, k: string): (v: int)
    ensures k !in m ==> v == 0
    ensures k in m ==> v == m[k]
  {
    if k in m then m[k] else 0
  }

  function ValueOf(m: map<string, int>): string -> int
  {
    k => Lookup(m, k)
  }

  /** The sum of all values of a map. */
  ghost function MapTotal(m: map<string, int>): int
  {
    SetSum(m.Keys, ValueOf(m))
  }

  /** `m[k] += c` on a `defaultdict(int)` adds `c` to the total of the map. */
  lemma MapTotalUpdate(m: map<string, int>, k: string, c: int)
    ensures MapTotal(m[k := Lookup(m, k) + c]) == MapTotal(m) + c
  {
    var m' := m[k := Lookup(m, k) + c];
    SetSumExt(m.Keys - {k}, ValueOf(m), ValueOf(m'));
    SetSumRemove(m'.Keys, ValueOf(m'), k);
    assert m'.Keys - {k} == m.Keys - {k};
    if k in m {
      SetSumRemove(m.Keys, ValueOf(m), k);
    } else {
      assert m.Keys - {k} == m.Keys;
    }
  }

  /** No key occurs twice. */
  predicate NoDuplicates(ks: seq<string>)
  {
    forall i, j :: 0 <= i < j < |ks| ==> ks[i] != ks[j]
  }

  /** The keys a list holds. */
  function KeySet(ks: seq<string>): set<string>
  {
    set k | k in ks
  }

  /** Reading every key of `ks` from a `defaultdict(int)`, in order. */
  function Lookups(m: map<string, int>, ks: seq<string>): (vs: seq<int>)
    ensures |vs| == |ks|
    ensures forall i :: 0 <= i < |ks| ==> vs[i] == Lookup(m, ks[i])
  {
    seq(|ks|, i requires 0 <= i < |ks| => Lookup(m, ks[i]))
  }

  /**
   Reading each key of a duplicate-free list that holds every key of the
   map, and summing what was read, gives the total of the map: keys outside
   the map read as 0.
   */
  lemma LookupsTotal(m: map<string, int>, ks: seq<string>)
    requires NoDuplicates(ks) && forall k :: k in m ==> k in ks
    ensures SeqSum(Lookups(m, ks)) == MapTotal(m)
  {
    var all := KeySet(ks);
    LookupsSum(m, ks);
    SetSumSplit(all, m.Keys, ValueOf(m));
    SetSumZero(all - m.Keys, ValueOf(m));
  }

  lemma {:induction false} LookupsSum(m: map<string, int>, ks: seq<string>)
    requires NoDuplicates(ks)
    ensures SeqSum(Lookups(m, ks)) == SetSum(KeySet(ks), ValueOf(m))
    decreases |ks|
  {
    if ks == [] {
      assert KeySet(ks) == {};
    } else {
      var p, x := ks[..|ks| - 1], ks[|ks| - 1];
      LastKey(ks);
      LookupsLast(m, ks);
      LookupsSum(m, p);
      SetSumAdd(KeySet(p), ValueOf(m), x);
    }
  }

  /** The last key of a duplicate-free list is new to the rest of it. */
  lemma LastKey(ks: seq<string>)
    requires NoDuplicates(ks) && ks != []
    ensures NoDuplicates(ks[..|ks| - 1]) && ks[|ks| - 1] !in KeySet(ks[..|ks| - 1])
    ensures KeySet(ks) == KeySet(ks[..|ks| - 1]) + {ks[|ks| - 1]}
  {
    var p, x := ks[..|ks| - 1], ks[|ks| - 1];
    assert ks == p + [x];
    assert forall i :: 0 <= i < |p| ==> p[i] == ks[i] && p[i] != x;
  }

  lemma LookupsLast(m: map<string, int>, ks: seq<string>)
    requires ks != []
    ensures SeqSum(Lookups(m, ks)) == SeqSum(Lookups(m, ks[..|ks| - 1])) + Lookup(m, ks[|ks| - 1])
  {
    assert Lookups(m, ks)[..|ks| - 1] == Lookups(m, ks[..|ks| - 1]);
  }

  /** The sum of a sequence, accumulated from the front like an append loop. */
  function SeqSum(s: seq<int>): int
  {
    if s == [] then 0 else SeqSum(s[..|s| - 1]) + s[|s| - 1]
  }

  lemma {:induction false} SeqSumConcat(a: seq<int>, b: seq<int>)
    ensures SeqSum(a + b) == SeqSum(a) + SeqSum(b)
    decreases |b|
  {
    if b == [] {
      assert a + b == a;
    } else {
      assert (a + b)[..|a + b| - 1] == a + b[..|b| - 1];
      SeqSumConcat(a, b[..|b| - 1]);
    }
  }

  /** Summing a sequence that stays within [lo, hi] gives a sum within n*lo .. n*hi. */
  lemma {:induction false} SeqSumBounds(s: seq<int>, lo: int, hi: int)
    requires forall i :: 0 <= i < |s| ==> lo <= s[i] <= hi
    ensures |s| * lo <= SeqSum(s) <= |s| * hi
    decreases |s|
  {
    if s != [] {
      var p := s[..|s| - 1];
      SeqSumBounds(p, lo, hi);
      var n := |p|;
      assert |s| * lo == n * lo + lo && |s| * hi == n * hi + hi;
    }
  }
}
