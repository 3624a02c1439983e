/**
 The nested accumulation loop both the daily and the weekly series start with
 (source lines 24-31 and 135-149): for every user and every `(date, count)`
 record of that user, add the count to the record's bucket and, when the count
 is positive, add the user to the bucket's set of active users.

 The bucket of a record is given by a key function: the date string itself
 for the daily series, the ISO week label for the weekly one. A key function
 returns `None` where the source's `strptime` raises; the source then abandons
 the whole call, which the loop reports as `ok == false`.

 The reference definitions (`BucketSum`, `BucketUsers`, `BucketKeys`) are
 stated over the set of all records, with no order; the loop visits the
 records in whatever order the dictionaries yield them, and `Count` and
 `Actives` replay that order.
 */
module Aggregation {
  import opened Collections

  /** The parsed input: user id to that user's `daily_commits` map (date string to count). */
  type Input = map<string, map<string, int>>

  /** The bucket a record's date string falls in, or `None` if parsing it raises. */
  type KeyFn = string -> Option<string>

  /** One record of the input: a user id and one of that user's date strings. */
  type Record = (string, string)

  /** Every record of the input. */
  ghost function Records(data: Input): set<Record>
  {
    set u, s | u in data && s in data[u] :: (u, s)
  }

  /** The records of the users in `users`. */
  ghost function RecordsOf(data: Input, users: set<string>): set<Record>
  {
    set u, s | u in users && u in data && s in data[u] :: (u, s)
  }

  /** The count of a record. */
  function RecordValue(data: Input): Record -> int
  {
    (r: Record) => if r.0 in data then Lookup(data[r.0], r.1) else 0
  }

  /** What a record adds to bucket `k`: its count if it falls in `k`, else nothing. */
  function RecordCount(data: Input, keyOf: KeyFn, k: string): Record -> int
  {
    (r: Record) => if keyOf(r.1) == Some(k) then RecordValue(data)(r) else 0
  }

  /** The buckets the records `rs` fall in. */
  ghost function KeysIn(keyOf: KeyFn, rs: set<Record>): set<string>
  {
    set r | r in rs && keyOf(r.1).Some? :: keyOf(r.1).value
  }

  /** The users with a positive-count record of `rs` in bucket `k`. */
  ghost function UsersIn(data: Input, keyOf: KeyFn, k: string, rs: set<Record>): set<string>
  {
    set r | r in rs && keyOf(r.1) == Some(k) && RecordValue(data)(r) > 0 :: r.0
  }

  /** The total count of bucket `k`: every record of every user that falls in it. */
  ghost function BucketSum(data: Input, keyOf: KeyFn, k: string): int
  {
    SetSum(Records(data), RecordCount(data, keyOf, k))
  }

  /** The distinct users with a positive count in bucket `k`. */
  ghost function BucketUsers(data: Input, keyOf: KeyFn, k: string): set<string>
  {
    UsersIn(data, keyOf, k, Records(data))
  }

  /** Every bucket some record falls in, whatever its count. */
  ghost function BucketKeys(data: Input, keyOf: KeyFn): set<string>
  {
    KeysIn(keyOf, Records(data))
  }

  /** The sum of every count in the input. */
  ghost function InputTotal(data: Input): int
  {
    SetSum(Records(data), RecordValue(data))
  }

  /** Every record's date string has a bucket: no `strptime` call raises. */
  ghost predicate AllKeyed(data: Input, keyOf: KeyFn)
  {
    forall u, s :: u in data && s in data[u] ==> keyOf(s).Some?
  }

  /** Python's `active_users_by_day[k]` on a `defaultdict(set)`: the empty set for a missing key. */
  function Members(active: map<string, set<string>>, k: string): set<string>
  {
    if k in active then active[k] else {}
  }

  /** Every bucket with an entry in `active` has one in `commits` and at least one user. */
  ghost predicate ActiveWellFormed(commits: map<string, int>, active: map<string, set<string>>)
  {
    forall k :: k in active ==> k in commits && active[k] != {}
  }

  /** `commits_by_day[k] += c` on a `defaultdict(int)`. */
  function AddCount(commits: map<string, int>, k: string, c: int): (m: map<string, int>)
    ensures m.Keys == commits.Keys + {k}
    ensures forall j :: Lookup(m, j) == Lookup(commits, j) + (if j == k then c else 0)
    ensures MapTotal(m) == MapTotal(commits) + c
  {
    MapTotalUpdate(commits, k, c);
    commits[k := Lookup(commits, k) + c]
  }

  /** `active_users_by_day[k].add(u)` on a `defaultdict(set)`. */
  function AddActive(active: map<string, set<string>>, k: string, u: string): (a: map<string, set<string>>)
    ensures a.Keys == active.Keys + {k}
    ensures forall j :: Members(a, j) == Members(active, j) + (if j == k then {u} else {})
  {
    active[k := Members(active, k) + {u}]
  }

  /** The commit totals after visiting the records `recs` in that order, from empty. */
  function Count(data: Input, keyOf: KeyFn, recs: seq<Record>): map<string, int>
  {
    if recs == [] then map[]
    else
      var prev := Count(data, keyOf, recs[..|recs| - 1]);
      var r := recs[|recs| - 1];
      match keyOf(r.1)
      case None => prev
      case Some(k) => AddCount(prev, k, RecordValue(data)(r))
  }

  /** The active-user sets after visiting the records `recs` in that order, from empty. */
  function Actives(data: Input, keyOf: KeyFn, recs: seq<Record>): map<string, set<string>>
  {
    if recs == [] then map[]
    else
      var prev := Actives(data, keyOf, recs[..|recs| - 1]);
      var r := recs[|recs| - 1];
      match keyOf(r.1)
      case None => prev
      case Some(k) => if RecordValue(data)(r) > 0 then AddActive(prev, k, r.0) else prev
  }

  /** The records visited so far, in visiting order. */
  ghost function Elems(recs: seq<Record>): set<Record>
  {
    set r | r in recs
  }

  /** No record is visited twice. */
  ghost predicate Distinct(recs: seq<Record>)
  {
    forall i, j :: 0 <= i < j < |recs| ==> recs[i] != recs[j]
  }

  /** Every visited record had a bucket. */
  ghost predicate AllRecsKeyed(keyOf: KeyFn, recs: seq<Record>)
  {
    forall i :: 0 <= i < |recs| ==> keyOf(recs[i].1).Some?
  }

  /** The records of user `u` for the date strings `ss`. */
  ghost function Pairs(u: string, ss: set<string>): set<Record>
  {
    set s | s in ss :: (u, s)
  }

  /**
   The accumulation loop: `commits[k]` is the total of bucket `k` and
   `active[k]` its distinct active users; a bucket exists for every key met,
   even one whose records are all zero; `ok` is false exactly when some
   record's date cannot be parsed.
   */
  method Aggregate(data: Input, keyOf: KeyFn) returns (ok: bool, commits: map<string, int>, active: map<string, set<string>>)
    ensures ok <==> AllKeyed(data, keyOf)
    ensures ok ==> commits.Keys == BucketKeys(data, keyOf)
    ensures ok ==> forall k :: Lookup(commits, k) == BucketSum(data, keyOf, k)
    ensures ok ==> forall k :: Members(active, k) == BucketUsers(data, keyOf, k)
    ensures ok ==> ActiveWellFormed(commits, active)
    ensures ok ==> MapTotal(commits) == InputTotal(data)
  {
    commits, active := map[], map[];
    var users := data.Keys;
    ghost var done: set<string> := {};
    ghost var recs: seq<Record> := [];
    assert RecordsOf(data, done) == {};
    while users != {}
      invariant users + done == data.Keys && users !! done
      invariant Distinct(recs) && Elems(recs) == RecordsOf(data, done)
      invariant AllRecsKeyed(keyOf, recs)
      invariant commits == Count(data, keyOf, recs) && active == Actives(data, keyOf, recs)
      decreases |users|
    {
      var u :| u in users;
      var userOk;
      userOk, commits, active, recs := VisitUser(data, keyOf, u, done, recs, commits, active);
      if !userOk {
        ok := false;
        return;
      }
      MoveOne(users, done, data.Keys, u);
      users := users - {u};
      done := done + {u};
    }
    AllRecordsOf(data, done);
    ReplayFacts(data, keyOf, recs);
    ok := true;
  }

  lemma AllRecordsOf(data: Input, done: set<string>)
    requires done == data.Keys
    ensures RecordsOf(data, done) == Records(data)
  {
  }

  /** A replay of every record, each once and each with a bucket, computes the reference totals and users. */
  lemma ReplayFacts(data: Input, keyOf: KeyFn, recs: seq<Record>)
    requires Distinct(recs) && Elems(recs) == Records(data) && AllRecsKeyed(keyOf, recs)
    ensures AllKeyed(data, keyOf)
    ensures Count(data, keyOf, recs).Keys == BucketKeys(data, keyOf)
    ensures forall k :: Lookup(Count(data, keyOf, recs), k) == BucketSum(data, keyOf, k)
    ensures forall k :: Members(Actives(data, keyOf, recs), k) == BucketUsers(data, keyOf, k)
    ensures ActiveWellFormed(Count(data, keyOf, recs), Actives(data, keyOf, recs))
    ensures MapTotal(Count(data, keyOf, recs)) == InputTotal(data)
  {
    KeyedRecords(data, keyOf, recs);
    CountKeys(data, keyOf, recs);
    CountTotal(data, keyOf, recs);
    ActivesWellFormed(data, keyOf, recs);
    forall k
      ensures Lookup(Count(data, keyOf, recs), k) == BucketSum(data, keyOf, k)
      ensures Members(Actives(data, keyOf, recs), k) == BucketUsers(data, keyOf, k)
    {
      CountAt(data, keyOf, recs, k);
      ActivesAt(data, keyOf, recs, k);
    }
  }

  /**
   The inner loop over one user's `daily_commits`: it either meets a date
   with no bucket, or visits every record of `u` once, extending the replay.
   */
  method VisitUser(data: Input, keyOf: KeyFn, u: string, ghost done: set<string>, ghost recs0: seq<Record>,
                   commits0: map<string, int>, active0: map<string, set<string>>)
    returns (ok: bool, commits: map<string, int>, active: map<string, set<string>>, ghost recs: seq<Record>)
    requires u in data && u !in done
    requires Distinct(recs0) && Elems(recs0) == RecordsOf(data, done) && AllRecsKeyed(keyOf, recs0)
    requires commits0 == Count(data, keyOf, recs0) && active0 == Actives(data, keyOf, recs0)
    ensures !ok ==> !AllKeyed(data, keyOf)
    ensures ok ==> Distinct(recs) && Elems(recs) == RecordsOf(data, done + {u}) && AllRecsKeyed(keyOf, recs)
    ensures ok ==> commits == Count(data, keyOf, recs) && active == Actives(data, keyOf, recs)
  {
    commits, active, recs := commits0, active0, recs0;
    var daily := data[u];
    var dates := daily.Keys;
    ghost var seen: set<string> := {};
    assert Pairs(u, seen) == {};
    while dates != {}
      invariant dates + seen == daily.Keys && dates !! seen
      invariant Distinct(recs) && Elems(recs) == RecordsOf(data, done) + Pairs(u, seen)
      invariant AllRecsKeyed(keyOf, recs)
      invariant commits == Count(data, keyOf, recs) && active == Actives(data, keyOf, recs)
      decreases |dates|
    {
      var s :| s in dates;
      var key := keyOf(s);
      if key.None? {
        assert !AllKeyed(data, keyOf);
        return false, commits, active, recs;
      }
      var cnt := daily[s];
      commits := AddCount(commits, key.value, cnt);
      if cnt > 0 {
        active := AddActive(active, key.value, u);
      }
      FreshRecord(data, done, u, seen, s);
      VisitRecord(data, keyOf, recs, (u, s));
      PairsAdd(u, seen, s);
      UnionStep(Elems(recs), RecordsOf(data, done), Pairs(u, seen), (u, s));
      MoveOne(dates, seen, daily.Keys, s);
      recs := recs + [(u, s)];
      dates := dates - {s};
      seen := seen + {s};
    }
    UserRecords(data, done, u);
    ok := true;
  }

  lemma MoveOne<T>(rest: set<T>, seen: set<T>, all: set<T>, x: T)
    requires rest + seen == all && rest !! seen && x in rest
    ensures (rest - {x}) + (seen + {x}) == all && (rest - {x}) !! (seen + {x})
  {
  }

  lemma UnionStep<T>(e: set<T>, a: set<T>, p: set<T>, x: T)
    requires e == a + p
    ensures e + {x} == a + (p + {x})
  {
  }

  lemma FreshRecord(data: Input, done: set<string>, u: string, seen: set<string>, s: string)
    requires u !in done && s !in seen
    ensures (u, s) !in RecordsOf(data, done) + Pairs(u, seen)
  {
  }

  lemma PairsAdd(u: string, seen: set<string>, s: string)
    ensures Pairs(u, seen + {s}) == Pairs(u, seen) + {(u, s)}
  {
  }

  lemma UserRecords(data: Input, done: set<string>, u: string)
    requires u in data
    ensures RecordsOf(data, done) + Pairs(u, data[u].Keys) == RecordsOf(data, done + {u})
  {
  }

  /** Visiting one more record, not visited before, extends the replay: the step the loop body takes. */
  lemma VisitRecord(data: Input, keyOf: KeyFn, recs: seq<Record>, r: Record)
    requires keyOf(r.1).Some? && Distinct(recs) && AllRecsKeyed(keyOf, recs) && r !in Elems(recs)
    ensures Count(data, keyOf, recs + [r]) == AddCount(Count(data, keyOf, recs), keyOf(r.1).value, RecordValue(data)(r))
    ensures Actives(data, keyOf, recs + [r]) == if RecordValue(data)(r) > 0
      then AddActive(Actives(data, keyOf, recs), keyOf(r.1).value, r.0) else Actives(data, keyOf, recs)
    ensures Distinct(recs + [r]) && AllRecsKeyed(keyOf, recs + [r]) && Elems(recs + [r]) == Elems(recs) + {r}
  {
    assert (recs + [r])[..|recs|] == recs;
    Snoc(keyOf, recs, r);
  }

  lemma Snoc(keyOf: KeyFn, recs: seq<Record>, r: Record)
    requires keyOf(r.1).Some? && Distinct(recs) && AllRecsKeyed(keyOf, recs) && r !in Elems(recs)
    ensures Distinct(recs + [r]) && AllRecsKeyed(keyOf, recs + [r]) && Elems(recs + [r]) == Elems(recs) + {r}
  {
    var recs' := recs + [r];
    assert forall i :: 0 <= i < |recs| ==> recs'[i] == recs[i];
    assert recs'[|recs|] == r;
  }

  /** Taking the last visited record off the replay. */
  lemma Unsnoc(recs: seq<Record>)
    requires Distinct(recs) && recs != []
    ensures recs == recs[..|recs| - 1] + [recs[|recs| - 1]]
    ensures Distinct(recs[..|recs| - 1]) && recs[|recs| - 1] !in Elems(recs[..|recs| - 1])
    ensures Elems(recs) == Elems(recs[..|recs| - 1]) + {recs[|recs| - 1]}
  {
  }

  /** When the visited records are all the records and each had a bucket, no parse raised. */
  lemma KeyedRecords(data: Input, keyOf: KeyFn, recs: seq<Record>)
    requires Elems(recs) == Records(data) && AllRecsKeyed(keyOf, recs)
    ensures AllKeyed(data, keyOf)
  {
    forall u, s | u in data && s in data[u]
      ensures keyOf(s).Some?
    {
      assert (u, s) in Records(data);
      var i :| 0 <= i < |recs| && recs[i] == (u, s);
    }
  }

  lemma KeysInAdd(keyOf: KeyFn, rs: set<Record>, r: Record)
    ensures KeysIn(keyOf, rs + {r}) == KeysIn(keyOf, rs) + (if keyOf(r.1).Some? then {keyOf(r.1).value} else {})
  {
  }

  lemma UsersInAdd(data: Input, keyOf: KeyFn, k: string, rs: set<Record>, r: Record)
    ensures UsersIn(data, keyOf, k, rs + {r}) == UsersIn(data, keyOf, k, rs)
      + (if keyOf(r.1) == Some(k) && RecordValue(data)(r) > 0 then {r.0} else {})
  {
  }

  /** The replayed totals have one entry per bucket met. */
  lemma {:induction false} CountKeys(data: Input, keyOf: KeyFn, recs: seq<Record>)
    requires Distinct(recs)
    ensures Count(data, keyOf, recs).Keys == KeysIn(keyOf, Elems(recs))
    decreases |recs|
  {
    if recs == [] {
      assert Elems(recs) == {};
    } else {
      var p, r := recs[..|recs| - 1], recs[|recs| - 1];
      Unsnoc(recs);
      CountKeys(data, keyOf, p);
      KeysInAdd(keyOf, Elems(p), r);
    }
  }

  /** The last visited record adds its count to its own bucket and nothing to any other. */
  lemma CountLast(data: Input, keyOf: KeyFn, recs: seq<Record>, k: string)
    requires recs != []
    ensures Lookup(Count(data, keyOf, recs), k)
      == Lookup(Count(data, keyOf, recs[..|recs| - 1]), k) + RecordCount(data, keyOf, k)(recs[|recs| - 1])
  {
  }

  /** The replayed total of bucket `k` is the sum of the visited records that fall in it. */
  lemma {:induction false} CountAt(data: Input, keyOf: KeyFn, recs: seq<Record>, k: string)
    requires Distinct(recs)
    ensures Lookup(Count(data, keyOf, recs), k) == SetSum(Elems(recs), RecordCount(data, keyOf, k))
    decreases |recs|
  {
    if recs == [] {
      assert Elems(recs) == {};
    } else {
      var p, r := recs[..|recs| - 1], recs[|recs| - 1];
      Unsnoc(recs);
      CountLast(data, keyOf, recs, k);
      CountAt(data, keyOf, p, k);
      SetSumAdd(Elems(p), RecordCount(data, keyOf, k), r);
    }
  }

  /** When every visited record had a bucket, the total of all buckets is the total of all visited counts. */
  lemma {:induction false} CountTotal(data: Input, keyOf: KeyFn, recs: seq<Record>)
    requires Distinct(recs) && AllRecsKeyed(keyOf, recs)
    ensures MapTotal(Count(data, keyOf, recs)) == SetSum(Elems(recs), RecordValue(data))
    decreases |recs|
  {
    if recs == [] {
      assert Elems(recs) == {};
    } else {
      var p, r := recs[..|recs| - 1], recs[|recs| - 1];
      Unsnoc(recs);
      assert AllRecsKeyed(keyOf, p) && keyOf(r.1).Some? by {
        assert forall i :: 0 <= i < |p| ==> p[i] == recs[i];
      }
      CountTotal(data, keyOf, p);
      SetSumAdd(Elems(p), RecordValue(data), r);
    }
  }

  /** The replayed users of bucket `k` are the users of its positive visited records. */
  lemma {:induction false} ActivesAt(data: Input, keyOf: KeyFn, recs: seq<Record>, k: string)
    requires Distinct(recs)
    ensures Members(Actives(data, keyOf, recs), k) == UsersIn(data, keyOf, k, Elems(recs))
    decreases |recs|
  {
    if recs == [] {
      assert Elems(recs) == {};
    } else {
      var p, r := recs[..|recs| - 1], recs[|recs| - 1];
      Unsnoc(recs);
      ActivesAt(data, keyOf, p, k);
      UsersInAdd(data, keyOf, k, Elems(p), r);
    }
  }

  /** Only buckets with a total and at least one user have a users entry. */
  lemma {:induction false} ActivesWellFormed(data: Input, keyOf: KeyFn, recs: seq<Record>)
    ensures ActiveWellFormed(Count(data, keyOf, recs), Actives(data, keyOf, recs))
    decreases |recs|
  {
    if recs != [] {
      ActivesWellFormed(data, keyOf, recs[..|recs| - 1]);
    }
  }


  /** A bucket met is the bucket of some record. */
  lemma KeysInMember(keyOf: KeyFn, rs: set<Record>, k: string) returns (r: Record)
    requires k in KeysIn(keyOf, rs)
    ensures r in rs && keyOf(r.1) == Some(k)
  {
    r :| r in rs && keyOf(r.1).Some? && keyOf(r.1).value == k;
  }

  /** A bucket no record falls in has total 0 and no users. */
  lemma AbsentBucket(data: Input, keyOf: KeyFn, k: string)
    requires k !in BucketKeys(data, keyOf)
    ensures BucketSum(data, keyOf, k) == 0
    ensures BucketUsers(data, keyOf, k) == {}
  {
    SetSumZero(Records(data), RecordCount(data, keyOf, k));
  }

  /** The users of a bucket are users of the input, so there are never more of them than users. */
  lemma BucketUsersBound(data: Input, keyOf: KeyFn, k: string)
    ensures BucketUsers(data, keyOf, k) <= data.Keys
    ensures |BucketUsers(data, keyOf, k)| <= |data|
  {
    SubsetCard(BucketUsers(data, keyOf, k), data.Keys);
  }

  lemma {:induction false} SubsetCard<T>(a: set<T>, b: set<T>)
    requires a <= b
    ensures |a| <= |b|
    decreases b
  {
    if a != {} {
      var x :| x in a;
      SubsetCard(a - {x}, b - {x});
    }
  }

  /**
   A record with count 0 still creates its bucket, but makes nobody active:
   a bucket whose records all have count 0 exists with total 0 and no users.
   */
  lemma ZeroRecordsBucket(data: Input, keyOf: KeyFn, k: string, u: string, s: string)
    requires u in data && s in data[u] && keyOf(s) == Some(k)
    requires forall r :: r in Records(data) && keyOf(r.1) == Some(k) ==> RecordValue(data)(r) == 0
    ensures k in BucketKeys(data, keyOf)
    ensures BucketSum(data, keyOf, k) == 0
    ensures BucketUsers(data, keyOf, k) == {}
  {
    assert (u, s) in Records(data);
    SetSumZero(Records(data), RecordCount(data, keyOf, k));
  }

  /** A user's positive record in bucket `k` makes that user one of the bucket's users. */
  lemma ActiveRecord(data: Input, keyOf: KeyFn, u: string, s: string)
    requires u in data && s in data[u] && keyOf(s).Some? && data[u][s] > 0
    ensures u in BucketUsers(data, keyOf, keyOf(s).value)
  {
    assert (u, s) in Records(data);
  }
}
