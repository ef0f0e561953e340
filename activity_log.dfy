/**
 * The queries the analytics run against the activities table, as functions
 * over the table's rows: a WHERE filter, SUM and COUNT per group, and the
 * sorted distinct dates that GROUP BY / DISTINCT with ORDER BY return.
 */
module ActivityLog {
  import opened Wrappers
  import opened Records
  import opened Seqs

  /**
   * A WHERE clause: `user_id = user`, and optionally `category = c`,
   * `activity_date >= d` and `activity_date = d`.
   */
  datatype Query = Query(user: int, category: Option<string>, since: Option<Day>, on: Option<Day>)

  predicate Matches(q: Query, r: ActivityRecord) {
    && r.userId == q.user
    && (q.category.Some? ==> r.category == q.category.value)
    && (q.since.Some? ==> r.activityDate >= q.since.value)
    && (q.on.Some? ==> r.activityDate == q.on.value)
  }

  /** The rows that satisfy `q`, in table order, each as often as the table holds it. */
  function Select(rs: seq<ActivityRecord>, q: Query): (w: seq<ActivityRecord>)
    ensures forall x :: x in w <==> x in rs && Matches(q, x)
    ensures forall x {:trigger multiset(w)[x]} :: multiset(w)[x] == if Matches(q, x) then multiset(rs)[x] else 0
    ensures AllValid(rs) ==> AllValid(w)
  {
    if rs == [] then []
    else
      var init := Select(rs[..|rs| - 1], q);
      var last := rs[|rs| - 1];
      assert rs == rs[..|rs| - 1] + [last];
      if Matches(q, last) then init + [last] else init
  }

  /** A query no row matches selects nothing. */
  lemma {:induction false} SelectNone(rs: seq<ActivityRecord>, q: Query)
    requires forall x :: x in rs ==> !Matches(q, x)
    ensures Select(rs, q) == []
  {
    if rs != [] {
      var init := rs[..|rs| - 1];
      assert rs[|rs| - 1] in rs;
      forall x | x in init ensures !Matches(q, x) { assert x in rs; }
      SelectNone(init, q);
    }
  }

  function DateOf(r: ActivityRecord): Day { r.activityDate }
  function CategoryOf(r: ActivityRecord): string { r.category }

  /** The distinct values of `key` among the rows: what GROUP BY key yields. */
  function KeySet<K>(rs: seq<ActivityRecord>, key: ActivityRecord -> K): set<K> {
    set x | x in rs :: key(x)
  }

  lemma KeySetAppend<K>(rs: seq<ActivityRecord>, x: ActivityRecord, key: ActivityRecord -> K)
    ensures KeySet(rs + [x], key) == KeySet(rs, key) + {key(x)}
  {

  }

  /** SUM(duration_minutes) over the rows. */
  function Total(rs: seq<ActivityRecord>): int {
    if rs == [] then 0 else Total(rs[..|rs| - 1]) + rs[|rs| - 1].durationMinutes
  }

  /** SUM(duration_minutes) over the rows whose `key` is `k`. */
  function SumWhere<K(==)>(rs: seq<ActivityRecord>, key: ActivityRecord -> K, k: K): int {
    if rs == [] then 0
    else SumWhere(rs[..|rs| - 1], key, k) + (if key(rs[|rs| - 1]) == k then rs[|rs| - 1].durationMinutes else 0)
  }

  /** COUNT(*) over the rows whose `key` is `k`. */
  function CountWhere<K(==)>(rs: seq<ActivityRecord>, key: ActivityRecord -> K, k: K): nat {
    if rs == [] then 0
    else CountWhere(rs[..|rs| - 1], key, k) + (if key(rs[|rs| - 1]) == k then 1 else 0)
  }

  /** A group with no rows sums and counts to zero. */
  lemma {:induction false} EmptyGroup<K>(rs: seq<ActivityRecord>, key: ActivityRecord -> K, k: K)
    requires k !in KeySet(rs, key)
    ensures SumWhere(rs, key, k) == 0 && CountWhere(rs, key, k) == 0
  {
    if rs != [] {
      var init := rs[..|rs| - 1];
      assert rs[|rs| - 1] in rs;
      assert KeySet(init, key) <= KeySet(rs, key) by {
        forall x | x in init ensures x in rs { }
      }
      EmptyGroup(init, key, k);
    }
  }

  /** With valid rows every group total is non-negative. */
  lemma {:induction false} SumWhereNonNegative<K>(rs: seq<ActivityRecord>, key: ActivityRecord -> K, k: K)
    requires AllValid(rs)
    ensures SumWhere(rs, key, k) >= 0
  {
    if rs != [] {
      SumWhereNonNegative(rs[..|rs| - 1], key, k);
    }
  }

  /** The sum, over the keys `ks`, of the group totals. */
  function SumOverKeys<K(==)>(ks: seq<K>, rs: seq<ActivityRecord>, key: ActivityRecord -> K): int {
    if ks == [] then 0 else SumOverKeys(ks[..|ks| - 1], rs, key) + SumWhere(rs, key, ks[|ks| - 1])
  }

  /** Adding one row adds its duration to exactly the group of its key. */
  lemma {:induction false} SumOverKeysAppend<K>(ks: seq<K>, rs: seq<ActivityRecord>, x: ActivityRecord, key: ActivityRecord -> K)
    requires Distinct(ks)
    ensures SumOverKeys(ks, rs + [x], key)
         == SumOverKeys(ks, rs, key) + (if key(x) in ks then x.durationMinutes else 0)
  {
    if ks != [] {
      var init := ks[..|ks| - 1];
      assert Distinct(init);
      SumOverKeysAppend(init, rs, x, key);
      assert (rs + [x])[..|rs + [x]| - 1] == rs;
      assert key(x) in ks <==> key(x) in init || key(x) == ks[|ks| - 1];
      assert key(x) in init ==> key(x) != ks[|ks| - 1];
    }
  }

  /**
   * Grouping loses nothing: over keys that are distinct and cover every
   * row, the group totals add up to the total of all rows.
   */
  lemma {:induction false} GroupTotals<K>(ks: seq<K>, rs: seq<ActivityRecord>, key: ActivityRecord -> K)
    requires Distinct(ks)
    requires forall x :: x in rs ==> key(x) in ks
    ensures SumOverKeys(ks, rs, key) == Total(rs)
  {
    if rs == [] {
      assert SumOverKeys(ks, [], key) == 0 by { ZeroGroups(ks, key); }
    } else {
      var init := rs[..|rs| - 1];
      var x := rs[|rs| - 1];
      assert rs == init + [x];
      assert x in rs;
      forall y | y in init ensures key(y) in ks { assert y in rs; }
      GroupTotals(ks, init, key);
      SumOverKeysAppend(ks, init, x, key);
    }
  }

  lemma {:induction false} ZeroGroups<K>(ks: seq<K>, key: ActivityRecord -> K)
    ensures SumOverKeys(ks, [], key) == 0
  {
    if ks != [] {
      ZeroGroups(ks[..|ks| - 1], key);
    }
  }

  /** An average of values between `lo` and `hi` lies between them too. */
  lemma QuotientBounds(s: int, n: int, lo: int, hi: int)
    requires n > 0 && n * lo <= s <= n * hi
    ensures lo as real <= s as real / n as real <= hi as real
  {

  }

  predicate StrictlyAscending(s: seq<Day>) {
    forall i, j :: 0 <= i < j < |s| ==> s[i] < s[j]
  }

  predicate StrictlyDescending(s: seq<Day>) {
    forall i, j :: 0 <= i < j < |s| ==> s[i] > s[j]
  }

  lemma ConsAscending(x: Day, rest: seq<Day>)
    requires StrictlyAscending(rest)
    requires forall y :: y in rest ==> x < y
    ensures StrictlyAscending([x] + rest)
  {
    var r := [x] + rest;
    forall i, j | 0 <= i < j < |r| ensures r[i] < r[j] {
      assert r[j] == rest[j - 1];
      if i == 0 {
        assert rest[j - 1] in rest;
      } else {
        assert r[i] == rest[i - 1];
      }
    }
  }

  /** Inserts `d` into a strictly ascending list, keeping it so. */
  function InsertDate(xs: seq<Day>, d: Day): (r: seq<Day>)
    requires StrictlyAscending(xs)
    ensures StrictlyAscending(r)
    ensures forall y :: y in r <==> y in xs || y == d
  {
    if xs == [] then [d]
    else if d < xs[0] then [d] + xs
    else if d == xs[0] then xs
    else
      var rest := InsertDate(xs[1..], d);
      assert forall y :: y in rest ==> xs[0] < y by {
        forall y | y in xs[1..] ensures xs[0] < y { }
      }
      ConsAscending(xs[0], rest);
      [xs[0]] + rest
  }

  /** The distinct dates of the rows in ascending order (GROUP BY activity_date ORDER BY activity_date). */
  function AscendingDates(rs: seq<ActivityRecord>): (ds: seq<Day>)
    ensures StrictlyAscending(ds)
    ensures forall d :: d in ds <==> d in KeySet(rs, DateOf)
  {
    if rs == [] then []
    else
      var init := rs[..|rs| - 1];
      var last := rs[|rs| - 1];
      assert rs == init + [last];
      KeySetAppend(init, last, DateOf);
      InsertDate(AscendingDates(init), last.activityDate)
  }

  function Reverse<T>(s: seq<T>): (r: seq<T>)
    ensures |r| == |s|
    ensures forall i :: 0 <= i < |s| ==> r[i] == s[|s| - 1 - i]
  {
    if s == [] then [] else [s[|s| - 1]] + Reverse(s[..|s| - 1])
  }

  /** The distinct dates of the rows in descending order (DISTINCT activity_date ORDER BY activity_date DESC). */
  function DescendingDates(rs: seq<ActivityRecord>): (ds: seq<Day>)
    ensures StrictlyDescending(ds)
    ensures forall d :: d in ds <==> d in KeySet(rs, DateOf)
  {
    var asc := AscendingDates(rs);
    var ds := Reverse(asc);
    assert forall d :: d in ds <==> d in asc by {
      forall d ensures d in ds <==> d in asc {
        if d in asc {
          var i :| 0 <= i < |asc| && asc[i] == d;
          assert ds[|asc| - 1 - i] == d;
        }
      }
    }
    ds
  }

  /** One row of SELECT activity_date, SUM(duration_minutes) ... GROUP BY activity_date. */
  datatype DataPoint = DataPoint(date: Day, minutes: int)

  /** The group totals of the rows for each of the dates `ds`, in that order. */
  function PointsFor(w: seq<ActivityRecord>, ds: seq<Day>): (ps: seq<DataPoint>)
    ensures |ps| == |ds|
    ensures forall i :: 0 <= i < |ds| ==> ps[i] == DataPoint(ds[i], SumWhere(w, DateOf, ds[i]))
  {
    if ds == [] then [] else PointsFor(w, ds[..|ds| - 1]) + [DataPoint(ds[|ds| - 1], SumWhere(w, DateOf, ds[|ds| - 1]))]
  }

  /**
   * SELECT activity_date, SUM(duration_minutes) FROM activities WHERE q
   * GROUP BY activity_date ORDER BY activity_date.
   */
  function DailyTotals(rs: seq<ActivityRecord>, q: Query): seq<DataPoint> {
    var w := Select(rs, q);
    PointsFor(w, AscendingDates(w))
  }

  /** SUM of `minutes` over a list of data points. */
  function PointsTotal(ps: seq<DataPoint>): int {
    if ps == [] then 0 else PointsTotal(ps[..|ps| - 1]) + ps[|ps| - 1].minutes
  }

  lemma {:induction false} PointsTotalIsSumOverKeys(w: seq<ActivityRecord>, ds: seq<Day>)
    ensures PointsTotal(PointsFor(w, ds)) == SumOverKeys(ds, w, DateOf)
  {
    if ds != [] {
      var init := ds[..|ds| - 1];
      PointsTotalIsSumOverKeys(w, init);
      var ps := PointsFor(w, ds);
      assert ps[..|ps| - 1] == PointsFor(w, init);
    }
  }

  /**
   * The data points are one per distinct matching date, in strictly
   * ascending date order, and each carries the sum of that date's durations.
   */
  lemma DailyTotalsShape(rs: seq<ActivityRecord>, q: Query)
    ensures var ps := DailyTotals(rs, q); var w := Select(rs, q);
      && |ps| == |KeySet(w, DateOf)|
      && (forall i, j :: 0 <= i < j < |ps| ==> ps[i].date < ps[j].date)
      && (forall i :: 0 <= i < |ps| ==> ps[i].minutes == SumWhere(w, DateOf, ps[i].date))
  {
    var w := Select(rs, q);
    var ds := AscendingDates(w);
    assert Distinct(ds);
    DistinctCard(ds);
    assert Elements(ds) == KeySet(w, DateOf);
  }

  /**
   * A date has a data point exactly when some matching row falls on it:
   * days without rows are absent, not filled with zero.
   */
  lemma DailyTotalsDates(rs: seq<ActivityRecord>, q: Query, d: Day)
    ensures (exists i :: 0 <= i < |DailyTotals(rs, q)| && DailyTotals(rs, q)[i].date == d)
        <==> (exists x :: x in rs && Matches(q, x) && x.activityDate == d)
  {
    var w := Select(rs, q);
    var ds := AscendingDates(w);
    var ps := DailyTotals(rs, q);
    if x :| x in rs && Matches(q, x) && x.activityDate == d {
      assert x in w;
      assert DateOf(x) in KeySet(w, DateOf);
      var i :| 0 <= i < |ds| && ds[i] == d;
      assert ps[i].date == d;
    }
    if i :| 0 <= i < |ps| && ps[i].date == d {
      assert ds[i] in ds;
      var x :| x in w && DateOf(x) == ds[i];
      assert x in rs && Matches(q, x);
    }
  }

  /** The data points add up to the total duration of the matching rows. */
  lemma DailyTotalsSum(rs: seq<ActivityRecord>, q: Query)
    ensures PointsTotal(DailyTotals(rs, q)) == Total(Select(rs, q))
  {
    var w := Select(rs, q);
    var ds := AscendingDates(w);
    PointsTotalIsSumOverKeys(w, ds);
    assert Distinct(ds);
    forall x | x in w ensures DateOf(x) in ds {
      assert DateOf(x) in KeySet(w, DateOf);
    }
    GroupTotals(ds, w, DateOf);
  }
}
