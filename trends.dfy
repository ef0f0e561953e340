/**
 * The trends endpoint: for each predefined category, the average daily
 * total over the active days on or after today-30 and on or after today-7
 * (lower bounds only, so later-dated rows count too), the current streak
 * of consecutive logged days, and the daily totals of the days on or
 * after today-7.
 */
module Trends {
  import opened Wrappers
  import opened Records
  import opened ActivityLog

  datatype TrendData = TrendData(
    category: string,
    weeklyAverage: real,
    monthlyAverage: real,
    streakDays: nat,
    dataPoints: seq<DataPoint>)

  /** The rows of one user and category dated on or after `since`. */
  function WindowQuery(user: int, category: string, since: Day): Query {
    Query(user, Some(category), Some(since), None)
  }

  /** All rows of one user and category. */
  function HistoryQuery(user: int, category: string): Query {
    Query(user, Some(category), None, None)
  }

  // ---------------------------------------------------------------------
  // Streak

  /**
   * The streak: how many leading entries of `dates` are `today`,
   * `today - 1`, ..., stopping at the first entry that breaks the pattern.
   */
  function Streak(dates: seq<Day>, today: Day): (n: nat)
    ensures n <= |dates|
    ensures forall i :: 0 <= i < n ==> dates[i] == today - i
    ensures n < |dates| ==> dates[n] != today - n
  {
    if dates == [] || dates[0] != today then 0
    else 1 + Streak(dates[1..], today - 1)
  }

  /** The three facts in Streak's contract pin the streak down. */
  lemma StreakUnique(dates: seq<Day>, today: Day, n: nat)
    requires n <= |dates|
    requires forall i :: 0 <= i < n ==> dates[i] == today - i
    requires n < |dates| ==> dates[n] != today - n
    ensures n == Streak(dates, today)
  {

  }

  /** The loop of the trends endpoint that walks the descending date list. */
  method StreakWalk(dates: seq<Day>, today: Day) returns (streak: nat)
    ensures streak == Streak(dates, today)
  {
    streak := 0;
    var current := today;
    var i := 0;
    while i < |dates|
      invariant 0 <= i <= |dates|
      invariant streak == i && current == today - i
      invariant forall k :: 0 <= k < i ==> dates[k] == today - k
    {
      if dates[i] == current {
        streak := streak + 1;
        current := current - 1;
      } else {
        break;
      }
      i := i + 1;
    }
    StreakUnique(dates, today, streak);
  }

  /** No record today: no streak. */
  lemma StreakZeroWithoutToday(dates: seq<Day>, today: Day)
    requires today !in dates
    ensures Streak(dates, today) == 0
  {

  }

  /**
   * A record dated after `today` heads the descending list and fails the
   * first comparison, so the streak is 0 even when today has a record.
   */
  lemma StreakZeroAfterFutureDate(dates: seq<Day>, today: Day, later: Day)
    requires StrictlyDescending(dates)
    requires later in dates && later > today
    ensures Streak(dates, today) == 0
  {

  }

  /**
   * When no date lies after `today`, the streak is the length of the run of
   * consecutive logged days ending at `today`: every day of the run has a
   * date, the day before the run has none.
   */
  lemma StreakIsCalendarRun(dates: seq<Day>, today: Day)
    requires StrictlyDescending(dates)
    requires forall i :: 0 <= i < |dates| ==> dates[i] <= today
    ensures var n := Streak(dates, today);
      && (forall d :: today - n < d <= today ==> d in dates)
      && today - n !in dates
  {
    var n := Streak(dates, today);
    forall d | today - n < d <= today ensures d in dates {
      assert dates[today - d] == d;
    }
    forall i | 0 <= i < |dates| ensures dates[i] != today - n {
      if i < n {
        assert dates[i] == today - i;
      } else if n == 0 {
        assert dates[0] != today;
        if i > 0 { assert dates[i] < dates[0]; }
      } else {
        assert dates[n - 1] == today - (n - 1);
        assert dates[n] < dates[n - 1];
        assert dates[n] != today - n;
        if i > n { assert dates[i] < dates[n]; }
      }
    }
  }

  /** The dates `today`, `today - 1`, ..., `today - (n - 1)`. */
  function Countdown(today: Day, n: nat): (ds: seq<Day>)
    decreases n
    ensures |ds| == n
    ensures forall i :: 0 <= i < n ==> ds[i] == today - i
  {
    if n == 0 then [] else [today] + Countdown(today - 1, n - 1)
  }

  /** The walk has no cap: an unbroken run of any length counts in full. */
  lemma StreakUncapped(today: Day, n: nat)
    ensures Streak(Countdown(today, n), today) == n
  {

  }

  // ---------------------------------------------------------------------
  // Averages over active days

  /** AVG over the daily totals, 0 when there are none. */
  function Mean(ps: seq<DataPoint>): (m: real)
    ensures ps == [] ==> m == 0.0
  {
    if |ps| == 0 then 0.0 else PointsTotal(ps) as real / |ps| as real
  }

  lemma {:induction false} PointsTotalBounds(ps: seq<DataPoint>, lo: int, hi: int)
    requires forall i :: 0 <= i < |ps| ==> lo <= ps[i].minutes <= hi
    ensures |ps| * lo <= PointsTotal(ps) <= |ps| * hi
  {
    if ps != [] {
      PointsTotalBounds(ps[..|ps| - 1], lo, hi);
    }
  }

  /** An average of daily totals lies between the smallest and the largest of them. */
  lemma MeanWithin(ps: seq<DataPoint>, lo: int, hi: int)
    requires ps != []
    requires forall i :: 0 <= i < |ps| ==> lo <= ps[i].minutes <= hi
    ensures lo as real <= Mean(ps) <= hi as real
  {
    PointsTotalBounds(ps, lo, hi);
    QuotientBounds(PointsTotal(ps), |ps|, lo, hi);
  }

  /**
   * The windowed average divides the window's total minutes by the number
   * of distinct days that have rows, never by the window's length; with no
   * such day it is 0.
   */
  lemma MeanOverActiveDays(rs: seq<ActivityRecord>, q: Query)
    ensures var w := Select(rs, q);
      Mean(DailyTotals(rs, q))
        == if KeySet(w, DateOf) == {} then 0.0
           else Total(w) as real / |KeySet(w, DateOf)| as real
  {
    DailyTotalsShape(rs, q);
    DailyTotalsSum(rs, q);
  }

  /** With valid rows the windowed average is never negative. */
  lemma MeanNonNegative(rs: seq<ActivityRecord>, q: Query)
    requires AllValid(rs)
    ensures Mean(DailyTotals(rs, q)) >= 0.0
  {
    var ps := DailyTotals(rs, q);
    if ps != [] {
      DailyTotalsShape(rs, q);
      forall i | 0 <= i < |ps| ensures 0 <= ps[i].minutes {
        SumWhereNonNegative(Select(rs, q), DateOf, ps[i].date);
      }
      MeanWithin(ps, 0, MaxMinutes(ps));
    }
  }

  /** The largest daily total. */
  function MaxMinutes(ps: seq<DataPoint>): (m: int)
    requires ps != []
    ensures forall i :: 0 <= i < |ps| ==> ps[i].minutes <= m
    ensures exists i :: 0 <= i < |ps| && ps[i].minutes == m
  {
    if |ps| == 1 then ps[0].minutes
    else
      var rest := MaxMinutes(ps[1..]);
      assert forall i :: 1 <= i < |ps| ==> ps[i] == ps[1..][i - 1];
      if ps[0].minutes > rest then ps[0].minutes else rest
  }

  /** The smallest daily total. */
  function MinMinutes(ps: seq<DataPoint>): (m: int)
    requires ps != []
    ensures forall i :: 0 <= i < |ps| ==> m <= ps[i].minutes
    ensures exists i :: 0 <= i < |ps| && ps[i].minutes == m
  {
    if |ps| == 1 then ps[0].minutes
    else
      var rest := MinMinutes(ps[1..]);
      assert forall i :: 1 <= i < |ps| ==> ps[i] == ps[1..][i - 1];
      if ps[0].minutes < rest then ps[0].minutes else rest
  }

  /** A windowed average lies between the smallest and the largest daily total of the window. */
  lemma MeanBetweenExtremes(rs: seq<ActivityRecord>, q: Query)
    requires DailyTotals(rs, q) != []
    ensures var ps := DailyTotals(rs, q);
      MinMinutes(ps) as real <= Mean(ps) <= MaxMinutes(ps) as real
  {
    var ps := DailyTotals(rs, q);
    MeanWithin(ps, MinMinutes(ps), MaxMinutes(ps));
  }

  // ---------------------------------------------------------------------
  // One category, and the whole endpoint

  /** The trend figures of one category as of `today`. */
  function TrendFor(rs: seq<ActivityRecord>, user: int, category: string, today: Day): (t: TrendData)
    ensures t.category == category
    ensures t.weeklyAverage == Mean(t.dataPoints)
  {
    var weekly := DailyTotals(rs, WindowQuery(user, category, today - 7));
    TrendData(
      category,
      Mean(weekly),
      Mean(DailyTotals(rs, WindowQuery(user, category, today - 30))),
      Streak(DescendingDates(Select(rs, HistoryQuery(user, category))), today),
      weekly)
  }

  /** A category the user never logged has all-zero figures and no data points. */
  lemma NoActivityTrend(rs: seq<ActivityRecord>, user: int, category: string, today: Day)
    requires forall x :: x in rs ==> x.userId != user || x.category != category
    ensures TrendFor(rs, user, category, today)
         == TrendData(category, 0.0, 0.0, 0, [])
  {
    SelectNone(rs, WindowQuery(user, category, today - 7));
    SelectNone(rs, WindowQuery(user, category, today - 30));
    SelectNone(rs, HistoryQuery(user, category));
  }

  function ExampleWeek(user: int, category: string, today: Day): seq<ActivityRecord> {
    [ActivityRecord(user, category, 30, None, today - 6),
     ActivityRecord(user, category, 60, None, today - 4)]
  }

  lemma ExampleWeekDates(user: int, category: string, today: Day)
    ensures AscendingDates(ExampleWeek(user, category, today)) == [today - 6, today - 4]
  {
    var rs := ExampleWeek(user, category, today);
    var first := [rs[0]];
    assert rs[..1] == first && first[..0] == [];
    assert AscendingDates(first) == [today - 6];
    assert [today - 6][1..] == [];
    assert InsertDate([today - 6], today - 4) == [today - 6, today - 4];
  }

  lemma ExampleWeekSelect(user: int, category: string, today: Day)
    ensures Select(ExampleWeek(user, category, today), WindowQuery(user, category, today - 7))
         == ExampleWeek(user, category, today)
  {
    var rs := ExampleWeek(user, category, today);
    var q := WindowQuery(user, category, today - 7);
    var first := [rs[0]];
    assert rs[..1] == first && first[..0] == [];
    assert Select(first, q) == first;
  }

  lemma ExampleWeekTotals(user: int, category: string, today: Day)
    ensures DailyTotals(ExampleWeek(user, category, today), WindowQuery(user, category, today - 7))
         == [DataPoint(today - 6, 30), DataPoint(today - 4, 60)]
  {
    var rs := ExampleWeek(user, category, today);
    var first := [rs[0]];
    assert rs[..1] == first && first[..0] == [];
    ExampleWeekSelect(user, category, today);
    ExampleWeekDates(user, category, today);
    assert SumWhere(first, DateOf, today - 6) == 30;
    assert SumWhere(first, DateOf, today - 4) == 0;
    assert SumWhere(rs, DateOf, today - 6) == 30;
    assert SumWhere(rs, DateOf, today - 4) == 60;
  }

  /** Two active days, 30 and 60 minutes, in the last week average to 45, not to 90 / 7. */
  lemma WeeklyAverageExample(user: int, category: string, today: Day)
    ensures TrendFor(ExampleWeek(user, category, today), user, category, today).weeklyAverage == 45.0
  {
    ExampleWeekTotals(user, category, today);
    var ps := [DataPoint(today - 6, 30), DataPoint(today - 4, 60)];
    assert ps[..1] == [ps[0]] && [ps[0]][..0] == [];
    assert PointsTotal([ps[0]]) == 30;
    assert PointsTotal(ps) == 90;
  }

  /** Logged on today and the two days before, then a gap: a streak of 3. */
  lemma StreakExample(today: Day)
    ensures Streak([today, today - 1, today - 2, today - 4], today) == 3
  {
    StreakUnique([today, today - 1, today - 2, today - 4], today, 3);
  }

  /** The body of the per-category loop of GET /trends: four queries and the streak walk. */
  method CategoryTrend(rs: seq<ActivityRecord>, user: int, category: string, today: Day) returns (t: TrendData)
    ensures t == TrendFor(rs, user, category, today)
  {
    var monthly := Mean(DailyTotals(rs, WindowQuery(user, category, today - 30)));
    var weekly := Mean(DailyTotals(rs, WindowQuery(user, category, today - 7)));
    var dates := DescendingDates(Select(rs, HistoryQuery(user, category)));
    var streak := StreakWalk(dates, today);
    var points := DailyTotals(rs, WindowQuery(user, category, today - 7));
    t := TrendData(category, weekly, monthly, streak, points);
  }

  /** GET /trends: the trend figures of every predefined category, in table order. */
  method GetTrends(rs: seq<ActivityRecord>, user: int, today: Day) returns (trends: seq<TrendData>)
    ensures |trends| == |Categories|
    ensures forall i :: 0 <= i < |Categories| ==> trends[i] == TrendFor(rs, user, Categories[i], today)
  {
    trends := [];
    for i := 0 to |Categories|
      invariant |trends| == i
      invariant forall k :: 0 <= k < i ==> trends[k] == TrendFor(rs, user, Categories[k], today)
    {
      var t := CategoryTrend(rs, user, Categories[i], today);
      trends := trends + [t];
    }
  }
}
