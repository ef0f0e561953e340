/**
 * The daily summary endpoint: per-category totals for one date, every
 * predefined category present (with zeros when nothing was logged), the
 * overall total and the share of categories logged.
 */
module Summary {
  import opened Wrappers
  import opened Records
  import opened Seqs
  import opened ActivityLog

  /** The figures of one category in the summary. */
  datatype CategoryStats = CategoryStats(
    durationMinutes: int,
    entryCount: nat,
    averageMood: Option<real>,
    percentage: real)

  datatype DailySummary = DailySummary(
    date: Day,
    totalLoggedMinutes: int,
    categories: map<string, CategoryStats>,
    completionPercentage: real)

  /**
   * One row of SELECT category, SUM(duration_minutes), COUNT(*),
   * AVG(mood_rating) ... GROUP BY category; the average is kept as the sum
   * and the number of the non-null ratings it is taken over.
   */
  datatype CategoryRow = CategoryRow(
    category: string,
    totalMinutes: int,
    entryCount: nat,
    moodSum: int,
    moodCount: nat)

  /** The rows of one user dated `day`. */
  function DayQuery(user: int, day: Day): Query {
    Query(user, None, None, Some(day))
  }

  /** The sum of the non-null mood ratings of the rows in category `c`. */
  function MoodSum(rs: seq<ActivityRecord>, c: string): int {
    if rs == [] then 0
    else
      var last := rs[|rs| - 1];
      MoodSum(rs[..|rs| - 1], c) + (if last.category == c && last.moodRating.Some? then last.moodRating.value else 0)
  }

  /** The number of non-null mood ratings of the rows in category `c`. */
  function MoodCount(rs: seq<ActivityRecord>, c: string): nat {
    if rs == [] then 0
    else
      var last := rs[|rs| - 1];
      MoodCount(rs[..|rs| - 1], c) + (if last.category == c && last.moodRating.Some? then 1 else 0)
  }

  /** Valid ratings are between 1 and 5, so their sum is between the count and five times it. */
  lemma {:induction false} MoodSumBounds(rs: seq<ActivityRecord>, c: string)
    requires AllValid(rs)
    ensures MoodCount(rs, c) <= MoodSum(rs, c) <= 5 * MoodCount(rs, c)
  {
    if rs != [] {
      MoodSumBounds(rs[..|rs| - 1], c);
    }
  }

  lemma {:induction false} NoMoods(rs: seq<ActivityRecord>, c: string)
    requires c !in KeySet(rs, CategoryOf)
    ensures MoodSum(rs, c) == 0 && MoodCount(rs, c) == 0
  {
    if rs != [] {
      var init := rs[..|rs| - 1];
      assert rs[|rs| - 1] in rs;
      assert KeySet(init, CategoryOf) <= KeySet(rs, CategoryOf) by {
        forall x | x in init ensures x in rs { }
      }
      NoMoods(init, c);
    }
  }

  /** The distinct categories of the rows, in order of first appearance. */
  function CategoriesOf(rs: seq<ActivityRecord>): (cs: seq<string>)
    ensures Distinct(cs)
    ensures forall c :: c in cs <==> c in KeySet(rs, CategoryOf)
  {
    if rs == [] then []
    else
      var init := rs[..|rs| - 1];
      var last := rs[|rs| - 1];
      assert rs == init + [last];
      KeySetAppend(init, last, CategoryOf);
      var cs := CategoriesOf(init);
      if last.category in cs then cs else cs + [last.category]
  }

  /** The aggregate row of category `c` over the rows `w`. */
  function RowOf(w: seq<ActivityRecord>, c: string): CategoryRow {
    CategoryRow(c, SumWhere(w, CategoryOf, c), CountWhere(w, CategoryOf, c), MoodSum(w, c), MoodCount(w, c))
  }

  /** The aggregate rows of the categories `cs`, in that order. */
  function RowsFor(w: seq<ActivityRecord>, cs: seq<string>): (rows: seq<CategoryRow>)
    ensures |rows| == |cs|
    ensures forall i :: 0 <= i < |rows| ==> rows[i] == RowOf(w, cs[i])
  {
    if cs == [] then [] else RowsFor(w, cs[..|cs| - 1]) + [RowOf(w, cs[|cs| - 1])]
  }

  /** The GROUP BY category result over the rows `w`, one row per category. */
  function CategoryRows(w: seq<ActivityRecord>): seq<CategoryRow> {
    RowsFor(w, CategoriesOf(w))
  }

  /** sum(row['total_minutes'] for row in rows). */
  function RowsTotal(rows: seq<CategoryRow>): int {
    if rows == [] then 0 else RowsTotal(rows[..|rows| - 1]) + rows[|rows| - 1].totalMinutes
  }

  /** AVG(mood_rating) when it is a non-zero number, None when SQL gives NULL (no rating) or 0. */
  function AverageMood(row: CategoryRow): Option<real> {
    if row.moodCount == 0 || row.moodSum == 0 then None
    else Some(row.moodSum as real / row.moodCount as real)
  }

  /** A category's share of the day's total, 0 when the total is not positive. */
  function Percentage(minutes: int, total: int): real {
    if total > 0 then minutes as real / total as real * 100.0 else 0.0
  }

  function StatsOf(row: CategoryRow, total: int): CategoryStats {
    CategoryStats(row.totalMinutes, row.entryCount, AverageMood(row), Percentage(row.totalMinutes, total))
  }

  /** The entry a predefined category gets when nothing was logged under it. */
  function ZeroStats(): CategoryStats {
    CategoryStats(0, 0, None, 0.0)
  }

  /** The categories of the map that have a positive duration. */
  function LoggedKeys(m: map<string, CategoryStats>): set<string> {
    set c | c in m && m[c].durationMinutes > 0
  }

  /** Logged categories as a percentage of the number of predefined ones. */
  function Completion(m: map<string, CategoryStats>): real {
    |LoggedKeys(m)| as real / |Categories| as real * 100.0
  }

  /** The category map of the summary: every logged or predefined category with its figures. */
  function SummaryMap(w: seq<ActivityRecord>, total: int): map<string, CategoryStats> {
    map c | c in KeySet(w, CategoryOf) + CategorySet() :: StatsOf(RowOf(w, c), total)
  }

  /** What GET /summary/{date} returns, stated over the table's rows. */
  function SummarySpec(rs: seq<ActivityRecord>, user: int, day: Day): DailySummary {
    var w := Select(rs, DayQuery(user, day));
    var total := RowsTotal(CategoryRows(w));
    var categories := SummaryMap(w, total);
    DailySummary(day, total, categories, Completion(categories))
  }

  /** A category without rows on the day gets exactly the zero entry. */
  lemma RowOfEmpty(w: seq<ActivityRecord>, c: string, total: int)
    requires c !in KeySet(w, CategoryOf)
    ensures StatsOf(RowOf(w, c), total) == ZeroStats()
  {
    EmptyGroup(w, CategoryOf, c);
    NoMoods(w, c);
  }

  /** A map with the summary's keys and per-category figures is the summary's map. */
  lemma SummaryMapFrom(w: seq<ActivityRecord>, total: int, categories: map<string, CategoryStats>)
    requires categories.Keys == KeySet(w, CategoryOf) + CategorySet()
    requires forall c :: c in categories ==> categories[c] == StatsOf(RowOf(w, c), total)
    ensures categories == SummaryMap(w, total)
  {

  }

  /**
   * The second loop: every name of `names` missing from the map is added
   * with the zero entry; entries already there are kept as they are.
   */
  method AddMissing(categories: map<string, CategoryStats>, names: seq<string>)
    returns (filled: map<string, CategoryStats>)
    ensures filled.Keys == categories.Keys + Elements(names)
    ensures forall c :: c in filled ==>
      filled[c] == if c in categories then categories[c] else ZeroStats()
  {
    filled := categories;
    for j := 0 to |names|
      invariant filled.Keys == categories.Keys + Elements(names[..j])
      invariant forall c :: c in filled ==>
        filled[c] == if c in categories then categories[c] else ZeroStats()
    {
      assert names[..j + 1] == names[..j] + [names[j]];
      ElementsAppend(names[..j], names[j]);
      if names[j] !in filled {
        filled := filled[names[j] := ZeroStats()];
      }
    }
    assert names[..|names|] == names;
  }

  /** GET /summary/{date}: the two loops that fill the category map. */
  method GetDailySummary(rs: seq<ActivityRecord>, user: int, day: Day) returns (summary: DailySummary)
    ensures summary == SummarySpec(rs, user, day)
  {
    var w := Select(rs, DayQuery(user, day));
    var rows := CategoryRows(w);
    var total := RowsTotal(rows);
    ghost var cs := CategoriesOf(w);
    assert |rows| == |cs|;
    var categories: map<string, CategoryStats> := map[];
    for i := 0 to |rows|
      invariant categories.Keys == Elements(cs[..i])
      invariant forall c :: c in categories ==> categories[c] == StatsOf(RowOf(w, c), total)
    {
      assert cs[..i + 1] == cs[..i] + [cs[i]];
      ElementsAppend(cs[..i], cs[i]);
      assert rows[i] == RowOf(w, cs[i]);
      categories := categories[rows[i].category := StatsOf(rows[i], total)];
    }
    assert cs[..|rows|] == cs;
    assert Elements(cs) == KeySet(w, CategoryOf);
    var filled := AddMissing(categories, Categories);
    forall c | c in filled ensures filled[c] == StatsOf(RowOf(w, c), total) {
      if c !in categories {
        RowOfEmpty(w, c, total);
      }
    }
    categories := filled;
    SummaryMapFrom(w, total, categories);
    var completion := Completion(categories);
    summary := DailySummary(day, total, categories, completion);
  }

  // ---------------------------------------------------------------------
  // Properties of the summary

  lemma {:induction false} RowsTotalIsSumOverKeys(w: seq<ActivityRecord>, cs: seq<string>)
    ensures RowsTotal(RowsFor(w, cs)) == SumOverKeys(cs, w, CategoryOf)
  {
    if cs != [] {
      var init := cs[..|cs| - 1];
      RowsTotalIsSumOverKeys(w, init);
      var rows := RowsFor(w, cs);
      assert rows[..|rows| - 1] == RowsFor(w, init);
    }
  }

  /** The total of the summary is the sum of every duration the user logged on that date. */
  lemma SummaryTotal(rs: seq<ActivityRecord>, user: int, day: Day)
    ensures SummarySpec(rs, user, day).totalLoggedMinutes == Total(Select(rs, DayQuery(user, day)))
  {
    var w := Select(rs, DayQuery(user, day));
    var cs := CategoriesOf(w);
    RowsTotalIsSumOverKeys(w, cs);
    forall x | x in w ensures CategoryOf(x) in cs {
      assert CategoryOf(x) in KeySet(w, CategoryOf);
    }
    GroupTotals(cs, w, CategoryOf);
  }

  /**
   * The summary lists every predefined category and every category logged
   * that day; each entry holds that category's total minutes and number of
   * rows, and a predefined category nobody logged gets the zero entry.
   */
  lemma SummaryEntries(rs: seq<ActivityRecord>, user: int, day: Day)
    ensures var s := SummarySpec(rs, user, day); var w := Select(rs, DayQuery(user, day));
      && s.categories.Keys == KeySet(w, CategoryOf) + CategorySet()
      && (forall c :: c in s.categories ==>
            && s.categories[c].durationMinutes == SumWhere(w, CategoryOf, c)
            && s.categories[c].entryCount == CountWhere(w, CategoryOf, c))
      && (forall c :: c in CategorySet() && c !in KeySet(w, CategoryOf) ==> s.categories[c] == ZeroStats())
  {
    var w := Select(rs, DayQuery(user, day));
    var total := RowsTotal(CategoryRows(w));
    forall c | c in CategorySet() && c !in KeySet(w, CategoryOf)
      ensures SummarySpec(rs, user, day).categories[c] == ZeroStats()
    {
      RowOfEmpty(w, c, total);
    }
  }

  /** The categories with a positive total that day. */
  function PositiveCategories(w: seq<ActivityRecord>): set<string> {
    set c | c in KeySet(w, CategoryOf) && SumWhere(w, CategoryOf, c) > 0
  }

  /**
   * The completion figure counts the categories logged with a positive total,
   * predefined or not, as a share of the ten predefined ones.
   */
  lemma CompletionCountsPositive(rs: seq<ActivityRecord>, user: int, day: Day)
    ensures var s := SummarySpec(rs, user, day); var w := Select(rs, DayQuery(user, day));
      s.completionPercentage == |PositiveCategories(w)| as real * 10.0
  {
    var w := Select(rs, DayQuery(user, day));
    LoggedKeysArePositive(w, RowsTotal(CategoryRows(w)));
  }

  lemma LoggedKeysArePositive(w: seq<ActivityRecord>, total: int)
    ensures LoggedKeys(SummaryMap(w, total)) == PositiveCategories(w)
  {
    var m := SummaryMap(w, total);
    forall c | c in LoggedKeys(m) ensures c in PositiveCategories(w) {
      if c !in KeySet(w, CategoryOf) {
        EmptyGroup(w, CategoryOf, c);
      }
    }
    forall c | c in PositiveCategories(w) ensures c in LoggedKeys(m) {
      assert c in m;
    }
  }

  /** When every category logged that day is predefined, completion is at most 100. */
  lemma CompletionAtMostHundred(rs: seq<ActivityRecord>, user: int, day: Day)
    requires forall x :: x in rs && Matches(DayQuery(user, day), x) ==> x.category in Categories
    ensures SummarySpec(rs, user, day).completionPercentage <= 100.0
  {
    var w := Select(rs, DayQuery(user, day));
    CompletionCountsPositive(rs, user, day);
    assert PositiveCategories(w) <= CategorySet();
    CategoryCount();
    SubsetCard(PositiveCategories(w), CategorySet());
  }

  /** Categories are not checked against the table: eleven logged categories give 110. */
  lemma CompletionAboveHundred(rs: seq<ActivityRecord>, user: int, day: Day)
    requires |PositiveCategories(Select(rs, DayQuery(user, day)))| > 10
    ensures SummarySpec(rs, user, day).completionPercentage > 100.0
  {
    CompletionCountsPositive(rs, user, day);
  }

  lemma {:induction false} SumWhereAtMostTotal<K>(rs: seq<ActivityRecord>, key: ActivityRecord -> K, k: K)
    requires AllValid(rs)
    ensures 0 <= SumWhere(rs, key, k) <= Total(rs)
  {
    if rs != [] {
      SumWhereAtMostTotal(rs[..|rs| - 1], key, k);
    }
  }

  /** Whatever the rows, every percentage is 0 on a day whose total is not positive. */
  lemma PercentageZeroWithoutTotal(rs: seq<ActivityRecord>, user: int, day: Day)
    ensures var s := SummarySpec(rs, user, day);
      s.totalLoggedMinutes <= 0 ==>
        forall c :: c in s.categories ==> s.categories[c].percentage == 0.0
  {
  }

  /**
   * Every percentage is 0 when the day's total is 0, and otherwise, for
   * valid rows, lies between 0 and 100.
   */
  lemma PercentageBounds(rs: seq<ActivityRecord>, user: int, day: Day)
    requires AllValid(rs)
    ensures var s := SummarySpec(rs, user, day);
      forall c :: c in s.categories ==>
        && (s.totalLoggedMinutes == 0 ==> s.categories[c].percentage == 0.0)
        && 0.0 <= s.categories[c].percentage <= 100.0
  {
    var w := Select(rs, DayQuery(user, day));
    var s := SummarySpec(rs, user, day);
    SummaryTotal(rs, user, day);
    forall c | c in s.categories
      ensures 0.0 <= s.categories[c].percentage <= 100.0
    {
      SumWhereAtMostTotal(w, CategoryOf, c);
      var m := SumWhere(w, CategoryOf, c);
      if s.totalLoggedMinutes > 0 {
        QuotientBounds(m, s.totalLoggedMinutes, 0, 1);
      }
    }
  }

  /** With valid ratings, every average mood lies between 1 and 5. */
  lemma MoodInScale(rs: seq<ActivityRecord>, user: int, day: Day)
    requires AllValid(rs)
    ensures var s := SummarySpec(rs, user, day);
      forall c :: c in s.categories && s.categories[c].averageMood.Some? ==>
        1.0 <= s.categories[c].averageMood.value <= 5.0
  {
    var w := Select(rs, DayQuery(user, day));
    var s := SummarySpec(rs, user, day);
    forall c | c in s.categories && s.categories[c].averageMood.Some?
      ensures 1.0 <= s.categories[c].averageMood.value <= 5.0
    {
      MoodSumBounds(w, c);
      QuotientBounds(MoodSum(w, c), MoodCount(w, c), 1, 5);
    }
  }
}
