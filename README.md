# Daily tracker analytics, modelled in Dafny

The daily tracker is a REST backend for logging activities per category
(sleep, exercise, meals, ...), one row per activity with a duration, an
optional 1-5 mood rating and the calendar date it belongs to. Almost all of
it passes SQL straight to the database. This project models the part that
computes something, in the MySQL version of `main.py`:

- the trends endpoint (`get_trends`). For each of the ten predefined
  categories it computes the average daily total over the days with records
  dated on or after today-30 and on or after today-7 (a lower bound only,
  so 31 and 8 calendar days up to today plus any later dates), the current
  streak of consecutive logged days ending today, and the daily totals of
  the days on or after today-7;
- the daily summary endpoint (`get_daily_summary`). It gives per-category
  totals for one date, zero entries for predefined categories nobody logged,
  the overall total and a completion percentage;
- the field and value lists that the profile update endpoint
  (`update_user_profile`) builds from its optional inputs;
- the predefined `CATEGORIES` table and the field constraints of a new
  activity (`ActivityCreate`, with the default date `create_activity` gives it).

The database is a sequence of `ActivityRecord` rows. Each SQL statement the
analytics run is a function over that sequence (module `ActivityLog`):

- `Select` is the WHERE filter;
- `SumWhere` and `CountWhere` are SUM and COUNT per group;
- `AscendingDates` and `DescendingDates` are the sorted distinct dates that
  GROUP BY / DISTINCT with ORDER BY return;
- `DailyTotals` is the per-date total query.

Dates are integer day numbers. "Today" is a parameter. Averages,
percentages and mood averages are exact `real` quotients.

Modules, one per component: `Records` (rows, categories, validation),
`ActivityLog` (the queries), `Trends`, `Summary`, `Profile`, plus `Wrappers`
(Option/Result) and `Seqs` (facts about sequences).

Imperative parts of the source are methods with loops, proved against
specification functions:

- `Trends.StreakWalk` is the streak loop with its `break`;
- `Trends.GetTrends` appends one trend per category;
- `Summary.GetDailySummary` fills the category dict in two loops; the
  second loop is `Summary.AddMissing`;
- `Profile.BuildProfileUpdate` appends fields and values step by step.

Three behaviours of the code are easy to misread:

- The streak walks the descending list of distinct dates and stops at the
  first entry that is not the expected day. A record dated after today
  therefore heads the list, and the streak is 0 even when today and the days
  before have records (`Trends.StreakZeroAfterFutureDate`). The walk equals
  "count backwards while the day has a record" only when no date lies after
  today (`Trends.StreakIsCalendarRun`).
- Categories are never checked against the predefined table. An unknown
  category raises no error. It appears in the summary, and it can push
  completion above 100 (`Summary.CompletionAboveHundred`).
- The average windows have a lower bound only. Future-dated records count.

## Model

| member | source | states |
|---|---|---|
| `Records.NewRecord` | main.py:132-138 | a request is accepted exactly when its duration is non-negative and its mood is absent or in 1..5; a rejection names each failing field and no other, the duration before the mood; an accepted request becomes a valid record of that user with the given fields, dated today when no date is given |
| `Records.CategoryCount` | main.py:164-175 | the predefined table has exactly ten distinct category names |
| `ActivityLog.Select` | main.py:753-758 | the selected rows are exactly the rows that satisfy the WHERE clause, each kept as many times as the table holds it (so SUM and COUNT see duplicate rows), and they stay valid when the table is valid |
| `ActivityLog.AscendingDates` | main.py:797-802 | the dates returned are strictly ascending, and they are exactly the dates that occur among the rows |
| `ActivityLog.DescendingDates` | main.py:779-785 | the streak query's dates are strictly descending, and they are exactly the dates that occur among the rows |
| `ActivityLog.GroupTotals` | main.py:695-709 | grouping loses nothing: over distinct keys covering every row, the group totals add up to the total of all rows |
| `ActivityLog.DailyTotalsShape` | main.py:797-811 | there is one data point per distinct matching date, in strictly ascending date order, and each carries the sum of the durations on its date |
| `ActivityLog.DailyTotalsDates` | main.py:797-811 | a date has a data point if and only if some matching row falls on it, so days without records are absent, not zero-filled |
| `ActivityLog.DailyTotalsSum` | main.py:753-758 | the daily totals add up to the total duration of the matching rows |
| `Trends.Streak` | main.py:787-794 | the streak is at most the number of dates; the first `streak` dates are today, today-1, ...; the next date, if any, breaks the pattern |
| `Trends.StreakUnique` | main.py:787-794 | those three facts determine the streak: the longest matching prefix |
| `Trends.StreakWalk` | main.py:787-794 | the loop that stops at the first mismatch returns exactly the streak |
| `Trends.StreakZeroWithoutToday` | main.py:787-794 | when today has no record the streak is 0 |
| `Trends.StreakZeroAfterFutureDate` | main.py:779-794 | when the descending list holds a date after today the streak is 0 |
| `Trends.StreakIsCalendarRun` | main.py:779-794 | with no date after today, every day of the last `streak` days has a record and the day before them has none |
| `Trends.StreakUncapped` | main.py:787-794 | an unbroken run of n days, of any length, gives streak n; the walk has no cap |
| `Trends.StreakExample` | main.py:787-794 | records on today, today-1, today-2 followed by a gap give streak 3 |
| `Trends.Mean` | main.py:763 | the average of no daily totals is 0 |
| `Trends.MeanWithin` | main.py:752-776 | an average of daily totals that all lie between lo and hi also lies between lo and hi |
| `Trends.MeanBetweenExtremes` | main.py:752-776 | a windowed average lies between the smallest and the largest daily total of its window |
| `Trends.MeanOverActiveDays` | main.py:752-776 | the windowed average is the window's total minutes divided by the number of distinct days with records, and 0 when there is no such day; it never divides by the window length |
| `Trends.MeanNonNegative` | main.py:752-776 | with valid records the averages are never negative |
| `Trends.MaxMinutes` | main.py:752-776 | the largest daily total bounds every total and is one of them |
| `Trends.MinMinutes` | main.py:752-776 | the smallest daily total is below every total and is one of them |
| `Trends.TrendFor` | main.py:749-819 | the trend carries its category, and its weekly average is the average of its own data points |
| `Trends.NoActivityTrend` | main.py:752-811 | a category the user never logged gets weekly and monthly average 0, streak 0 and no data points |
| `Trends.WeeklyAverageExample` | main.py:765-776 | daily totals of 30 and 60 minutes on two days of the last week average 45, not 90/7 |
| `Trends.CategoryTrend` | main.py:751-819 | the loop body's four queries and streak walk produce exactly that category's trend figures |
| `Trends.GetTrends` | main.py:739-821 | one trend per predefined category, in table order, each equal to that category's trend figures |
| `Summary.CategoriesOf` | main.py:696-703 | the GROUP BY category keys are distinct and are exactly the categories logged |
| `Summary.MoodSumBounds` | main.py:136 | valid ratings make the rating sum lie between the rating count and five times it |
| `Summary.RowOfEmpty` | main.py:720-728 | a category with no rows on the day gets duration 0, entry count 0, no mood and percentage 0 |
| `Summary.AddMissing` | main.py:720-728 | the second loop adds every missing name with the zero entry and keeps the existing entries unchanged |
| `Summary.GetDailySummary` | main.py:692-737 | the two loops build exactly the summary that the specification function gives |
| `Summary.SummaryTotal` | main.py:709 | the total logged minutes are the sum of every duration the user logged on that date |
| `Summary.SummaryEntries` | main.py:709-728 | the map holds every predefined and every logged category; each entry's duration and count are that category's SUM and COUNT; an unlogged predefined category gets the zero entry |
| `Summary.CompletionCountsPositive` | main.py:730 | completion is 10 times the number of logged categories, predefined or not, whose total is positive |
| `Summary.CompletionAtMostHundred` | main.py:730 | when every category logged that day is predefined, completion is at most 100 |
| `Summary.CompletionAboveHundred` | main.py:730 | more than ten categories with positive totals make completion exceed 100 |
| `Summary.PercentageZeroWithoutTotal` | main.py:717 | for any rows, every percentage is 0 when the day's total is not positive |
| `Summary.PercentageBounds` | main.py:717 | with valid records every percentage is 0 when the day's total is 0 and otherwise lies in 0..100 |
| `Summary.MoodInScale` | main.py:716 | with valid ratings every average mood lies between 1 and 5 |
| `Profile.BuildProfileUpdate` | main.py:311-349 | an email held by another user gives the 400 "Email already exists" error; otherwise an update with no given field gives the 400 "No fields to update" error; otherwise the fields are exactly the given columns, in the order name, age, gender, email, with their values, followed by the user id |
| `Profile.QueryPlaceholders` | main.py:346-351 | the UPDATE statement has one placeholder per assigned column plus one for the id, as many as the values passed with it; placeholders are counted by their `%` marks, since each `%s` has one and the column names and fixed text have none |

## Left out

- HTTP routing, CORS, authentication dependencies and server startup are not modelled; they are plumbing around the computation.
- Database connection, cursors, commits, table creation and the `rowcount` 404 check are left out. The database is a sequence of rows, and the queries are functions over it.
- Password hashing (SHA-256) and JWT token creation and checking are calls into foreign libraries. The user id is a parameter.
- Floating point and `round(..., 1)` are not modelled. Averages, percentages, mood averages and completion are exact reals.
- `date.today()` and string date conversion (`strftime`, `strptime`) are left out. Dates are day numbers and today is a parameter, so a malformed date string in the summary URL has no counterpart.
- The "Email already exists" SELECT in the profile update is a boolean parameter of `Profile.BuildProfileUpdate`.
- The icon and colour metadata of `CATEGORIES` is display data only. The model keeps the names.
- `/auth/stats`, the activity CRUD endpoints and the other profile and password endpoints pass SQL straight through, so they are not modelled.
- The second MySQL copy of the service (main.py:1314-2138) repeats the modelled code, and the two SQLite copies (main.py:827-1312, 2140-2636) repeat the summary and trends endpoints, with no profile update; none of them is modelled. `db.py` only sets up a SQLAlchemy engine and session and holds no logic.
- The row order of GROUP BY category is left to the database. The model takes first-appearance order, which does not change the resulting map.
- A JSON round trip of the trend result is left out, because serialisation is part of the HTTP layer.
- `ActivityLog.Select`: categories are compared as exact strings, in `Select`'s `category = %s` filter and in `Summary.CategoriesOf`'s GROUP BY. The `category VARCHAR(255)` column (main.py:73) and the database (main.py:54) declare no collation, so MySQL's default case- and accent-insensitive collation applies, and "Sleep" and "sleep" form one group there but two in the model. MySQL collations are not modelled; the model's results agree with the code when category names differ in more than case and accents. The 255-character column limit is not modelled either.
- `Records.NewRecord`: accepts any non-negative duration. The `duration_minutes INT` column (main.py:74) holds at most 2147483647, and a larger value makes the INSERT fail with a 500 response. The column width is a property of the database, which the model leaves out.
- `Records.NewRecord`: the notes and photo URL fields have no constraints, so they are not carried.
