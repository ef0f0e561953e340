/**
 * The activity records the tracker stores, the predefined category table
 * and the field constraints an activity must satisfy before it is stored.
 */
module Records {
  import opened Wrappers
  import Seqs

  /** A calendar date, as a day number. */
  type Day = int

  /** One row of the activities table, as the analytics read it. */
  datatype ActivityRecord = ActivityRecord(
    userId: int,
    category: string,
    durationMinutes: int,
    moodRating: Option<int>,
    activityDate: Day)

  /** The body of a request that logs an activity. */
  datatype ActivityCreate = ActivityCreate(
    category: string,
    durationMinutes: int,
    moodRating: Option<int>,
    activityDate: Option<Day>)

  /** The names of the fields a request failed validation on, in declaration order. */
  datatype ValidationError = ValidationError(fields: seq<string>)

  /** The predefined categories, in the table's order. */
  const Categories: seq<string> := [
    "Sleep",
    "Physical Activity/Exercise",
    "Nutrition/Meals",
    "Work/Productivity",
    "Personal Care/Hygiene",
    "Social/Leisure",
    "Household Chores/Maintenance",
    "Mindfulness/Mental Well-being",
    "Transportation/Commute",
    "Learning/Skill Development"
  ]

  function CategorySet(): set<string> {
    Seqs.Elements(Categories)
  }

  predicate MoodInRange(mood: Option<int>) {
    mood.None? || 1 <= mood.value <= 5
  }

  /** The invariant every stored record satisfies. */
  predicate ValidRecord(r: ActivityRecord) {
    r.durationMinutes >= 0 && MoodInRange(r.moodRating)
  }

  predicate AllValid(rs: seq<ActivityRecord>) {
    forall i :: 0 <= i < |rs| ==> ValidRecord(rs[i])
  }

  /** The predefined names differ pairwise, by length or by first letter. */
  lemma CategoriesDistinct()
    ensures Seqs.Distinct(Categories)
  {

  }

  /** The predefined table has ten distinct names. */
  lemma CategoryCount()
    ensures |CategorySet()| == 10
  {
    CategoriesDistinct();
    Seqs.DistinctCard(Categories);
  }

  /**
   * Validates a request and turns it into the record that is stored for
   * `user`; a missing date means `today`.
   */
  function NewRecord(a: ActivityCreate, user: int, today: Day): (r: Result<ActivityRecord, ValidationError>)
    ensures r.Success? <==> a.durationMinutes >= 0 && MoodInRange(a.moodRating)
    ensures r.Success? ==> ValidRecord(r.value)
    ensures r.Success? ==>
      && r.value.userId == user
      && r.value.category == a.category
      && r.value.durationMinutes == a.durationMinutes
      && r.value.moodRating == a.moodRating
      && r.value.activityDate == (if a.activityDate.Some? then a.activityDate.value else today)
    ensures r.Failure? ==>
      && ("duration_minutes" in r.error.fields <==> a.durationMinutes < 0)
      && ("mood_rating" in r.error.fields <==> !MoodInRange(a.moodRating))
    ensures r.Failure? ==>
      && |r.error.fields| <= 2
      && (forall f :: f in r.error.fields ==> f == "duration_minutes" || f == "mood_rating")
      && (a.durationMinutes < 0 ==> |r.error.fields| > 0 && r.error.fields[0] == "duration_minutes")
  {
    var errors := (if a.durationMinutes < 0 then ["duration_minutes"] else [])
      + (if MoodInRange(a.moodRating) then [] else ["mood_rating"]);
    if errors != [] then
      Failure(ValidationError(errors))
    else
      var day := match a.activityDate
        case Some(d) => d
        case None => today;
      Success(ActivityRecord(user, a.category, a.durationMinutes, a.moodRating, day))
  }
}
