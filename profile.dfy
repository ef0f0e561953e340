/**
 * The profile update endpoint's query builder: the optional inputs that are
 * present become `column = %s` assignments, in a fixed column order, with
 * their values, followed by the user id for the WHERE clause.
 */
module Profile {
  import opened Wrappers

  /** The body of PUT /auth/profile; every field is optional. */
  datatype UserUpdate = UserUpdate(
    name: Option<string>,
    age: Option<int>,
    gender: Option<string>,
    email: Option<string>)

  /** The columns an update may set, in the order the builder considers them. */
  datatype Column = Name | Age | Gender | Email

  function Ordinal(c: Column): nat {
    match c
    case Name => 0
    case Age => 1
    case Gender => 2
    case Email => 3
  }

  function ColumnName(c: Column): string {
    match c
    case Name => "name"
    case Age => "age"
    case Gender => "gender"
    case Email => "email"
  }

  /** The SET clause entry for a column. */
  function Assignment(c: Column): string {
    ColumnName(c) + " = %s"
  }

  /** A query parameter. */
  datatype SqlValue = Text(text: string) | Number(number: int)

  datatype HttpError = HttpError(status: int, detail: string)

  /** The built update: the columns set, in order, and the query parameters. */
  datatype ProfileUpdate = ProfileUpdate(columns: seq<Column>, values: seq<SqlValue>) {
    /** The `update_fields` list: one `column = %s` per column. */
    function Fields(): (fs: seq<string>)
      ensures |fs| == |columns|
      ensures forall i :: 0 <= i < |fs| ==> fs[i] == Assignment(columns[i])
    {
      seq(|columns|, i requires 0 <= i < |columns| => Assignment(columns[i]))
    }
  }

  /** Whether the request supplies a value for column `c`. */
  predicate Given(u: UserUpdate, c: Column) {
    match c
    case Name => u.name.Some?
    case Age => u.age.Some?
    case Gender => u.gender.Some?
    case Email => u.email.Some?
  }

  /** The value the request supplies for column `c`. */
  function ValueOf(u: UserUpdate, c: Column): SqlValue
    requires Given(u, c)
  {
    match c
    case Name => Text(u.name.value)
    case Age => Number(u.age.value)
    case Gender => Text(u.gender.value)
    case Email => Text(u.email.value)
  }

  predicate NothingGiven(u: UserUpdate) {
    u.name.None? && u.age.None? && u.gender.None? && u.email.None?
  }

  const EmailExists := HttpError(400, "Email already exists")
  const NoFields := HttpError(400, "No fields to update")

  /**
   * The lists after the builder has considered the columns before `k`:
   * exactly the given ones among them, in column order, each with its value.
   */
  predicate Built(u: UserUpdate, columns: seq<Column>, values: seq<SqlValue>, k: nat) {
    && |values| == |columns|
    && (forall c :: c in columns <==> Given(u, c) && Ordinal(c) < k)
    && (forall i, j :: 0 <= i < j < |columns| ==> Ordinal(columns[i]) < Ordinal(columns[j]))
    && (forall i :: 0 <= i < |columns| ==> Given(u, columns[i]) && values[i] == ValueOf(u, columns[i]))
  }

  /**
   * What a successful update holds: exactly the given columns, in column
   * order, each with the value supplied, followed by the user id.
   */
  predicate Describes(u: UserUpdate, userId: int, p: ProfileUpdate) {
    && (forall c :: c in p.columns <==> Given(u, c))
    && (forall i, j :: 0 <= i < j < |p.columns| ==> Ordinal(p.columns[i]) < Ordinal(p.columns[j]))
    && |p.values| == |p.columns| + 1
    && (forall i :: 0 <= i < |p.columns| ==> Given(u, p.columns[i]) && p.values[i] == ValueOf(u, p.columns[i]))
    && p.values[|p.columns|] == Number(userId)
  }

  /** Once every column has been considered, the lists hold exactly the given columns. */
  lemma Complete(u: UserUpdate, columns: seq<Column>, values: seq<SqlValue>)
    requires Built(u, columns, values, 4)
    ensures forall c :: c in columns <==> Given(u, c)
    ensures columns == [] <==> NothingGiven(u)
  {
    forall c ensures Ordinal(c) < 4 { }
    if columns != [] {
      assert columns[0] in columns;
    } else {
      assert Name !in columns && Age !in columns && Gender !in columns && Email !in columns;
    }
  }

  /** The finished update: the built lists, then the user id for the WHERE clause. */
  lemma Finish(u: UserUpdate, columns: seq<Column>, values: seq<SqlValue>, userId: int)
    requires Built(u, columns, values, 4)
    ensures Describes(u, userId, ProfileUpdate(columns, values + [Number(userId)]))
  {

  }

  /** The column `c` if the request gives it, else nothing. */
  function Pick(u: UserUpdate, c: Column): seq<Column> {
    if Given(u, c) then [c] else []
  }

  /** The value of column `c` if the request gives it, else nothing. */
  function PickValue(u: UserUpdate, c: Column): seq<SqlValue> {
    if Given(u, c) then [ValueOf(u, c)] else []
  }

  /** Considering column `c` appends its pick to both lists. */
  lemma ExtendPick(u: UserUpdate, columns: seq<Column>, values: seq<SqlValue>, c: Column)
    requires Built(u, columns, values, Ordinal(c))
    ensures Built(u, columns + Pick(u, c), values + PickValue(u, c), Ordinal(c) + 1)
  {

  }

  /** The given columns and their values, consolidated over all four columns. */
  lemma AllPicks(u: UserUpdate, userId: int)
    ensures var columns := Pick(u, Name) + Pick(u, Age) + Pick(u, Gender) + Pick(u, Email);
      && (columns == [] <==> NothingGiven(u))
      && Describes(u, userId, ProfileUpdate(columns,
           PickValue(u, Name) + PickValue(u, Age) + PickValue(u, Gender) + PickValue(u, Email) + [Number(userId)]))
  {
    var c0: seq<Column>, v0: seq<SqlValue> := [], [];
    assert Built(u, c0, v0, 0);
    ExtendPick(u, c0, v0, Name);
    assert c0 + Pick(u, Name) == Pick(u, Name) && v0 + PickValue(u, Name) == PickValue(u, Name);
    var c1, v1 := Pick(u, Name), PickValue(u, Name);
    ExtendPick(u, c1, v1, Age);
    var c2, v2 := c1 + Pick(u, Age), v1 + PickValue(u, Age);
    ExtendPick(u, c2, v2, Gender);
    var c3, v3 := c2 + Pick(u, Gender), v2 + PickValue(u, Gender);
    ExtendPick(u, c3, v3, Email);
    var c4, v4 := c3 + Pick(u, Email), v3 + PickValue(u, Email);
    Complete(u, c4, v4);
    Finish(u, c4, v4, userId);
  }

  /**
   * Builds the field and value lists of the update. `emailTakenByOther` is
   * whether another user already has the requested email.
   */
  method BuildProfileUpdate(u: UserUpdate, userId: int, emailTakenByOther: bool)
    returns (r: Result<ProfileUpdate, HttpError>)
    ensures u.email.Some? && emailTakenByOther ==> r == Failure(EmailExists)
    ensures !(u.email.Some? && emailTakenByOther) && NothingGiven(u) ==> r == Failure(NoFields)
    ensures r.Success? <==> !(u.email.Some? && emailTakenByOther) && !NothingGiven(u)
    ensures r.Success? ==> Describes(u, userId, r.value)
  {
    var columns: seq<Column> := [];
    var values: seq<SqlValue> := [];
    if u.name.Some? {
      columns := columns + [Name];
      values := values + [Text(u.name.value)];
    }
    assert columns == Pick(u, Name) && values == PickValue(u, Name);
    if u.age.Some? {
      columns := columns + [Age];
      values := values + [Number(u.age.value)];
    }
    assert columns == Pick(u, Name) + Pick(u, Age);
    assert values == PickValue(u, Name) + PickValue(u, Age);
    if u.gender.Some? {
      columns := columns + [Gender];
      values := values + [Text(u.gender.value)];
    }
    assert columns == Pick(u, Name) + Pick(u, Age) + Pick(u, Gender);
    assert values == PickValue(u, Name) + PickValue(u, Age) + PickValue(u, Gender);
    if u.email.Some? {
      if emailTakenByOther {
        return Failure(EmailExists);
      }
      columns := columns + [Email];
      values := values + [Text(u.email.value)];
    }
    assert columns == Pick(u, Name) + Pick(u, Age) + Pick(u, Gender) + Pick(u, Email);
    assert values == PickValue(u, Name) + PickValue(u, Age) + PickValue(u, Gender) + PickValue(u, Email);
    AllPicks(u, userId);
    if columns == [] {
      return Failure(NoFields);
    }
    values := values + [Number(userId)];
    r := Success(ProfileUpdate(columns, values));
  }

  /** ', '.join(parts). */
  function Join(parts: seq<string>, sep: string): string {
    if |parts| == 0 then ""
    else if |parts| == 1 then parts[0]
    else parts[0] + sep + Join(parts[1..], sep)
  }

  /** The UPDATE statement the builder's lists are executed with. */
  function UpdateQuery(p: ProfileUpdate): string {
    "UPDATE users SET " + Join(p.Fields(), ", ") + " WHERE id = %s"
  }

  /** How often `ch` occurs in `s`. */
  function Occurrences(ch: char, s: string): nat {
    if s == [] then 0 else Occurrences(ch, s[..|s| - 1]) + (if s[|s| - 1] == ch then 1 else 0)
  }

  lemma {:induction false} OccurrencesConcat(ch: char, a: string, b: string)
    ensures Occurrences(ch, a + b) == Occurrences(ch, a) + Occurrences(ch, b)
  {
    if b == [] {
      assert a + b == a;
    } else {
      var ab := a + b;
      assert ab[..|ab| - 1] == a + b[..|b| - 1];
      assert ab[|ab| - 1] == b[|b| - 1];
      OccurrencesConcat(ch, a, b[..|b| - 1]);
    }
  }

  lemma {:induction false} NoPercent(s: string)
    requires forall i :: 0 <= i < |s| ==> s[i] != '%'
    ensures Occurrences('%', s) == 0
  {
    if s != [] {
      NoPercent(s[..|s| - 1]);
    }
  }

  lemma PlaceholderOnce()
    ensures Occurrences('%', "%s") == 1
  {

  }

  lemma AssignmentHasOnePlaceholder(c: Column)
    ensures Occurrences('%', Assignment(c)) == 1
  {
    var lhs := ColumnName(c) + " = ";
    assert Assignment(c) == lhs + "%s";
    NoPercent(lhs);
    PlaceholderOnce();
    OccurrencesConcat('%', lhs, "%s");
  }

  lemma {:induction false} JoinOccurrences(ch: char, parts: seq<string>, sep: string)
    requires forall i :: 0 <= i < |parts| ==> Occurrences(ch, parts[i]) == 1
    requires Occurrences(ch, sep) == 0
    ensures Occurrences(ch, Join(parts, sep)) == |parts|
  {
    if |parts| > 1 {
      JoinOccurrences(ch, parts[1..], sep);
      OccurrencesConcat(ch, parts[0] + sep, Join(parts[1..], sep));
      OccurrencesConcat(ch, parts[0], sep);
    }
  }

  /**
   * The statement has one `%s` placeholder per assigned column plus one for
   * the id, so it takes exactly as many parameters as the builder supplies.
   */
  lemma QueryPlaceholders(p: ProfileUpdate)
    requires |p.values| == |p.columns| + 1
    ensures Occurrences('%', UpdateQuery(p)) == |p.values|
  {
    var joined := Join(p.Fields(), ", ");
    FieldsPlaceholders(p);
    NoPercent("UPDATE users SET ");
    WherePlaceholder();
    OccurrencesConcat('%', "UPDATE users SET ", joined);
    OccurrencesConcat('%', "UPDATE users SET " + joined, " WHERE id = %s");
  }

  lemma FieldsPlaceholders(p: ProfileUpdate)
    ensures Occurrences('%', Join(p.Fields(), ", ")) == |p.columns|
  {
    var fs := p.Fields();
    forall i | 0 <= i < |fs| ensures Occurrences('%', fs[i]) == 1 {
      AssignmentHasOnePlaceholder(p.columns[i]);
    }
    NoPercent(", ");
    JoinOccurrences('%', fs, ", ");
  }

  lemma WherePlaceholder()
    ensures Occurrences('%', " WHERE id = %s") == 1
  {
    var lhs := " WHERE id = ";
    NoPercent(lhs);
    PlaceholderOnce();
    OccurrencesConcat('%', lhs, "%s");
    assert " WHERE id = %s" == lhs + "%s";
  }
}
