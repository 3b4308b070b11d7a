/**
 * The child's data form of the registration page: a record edited one field at
 * a time, the year and month tables of the birthdate picker, and the fixed
 * option lists of the radio groups.
 */
module DataForm {

  /** A calendar date as the date picker hands it over; month is 0-based as in JavaScript. */
  datatype Date = Date(year: int, month: int, day: int)

  datatype FormData = FormData(
    nickname: string,
    birthdate: Date,
    hasBirthdate: bool,
    location: string,
    gender: string,
    school: string,
    grade: string,
    days: int,
    dailyCount: int,
    firstDashboardToday: bool)

  /** The record the registration page starts from: everything empty, one day, no answers yet. */
  const InitialFormData: FormData :=
    FormData("", Date(0, 0, 0), false, "", "", "", "", 1, 0, true)

  const GenderOptions: seq<string> := ["male", "female", "preferNot"]
  const LocationOptions: seq<string> := ["Főváros", "Megyeszékhely", "Város", "Falu"]
  const SchoolOptions: seq<string> := ["Iskola", "Óvoda"]

  /** The value of the school option after which the grade is asked. */
  const SchoolChild: string := "Iskola"

  const Months: seq<string> := [
    "Január", "Február", "Március", "Április", "Május", "Június",
    "Július", "Augusztus", "Szeptember", "Október", "November", "December"
  ]

  /** years: the year dropdown, from 1900 to the current year (empty when the current year is earlier). */
  function Years(currentYear: int): (r: seq<int>)
    ensures |r| == if currentYear >= 1900 then currentYear - 1900 + 1 else 0
    ensures forall i :: 0 <= i < |r| ==> r[i] == 1900 + i
  {
    var n := if currentYear >= 1900 then currentYear - 1900 + 1 else 0;
    seq(n, i => 1900 + i)
  }

  /** The year list is contiguous, ascending, and runs exactly from 1900 to the current year. */
  lemma YearsRange(currentYear: int)
    requires currentYear >= 1900
    ensures var r := Years(currentYear);
      r[0] == 1900 && r[|r| - 1] == currentYear
      && (forall i :: 0 <= i < |r| - 1 ==> r[i + 1] == r[i] + 1)
      && (forall y :: y in r <==> 1900 <= y <= currentYear)
  {
    var r := Years(currentYear);
    forall y | 1900 <= y <= currentYear
      ensures y in r
    {
      assert r[y - 1900] == y;
    }
  }

  /** months.indexOf: the position of the first equal name, -1 when there is none. */
  function IndexOf(names: seq<string>, name: string): (r: int)
    ensures -1 <= r < |names|
    ensures r >= 0 ==> names[r] == name && forall j :: 0 <= j < r ==> names[j] != name
    ensures r == -1 <==> name !in names
  {
    if names == [] then -1
    else if names[0] == name then 0
    else
      var k := IndexOf(names[1..], name);
      if k == -1 then -1 else k + 1
  }

  /** The month dropdown round-trips: the name shown for month m selects month m again. */
  lemma MonthRoundTrip(m: nat)
    requires m < 12
    ensures IndexOf(Months, Months[m]) == m
  {
    MonthsDistinct();
  }

  /** No two month names are equal: their second and third letters already tell them apart. */
  lemma MonthsDistinct()
    ensures forall i, j :: 0 <= i < j < |Months| ==> Months[i] != Months[j]
  {
    var keys := [('a', 'n'), ('e', 'b'), ('á', 'r'), ('p', 'r'), ('á', 'j'), ('ú', 'n'),
                 ('ú', 'l'), ('u', 'g'), ('z', 'e'), ('k', 't'), ('o', 'v'), ('e', 'c')];
    assert forall i :: 0 <= i < |Months| ==> |Months[i]| > 2 && (Months[i][1], Months[i][2]) == keys[i];
    assert forall i, j :: 0 <= i < j < |keys| ==> keys[i] != keys[j];
  }

  /** One input of the form. */
  datatype Input =
    | SetNickname(nickname: string)
    | SetGender(gender: string)
    | SetBirthdate(date: Date)
    | ClearBirthdate
    | SetLocation(location: string)
    | SetSchool(school: string)
    | SetGrade(grade: string)

  datatype Field = Nickname | Birthdate | Location | Gender | School | Grade | Days | DailyCount | FirstDashboardToday

  /** The fields in which two records differ. */
  function Changed(a: FormData, b: FormData): set<Field> {
    (if a.nickname != b.nickname then {Nickname} else {})
    + (if a.birthdate != b.birthdate || a.hasBirthdate != b.hasBirthdate then {Birthdate} else {})
    + (if a.location != b.location then {Location} else {})
    + (if a.gender != b.gender then {Gender} else {})
    + (if a.school != b.school then {School} else {})
    + (if a.grade != b.grade then {Grade} else {})
    + (if a.days != b.days then {Days} else {})
    + (if a.dailyCount != b.dailyCount then {DailyCount} else {})
    + (if a.firstDashboardToday != b.firstDashboardToday then {FirstDashboardToday} else {})
  }

  /** The field an input edits. */
  function Target(input: Input): Field {
    match input
    case SetNickname(_) => Nickname
    case SetGender(_) => Gender
    case SetBirthdate(_) => Birthdate
    case ClearBirthdate => Birthdate
    case SetLocation(_) => Location
    case SetSchool(_) => School
    case SetGrade(_) => Grade
  }

  /** The record after one input: only the edited field can differ, and it holds the new value. */
  function Apply(d: FormData, input: Input): (r: FormData)
    ensures Changed(d, r) <= {Target(input)}
    ensures input.SetNickname? ==> r.nickname == input.nickname
    ensures input.SetGender? ==> r.gender == input.gender
    ensures input.SetBirthdate? ==> r.hasBirthdate && r.birthdate == input.date
    ensures input.ClearBirthdate? ==> !r.hasBirthdate
    ensures input.SetLocation? ==> r.location == input.location
    ensures input.SetSchool? ==> r.school == input.school
    ensures input.SetGrade? ==> r.grade == input.grade
  {
    match input
    case SetNickname(v) => d.(nickname := v)
    case SetGender(v) => d.(gender := v)
    case SetBirthdate(v) => d.(birthdate := v, hasBirthdate := true)
    case ClearBirthdate => d.(hasBirthdate := false)
    case SetLocation(v) => d.(location := v)
    case SetSchool(v) => d.(school := v)
    case SetGrade(v) => d.(grade := v)
  }

  /** The grade input is on screen only for a school child. */
  predicate GradeShown(d: FormData) {
    d.school == SchoolChild
  }

  /**
   * Switching the school hides or shows the grade input without clearing it:
   * going back to school shows the grade typed before.
   */
  lemma SchoolSwitchKeepsGrade(d: FormData, other: string)
    requires GradeShown(d) && other != SchoolChild
    ensures !GradeShown(Apply(d, SetSchool(other)))
    ensures var back := Apply(Apply(d, SetSchool(other)), SetSchool(SchoolChild));
      GradeShown(back) && back.grade == d.grade && back == d
  {
  }

  class Form {
    var formData: FormData
    /** What the registration page last received through onFormDataChange. */
    var parentData: FormData

    /** The parent is told the initial record when the form mounts. */
    constructor (initial: FormData)
      ensures formData == initial && parentData == initial
    {
      formData := initial;
      parentData := initial;
    }

    /** An input handler followed by the effect that pushes the record to the parent. */
    method OnInput(input: Input)
      modifies this
      ensures formData == Apply(old(formData), input)
      ensures parentData == formData
    {
      match input {
      case SetNickname(v) => formData := formData.(nickname := v);
      case SetGender(v) => formData := formData.(gender := v);
      case SetBirthdate(v) => formData := formData.(birthdate := v, hasBirthdate := true);
      case ClearBirthdate => formData := formData.(hasBirthdate := false);
      case SetLocation(v) => formData := formData.(location := v);
      case SetSchool(v) => formData := formData.(school := v);
      case SetGrade(v) => formData := formData.(grade := v);
      }
      parentData := formData;
    }
  }
}
