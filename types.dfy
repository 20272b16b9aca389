/**
 * The records the pages work on. Optional properties are `Option`s; a `Date`
 * is represented by its `toISOString()` text, such as
 * "2010-05-17T00:00:00.000Z".
 */
module Types {
  import opened JsArray
  import opened JsString

  type Date = string

  datatype Status = Active | Inactive

  datatype EstablishmentType = University | College | School | Institute | Daara

  datatype StudentStatus = Enrolled | Graduated | Suspended

  datatype AcademicType = Course | Homework | Exam | Tp | Sourate

  datatype AcademicStatus = Draft | Published | Completed

  datatype Establishment = Establishment(
    id: string,
    name: string,
    kind: EstablishmentType,
    address: string,
    city: string,
    country: string,
    phone: string,
    email: string,
    website: Option<string>,
    responsableName: Option<string>,
    responsablePhone: Option<string>,
    studentCount: int,
    tutorCount: int,
    status: Status,
    createdAt: Date)

  datatype Tutor = Tutor(
    id: string,
    firstName: string,
    lastName: string,
    email: string,
    phone: string,
    specialization: string,
    establishmentId: string,
    establishmentName: string,
    status: Status,
    studentCount: int,
    avatar: Option<string>,
    createdAt: Date)

  datatype Student = Student(
    id: string,
    firstName: string,
    lastName: string,
    email: string,
    phone: string,
    dateOfBirth: Date,
    address: string,
    city: string,
    establishmentId: string,
    establishmentName: string,
    tutorId: Option<string>,
    tutorName: Option<string>,
    enrollmentDate: Date,
    status: StudentStatus,
    avatar: Option<string>,
    createdAt: Date)

  datatype AcademicItem = AcademicItem(
    id: string,
    title: string,
    kind: AcademicType,
    description: string,
    dueDate: Option<Date>,
    establishmentId: string,
    tutorId: string,
    status: AcademicStatus,
    createdAt: Date)

  /**
   * `date.toISOString().split('T')[0]`: the calendar day, that is everything
   * before the first 'T' (the whole text when there is none).
   */
  function IsoDay(iso: Date): (r: string)
    ensures StartsWith(iso, r)
    ensures 'T' !in r
    ensures |r| < |iso| ==> iso[|r|] == 'T'
  {
    if iso == [] || iso[0] == 'T' then []
    else
      var rest := IsoDay(iso[1..]);
      assert iso[..|rest| + 1] == [iso[0]] + iso[1..][..|rest|];
      [iso[0]] + rest
  }

  /** The day part of a timestamp "<day>T<time>" is `<day>`. */
  lemma {:induction false} IsoDayOfTimestamp(day: string, time: string)
    requires 'T' !in day
    ensures IsoDay(day + "T" + time) == day
  {
    if day != [] {
      assert (day + "T" + time)[1..] == day[1..] + "T" + time;
      IsoDayOfTimestamp(day[1..], time);
    }
  }

  /** `value || fallback` on strings: the empty string is falsy. */
  function OrElse(value: string, fallback: string): (r: string)
    ensures value != "" ==> r == value
    ensures value == "" ==> r == fallback
    ensures r == value || r == fallback
    ensures r == "" <==> value == "" && fallback == ""
  {
    if value != "" then value else fallback
  }
}
