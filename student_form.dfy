/**
 * The create/edit form for a student. Its `formData` record is updated by
 * the input handlers, by the establishment select (which also clears the
 * tutor) and by the effect that fills in the generated e-mail.
 */
module StudentForm {
  import opened JsArray
  import opened JsString
  import opened Normalization
  import opened Types
  import opened Forms
  import Students

  datatype FormData = FormData(
    firstName: string,
    lastName: string,
    email: string,
    phone: string,
    dateOfBirth: string,
    address: string,
    city: string,
    establishmentId: string,
    tutorId: string,
    status: StudentStatus)

  /** The free-text inputs of the form (the e-mail input is read-only). */
  datatype TextField = FirstName | LastName | Phone | Address | City

  function Text(f: FormData, field: TextField): string {
    match field
    case FirstName => f.firstName
    case LastName => f.lastName
    case Phone => f.phone
    case Address => f.address
    case City => f.city
  }

  /**
   * `setFormData({ ...formData, <field>: value })`: the field takes the
   * value and every other property keeps its own.
   */
  function WithText(f: FormData, field: TextField, value: string): (r: FormData)
    ensures Text(r, field) == value
    ensures forall g :: g != field ==> Text(r, g) == Text(f, g)
    ensures r.email == f.email && r.dateOfBirth == f.dateOfBirth && r.status == f.status
    ensures r.establishmentId == f.establishmentId && r.tutorId == f.tutorId
  {
    match field
    case FirstName => f.(firstName := value)
    case LastName => f.(lastName := value)
    case Phone => f.(phone := value)
    case Address => f.(address := value)
    case City => f.(city := value)
  }

  /** `mockStudents.find(s => s.id === id)` when a route id is present. */
  function ExistingStudent(students: seq<Student>, id: Option<string>): (r: Option<Student>)
    ensures r.Some? ==> IsEdit(id) && r.value in students && r.value.id == id.value
    ensures IsEdit(id) && (exists k | 0 <= k < |students| :: students[k].id == id.value) ==> r.Some?
    ensures IsEdit(id) ==> forall k | 0 <= k < |students| && students[k].id == id.value && (forall j | 0 <= j < k :: students[j].id != id.value) :: r == Some(students[k])
  {
    if IsEdit(id) then Find(students, (s: Student) => s.id == id.value) else None
  }

  /**
   * The initial `formData`: the existing student's values, or "" for a new
   * one; the status defaults to enrolled and the birth date is shown as its
   * ISO day.
   */
  function InitialForm(existing: Option<Student>): (f: FormData)
    ensures existing.None? ==> f == FormData("", "", "", "", "", "", "", "", "", Enrolled)
    ensures existing.Some? ==>
      var s := existing.value;
      f.firstName == s.firstName && f.lastName == s.lastName && f.email == s.email
      && f.phone == s.phone && f.address == s.address && f.city == s.city
      && f.establishmentId == s.establishmentId && f.tutorId == s.tutorId.GetOr("")
      && f.dateOfBirth == IsoDay(s.dateOfBirth) && f.status == s.status
  {
    match existing
    case None => FormData("", "", "", "", "", "", "", "", "", Enrolled)
    case Some(s) =>
      FormData(s.firstName, s.lastName, s.email, s.phone, IsoDay(s.dateOfBirth), s.address, s.city,
               s.establishmentId, s.tutorId.GetOr(""), s.status)
  }

  /** `mockEstablishments.find(e => e.id === estId)`. */
  function FindEstablishment(establishments: seq<Establishment>, estId: string): (r: Option<Establishment>)
    ensures r.None? <==> forall k | 0 <= k < |establishments| :: establishments[k].id != estId
    ensures r.Some? ==> r.value in establishments && r.value.id == estId
    ensures forall k | 0 <= k < |establishments| && establishments[k].id == estId && (forall j | 0 <= j < k :: establishments[j].id != estId) :: r == Some(establishments[k])
  {
    Find(establishments, (e: Establishment) => e.id == estId)
  }

  /**
   * The form's own `generateEmail`: "" when no establishment has the id,
   * otherwise the same `first.last@daara` address as on the list page (the
   * form repeats the same `normalize`), built from the establishment's name.
   */
  function GenerateEmail(firstName: string, lastName: string, estId: string, establishments: seq<Establishment>): (r: string)
    ensures r == "" <==> forall k | 0 <= k < |establishments| :: establishments[k].id != estId
    ensures r != "" ==> exists k | 0 <= k < |establishments| ::
      (establishments[k].id == estId && r == Students.GenerateEmail(firstName, lastName, establishments[k].name))
    ensures forall k | 0 <= k < |establishments| && establishments[k].id == estId && (forall j | 0 <= j < k :: establishments[j].id != estId) ::
      r == Students.GenerateEmail(firstName, lastName, establishments[k].name)
  {
    match FindEstablishment(establishments, estId)
    case None => ""
    case Some(est) => Students.GenerateEmail(firstName, lastName, est.name)
  }

  /** The guard of the e-mail effect: first name, last name and establishment all filled in. */
  predicate EmailInputsFilled(f: FormData) {
    f.firstName != "" && f.lastName != "" && f.establishmentId != ""
  }

  /**
   * The e-mail effect: when the guard holds, the e-mail is rewritten from the
   * other fields (in edit mode too); otherwise nothing changes. Only the
   * e-mail is ever touched.
   */
  function EmailEffect(f: FormData, establishments: seq<Establishment>): (r: FormData)
    ensures r == f.(email := r.email)
    ensures !EmailInputsFilled(f) ==> r == f
    ensures EmailInputsFilled(f) ==> r.email == GenerateEmail(f.firstName, f.lastName, f.establishmentId, establishments)
  {
    if EmailInputsFilled(f) then f.(email := GenerateEmail(f.firstName, f.lastName, f.establishmentId, establishments))
    else f
  }

  /** Running the effect again changes nothing: its output is a state it leaves alone. */
  lemma EmailEffectIdempotent(f: FormData, establishments: seq<Establishment>)
    ensures EmailEffect(EmailEffect(f, establishments), establishments) == EmailEffect(f, establishments)
  {
  }

  /**
   * Editing a field the effect does not depend on, in a form the effect has
   * already settled, needs no new run of the effect: running it after every
   * update is the same as running it when its dependencies change.
   */
  lemma EffectSettledAfterOtherEdit(f: FormData, field: TextField, value: string, establishments: seq<Establishment>)
    requires EmailEffect(f, establishments) == f
    requires field != FirstName && field != LastName
    ensures EmailEffect(WithText(f, field, value), establishments) == WithText(f, field, value)
  {
  }

  /** The submit guard: first name, last name and establishment are required; nothing else is. */
  function Submit(f: FormData, isEdit: bool): (r: SubmitResult)
    ensures r.MissingRequired? <==> f.firstName == "" || f.lastName == "" || f.establishmentId == ""
    ensures r.Saved? ==> r.isEdit == isEdit
  {
    var required := [f.firstName, f.lastName, f.establishmentId];
    assert required[0] == f.firstName && required[1] == f.lastName && required[2] == f.establishmentId;
    CheckRequired(required, isEdit)
  }

  /** The form as the page holds it. */
  class StudentFormPage {
    const isEdit: bool
    const establishments: seq<Establishment>
    const tutors: seq<Tutor>
    var form: FormData

    /** The e-mail effect has run since the last change of its inputs. */
    ghost predicate Valid()
      reads this
    {
      EmailEffect(form, establishments) == form
    }

    /** Mounting: initial values, then the first run of the effect. */
    constructor(id: Option<string>, students: seq<Student>, establishments: seq<Establishment>, tutors: seq<Tutor>)
      ensures isEdit == IsEdit(id)
      ensures this.establishments == establishments && this.tutors == tutors
      ensures form == EmailEffect(InitialForm(ExistingStudent(students, id)), establishments)
      ensures Valid()
    {
      isEdit := IsEdit(id);
      this.establishments := establishments;
      this.tutors := tutors;
      form := EmailEffect(InitialForm(ExistingStudent(students, id)), establishments);
      EmailEffectIdempotent(InitialForm(ExistingStudent(students, id)), establishments);
    }

    /** `availableTutors`: the tutors the tutor select offers. */
    function AvailableTutors(): (r: seq<Tutor>)
      reads this
      ensures forall t :: t in r <==> t in tutors && t.establishmentId == form.establishmentId && t.status == Active
      ensures forall t :: multiset(r)[t] == if t.establishmentId == form.establishmentId && t.status == Active then multiset(tutors)[t] else 0
      ensures IsSubsequence(r, tutors)
    {
      Forms.AvailableTutors(tutors, form.establishmentId)
    }

    /** A text input's `onChange`, followed by the effect. */
    method EditText(field: TextField, value: string)
      modifies this
      ensures form == EmailEffect(WithText(old(form), field, value), establishments)
      ensures Valid()
    {
      form := WithText(form, field, value);
      EmailEffectIdempotent(form, establishments);
      form := EmailEffect(form, establishments);
    }

    /** The establishment select: sets the establishment, clears the tutor, then the effect. */
    method SelectEstablishment(estId: string)
      modifies this
      ensures form == EmailEffect(old(form).(establishmentId := estId, tutorId := ""), establishments)
      ensures Valid()
    {
      form := form.(establishmentId := estId, tutorId := "");
      EmailEffectIdempotent(form, establishments);
      form := EmailEffect(form, establishments);
    }

    /** The tutor select: only the tutor changes. */
    method SelectTutor(tutorId: string)
      modifies this
      ensures form == old(form).(tutorId := tutorId)
      ensures old(Valid()) ==> Valid()
    {
      form := form.(tutorId := tutorId);
    }
  }
}
