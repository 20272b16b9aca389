/** The create/edit form for a tutor: defaults, field updates and the submit guard. */
module TutorForm {
  import opened JsArray
  import opened Types
  import opened Forms

  datatype FormData = FormData(
    firstName: string,
    lastName: string,
    email: string,
    phone: string,
    specialization: string,
    establishmentId: string,
    status: bool)

  datatype TextField = FirstName | LastName | Email | Phone | Specialization

  function Text(f: FormData, field: TextField): string {
    match field
    case FirstName => f.firstName
    case LastName => f.lastName
    case Email => f.email
    case Phone => f.phone
    case Specialization => f.specialization
  }

  function WithText(f: FormData, field: TextField, value: string): (r: FormData)
    ensures Text(r, field) == value
    ensures forall g :: g != field ==> Text(r, g) == Text(f, g)
    ensures r.establishmentId == f.establishmentId && r.status == f.status
  {
    match field
    case FirstName => f.(firstName := value)
    case LastName => f.(lastName := value)
    case Email => f.(email := value)
    case Phone => f.(phone := value)
    case Specialization => f.(specialization := value)
  }

  /** `mockTutors.find(t => t.id === id)` when a route id is present. */
  function ExistingTutor(tutors: seq<Tutor>, id: Option<string>): (r: Option<Tutor>)
    ensures r.Some? ==> IsEdit(id) && r.value in tutors && r.value.id == id.value
    ensures IsEdit(id) && (exists k | 0 <= k < |tutors| :: tutors[k].id == id.value) ==> r.Some?
    ensures IsEdit(id) ==> forall k | 0 <= k < |tutors| && tutors[k].id == id.value && (forall j | 0 <= j < k :: tutors[j].id != id.value) :: r == Some(tutors[k])
  {
    if IsEdit(id) then Find(tutors, (t: Tutor) => t.id == id.value) else None
  }

  /**
   * The initial `formData`: every text "" and the switch off for a new
   * tutor; an existing tutor's values, the switch on iff it is active.
   */
  function InitialForm(existing: Option<Tutor>): (f: FormData)
    ensures existing.None? ==> (forall g :: Text(f, g) == "") && f.establishmentId == "" && !f.status
    ensures existing.Some? ==>
      var t := existing.value;
      f == FormData(t.firstName, t.lastName, t.email, t.phone, t.specialization, t.establishmentId, t.status == Active)
  {
    match existing
    case None => FormData("", "", "", "", "", "", false)
    case Some(t) => FormData(t.firstName, t.lastName, t.email, t.phone, t.specialization, t.establishmentId, t.status == Active)
  }

  /**
   * The submit guard: first name, last name, e-mail and establishment are
   * required; phone and specialization never are.
   */
  function Submit(f: FormData, isEdit: bool): (r: SubmitResult)
    ensures r.MissingRequired? <==> f.firstName == "" || f.lastName == "" || f.email == "" || f.establishmentId == ""
    ensures r.Saved? ==> r.isEdit == isEdit
  {
    var required := [f.firstName, f.lastName, f.email, f.establishmentId];
    assert required[0] == f.firstName && required[1] == f.lastName && required[2] == f.email && required[3] == f.establishmentId;
    CheckRequired(required, isEdit)
  }

  /** Phone and specialization do not affect the outcome of a submit. */
  lemma OptionalFieldsIgnored(f: FormData, phone: string, specialization: string, isEdit: bool)
    ensures Submit(f.(phone := phone, specialization := specialization), isEdit) == Submit(f, isEdit)
  {
  }

  class TutorFormPage {
    const isEdit: bool
    var form: FormData

    constructor(id: Option<string>, tutors: seq<Tutor>)
      ensures isEdit == IsEdit(id)
      ensures form == InitialForm(ExistingTutor(tutors, id))
    {
      isEdit := IsEdit(id);
      form := InitialForm(ExistingTutor(tutors, id));
    }

    method EditText(field: TextField, value: string)
      modifies this
      ensures form == WithText(old(form), field, value)
    {
      form := WithText(form, field, value);
    }

    /** The establishment select: only the establishment changes. */
    method SelectEstablishment(estId: string)
      modifies this
      ensures form == old(form).(establishmentId := estId)
    {
      form := form.(establishmentId := estId);
    }

    method SetStatus(checked: bool)
      modifies this
      ensures form == old(form).(status := checked)
    {
      form := form.(status := checked);
    }
  }
}
