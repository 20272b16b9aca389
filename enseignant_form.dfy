/**
 * The create/edit form for a teacher of the daara. Its own `generateEmail`
 * lower-cases the address and appends ".sn"; the e-mail effect runs in
 * create mode only, and edit mode needs both a route id and the record
 * passed along by the list page.
 */
module EnseignantForm {
  import opened JsArray
  import opened JsString
  import opened Normalization
  import opened Types
  import opened Forms
  import Students

  /** Lower-casing leaves the ".sn" suffix as it is. */
  lemma LowerWithSuffix(s: string, suffix: string)
    requires suffix == ".sn" || suffix == "@"
    ensures ToLower(s + suffix) == ToLower(s) + suffix
  {
    ToLowerAppend(s, suffix);
    ToLowerOfLower(suffix);
  }

  /**
   * `generateEmail(first, last, daara)`:
   * `${normalize(first)}.${normalize(last)}@${normalize(daara)}.sn`, lower-cased.
   */
  function GenerateEmail(firstName: string, lastName: string, daaraName: string): (r: string)
    ensures forall k | 0 <= k < |r| :: !IsAsciiUpper(r[k])
    ensures |r| >= 3 && r[|r| - 3..] == ".sn"
  {
    var address := Normalize(firstName) + "." + Normalize(lastName) + "@" + Normalize(daaraName);
    LowerWithSuffix(address, ".sn");
    ToLower(address + ".sn")
  }

  /** The address is the student address lower-cased, followed by ".sn". */
  lemma GenerateEmailIsLoweredStudentEmail(firstName: string, lastName: string, daaraName: string)
    ensures GenerateEmail(firstName, lastName, daaraName)
      == ToLower(Students.GenerateEmail(firstName, lastName, daaraName)) + ".sn"
  {
    LowerWithSuffix(Students.GenerateEmail(firstName, lastName, daaraName), ".sn");
  }

  /**
   * A daara name with no letter or digit, the empty one among them, leaves
   * the domain as just ".sn": the address ends in "@.sn".
   */
  lemma GenerateEmailWithoutDaara(firstName: string, lastName: string, daaraName: string)
    requires Normalize(daaraName) == []
    ensures GenerateEmail(firstName, lastName, daaraName)
      == ToLower(Normalize(firstName) + "." + Normalize(lastName)) + "@" + ".sn"
  {
    var local := Normalize(firstName) + "." + Normalize(lastName);
    var address := local + "@" + Normalize(daaraName);
    assert address == local + "@";
    LowerWithSuffix(address, ".sn");
    LowerWithSuffix(local, "@");
  }

  datatype FormData = FormData(
    firstName: string,
    lastName: string,
    email: string,
    phone: string,
    specialization: string,
    establishmentId: string,
    status: bool)

  /** The free-text inputs of the form (the e-mail input is read-only). */
  datatype TextField = FirstName | LastName | Phone | Specialization

  function Text(f: FormData, field: TextField): string {
    match field
    case FirstName => f.firstName
    case LastName => f.lastName
    case Phone => f.phone
    case Specialization => f.specialization
  }

  function WithText(f: FormData, field: TextField, value: string): (r: FormData)
    ensures Text(r, field) == value
    ensures forall g :: g != field ==> Text(r, g) == Text(f, g)
    ensures r.email == f.email && r.establishmentId == f.establishmentId && r.status == f.status
  {
    match field
    case FirstName => f.(firstName := value)
    case LastName => f.(lastName := value)
    case Phone => f.(phone := value)
    case Specialization => f.(specialization := value)
  }

  /** `Boolean(id && existing)`: a route id and a record in the location state. */
  function IsEditMode(id: Option<string>, existing: Option<Tutor>): (r: bool)
    ensures r <==> IsEdit(id) && existing.Some?
  {
    IsEdit(id) && existing.Some?
  }

  /**
   * A record in the location state without a route id (absent or "") fills
   * the form but leaves it in create mode, so the effect still rewrites its
   * e-mail once the names and establishment are filled in.
   */
  lemma StateRecordWithoutIdCreates(id: Option<string>, t: Tutor, establishments: seq<Establishment>)
    requires id == None || id == Some("")
    requires t.firstName != "" && t.lastName != "" && t.establishmentId != ""
    ensures !IsEditMode(id, Some(t))
    ensures EmailEffect(InitialForm(Some(t)), IsEditMode(id, Some(t)), establishments).email
      == GenerateEmail(t.firstName, t.lastName, DaaraName(establishments, t.establishmentId))
  {
  }

  /**
   * The initial `formData`, from the record in the location state when there
   * is one (even without a route id); the switch is on iff that record is
   * active.
   */
  function InitialForm(existing: Option<Tutor>): (f: FormData)
    ensures existing.None? ==> f == FormData("", "", "", "", "", "", false)
    ensures existing.Some? ==>
      var t := existing.value;
      f == FormData(t.firstName, t.lastName, t.email, t.phone, t.specialization, t.establishmentId, t.status == Active)
  {
    match existing
    case None => FormData("", "", "", "", "", "", false)
    case Some(t) => FormData(t.firstName, t.lastName, t.email, t.phone, t.specialization, t.establishmentId, t.status == Active)
  }

  /** `mockEstablishments.find(e => e.id === id)?.name || ''`. */
  function DaaraName(establishments: seq<Establishment>, estId: string): (r: string)
    ensures (forall k | 0 <= k < |establishments| :: establishments[k].id != estId) ==> r == ""
    ensures r != "" ==> exists k | 0 <= k < |establishments| :: establishments[k].id == estId && establishments[k].name == r
    ensures forall k | 0 <= k < |establishments| && establishments[k].id == estId && (forall j | 0 <= j < k :: establishments[j].id != estId) :: r == establishments[k].name
  {
    match Find(establishments, (e: Establishment) => e.id == estId)
    case None => ""
    case Some(est) => est.name
  }

  predicate EmailInputsFilled(f: FormData) {
    f.firstName != "" && f.lastName != "" && f.establishmentId != ""
  }

  /**
   * The e-mail effect: in create mode with the three inputs filled in, the
   * e-mail is rewritten from them; in edit mode, or with an input missing,
   * nothing changes. Only the e-mail is ever touched.
   */
  function EmailEffect(f: FormData, isEdit: bool, establishments: seq<Establishment>): (r: FormData)
    ensures r == f.(email := r.email)
    ensures isEdit ==> r == f
    ensures !EmailInputsFilled(f) ==> r == f
    ensures !isEdit && EmailInputsFilled(f) ==>
      r.email == GenerateEmail(f.firstName, f.lastName, DaaraName(establishments, f.establishmentId))
  {
    if !isEdit && EmailInputsFilled(f) then
      f.(email := GenerateEmail(f.firstName, f.lastName, DaaraName(establishments, f.establishmentId)))
    else f
  }

  /** An establishment id that matches nothing yields an address ending in "@.sn". */
  lemma UnknownEstablishmentEmail(f: FormData, establishments: seq<Establishment>)
    requires EmailInputsFilled(f)
    requires forall k | 0 <= k < |establishments| :: establishments[k].id != f.establishmentId
    ensures EmailEffect(f, false, establishments).email
      == ToLower(Normalize(f.firstName) + "." + Normalize(f.lastName)) + "@" + ".sn"
  {
    NormalizeEmpty();
    GenerateEmailWithoutDaara(f.firstName, f.lastName, "");
  }

  /** The submit guard: first name, last name, e-mail and establishment are required. */
  function Submit(f: FormData, isEdit: bool): (r: SubmitResult)
    ensures r.MissingRequired? <==> f.firstName == "" || f.lastName == "" || f.email == "" || f.establishmentId == ""
    ensures r.Saved? ==> r.isEdit == isEdit
  {
    var required := [f.firstName, f.lastName, f.email, f.establishmentId];
    assert required[0] == f.firstName && required[1] == f.lastName && required[2] == f.email && required[3] == f.establishmentId;
    CheckRequired(required, isEdit)
  }

  /**
   * In create mode, a form whose three inputs are filled in cannot fail for
   * want of an e-mail: the effect has written a non-empty one.
   */
  lemma CreatedEmailNeverEmpty(f: FormData, establishments: seq<Establishment>)
    requires EmailInputsFilled(f)
    ensures Submit(EmailEffect(f, false, establishments), false) == Saved(false)
  {
    var e := EmailEffect(f, false, establishments).email;
    assert |e| >= 3;
  }

  class EnseignantFormPage {
    const isEdit: bool
    const establishments: seq<Establishment>
    var form: FormData

    ghost predicate Valid()
      reads this
    {
      EmailEffect(form, isEdit, establishments) == form
    }

    /** Mounting: initial values, then the first run of the effect. */
    constructor(id: Option<string>, existing: Option<Tutor>, establishments: seq<Establishment>)
      ensures isEdit == IsEditMode(id, existing)
      ensures this.establishments == establishments
      ensures form == EmailEffect(InitialForm(existing), isEdit, establishments)
      ensures isEdit ==> form == InitialForm(existing)
      ensures Valid()
    {
      isEdit := IsEditMode(id, existing);
      this.establishments := establishments;
      form := EmailEffect(InitialForm(existing), IsEditMode(id, existing), establishments);
    }

    method EditText(field: TextField, value: string)
      modifies this
      ensures form == EmailEffect(WithText(old(form), field, value), isEdit, establishments)
      ensures isEdit ==> form == WithText(old(form), field, value)
      ensures Valid()
    {
      form := EmailEffect(WithText(form, field, value), isEdit, establishments);
    }

    /** The establishment select: only the establishment changes before the effect runs. */
    method SelectEstablishment(estId: string)
      modifies this
      ensures form == EmailEffect(old(form).(establishmentId := estId), isEdit, establishments)
      ensures Valid()
    {
      form := EmailEffect(form.(establishmentId := estId), isEdit, establishments);
    }

    /** The status switch. */
    method SetStatus(checked: bool)
      modifies this
      ensures form == old(form).(status := checked)
      ensures old(Valid()) ==> Valid()
    {
      form := form.(status := checked);
    }
  }
}
