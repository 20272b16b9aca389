/**
 * The create/edit form for an establishment. Only daaras are created or
 * edited here: the type is fixed, and the country defaults to Senegal.
 */
module EstablishmentForm {
  import opened JsArray
  import opened Types
  import opened Forms

  const DefaultCountry: string := "S\U{00E9}n\U{00E9}gal"

  datatype FormData = FormData(
    name: string,
    kind: EstablishmentType,
    address: string,
    city: string,
    country: string,
    phone: string,
    email: string,
    website: string,
    status: bool)

  datatype TextField = Name | Address | City | Country | Email | Phone | Website

  function Text(f: FormData, field: TextField): string {
    match field
    case Name => f.name
    case Address => f.address
    case City => f.city
    case Country => f.country
    case Email => f.email
    case Phone => f.phone
    case Website => f.website
  }

  function WithText(f: FormData, field: TextField, value: string): (r: FormData)
    ensures Text(r, field) == value
    ensures forall g :: g != field ==> Text(r, g) == Text(f, g)
    ensures r.kind == f.kind && r.status == f.status
  {
    match field
    case Name => f.(name := value)
    case Address => f.(address := value)
    case City => f.(city := value)
    case Country => f.(country := value)
    case Email => f.(email := value)
    case Phone => f.(phone := value)
    case Website => f.(website := value)
  }

  /** `mockEstablishments.find(e => e.id === id)` when a route id is present. */
  function ExistingEstablishment(establishments: seq<Establishment>, id: Option<string>): (r: Option<Establishment>)
    ensures r.Some? ==> IsEdit(id) && r.value in establishments && r.value.id == id.value
    ensures IsEdit(id) && (exists k | 0 <= k < |establishments| :: establishments[k].id == id.value) ==> r.Some?
    ensures IsEdit(id) ==> forall k | 0 <= k < |establishments| && establishments[k].id == id.value && (forall j | 0 <= j < k :: establishments[j].id != id.value) :: r == Some(establishments[k])
  {
    if IsEdit(id) then Find(establishments, (e: Establishment) => e.id == id.value) else None
  }

  /**
   * The initial `formData`: the type is a daara whatever the record says;
   * the country is the record's, or Senegal when there is none or it is
   * empty; the switch is on iff the record is active.
   */
  function InitialForm(existing: Option<Establishment>): (f: FormData)
    ensures f.kind == Daara
    ensures existing.None? ==> f == FormData("", Daara, "", "", DefaultCountry, "", "", "", false)
    ensures existing.Some? ==>
      var e := existing.value;
      f.name == e.name && f.address == e.address && f.city == e.city && f.phone == e.phone
      && f.email == e.email && f.website == e.website.GetOr("")
      && f.country == (if e.country == "" then DefaultCountry else e.country)
      && f.status == (e.status == Active)
  {
    match existing
    case None => FormData("", Daara, "", "", DefaultCountry, "", "", "", false)
    case Some(e) =>
      FormData(e.name, Daara, e.address, e.city, OrElse(e.country, DefaultCountry), e.phone, e.email,
               e.website.GetOr(""), e.status == Active)
  }

  /** The submit guard: name, city and e-mail are required; nothing else is. */
  function Submit(f: FormData, isEdit: bool): (r: SubmitResult)
    ensures r.MissingRequired? <==> f.name == "" || f.city == "" || f.email == ""
    ensures r.Saved? ==> r.isEdit == isEdit
  {
    var required := [f.name, f.city, f.email];
    assert required[0] == f.name && required[1] == f.city && required[2] == f.email;
    CheckRequired(required, isEdit)
  }

  /** The form never shows a missing country unless the user clears it. */
  lemma InitialCountryNeverEmpty(existing: Option<Establishment>)
    ensures InitialForm(existing).country != ""
  {
  }

  class EstablishmentFormPage {
    const isEdit: bool
    var form: FormData

    /** No handler changes the type: it stays a daara. */
    ghost predicate Valid()
      reads this
    {
      form.kind == Daara
    }

    constructor(id: Option<string>, establishments: seq<Establishment>)
      ensures isEdit == IsEdit(id)
      ensures form == InitialForm(ExistingEstablishment(establishments, id))
      ensures Valid()
    {
      isEdit := IsEdit(id);
      form := InitialForm(ExistingEstablishment(establishments, id));
    }

    method EditText(field: TextField, value: string)
      modifies this
      ensures form == WithText(old(form), field, value)
      ensures old(Valid()) ==> Valid()
    {
      form := WithText(form, field, value);
    }

    method SetStatus(checked: bool)
      modifies this
      ensures form == old(form).(status := checked)
      ensures old(Valid()) ==> Valid()
    {
      form := form.(status := checked);
    }
  }
}
