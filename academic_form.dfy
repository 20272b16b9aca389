/**
 * The create/edit form for an academic item (course, homework, exam,
 * practical work). Choosing another establishment clears the tutor, and the
 * due-date input is shown only for the item types that have a deadline.
 */
module AcademicForm {
  import opened JsArray
  import opened Types
  import opened Forms

  datatype FormData = FormData(
    title: string,
    kind: AcademicType,
    description: string,
    dueDate: string,
    establishmentId: string,
    tutorId: string,
    status: AcademicStatus)

  /** `mockAcademicItems.find(i => i.id === id)` when a route id is present. */
  function ExistingItem(items: seq<AcademicItem>, id: Option<string>): (r: Option<AcademicItem>)
    ensures r.Some? ==> IsEdit(id) && r.value in items && r.value.id == id.value
    ensures IsEdit(id) && (exists k | 0 <= k < |items| :: items[k].id == id.value) ==> r.Some?
    ensures IsEdit(id) ==> forall k | 0 <= k < |items| && items[k].id == id.value && (forall j | 0 <= j < k :: items[j].id != id.value) :: r == Some(items[k])
  {
    if IsEdit(id) then Find(items, (i: AcademicItem) => i.id == id.value) else None
  }

  /**
   * The initial `formData`: a new item is an empty draft course with no due
   * date; an existing one keeps its values, its due date shown as an ISO day.
   */
  function InitialForm(existing: Option<AcademicItem>): (f: FormData)
    ensures existing.None? ==> f == FormData("", Course, "", "", "", "", Draft)
    ensures existing.Some? ==>
      var i := existing.value;
      f.title == i.title && f.kind == i.kind && f.description == i.description
      && f.establishmentId == i.establishmentId && f.tutorId == i.tutorId && f.status == i.status
      && f.dueDate == (if i.dueDate.Some? then IsoDay(i.dueDate.value) else "")
  {
    match existing
    case None => FormData("", Course, "", "", "", "", Draft)
    case Some(i) =>
      FormData(i.title, i.kind, i.description, if i.dueDate.Some? then IsoDay(i.dueDate.value) else "",
               i.establishmentId, i.tutorId, i.status)
  }

  /** The due-date input is rendered for homework, exams and practical work only. */
  predicate DueDateShown(kind: AcademicType): (shown: bool)
    ensures shown <==> kind != Course && kind != Sourate
    ensures shown ==> SelectableType(kind)
  {
    kind == Homework || kind == Exam || kind == Tp
  }

  /** The values the type select offers (a stored item may also be a sourate). */
  predicate SelectableType(kind: AcademicType) {
    kind == Course || kind == Homework || kind == Exam || kind == Tp
  }

  /** A new item starts as a course, so without a due-date input. */
  lemma NewItemHidesDueDate()
    ensures InitialForm(None).kind == Course && InitialForm(None).status == Draft
    ensures !DueDateShown(InitialForm(None).kind)
  {
  }

  /** The submit guard: title, establishment and tutor are required; description and due date are not. */
  function Submit(f: FormData, isEdit: bool): (r: SubmitResult)
    ensures r.MissingRequired? <==> f.title == "" || f.establishmentId == "" || f.tutorId == ""
    ensures r.Saved? ==> r.isEdit == isEdit
  {
    var required := [f.title, f.establishmentId, f.tutorId];
    assert required[0] == f.title && required[1] == f.establishmentId && required[2] == f.tutorId;
    CheckRequired(required, isEdit)
  }

  /** The establishment select's update: establishment set, tutor cleared, nothing else changed. */
  function WithEstablishment(f: FormData, estId: string): (r: FormData)
    ensures r.establishmentId == estId && r.tutorId == ""
    ensures r.title == f.title && r.kind == f.kind && r.description == f.description
    ensures r.dueDate == f.dueDate && r.status == f.status
  {
    f.(establishmentId := estId, tutorId := "")
  }

  /** After a change of establishment the form cannot be saved until a tutor is chosen again. */
  lemma ChangingEstablishmentRequiresTutor(f: FormData, estId: string, isEdit: bool)
    ensures Submit(WithEstablishment(f, estId), isEdit) == MissingRequired
  {
  }

  class AcademicFormPage {
    const isEdit: bool
    const tutors: seq<Tutor>
    var form: FormData

    constructor(id: Option<string>, items: seq<AcademicItem>, tutors: seq<Tutor>)
      ensures isEdit == IsEdit(id)
      ensures this.tutors == tutors
      ensures form == InitialForm(ExistingItem(items, id))
    {
      isEdit := IsEdit(id);
      this.tutors := tutors;
      form := InitialForm(ExistingItem(items, id));
    }

    /** `availableTutors`: the active tutors of the selected establishment, in order. */
    function AvailableTutors(): (r: seq<Tutor>)
      reads this
      ensures forall t :: t in r <==> t in tutors && t.establishmentId == form.establishmentId && t.status == Active
      ensures forall t :: multiset(r)[t] == if t.establishmentId == form.establishmentId && t.status == Active then multiset(tutors)[t] else 0
      ensures IsSubsequence(r, tutors)
    {
      Forms.AvailableTutors(tutors, form.establishmentId)
    }

    method SetTitle(title: string)
      modifies this
      ensures form == old(form).(title := title)
    {
      form := form.(title := title);
    }

    /**
     * The type select. Leaving the due-date types hides the input but keeps
     * the date already typed.
     */
    method SetType(kind: AcademicType)
      requires SelectableType(kind)
      modifies this
      ensures form == old(form).(kind := kind)
      ensures form.dueDate == old(form).dueDate
    {
      form := form.(kind := kind);
    }

    method SetStatus(status: AcademicStatus)
      modifies this
      ensures form == old(form).(status := status)
    {
      form := form.(status := status);
    }

    method SetDescription(description: string)
      modifies this
      ensures form == old(form).(description := description)
    {
      form := form.(description := description);
    }

    /** The due-date input, which exists only while it is shown. */
    method SetDueDate(dueDate: string)
      requires DueDateShown(form.kind)
      modifies this
      ensures form == old(form).(dueDate := dueDate)
    {
      form := form.(dueDate := dueDate);
    }

    method SelectEstablishment(estId: string)
      modifies this
      ensures form == WithEstablishment(old(form), estId)
    {
      form := WithEstablishment(form, estId);
    }

    method SelectTutor(tutorId: string)
      modifies this
      ensures form == old(form).(tutorId := tutorId)
    {
      form := form.(tutorId := tutorId);
    }
  }
}
