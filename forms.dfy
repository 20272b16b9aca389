/**
 * What the create/edit forms share: the outcome of `handleSubmit`, the
 * `Boolean(id)` edit test, and the eligible-tutor query of the student and
 * academic forms.
 */
module Forms {
  import opened JsArray
  import opened Types

  /**
   * The outcome of `handleSubmit`: the error toast when a required field is
   * empty, otherwise the success toast (its wording depends on `isEdit`)
   * followed by navigation back to the list.
   */
  datatype SubmitResult = MissingRequired | Saved(isEdit: bool)

  /** The submit guard `if (!a || !b || ...)` over the required fields. */
  function CheckRequired(required: seq<string>, isEdit: bool): (r: SubmitResult)
    ensures r.MissingRequired? <==> exists k | 0 <= k < |required| :: required[k] == ""
    ensures r.Saved? ==> r.isEdit == isEdit
  {
    if required == [] then Saved(isEdit)
    else if required[0] == "" then MissingRequired
    else
      var r := CheckRequired(required[1..], isEdit);
      assert forall k | 1 <= k < |required| :: required[k] == required[1..][k - 1];
      r
  }

  /** `Boolean(id)` for the optional route parameter: absent and "" are false. */
  predicate IsEdit(id: Option<string>): (edit: bool)
    ensures id == None || id == Some("") ==> !edit
    ensures edit <==> id.Some? && |id.value| > 0
  {
    id.Some? && id.value != ""
  }

  /**
   * `tutors.filter(t => t.establishmentId === estId && t.status === 'active')`.
   * The result holds exactly the active tutors of that establishment, in
   * their original order and with their multiplicities.
   */
  function AvailableTutors(tutors: seq<Tutor>, estId: string): (r: seq<Tutor>)
    ensures forall t :: t in r <==> t in tutors && t.establishmentId == estId && t.status == Active
    ensures forall t :: multiset(r)[t] == if t.establishmentId == estId && t.status == Active then multiset(tutors)[t] else 0
    ensures IsSubsequence(r, tutors)
  {
    var p := (t: Tutor) => t.establishmentId == estId && t.status == Active;
    FilterIsSubsequence(tutors, p);
    FilterMultiset(tutors, p);
    Filter(tutors, p)
  }

  /** With no establishment selected ("" matches no tutor's id), no tutor is offered. */
  lemma NoTutorsWithoutEstablishment(tutors: seq<Tutor>)
    requires forall k | 0 <= k < |tutors| :: tutors[k].establishmentId != ""
    ensures AvailableTutors(tutors, "") == []
  {
    FilterKeepsNone(tutors, (t: Tutor) => t.establishmentId == "" && t.status == Active);
  }
}
