/**
 * The tutor list page: the generator of its mock roster, the search box,
 * delete with its confirmation dialog, and the avatar helpers (which
 * src/pages/Students.tsx defines identically).
 */
module Tutors {
  import opened JsArray
  import opened JsString
  import opened JsNumber
  import opened Types
  import opened Lists

  const FirstNames: seq<string> := ["Awa", "Mamadou", "Fatou", "Ousmane", "Mariama", "Cheikh"]
  const LastNames: seq<string> := ["Diallo", "Sarr", "Ba", "Diop", "Ngom", "Lo"]
  const Specializations: seq<string> :=
    ["Math\U{00E9}matiques", "Physique", "Chimie", "Informatique", "Fran\U{00E7}ais", "Histoire"]

  /** Number of tutors the generator produces. */
  const MockTutorCount := 12

  /**
   * The random draws of one iteration. `Math.floor(Math.random() * n)` is some
   * index below `n`; the model takes an arbitrary natural number and reduces
   * it below `n`, which reaches every such index. `active` is the outcome of
   * `Math.random() > 0.3`.
   */
  datatype Draw = Draw(firstName: nat, lastName: nat, specialization: nat, establishment: nat,
                       active: bool, studentCount: nat, phone: nat)

  /** The tutor e-mail: first and last name lower-cased, the daara name without whitespace, ".fr". */
  function MockEmail(firstName: string, lastName: string, estName: string): (r: string)
    ensures forall k | 0 <= k < |r| :: !IsAsciiUpper(r[k])
    ensures |r| >= 3 && r[|r| - 3..] == ".fr"
  {
    ToLower(firstName) + "." + ToLower(lastName) + "@" + ToLower(RemoveWhitespace(estName)) + ".fr"
  }

  /** Lower-casing piece by piece is lower-casing the whole address. */
  lemma MockEmailIsLowered(firstName: string, lastName: string, estName: string)
    ensures MockEmail(firstName, lastName, estName)
      == ToLower(firstName + "." + lastName + "@" + RemoveWhitespace(estName) + ".fr")
  {
    var n := RemoveWhitespace(estName);
    ToLowerAppend(firstName + "." + lastName + "@" + n, ".fr");
    ToLowerAppend(firstName + "." + lastName + "@", n);
    ToLowerAppend(firstName + "." + lastName, "@");
    ToLowerAppend(firstName + ".", lastName);
    ToLowerAppend(firstName, ".");
    ToLowerOfLower(".fr");
    ToLowerOfLower("@");
    ToLowerOfLower(".");
  }

  /**
   * The tutor built in iteration `i`: id `i.toString()`, names and
   * specialization from the fixed lists, establishment id and name from one
   * input establishment, between 5 and 29 students.
   */
  function MockTutor(i: nat, d: Draw, establishments: seq<Establishment>, now: Date): (t: Tutor)
    requires establishments != []
    ensures t.id == NatToString(i)
    ensures var est := establishments[d.establishment % |establishments|];
      t.establishmentId == est.id && t.establishmentName == est.name
    ensures 5 <= t.studentCount <= 29
    ensures t.status == (if d.active then Active else Inactive)
    ensures t.email == MockEmail(t.firstName, t.lastName, t.establishmentName)
    ensures t.avatar.None? && t.createdAt == now
  {
    var firstName := FirstNames[d.firstName % |FirstNames|];
    var lastName := LastNames[d.lastName % |LastNames|];
    var specialization := Specializations[d.specialization % |Specializations|];
    var est := establishments[d.establishment % |establishments|];
    var phone := "+221 77 " + NatToString(100000 + d.phone % 900000);
    Tutor(NatToString(i), firstName, lastName, MockEmail(firstName, lastName, est.name), phone,
          specialization, est.id, est.name, if d.active then Active else Inactive,
          d.studentCount % 25 + 5, None, now)
  }

  /** Names and specialization are drawn from the fixed lists. */
  lemma MockTutorFromLists(i: nat, d: Draw, establishments: seq<Establishment>, now: Date)
    requires establishments != []
    ensures var t := MockTutor(i, d, establishments, now);
      t.firstName in FirstNames && t.lastName in LastNames && t.specialization in Specializations
  {
  }

  /**
   * `generateMockTutors(establishments)`: no establishment, no tutor;
   * otherwise 12 tutors with ids "1" to "12" in order, tutor `k` built from
   * the draws and the clock reading of iteration `k + 1` (each iteration
   * calls `new Date()` afresh).
   */
  method GenerateMockTutors(establishments: seq<Establishment>, draws: nat -> Draw, clock: nat -> Date)
    returns (tutors: seq<Tutor>)
    ensures establishments == [] ==> tutors == []
    ensures establishments != [] ==> |tutors| == MockTutorCount
    ensures establishments != [] ==> forall k | 0 <= k < |tutors| ::
      tutors[k] == MockTutor(k + 1, draws(k + 1), establishments, clock(k + 1))
    ensures forall k | 0 <= k < |tutors| :: tutors[k].id == NatToString(k + 1) && 5 <= tutors[k].studentCount <= 29
  {
    if establishments == [] {
      return [];
    }
    tutors := [];
    for i := 1 to MockTutorCount + 1
      invariant |tutors| == i - 1
      invariant forall k | 0 <= k < |tutors| :: tutors[k] == MockTutor(k + 1, draws(k + 1), establishments, clock(k + 1))
    {
      var tutor := MockTutor(i, draws(i), establishments, clock(i));
      tutors := tutors + [tutor];
    }
    forall k | 0 <= k < |tutors|
      ensures tutors[k].id == NatToString(k + 1) && 5 <= tutors[k].studentCount <= 29
    {
      var t := MockTutor(k + 1, draws(k + 1), establishments, clock(k + 1));
      assert tutors[k] == t;
    }
  }

  /** Generated tutors have pairwise distinct ids. */
  lemma MockTutorIdsDistinct(i: nat, j: nat, di: Draw, dj: Draw, establishments: seq<Establishment>, now: Date)
    requires establishments != [] && i != j
    ensures MockTutor(i, di, establishments, now).id != MockTutor(j, dj, establishments, now).id
  {
    if NatToString(i) == NatToString(j) {
      NatToStringInjective(i, j);
    }
  }

  /** The texts the search box looks in: full name, specialization, daara name. */
  function SearchFields(t: Tutor): seq<string> {
    [t.firstName + " " + t.lastName, t.specialization, t.establishmentName]
  }

  predicate Matches(t: Tutor, query: string) {
    Includes(ToLower(t.firstName + " " + t.lastName), ToLower(query))
    || Includes(ToLower(t.specialization), ToLower(query))
    || Includes(ToLower(t.establishmentName), ToLower(query))
  }

  lemma MatchesIsSearch(query: string)
    ensures forall t :: Matches(t, query) <==> SearchMatches(SearchFields(t), query)
  {
    forall t ensures Matches(t, query) ==> SearchMatches(SearchFields(t), query) {
      var fs := SearchFields(t);
      assert fs[0] == t.firstName + " " + t.lastName && fs[1] == t.specialization && fs[2] == t.establishmentName;
    }
  }

  /**
   * `filteredTutors`: in order, exactly the tutors whose full name,
   * specialization or daara name contains the query, ignoring ASCII case; an
   * empty query keeps every tutor.
   */
  function Filtered(tutors: seq<Tutor>, query: string): (r: seq<Tutor>)
    ensures forall t :: t in r <==> t in tutors && Matches(t, query)
    ensures forall t :: multiset(r)[t] == if Matches(t, query) then multiset(tutors)[t] else 0
    ensures IsSubsequence(r, tutors)
    ensures query == "" ==> r == tutors
  {
    MatchesIsSearch(query);
    var r := Search(tutors, SearchFields, query);
    if query == "" then SearchEmptyQuery(tutors, SearchFields); r else r
  }

  lemma FilteredNarrows(tutors: seq<Tutor>, query: string, more: string)
    ensures IsSubsequence(Filtered(tutors, query + more), Filtered(tutors, query))
  {
    SearchNarrows(tutors, SearchFields, query, more);
  }

  /** `${s[0]}` in a template: the first character, or "undefined" for the empty string. */
  function FirstCharText(s: string): (r: string)
    ensures s != [] ==> r == [s[0]]
    ensures s == [] ==> r == "undefined"
  {
    if s == [] then "undefined" else [s[0]]
  }

  /**
   * `getInitials(first, last)`: the first letter of each name, upper-cased.
   * An empty name contributes "UNDEFINED".
   */
  function GetInitials(firstName: string, lastName: string): (r: string)
    ensures firstName != [] && lastName != [] ==> r == [UpperChar(firstName[0]), UpperChar(lastName[0])]
    ensures firstName == [] ==> |r| >= 9 && r[..9] == ToUpper("undefined")
    ensures forall k | 0 <= k < |r| :: !IsAsciiLower(r[k])
  {
    ToUpperAppend(FirstCharText(firstName), FirstCharText(lastName));
    ToUpper(FirstCharText(firstName) + FirstCharText(lastName))
  }

  const AvatarColors: seq<string> := ["bg-primary", "bg-secondary", "bg-accent", "bg-warning"]

  /**
   * `getAvatarColor(id)`: `colors[parseInt(id) % 4]`. The index is NaN when
   * the id does not start with a number and negative for a negative number;
   * both read `undefined` (`None`).
   */
  function GetAvatarColor(id: string): (r: Option<string>)
    ensures r.Some? <==> ParseInt(id).Some? && (ParseInt(id).value >= 0 || ParseInt(id).value % 4 == 0)
    ensures r.Some? ==> r.value == AvatarColors[if ParseInt(id).value >= 0 then ParseInt(id).value % 4 else 0]
  {
    match ParseInt(id)
    case None => None
    case Some(n) =>
      var index := TruncRem(n, |AvatarColors|);
      if n < 0 then NegativeRemainder(n); (if index >= 0 then Some(AvatarColors[index]) else None)
      else if index >= 0 then Some(AvatarColors[index]) else None
  }

  /** A negative number leaves remainder -0, which indexes like 0, exactly when 4 divides it. */
  lemma NegativeRemainder(n: int)
    requires n < 0
    ensures TruncRem(n, 4) == 0 <==> n % 4 == 0
  {
    var m := -n;
    assert m % 4 == 0 ==> n == -(m / 4) * 4;
    assert n % 4 == 0 ==> m == -(n / 4) * 4;
  }

  /** A numeric id, such as those of the generated tutors, always has a colour. */
  lemma AvatarColorOfNumericId(n: nat)
    ensures GetAvatarColor(NatToString(n)) == Some(AvatarColors[n % 4])
  {
    ParseIntOfNatToString(n);
  }

  function TutorId(t: Tutor): string { t.id }

  class TutorsPage {
    var tutors: seq<Tutor>
    var searchQuery: string
    var deleteDialogOpen: bool
    var selectedTutor: Option<Tutor>

    ghost predicate Valid()
      reads this
    {
      deleteDialogOpen ==> selectedTutor.Some?
    }

    /** The page starts on the generated roster. */
    constructor(initial: seq<Tutor>)
      ensures tutors == initial && searchQuery == ""
      ensures !deleteDialogOpen && selectedTutor == None
      ensures Valid()
    {
      tutors := initial;
      searchQuery := "";
      deleteDialogOpen := false;
      selectedTutor := None;
    }

    function Visible(): (r: seq<Tutor>)
      reads this
      ensures forall t :: t in r <==> t in tutors && Matches(t, searchQuery)
      ensures forall t :: multiset(r)[t] == if Matches(t, searchQuery) then multiset(tutors)[t] else 0
      ensures IsSubsequence(r, tutors)
      ensures searchQuery == "" ==> r == tutors
    {
      Filtered(tutors, searchQuery)
    }

    method SetSearchQuery(query: string)
      modifies this
      ensures searchQuery == query
      ensures tutors == old(tutors) && deleteDialogOpen == old(deleteDialogOpen)
      ensures selectedTutor == old(selectedTutor)
    {
      searchQuery := query;
    }

    method HandleDelete(tutor: Tutor)
      modifies this
      ensures selectedTutor == Some(tutor) && deleteDialogOpen
      ensures tutors == old(tutors) && searchQuery == old(searchQuery)
      ensures Valid()
    {
      selectedTutor := Some(tutor);
      deleteDialogOpen := true;
    }

    method SetDeleteDialogOpen(open: bool)
      requires open ==> selectedTutor.Some?
      modifies this
      ensures deleteDialogOpen == open
      ensures tutors == old(tutors) && searchQuery == old(searchQuery)
      ensures selectedTutor == old(selectedTutor)
      ensures Valid()
    {
      deleteDialogOpen := open;
    }

    method ConfirmDelete()
      modifies this
      ensures old(selectedTutor).None? ==> unchanged(this)
      ensures old(selectedTutor).Some? ==>
        tutors == WithoutId(old(tutors), TutorId, old(selectedTutor).value.id)
        && !deleteDialogOpen && selectedTutor == None && searchQuery == old(searchQuery)
      ensures old(Valid()) ==> Valid()
    {
      if selectedTutor.Some? {
        tutors := WithoutId(tutors, TutorId, selectedTutor.value.id);
        deleteDialogOpen := false;
        selectedTutor := None;
      }
    }
  }
}
