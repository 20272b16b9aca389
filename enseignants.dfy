/**
 * The teacher list page. Its records are `Tutor`s; its search box and
 * initials are those of the tutor list, while the generator, the ids and the
 * avatar colours are its own.
 */
module Enseignants {
  import opened JsArray
  import opened JsString
  import opened JsNumber
  import opened Types
  import opened Lists
  import Tutors

  const Specializations: seq<string> :=
    ["Hifz", "Tajwid", "Fiqh", "Arabe", "Fran\U{00E7}ais", "Histoire"]

  /** Number of teachers the generator produces. */
  const MockEnseignantCount := 10

  /** The teacher e-mail: first and last name lower-cased, the daara name without whitespace, ".sn". */
  function MockEmail(firstName: string, lastName: string, estName: string): (r: string)
    ensures forall k | 0 <= k < |r| :: !IsAsciiUpper(r[k])
    ensures |r| >= 3 && r[|r| - 3..] == ".sn"
  {
    ToLower(firstName) + "." + ToLower(lastName) + "@" + ToLower(RemoveWhitespace(estName)) + ".sn"
  }

  /** The teacher e-mail differs from the tutor e-mail only in its last two letters. */
  lemma MockEmailDiffersFromTutorsOnlyInSuffix(firstName: string, lastName: string, estName: string)
    ensures var e, t := MockEmail(firstName, lastName, estName), Tutors.MockEmail(firstName, lastName, estName);
      |e| == |t| && e[..|e| - 2] == t[..|t| - 2] && e[|e| - 2..] == "sn" && t[|t| - 2..] == "fr"
  {
  }

  /** The id of the `i`-th generated teacher, `e-${i}`: "e-" followed by at least one digit. */
  function EnseignantId(i: nat): (r: string)
    ensures |r| >= 3 && r[0] == 'e' && r[1] == '-'
  {
    "e-" + NatToString(i)
  }

  /** After the prefix come only digits. */
  lemma EnseignantIdDigits(i: nat)
    ensures forall k | 2 <= k < |EnseignantId(i)| :: IsAsciiDigit(EnseignantId(i)[k])
  {
  }

  lemma EnseignantIdInjective(i: nat, j: nat)
    requires EnseignantId(i) == EnseignantId(j)
    ensures i == j
  {
    assert NatToString(i) == EnseignantId(i)[2..];
    assert NatToString(j) == EnseignantId(j)[2..];
    NatToStringInjective(i, j);
  }

  /** The teacher built in iteration `i`: between 8 and 37 students. */
  function MockEnseignant(i: nat, d: Tutors.Draw, establishments: seq<Establishment>, now: Date): (t: Tutor)
    requires establishments != []
    ensures t.id == EnseignantId(i)
    ensures var est := establishments[d.establishment % |establishments|];
      t.establishmentId == est.id && t.establishmentName == est.name
    ensures 8 <= t.studentCount <= 37
    ensures t.status == (if d.active then Active else Inactive)
    ensures t.email == MockEmail(t.firstName, t.lastName, t.establishmentName)
    ensures t.avatar.None? && t.createdAt == now
  {
    var firstName := Tutors.FirstNames[d.firstName % |Tutors.FirstNames|];
    var lastName := Tutors.LastNames[d.lastName % |Tutors.LastNames|];
    var specialization := Specializations[d.specialization % |Specializations|];
    var est := establishments[d.establishment % |establishments|];
    var phone := "+221 77 " + NatToString(100000 + d.phone % 900000);
    Tutor(EnseignantId(i), firstName, lastName, MockEmail(firstName, lastName, est.name), phone,
          specialization, est.id, est.name, if d.active then Active else Inactive,
          d.studentCount % 30 + 8, None, now)
  }

  /** Names come from the tutor lists, the specialization from the teachers' own list. */
  lemma MockEnseignantFromLists(i: nat, d: Tutors.Draw, establishments: seq<Establishment>, now: Date)
    requires establishments != []
    ensures var t := MockEnseignant(i, d, establishments, now);
      t.firstName in Tutors.FirstNames && t.lastName in Tutors.LastNames && t.specialization in Specializations
  {
  }

  /**
   * `generateMockEnseignants(establishments)`: no establishment, no teacher;
   * otherwise 10 teachers with ids "e-1" to "e-10" in order, teacher `k`
   * built from the draws and the clock reading of iteration `k + 1`.
   */
  method GenerateMockEnseignants(establishments: seq<Establishment>, draws: nat -> Tutors.Draw, clock: nat -> Date)
    returns (list: seq<Tutor>)
    ensures establishments == [] ==> list == []
    ensures establishments != [] ==> |list| == MockEnseignantCount
    ensures establishments != [] ==> forall k | 0 <= k < |list| ::
      list[k] == MockEnseignant(k + 1, draws(k + 1), establishments, clock(k + 1))
    ensures forall k | 0 <= k < |list| :: list[k].id == EnseignantId(k + 1) && 8 <= list[k].studentCount <= 37
  {
    if establishments == [] {
      return [];
    }
    list := [];
    for i := 1 to MockEnseignantCount + 1
      invariant |list| == i - 1
      invariant forall k | 0 <= k < |list| :: list[k] == MockEnseignant(k + 1, draws(k + 1), establishments, clock(k + 1))
      invariant forall k | 0 <= k < |list| :: list[k].id == EnseignantId(k + 1) && 8 <= list[k].studentCount <= 37
    {
      var enseignant := MockEnseignant(i, draws(i), establishments, clock(i));
      ghost var before := list;
      list := list + [enseignant];
      assert forall k | 0 <= k < |before| :: list[k] == before[k];
      assert list[i - 1] == enseignant;
    }
  }

  const AvatarColors: seq<string> := ["bg-primary", "bg-secondary", "bg-accent", "bg-warning", "bg-success"]

  /** `getAvatarColor(id)`: `colors[id.length % 5]`, always one of the five colours. */
  function GetAvatarColor(id: string): (r: string)
    ensures r in AvatarColors
    ensures |id| < 5 ==> r == AvatarColors[|id|]
    ensures |id| >= 5 ==> r == GetAvatarColor(id[5..])
  {
    assert |id| >= 5 ==> (|id| - 5) % 5 == |id| % 5;
    AvatarColors[|id| % |AvatarColors|]
  }

  /** Generated ids "e-1" to "e-9" all get the fourth colour, "e-10" the fifth. */
  lemma AvatarColorOfGenerated(i: nat)
    requires 1 <= i <= MockEnseignantCount
    ensures GetAvatarColor(EnseignantId(i)) == if i < 10 then "bg-warning" else "bg-success"
  {
    if i >= 10 {
      assert NatToString(i) == NatToString(1) + [DigitChar(0)];
    }
  }

  function EnseignantIdOf(t: Tutor): string { t.id }

  class EnseignantsPage {
    var enseignants: seq<Tutor>
    var searchQuery: string
    var deleteDialogOpen: bool
    var selected: Option<Tutor>

    ghost predicate Valid()
      reads this
    {
      deleteDialogOpen ==> selected.Some?
    }

    constructor(initial: seq<Tutor>)
      ensures enseignants == initial && searchQuery == ""
      ensures !deleteDialogOpen && selected == None
      ensures Valid()
    {
      enseignants := initial;
      searchQuery := "";
      deleteDialogOpen := false;
      selected := None;
    }

    /** `filtered`: the same test as on the tutor list. */
    function Visible(): (r: seq<Tutor>)
      reads this
      ensures forall t :: t in r <==> t in enseignants && Tutors.Matches(t, searchQuery)
      ensures forall t :: multiset(r)[t] == if Tutors.Matches(t, searchQuery) then multiset(enseignants)[t] else 0
      ensures IsSubsequence(r, enseignants)
      ensures searchQuery == "" ==> r == enseignants
    {
      Tutors.Filtered(enseignants, searchQuery)
    }

    method SetSearchQuery(query: string)
      modifies this
      ensures searchQuery == query
      ensures enseignants == old(enseignants) && deleteDialogOpen == old(deleteDialogOpen)
      ensures selected == old(selected)
    {
      searchQuery := query;
    }

    method HandleDelete(e: Tutor)
      modifies this
      ensures selected == Some(e) && deleteDialogOpen
      ensures enseignants == old(enseignants) && searchQuery == old(searchQuery)
      ensures Valid()
    {
      selected := Some(e);
      deleteDialogOpen := true;
    }

    method SetDeleteDialogOpen(open: bool)
      requires open ==> selected.Some?
      modifies this
      ensures deleteDialogOpen == open
      ensures enseignants == old(enseignants) && searchQuery == old(searchQuery)
      ensures selected == old(selected)
      ensures Valid()
    {
      deleteDialogOpen := open;
    }

    method ConfirmDelete()
      modifies this
      ensures old(selected).None? ==> unchanged(this)
      ensures old(selected).Some? ==>
        enseignants == WithoutId(old(enseignants), EnseignantIdOf, old(selected).value.id)
        && !deleteDialogOpen && selected == None && searchQuery == old(searchQuery)
      ensures old(Valid()) ==> Valid()
    {
      if selected.Some? {
        enseignants := WithoutId(enseignants, EnseignantIdOf, selected.value.id);
        deleteDialogOpen := false;
        selected := None;
      }
    }
  }
}
