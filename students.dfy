/**
 * The student list page: the derived e-mail of every student, the search box,
 * and delete with its confirmation dialog.
 */
module Students {
  import opened JsArray
  import opened JsString
  import opened Normalization
  import opened Types
  import opened Lists

  /** The characters an address is made of: ASCII letters and digits, '.' and '@'. */
  predicate EmailChars(s: string) {
    forall k | 0 <= k < |s| :: IsAsciiAlnum(s[k]) || s[k] == '.' || s[k] == '@'
  }

  lemma {:induction false} JoinCounts(a: string, sep: char, b: string, c: char)
    ensures Count(a + [sep] + b, c) == Count(a, c) + (if sep == c then 1 else 0) + Count(b, c)
  {
    CountAppend(a + [sep], b, c);
    CountAppend(a, [sep], c);
    assert [sep][1..] == [];
  }

  lemma JoinEmailChars(a: string, sep: char, b: string)
    requires EmailChars(a) && EmailChars(b) && (sep == '.' || sep == '@')
    ensures EmailChars(a + [sep] + b)
  {
    var s := a + [sep] + b;
    assert forall k | |a| + 1 <= k < |s| :: s[k] == b[k - |a| - 1];
  }

  lemma NoSeparatorInAlnum(s: string)
    requires forall k | 0 <= k < |s| :: IsAsciiAlnum(s[k])
    ensures EmailChars(s) && '.' !in s && '@' !in s
  {
  }

  /** A normalized text holds neither separator of an address. */
  lemma NormalizeHasNoSeparator(s: string)
    ensures EmailChars(Normalize(s))
    ensures Count(Normalize(s), '.') == 0 && Count(Normalize(s), '@') == 0
  {
    var n := Normalize(s);
    NoSeparatorInAlnum(n);
  }

  /**
   * `generateEmail(first, last, daara)`: `first.last@daara`, each part passed
   * through `normalize`. The address holds exactly one '@' and exactly one
   * '.', and nothing but ASCII letters, digits and those two separators.
   */
  function GenerateEmail(firstName: string, lastName: string, daaraName: string): (r: string)
    ensures Count(r, '@') == 1 && Count(r, '.') == 1
    ensures EmailChars(r)
  {
    var f, l, d := Normalize(firstName), Normalize(lastName), Normalize(daaraName);
    NormalizeHasNoSeparator(firstName);
    NormalizeHasNoSeparator(lastName);
    NormalizeHasNoSeparator(daaraName);
    var local := f + "." + l;
    JoinCounts(f, '.', l, '.');
    JoinCounts(f, '.', l, '@');
    JoinEmailChars(f, '.', l);
    JoinCounts(local, '@', d, '.');
    JoinCounts(local, '@', d, '@');
    JoinEmailChars(local, '@', d);
    local + "@" + d
  }

  /** The text before the first `c` and the text after it: `s.split(c)` read as a pair. */
  function SplitAtFirst(s: string, c: char): (r: (string, string))
    requires c in s
    ensures s == r.0 + [c] + r.1
    ensures c !in r.0
  {
    if s[0] == c then ([], s[1..])
    else
      var t := SplitAtFirst(s[1..], c);
      ([s[0]] + t.0, t.1)
  }

  lemma {:induction false} SplitAtFirstOf(a: string, c: char, b: string)
    requires c !in a
    ensures SplitAtFirst(a + [c] + b, c) == (a, b)
  {
    if a == [] {
      assert a + [c] + b == [c] + b;
      assert ([c] + b)[1..] == b;
    } else {
      assert (a + [c] + b)[0] == a[0];
      assert (a + [c] + b)[1..] == a[1..] + [c] + b;
      SplitAtFirstOf(a[1..], c, b);
      assert a[0] != c && [a[0]] + a[1..] == a;
    }
  }

  /**
   * The address reads back into its parts: the local part is
   * `normalize(first).normalize(last)` and the domain is `normalize(daara)`.
   */
  lemma GenerateEmailParts(firstName: string, lastName: string, daaraName: string)
    ensures var e := GenerateEmail(firstName, lastName, daaraName);
      SplitAtFirst(e, '@') == (Normalize(firstName) + "." + Normalize(lastName), Normalize(daaraName))
      && SplitAtFirst(SplitAtFirst(e, '@').0, '.') == (Normalize(firstName), Normalize(lastName))
  {
    var f, l, d := Normalize(firstName), Normalize(lastName), Normalize(daaraName);
    NormalizeHasNoSeparator(firstName);
    NormalizeHasNoSeparator(lastName);
    JoinCounts(f, '.', l, '@');
    SplitAtFirstOf(f + "." + l, '@', d);
    SplitAtFirstOf(f, '.', l);
  }

  /** Two students get the same address exactly when their normalized names and daara agree. */
  lemma GenerateEmailInjective(f1: string, l1: string, d1: string, f2: string, l2: string, d2: string)
    ensures GenerateEmail(f1, l1, d1) == GenerateEmail(f2, l2, d2)
      <==> Normalize(f1) == Normalize(f2) && Normalize(l1) == Normalize(l2) && Normalize(d1) == Normalize(d2)
  {
    GenerateEmailParts(f1, l1, d1);
    GenerateEmailParts(f2, l2, d2);
  }

  /**
   * `studentsWithEmails`: the same students in the same order, each with
   * its e-mail replaced by the generated one and every other property kept.
   */
  function WithEmails(students: seq<Student>): (r: seq<Student>)
    ensures |r| == |students|
    ensures forall k | 0 <= k < |r| ::
      r[k] == students[k].(email := GenerateEmail(students[k].firstName, students[k].lastName, students[k].establishmentName))
  {
    seq(|students|, k requires 0 <= k < |students| =>
      students[k].(email := GenerateEmail(students[k].firstName, students[k].lastName, students[k].establishmentName)))
  }

  /** The e-mail is computed from the other properties only, so recomputing it changes nothing. */
  lemma WithEmailsIdempotent(students: seq<Student>)
    ensures WithEmails(WithEmails(students)) == WithEmails(students)
  {
  }

  /** The texts the search box looks in: full name, e-mail, daara name. */
  function SearchFields(s: Student): seq<string> {
    [s.firstName + " " + s.lastName, s.email, s.establishmentName]
  }

  /** A student matches when the lower-cased query occurs in one of the searchable texts. */
  predicate Matches(s: Student, query: string) {
    Includes(ToLower(s.firstName + " " + s.lastName), ToLower(query))
    || Includes(ToLower(s.email), ToLower(query))
    || Includes(ToLower(s.establishmentName), ToLower(query))
  }

  lemma MatchesIsSearch(query: string)
    ensures forall s :: Matches(s, query) <==> SearchMatches(SearchFields(s), query)
  {
    forall s ensures Matches(s, query) ==> SearchMatches(SearchFields(s), query) {
      var fs := SearchFields(s);
      assert fs[0] == s.firstName + " " + s.lastName && fs[1] == s.email && fs[2] == s.establishmentName;
    }
  }

  /**
   * `filteredStudents`: in order, exactly the students whose full name,
   * e-mail or daara name contains the query, ignoring ASCII case; an empty
   * query keeps every student.
   */
  function Filtered(students: seq<Student>, query: string): (r: seq<Student>)
    ensures forall s :: s in r <==> s in students && Matches(s, query)
    ensures forall s :: multiset(r)[s] == if Matches(s, query) then multiset(students)[s] else 0
    ensures IsSubsequence(r, students)
    ensures query == "" ==> r == students
  {
    MatchesIsSearch(query);
    var r := Search(students, SearchFields, query);
    if query == "" then SearchEmptyQuery(students, SearchFields); r else r
  }

  lemma FilteredNarrows(students: seq<Student>, query: string, more: string)
    ensures IsSubsequence(Filtered(students, query + more), Filtered(students, query))
  {
    SearchNarrows(students, SearchFields, query, more);
  }

  function StudentId(s: Student): string { s.id }

  /** The state of the page. */
  class StudentsPage {
    var students: seq<Student>
    var searchQuery: string
    var deleteDialogOpen: bool
    var selectedStudent: Option<Student>

    /** The dialog is only ever open on a selected student. */
    ghost predicate Valid()
      reads this
    {
      deleteDialogOpen ==> selectedStudent.Some?
    }

    constructor(initial: seq<Student>)
      ensures students == initial && searchQuery == ""
      ensures !deleteDialogOpen && selectedStudent == None
      ensures Valid()
    {
      students := initial;
      searchQuery := "";
      deleteDialogOpen := false;
      selectedStudent := None;
    }

    /** The rows on screen. */
    function Visible(): (r: seq<Student>)
      reads this
      ensures forall s :: s in r <==> s in WithEmails(students) && Matches(s, searchQuery)
      ensures forall s :: multiset(r)[s] == if Matches(s, searchQuery) then multiset(WithEmails(students))[s] else 0
      ensures IsSubsequence(r, WithEmails(students))
      ensures searchQuery == "" ==> r == WithEmails(students)
    {
      Filtered(WithEmails(students), searchQuery)
    }

    method SetSearchQuery(query: string)
      modifies this
      ensures searchQuery == query
      ensures students == old(students) && deleteDialogOpen == old(deleteDialogOpen)
      ensures selectedStudent == old(selectedStudent)
    {
      searchQuery := query;
    }

    /** `handleDelete`: remembers the student and opens the dialog; the list is untouched. */
    method HandleDelete(student: Student)
      modifies this
      ensures selectedStudent == Some(student) && deleteDialogOpen
      ensures students == old(students) && searchQuery == old(searchQuery)
      ensures Valid()
    {
      selectedStudent := Some(student);
      deleteDialogOpen := true;
    }

    /** The dialog's `onOpenChange` and its cancel button: the selection is kept. */
    method SetDeleteDialogOpen(open: bool)
      requires open ==> selectedStudent.Some?
      modifies this
      ensures deleteDialogOpen == open
      ensures students == old(students) && searchQuery == old(searchQuery)
      ensures selectedStudent == old(selectedStudent)
      ensures Valid()
    {
      deleteDialogOpen := open;
    }

    /**
     * `confirmDelete`: with a selected student, removes every student with
     * its id, keeping the others in order, then closes the dialog and clears
     * the selection; with none, changes nothing.
     */
    method ConfirmDelete()
      modifies this
      ensures old(selectedStudent).None? ==> unchanged(this)
      ensures old(selectedStudent).Some? ==>
        students == WithoutId(old(students), StudentId, old(selectedStudent).value.id)
        && !deleteDialogOpen && selectedStudent == None && searchQuery == old(searchQuery)
      ensures old(Valid()) ==> Valid()
    {
      if selectedStudent.Some? {
        students := WithoutId(students, StudentId, selectedStudent.value.id);
        deleteDialogOpen := false;
        selectedStudent := None;
      }
    }
  }
}
