# Gestion des daara — a Dafny model of the admin front-end's logic

The application is a React administration front-end for the daaras
(Qur'anic schools) of Senegal. It runs on in-memory data. Its pages list
establishments, tutors, teachers (*enseignants*) and students (*talibés*),
and offer a create/edit form for each. This project models the logic
behind those pages:

- **Derived e-mail addresses.** A `normalize` helper strips accents,
  whitespace and everything but ASCII letters and digits. It feeds the
  `first.last@daara` address of the student list and the student form, and
  the lower-cased `first.last@daara.sn` address of the teacher form. The
  mock roster generators build their own lower-cased addresses: `.fr` for
  tutors and `.sn` for teachers. Each variant is modelled exactly as its
  file writes it; they are not unified.
- **The form state machines.** Each `formData` record is a class field,
  updated field by field by the input handlers. The student and academic
  forms clear the tutor when the establishment changes. The student and
  teacher forms run an e-mail effect under a guard. The effect is modelled
  as a step run after every update, and each class keeps the invariant that
  the effect has nothing left to do.
- **The required-field checks** of every form's `handleSubmit`, and the
  presence check of the login page.
- **The list pages.** Each has a case-insensitive search box, delete-by-id
  behind a confirmation dialog, and the selection and dialog state in a
  class. The mock tutor and teacher generators are imperative loops.
- **The side bar.** Its navigation table, its active-entry rule and its
  collapse toggle.

Shared modules hold the JavaScript built-ins the pages rely on:

- `JsArray`: `filter` and `find`, with `undefined` as `None`.
- `JsString`: ASCII `toLowerCase`/`toUpperCase`, `includes`, `startsWith`,
  `trim` and the `\s` class.
- `JsNumber`: `toString` of naturals, `parseInt`, and the truncating `%`.

`Normalization` holds the `normalize` helper that three pages define
identically. `Lists` holds the search and delete-by-id operations, and
`Forms` what the forms share.

## Model

| member | source | states |
|---|---|---|
| Normalization.Normalize | src/pages/Students.tsx:55-60 | the result holds only ASCII letters and digits, case unchanged; it is exactly the letters and digits of the NFD-decomposed input, in order (combining marks and whitespace never survive the last step anyway) |
| Normalization.NormalizeIdempotent | src/pages/Students.tsx:55-60 | `normalize(normalize(s)) == normalize(s)` |
| Normalization.NormalizeAppend | src/pages/Students.tsx:55-60 | `normalize` distributes over concatenation |
| Normalization.NormalizeBelowLatin1 | src/pages/Students.tsx:55-60 | on text below U+00C0 the helper keeps exactly the ASCII letters and digits |
| Normalization.NormalizeIgnoresWhitespace | src/pages/Students.tsx:59 | inserting whitespace anywhere in a name leaves its normal form unchanged |
| Normalization.NormalizeOfWhitespace | src/pages/Students.tsx:59 | a whitespace-only text normalizes to "" |
| Normalization.NormalizeDropsTrailingWhitespace | src/pages/Students.tsx:59 | trailing whitespace does not change the normal form |
| Normalization.NormalizeAsciiWord | src/pages/Students.tsx:60 | an ASCII alphanumeric word is its own normal form |
| Normalization.NormalizeAccentedLetter | src/pages/Students.tsx:57-58 | every accented letter of U+00C0..U+00FF normalizes to its ASCII base letter, in its own case |
| Normalization.NormalizeUndecomposedLetter | src/pages/Students.tsx:57-60 | the other characters of U+00C0..U+00FF (Æ, ß, Ø, ×, …) normalize to "" |
| Normalization.NormalizeEAcute | src/pages/Students.tsx:57-60 | "é" normalizes to "e" |
| Normalization.NormalizeEmpty | src/pages/Students.tsx:55-60 | "" normalizes to "" |
| Normalization.DecomposeAppend | src/pages/Students.tsx:57 | NFD, modelled character by character, distributes over concatenation |
| Normalization.DecomposeOutsideLatin1 | src/pages/Students.tsx:57 | text without Latin-1 letters is already in NFD |
| Students.GenerateEmail | src/pages/Students.tsx:54-62 | the address has exactly one '@' and exactly one '.', and holds only ASCII letters, digits and those two separators |
| Students.GenerateEmailParts | src/pages/Students.tsx:61 | splitting at the first '@' and then at the first '.' gives back `normalize(first)`, `normalize(last)` and `normalize(daara)` |
| Students.GenerateEmailInjective | src/pages/Students.tsx:61 | two students share an address iff their normalized first names, last names and daara names agree |
| Students.NormalizeHasNoSeparator | src/pages/Students.tsx:60-61 | a normalized part contains neither '.' nor '@' |
| Students.SplitAtFirst | src/pages/Students.tsx:61 | the two halves around the first `c` rebuild the text, and the first half has no `c` |
| Students.SplitAtFirstOf | src/pages/Students.tsx:61 | splitting `a + c + b` at `c` when `a` has no `c` gives back `(a, b)` |
| Students.WithEmails | src/pages/Students.tsx:72-75 | same length and order as `students`; each record has only its e-mail replaced, by `generateEmail(first, last, establishmentName)` |
| Students.WithEmailsIdempotent | src/pages/Students.tsx:72-75 | recomputing the e-mails of recomputed records changes nothing |
| Students.MatchesIsSearch | src/pages/Students.tsx:78-81 | the page's three-way test is the shared search test over full name, e-mail and daara name |
| Students.Filtered | src/pages/Students.tsx:77-82 | keeps exactly the students matching the lower-cased query, each as often as it occurs, as an order-preserving subsequence; an empty query keeps all |
| Students.FilteredNarrows | src/pages/Students.tsx:77-82 | extending the query yields a subsequence of the previous result |
| Students.StudentsPage.constructor | src/pages/Students.tsx:66-69 | starts on the given list, empty query, dialog closed, nothing selected |
| Students.StudentsPage.Visible | src/pages/Students.tsx:72-82 | the rows on screen are exactly the students, with their e-mails, that match the query, each as often as it occurs and in order; all of them for an empty query |
| Students.StudentsPage.SetSearchQuery | src/pages/Students.tsx:135 | sets the query; list, dialog and selection unchanged |
| Students.StudentsPage.HandleDelete | src/pages/Students.tsx:84-87 | selects the student and opens the dialog; list and query untouched |
| Students.StudentsPage.SetDeleteDialogOpen | src/pages/Students.tsx:263 | sets the dialog flag; list, query and selection untouched |
| Students.StudentsPage.ConfirmDelete | src/pages/Students.tsx:89-95 | with a selection: removes every student with its id, keeping the others in order, then closes the dialog and clears the selection; without one: nothing changes |
| StudentForm.WithText | src/pages/StudentForm.tsx:130-186 | editing one text input changes that field and no other |
| StudentForm.ExistingStudent | src/pages/StudentForm.tsx:29-31 | a record is found only with a non-empty route id and carries that id; one is found whenever a student has it, and it is the first in the list with that id |
| StudentForm.InitialForm | src/pages/StudentForm.tsx:33-46 | a new student starts with every text "" and status enrolled; an existing one with its own values, tutor "" when absent, birth date as its ISO day |
| StudentForm.FindEstablishment | src/pages/StudentForm.tsx:55 | `None` iff no establishment has the id; otherwise the first establishment in the list with that id |
| StudentForm.GenerateEmail | src/pages/StudentForm.tsx:54-68 | "" iff no establishment has the id; otherwise the list page's address built from the name of the first establishment with that id |
| StudentForm.EmailEffect | src/pages/StudentForm.tsx:71-78 | only the e-mail ever changes; it is rewritten iff first name, last name and establishment are all non-empty, edit mode included |
| StudentForm.EmailEffectIdempotent | src/pages/StudentForm.tsx:71-78 | a second run of the effect changes nothing |
| StudentForm.EffectSettledAfterOtherEdit | src/pages/StudentForm.tsx:78 | editing a field outside the effect's dependencies in a settled form leaves nothing for the effect to do |
| StudentForm.Submit | src/pages/StudentForm.tsx:80-94 | fails iff first name, last name or establishment is empty; e-mail, phone and tutor are not required |
| StudentForm.StudentFormPage.constructor | src/pages/StudentForm.tsx:27-46 | initial values then the first run of the effect; the effect invariant holds |
| StudentForm.StudentFormPage.AvailableTutors | src/pages/StudentForm.tsx:49-51 | exactly the active tutors of the selected establishment, in order and with their multiplicities |
| StudentForm.StudentFormPage.EditText | src/pages/StudentForm.tsx:130-186 | the field update followed by the effect; the invariant is kept |
| StudentForm.StudentFormPage.SelectEstablishment | src/pages/StudentForm.tsx:202-206 | sets the establishment and clears the tutor, then runs the effect; nothing else changes |
| StudentForm.StudentFormPage.SelectTutor | src/pages/StudentForm.tsx:224 | only the tutor changes |
| EnseignantForm.GenerateEmail | src/pages/EnseignantForm.tsx:21-25 | no upper-case ASCII letter in the address, which ends in ".sn" |
| EnseignantForm.GenerateEmailIsLoweredStudentEmail | src/pages/EnseignantForm.tsx:24 | the address is the student address lower-cased, followed by ".sn" |
| EnseignantForm.GenerateEmailWithoutDaara | src/pages/EnseignantForm.tsx:24 | a daara name with no letter or digit leaves the domain "@.sn" |
| EnseignantForm.LowerWithSuffix | src/pages/EnseignantForm.tsx:24 | lower-casing leaves the ".sn" and "@" suffixes as they are |
| EnseignantForm.WithText | src/pages/EnseignantForm.tsx:90-139 | editing one text input changes that field and no other |
| EnseignantForm.StateRecordWithoutIdCreates | src/pages/EnseignantForm.tsx:31-32 | a record in the location state without a route id (absent or "") does not switch to edit mode: the form takes its values, and once names and establishment are filled the effect still rewrites its e-mail |
| EnseignantForm.InitialForm | src/pages/EnseignantForm.tsx:34-42 | the location-state record's values, switch on iff it is active; empty texts and switch off without one |
| EnseignantForm.DaaraName | src/pages/EnseignantForm.tsx:46 | "" when no establishment has the id; otherwise the name of the first establishment with that id |
| EnseignantForm.EmailEffect | src/pages/EnseignantForm.tsx:44-49 | only the e-mail changes; never in edit mode; in create mode iff the three inputs are filled |
| EnseignantForm.UnknownEstablishmentEmail | src/pages/EnseignantForm.tsx:46-47 | an establishment id matching nothing yields an address ending in "@.sn" |
| EnseignantForm.Submit | src/pages/EnseignantForm.tsx:51-59 | fails iff first name, last name, e-mail or establishment is empty |
| EnseignantForm.CreatedEmailNeverEmpty | src/pages/EnseignantForm.tsx:44-56 | in create mode, once the three inputs are filled, the effect's e-mail lets the submit succeed |
| EnseignantForm.EnseignantFormPage.constructor | src/pages/EnseignantForm.tsx:29-49 | edit mode per `Boolean(id && existing)`, initial values, then the effect; in edit mode the initial values stand |
| EnseignantForm.EnseignantFormPage.EditText | src/pages/EnseignantForm.tsx:90-139 | the field update followed by the effect; in edit mode the update alone |
| EnseignantForm.EnseignantFormPage.SelectEstablishment | src/pages/EnseignantForm.tsx:148 | sets the establishment and clears nothing, then runs the effect |
| EnseignantForm.EnseignantFormPage.SetStatus | src/pages/EnseignantForm.tsx:177 | only the status switch changes |
| AcademicForm.ExistingItem | src/pages/AcademicForm.tsx:24-26 | a record is found only with a non-empty route id and carries that id; one is found whenever an item has it, and it is the first in the list with that id |
| AcademicForm.InitialForm | src/pages/AcademicForm.tsx:28-38 | a new item is an empty draft course with no due date; an existing one keeps its values, due date as its ISO day or "" |
| AcademicForm.NewItemHidesDueDate | src/pages/AcademicForm.tsx:28-38 | a new item is a draft course, for which no due-date input is shown |
| AcademicForm.DueDateShown | src/pages/AcademicForm.tsx:143 | the due-date input is shown iff the type is neither a course nor a sourate, and only for a type the select offers |
| AcademicForm.Submit | src/pages/AcademicForm.tsx:40-54 | fails iff title, establishment or tutor is empty; description and due date are optional |
| AcademicForm.WithEstablishment | src/pages/AcademicForm.tsx:166-170 | sets the establishment, clears the tutor, leaves every other field |
| AcademicForm.ChangingEstablishmentRequiresTutor | src/pages/AcademicForm.tsx:166-170 | right after a change of establishment the form cannot be saved |
| AcademicForm.AcademicFormPage.constructor | src/pages/AcademicForm.tsx:22-38 | edit mode iff a non-empty route id; the initial values |
| AcademicForm.AcademicFormPage.AvailableTutors | src/pages/AcademicForm.tsx:57-59 | exactly the active tutors of the selected establishment, in order and with their multiplicities |
| AcademicForm.AcademicFormPage.SetTitle | src/pages/AcademicForm.tsx:95 | only the title changes |
| AcademicForm.AcademicFormPage.SetType | src/pages/AcademicForm.tsx:104 | only the type changes; a due date already typed is kept even when its input is hidden |
| AcademicForm.AcademicFormPage.SetStatus | src/pages/AcademicForm.tsx:121 | only the status changes |
| AcademicForm.AcademicFormPage.SetDescription | src/pages/AcademicForm.tsx:138 | only the description changes |
| AcademicForm.AcademicFormPage.SetDueDate | src/pages/AcademicForm.tsx:143-150 | only the due date changes, and only while its input is shown |
| AcademicForm.AcademicFormPage.SelectEstablishment | src/pages/AcademicForm.tsx:166-170 | establishment set and tutor cleared, nothing else |
| AcademicForm.AcademicFormPage.SelectTutor | src/pages/AcademicForm.tsx:188 | only the tutor changes |
| Forms.CheckRequired | src/pages/StudentForm.tsx:83 | the check fails iff one of the required fields is ""; success carries the edit flag |
| Forms.AvailableTutors | src/pages/StudentForm.tsx:49-51 | exactly the active tutors of the establishment, in order and with their multiplicities |
| Forms.NoTutorsWithoutEstablishment | src/pages/StudentForm.tsx:49-51 | with no establishment selected no tutor is offered, since every tutor has an establishment |
| Lists.Search | src/pages/Tutors.tsx:81-86 | keeps exactly the records one of whose texts contains the query, ignoring ASCII case, each as often as it occurs, in order |
| Lists.SearchEmptyQuery | src/pages/Tutors.tsx:81-86 | an empty query keeps every record |
| Lists.SearchNarrows | src/pages/Tutors.tsx:81-86 | typing more characters only hides rows, never reorders them |
| Lists.WithoutId | src/pages/Tutors.tsx:95 | removes exactly the records with the id; the others stay in order with their multiplicities |
| Lists.WithoutAbsentId | src/pages/Tutors.tsx:95 | deleting an id no record carries changes nothing |
| Lists.WithoutIdTwice | src/pages/Tutors.tsx:95 | deleting an id twice is deleting it once |
| Tutors.MockEmail | src/pages/Tutors.tsx:53 | no upper-case ASCII letter in the address, which ends in ".fr" |
| Tutors.MockEmailIsLowered | src/pages/Tutors.tsx:53 | lower-casing each part is lower-casing the whole address |
| Tutors.MockTutor | src/pages/Tutors.tsx:46-68 | id `i.toString()`; establishment id and name from one input establishment; 5 to 29 students; the status drawn; the e-mail built from the record's own names |
| Tutors.MockTutorFromLists | src/pages/Tutors.tsx:39-48 | names and specialization come from the fixed lists |
| Tutors.GenerateMockTutors | src/pages/Tutors.tsx:37-72 | [] without establishments; otherwise 12 tutors, the `k`-th built from the draws and the clock reading of iteration `k + 1`, ids "1".."12", 5 to 29 students each |
| Tutors.MockTutorIdsDistinct | src/pages/Tutors.tsx:57 | tutors of different iterations have different ids |
| Tutors.MatchesIsSearch | src/pages/Tutors.tsx:82-85 | the page's three-way test is the shared search test over full name, specialization and daara name |
| Tutors.Filtered | src/pages/Tutors.tsx:81-86 | keeps exactly the tutors matching the lower-cased query, each as often as it occurs, as an order-preserving subsequence; an empty query keeps all |
| Tutors.FilteredNarrows | src/pages/Tutors.tsx:81-86 | extending the query yields a subsequence of the previous result |
| Tutors.GetInitials | src/pages/Tutors.tsx:101-103 | the two first letters upper-cased for non-empty names; "UNDEFINED" first for an empty first name; never a lower-case ASCII letter |
| Tutors.GetAvatarColor | src/pages/Tutors.tsx:105-108 | a colour iff `parseInt(id)` is a number that is non-negative or divisible by 4, and then `colors[n % 4]` (index 0 for -0) |
| Tutors.NegativeRemainder | src/pages/Tutors.tsx:107 | for a negative number JavaScript's `% 4` is zero iff 4 divides it |
| Tutors.AvatarColorOfNumericId | src/pages/Tutors.tsx:105-108 | a numeric id `n` gets `colors[n % 4]` |
| Tutors.TutorsPage.constructor | src/pages/Tutors.tsx:76-79 | starts on the given roster, empty query, dialog closed, nothing selected |
| Tutors.TutorsPage.Visible | src/pages/Tutors.tsx:81-86 | the rows on screen are exactly the tutors of the roster that match the query, each as often as it occurs and in order; all of them for an empty query |
| Tutors.TutorsPage.SetSearchQuery | src/pages/Tutors.tsx:139 | sets the query; roster, dialog and selection unchanged |
| Tutors.TutorsPage.HandleDelete | src/pages/Tutors.tsx:88-91 | selects the tutor and opens the dialog; roster and query untouched |
| Tutors.TutorsPage.SetDeleteDialogOpen | src/pages/Tutors.tsx:250 | sets the dialog flag; roster, query and selection untouched |
| Tutors.TutorsPage.ConfirmDelete | src/pages/Tutors.tsx:93-99 | with a selection: removes every tutor with its id, in order, then closes the dialog and clears the selection; without one: nothing changes |
| Enseignants.MockEmail | src/pages/Enseignants.tsx:52 | no upper-case ASCII letter in the address, which ends in ".sn" |
| Enseignants.MockEmailDiffersFromTutorsOnlyInSuffix | src/pages/Enseignants.tsx:52 | the teacher address equals the tutor address but for "sn" in place of "fr" |
| Enseignants.EnseignantId | src/pages/Enseignants.tsx:54 | every id is "e-" followed by at least one character |
| Enseignants.EnseignantIdDigits | src/pages/Enseignants.tsx:54 | after the "e-" prefix the id holds only decimal digits |
| Enseignants.EnseignantIdInjective | src/pages/Enseignants.tsx:54 | different iterations give different ids |
| Enseignants.MockEnseignant | src/pages/Enseignants.tsx:45-65 | id `e-${i}`; establishment id and name from one input establishment; 8 to 37 students; the status drawn; the e-mail built from the record's own names |
| Enseignants.MockEnseignantFromLists | src/pages/Enseignants.tsx:39-47 | names from the shared lists, specialization from the teachers' list |
| Enseignants.GenerateMockEnseignants | src/pages/Enseignants.tsx:37-68 | [] without establishments; otherwise 10 teachers, the `k`-th built from the draws and the clock reading of iteration `k + 1`, ids "e-1".."e-10", 8 to 37 students each |
| Enseignants.GetAvatarColor | src/pages/Enseignants.tsx:98-101 | always one of the five colours: that of index `id.length` for ids shorter than 5, and the same colour as the id with five characters fewer otherwise |
| Enseignants.AvatarColorOfGenerated | src/pages/Enseignants.tsx:98-101 | "e-1".."e-9" get "bg-warning", "e-10" gets "bg-success" |
| Enseignants.EnseignantsPage.constructor | src/pages/Enseignants.tsx:72-75 | starts on the given roster, empty query, dialog closed, nothing selected |
| Enseignants.EnseignantsPage.Visible | src/pages/Enseignants.tsx:77-82 | the rows on screen are exactly the teachers of the roster that match the query, each as often as it occurs and in order; all of them for an empty query |
| Enseignants.EnseignantsPage.SetSearchQuery | src/pages/Enseignants.tsx:130 | sets the query; roster, dialog and selection unchanged |
| Enseignants.EnseignantsPage.HandleDelete | src/pages/Enseignants.tsx:84-87 | selects the teacher and opens the dialog; roster and query untouched |
| Enseignants.EnseignantsPage.SetDeleteDialogOpen | src/pages/Enseignants.tsx:244 | sets the dialog flag; roster, query and selection untouched |
| Enseignants.EnseignantsPage.ConfirmDelete | src/pages/Enseignants.tsx:89-95 | with a selection: removes every teacher with its id, in order, then closes the dialog and clears the selection; without one: nothing changes |
| Establishments.MatchesIsSearch | src/pages/Establishments.tsx:59-62 | the page's three-way test is the shared search test over name, city and country |
| Establishments.Filtered | src/pages/Establishments.tsx:58-63 | keeps exactly the establishments matching the lower-cased query, each as often as it occurs, as an order-preserving subsequence; an empty query keeps all |
| Establishments.FilteredNarrows | src/pages/Establishments.tsx:58-63 | extending the query yields a subsequence of the previous result |
| Establishments.EstablishmentsPage.constructor | src/pages/Establishments.tsx:53-56 | starts on the given list, empty query, dialog closed, nothing selected |
| Establishments.EstablishmentsPage.Visible | src/pages/Establishments.tsx:58-63 | the rows on screen are exactly the establishments of the list that match the query, each as often as it occurs and in order; all of them for an empty query |
| Establishments.EstablishmentsPage.SetSearchQuery | src/pages/Establishments.tsx:107 | sets the query; list, dialog and selection unchanged |
| Establishments.EstablishmentsPage.HandleDelete | src/pages/Establishments.tsx:65-68 | selects the establishment and opens the dialog; list and query untouched |
| Establishments.EstablishmentsPage.SetDeleteDialogOpen | src/pages/Establishments.tsx:200 | sets the dialog flag; list, query and selection untouched |
| Establishments.EstablishmentsPage.ConfirmDelete | src/pages/Establishments.tsx:70-76 | with a selection: removes every establishment with its id, in order, then closes the dialog and clears the selection; without one: nothing changes |
| Sidebar.NavigationHrefs | src/components/layout/Sidebar.tsx:16-23 | six entries with pairwise distinct hrefs, none but "/" a prefix of another |
| Sidebar.IsActive | src/components/layout/Sidebar.tsx:62-63 | an entry is active on its own href; when active, its href is a prefix of the path; the dashboard "/" is active on "/" alone |
| Sidebar.DashboardOnlyOnRoot | src/components/layout/Sidebar.tsx:62-63 | the dashboard entry is active on "/" and nowhere else |
| Sidebar.AtMostOneActive | src/components/layout/Sidebar.tsx:62-63 | on any path at most one entry is active |
| Sidebar.SubRouteActivatesTutors | src/components/layout/Sidebar.tsx:63 | every path starting with "/tutors" activates the tutors entry |
| Sidebar.PrefixAgrees | src/components/layout/Sidebar.tsx:63 | a text agrees with each of its prefixes position by position |
| Sidebar.SidebarState.constructor | src/components/layout/Sidebar.tsx:26 | the side bar starts expanded |
| Sidebar.SidebarState.Toggle | src/components/layout/Sidebar.tsx:52 | the flag flips, so two toggles restore it |
| TutorForm.WithText | src/pages/TutorForm.tsx:88-136 | editing one text input changes that field and no other |
| TutorForm.ExistingTutor | src/pages/TutorForm.tsx:24-26 | a record is found only with a non-empty route id and carries that id; one is found whenever a tutor has it, and it is the first in the list with that id |
| TutorForm.InitialForm | src/pages/TutorForm.tsx:28-36 | a new tutor starts with every text "" and the switch off; an existing one with its values, switch on iff active |
| TutorForm.Submit | src/pages/TutorForm.tsx:38-52 | fails iff first name, last name, e-mail or establishment is empty |
| TutorForm.OptionalFieldsIgnored | src/pages/TutorForm.tsx:41 | phone and specialization never affect the outcome |
| TutorForm.TutorFormPage.constructor | src/pages/TutorForm.tsx:22-36 | edit mode iff a non-empty route id; the initial values |
| TutorForm.TutorFormPage.EditText | src/pages/TutorForm.tsx:88-136 | only the edited field changes |
| TutorForm.TutorFormPage.SelectEstablishment | src/pages/TutorForm.tsx:145 | only the establishment changes |
| TutorForm.TutorFormPage.SetStatus | src/pages/TutorForm.tsx:175 | only the status switch changes |
| EstablishmentForm.WithText | src/pages/EstablishmentForm.tsx:98-221 | editing one text input changes that field and no other; the type is untouched |
| EstablishmentForm.ExistingEstablishment | src/pages/EstablishmentForm.tsx:25-27 | a record is found only with a non-empty route id and carries that id; one is found whenever an establishment has it, and it is the first in the list with that id |
| EstablishmentForm.InitialForm | src/pages/EstablishmentForm.tsx:29-39 | the type is always daara; the country is the record's, or "Sénégal" when there is none or it is ""; switch on iff active |
| EstablishmentForm.InitialCountryNeverEmpty | src/pages/EstablishmentForm.tsx:34 | the initial country is never "" |
| EstablishmentForm.Submit | src/pages/EstablishmentForm.tsx:41-56 | fails iff name, city or e-mail is empty |
| EstablishmentForm.EstablishmentFormPage.constructor | src/pages/EstablishmentForm.tsx:23-39 | edit mode iff a non-empty route id; the initial values, type daara |
| EstablishmentForm.EstablishmentFormPage.EditText | src/pages/EstablishmentForm.tsx:98-221 | only the edited field changes; the type stays daara |
| EstablishmentForm.EstablishmentFormPage.SetStatus | src/pages/EstablishmentForm.tsx:125-127 | only the status switch changes |
| Login.Submit | src/pages/Login.tsx:21-29 | succeeds iff the e-mail has a non-whitespace character and the password is non-empty |
| Login.BlankPasswordAccepted | src/pages/Login.tsx:23 | a whitespace-only password passes with a non-blank e-mail |
| Login.LoginPage.constructor | src/pages/Login.tsx:14-15 | both fields start "" |
| Login.LoginPage.SetEmail | src/pages/Login.tsx:74 | only the e-mail changes |
| Login.LoginPage.SetPassword | src/pages/Login.tsx:89 | only the password changes |
| Types.IsoDay | src/pages/StudentForm.tsx:38-40 | `toISOString().split('T')[0]` is the prefix before the first 'T' |
| Types.IsoDayOfTimestamp | src/pages/AcademicForm.tsx:32-34 | the day part of "<day>T<time>" is `<day>` |
| Types.OrElse | src/pages/EstablishmentForm.tsx:34 | the JavaScript "or" of two strings is one of its two operands, and "" only when both are "" |
| JsString.Trim | src/pages/Login.tsx:23 | the result is the slice of the input left between two runs of whitespace, with no whitespace at either end; "" iff the input is all whitespace |
| JsString.RemoveWhitespace | src/pages/Tutors.tsx:53 | every `\s` character removed, every other kept in order and as often as it occurs |
| JsString.IncludesPrefix | src/pages/Tutors.tsx:83-85 | a text containing `q + more` contains `q` |
| JsString.ToLowerAppend | src/pages/Tutors.tsx:53 | lower-casing distributes over concatenation |
| JsString.ToLower | src/pages/Students.tsx:79 | `toLowerCase`: same length, each character mapped on its own by the lower-case mapping |
| JsString.ToLowerHasNoUpper | src/pages/Students.tsx:79 | a lower-cased text holds no upper-case ASCII letter |
| JsNumber.ParseIntOfNatToString | src/pages/Tutors.tsx:107 | `parseInt(i.toString()) == i` |
| JsNumber.ParseInt | src/pages/Tutors.tsx:107 | a whitespace-only text is NaN; after leading whitespace, a digit 1-9 gives a non-negative number; a negative result comes only from a leading "-" |
| JsNumber.NatToString | src/pages/Tutors.tsx:57 | `i.toString()`: one or more decimal digits, with a leading "0" only for 0 |
| JsNumber.NatToStringInjective | src/pages/Tutors.tsx:57 | distinct numbers have distinct decimal strings |
| JsNumber.TruncRem | src/pages/Tutors.tsx:107 | JavaScript's `%`: strictly between `-n` and `n`, differing from the dividend by a multiple of `n`, with the sign of the dividend; Dafny's remainder for a non-negative dividend |
| JsArray.Filter | src/pages/Students.tsx:77 | `filter` keeps exactly the elements satisfying the test |
| JsArray.FilterIsSubsequence | src/pages/Students.tsx:77 | `filter` keeps the order |
| JsArray.FilterMultiset | src/pages/Students.tsx:91 | `filter` keeps every kept element as often as it occurs |
| JsArray.FilterNarrows | src/pages/Students.tsx:77-82 | a stronger test keeps a subsequence of what a weaker one keeps |
| JsArray.FilterAppend | src/pages/Students.tsx:58-60 | `filter` distributes over concatenation |
| JsArray.Find | src/pages/StudentForm.tsx:55 | `find` is `undefined` iff no element passes, otherwise the first element that passes |

## Left out

- NFD is modelled by the canonical decompositions of the Latin-1 letters
  U+00C0..U+00FF. Every other character is taken as its own decomposition,
  so accented letters beyond Latin-1 are not stripped to their base letter.
- `toLowerCase` and `toUpperCase` are modelled on ASCII letters only. Other
  letters keep their case in the model. This matters in the `.fr` and
  `.sn` addresses, whose daara names may hold accented capitals.
- Rendering, CSS classes, animations, toasts and `navigate` are not
  modelled. A submit returns `MissingRequired` or `Saved(isEdit)` instead
  of showing a toast and leaving the page.
- `Math.random` is a parameter of the generators: a `Draw` of naturals per
  iteration, reduced below each bound with `%`. This reaches every index
  the source can draw, and `active` stands for `Math.random() > 0.3`. The
  probabilities are not modelled.
- `new Date()` is a parameter. The forms take it as `now`. The two
  generators call it once per iteration, so they take a `clock` read at
  each iteration, and the 12 or 10 `createdAt` stamps may differ. Dates are
  their ISO text, so `toISOString()` on an invalid date, which throws, is
  not modelled.
- Tutors.MockTutor: the phone number `Math.floor(100000 + Math.random() * 900000)`
  uses floating point. It is modelled as a drawn natural reduced below
  900000 and offset by 100000, with no statement about it.
- Enseignants.MockEnseignant: the phone number is modelled as in
  `Tutors.MockTutor`, with no statement about it.
- The `mockData` module is not part of this model. The establishments,
  tutors, students and academic items it provides are parameters.
- Referential integrity (that an `establishmentId` or `tutorId` names an
  existing record) and the `studentCount`/`tutorCount` counters are not
  stated, because the code never enforces or recomputes them.
- React scheduling. An effect is a step run after every update. Each form
  class keeps as its invariant that the effect has nothing left to do;
  `StudentForm.EffectSettledAfterOtherEdit` shows that running it after an
  unrelated edit changes nothing.
- Students.StudentsPage.SetDeleteDialogOpen requires that the dialog is
  opened only with a selection. The dialog calls it only to close, and
  `handleDelete` opens it. The same holds for the tutor, teacher and
  establishment pages.
- AcademicForm.AcademicFormPage.SetType requires one of the four types the
  select offers. A stored item may also be a sourate, which only the
  initial values can carry.
- AcademicForm.AcademicFormPage.SetDueDate requires the due-date input to
  be shown, since it only exists then.
- `getInitials` and `getAvatarColor` of src/pages/Students.tsx:97-104 are
  character-for-character those of src/pages/Tutors.tsx:101-108 and are
  modelled once, in `Tutors`. The `getInitials` of
  src/pages/Enseignants.tsx:97 is the same expression too.
- Tutors.FirstCharText: JavaScript indexes strings by UTF-16 code unit, and
  the model by Unicode character. For a name starting with a character
  outside the Basic Multilingual Plane, `name[0]` is half a surrogate pair
  in the source but the whole character in the model.
- Tutors.GetInitials: built on `Tutors.FirstCharText`, with the same
  difference for characters outside the Basic Multilingual Plane.
- Enseignants.GetAvatarColor: `id.length` counts UTF-16 code units, and the
  model counts characters. The two agree on every id the generator builds,
  which are ASCII.
- Numbers are unbounded integers. `parseInt` of a digit string too long
  for a double, and `studentCount` beyond 2^53, lose precision in the
  source; the model does not.
- The theme switch and the `mounted` flag of the login page, the academic
  list's `handleDelete` (a toast only), the dashboard and its charts, and
  the settings page hold no state-changing logic and are not modelled.
- The `isEdit` flag of the student, tutor, establishment and academic
  forms only picks the toast's wording. It is carried in `Saved(isEdit)`.
