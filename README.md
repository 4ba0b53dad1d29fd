# CampusConnect core, modelled in Dafny

CampusConnect is a browser-only student portal. An authentication context keeps the session
(user, role, class code, loading flag) and writes it to the browser's key-value store under the
keys `user`, `userRole` and `classCode`. The same store holds two global collections: `students`
(accounts created by signup) and `classes` (created by the admin). A student joins a class by its
six-character code. That updates both the student's record and the class's roster of emails.
The admin pages build classes, events and study materials. The student pages read the current
class's subjects, events and counts back out of the store.

This project models:

- both authentication contexts: the typed `src/app/AuthContext.tsx` and its untyped predecessor
  `src/app/AuthContext.jsx`. Each is written twice: once as functions from the state before to
  the outcome after (`AuthModel`, `LegacyAuthModel`), and once as a class whose methods update
  fields and a shared `Store` object step by step (`Auth.AuthProvider`,
  `LegacyAuth.LegacyAuthProvider`). Every method ends in exactly the state the function gives.
- both route guards (`ProtectedRoute.tsx`, `ProtectedRoute.jsx`).
- the application shell of `App.tsx`, with the sidebar highlight test of `Sidebar.tsx`.
- the admin forms: create class, create event, add material.
- the admin statistics.
- the student dashboard, subjects, events and subject-details pages.

Properties proved include:

- Each auth operation's success condition, in both directions, and its whole new state.
- Reload round trips: a fresh provider mounting over a persisted session gets that session back.
- Invariants kept by every auth operation: emails stay unique, the store mirrors the session,
  and a student's class points at a class that lists them.
- joinClass round trip and idempotence. No duplicate roster entry is ever added.
- Where the legacy joinClass agrees with the typed one, and concrete inputs where they differ.
- Generated class codes are already normalised. A colliding code is shadowed by the older class.
- The per-class student counts add up to the admin total.
- Each form's validation verdict, in both directions, with the record it builds.
- The shell's title, content and sidebar highlight agree after every navigation click.

Randomness, clocks and callbacks are parameters or return values (see "Left out").

Notes on how the code behaves, where it differs from its documented design. The model follows
the code in each case.

- The typed joinClass copies the first matching class's roster, plus the email if absent, into
  every class carrying the code (`AuthContext.tsx:203-214`). It does not extend each class's own
  roster. The two agree whenever the code is unique (`LegacyAuthModel.TypedJoinAgreesOnUniqueCode`).
- Joining a second class leaves the student's email on the first class's roster. `AuthModel.Joined`
  touches only classes carrying the new code.
- A failed admin login, signup or login leaves the previous session exactly as it was. It does
  not sign anyone out.
- The student dashboard reads the `user` key of the store, not the session
  (`DashboardPage.tsx:22`). When no class matches it shows "No class joined" instead of zero
  counts.
- A new class's code is not checked against existing codes (`CreateClass.tsx:42`).
- The legacy joinClass neither trims the code nor checks its length or an earlier join
  (`AuthContext.jsx:124-126`).

## Model

| member | source | states |
|---|---|---|
| Text.ToUpper | src/app/AuthContext.tsx:163 | upper-casing keeps the length, leaves no ASCII lower-case letter and keeps every other character |
| Text.Trim | src/app/AuthContext.tsx:163 | the result is a contiguous slice of the input with only whitespace cut from either end, and starts and ends with non-whitespace |
| Text.SliceOfSlice | src/app/AuthContext.tsx:163 | stripping whitespace from the start and then from the end leaves a slice of the original with only whitespace outside it |
| Text.UpperTrimCommute | src/app/AuthContext.tsx:163 | upper-casing then trimming equals trimming then upper-casing |
| Text.Prefix | src/features/admin/CreateEvent.tsx:60 | `substring(0, n)`: the first min(n, length) characters |
| Text.Contains | src/features/admin/AddMaterial.tsx:47 | `includes`: true iff the substring occurs at some position |
| Text.EndsWith | src/features/admin/AddMaterial.tsx:53 | `endsWith`: true iff the last characters are the suffix, character by character |
| Seqs.Find | src/app/AuthContext.tsx:102 | `find`: none iff no element matches; otherwise the first matching element |
| Seqs.Filter | src/features/subjects/SubjectDetails.tsx:41-42 | `filter`: the result is drawn from the input, every kept element matches, and each matching value is kept as often as it occurs; with FilterAppend this fixes the order too |
| Seqs.FilterStepCounts | src/features/subjects/SubjectDetails.tsx:41-42 | keeping or dropping the head element preserves the element counts the filter promises |
| Seqs.FilterSplit | src/features/subjects/SubjectDetails.tsx:40-43 | two complementary filters together keep exactly as many elements as the input has |
| Seqs.FilterAppend | src/features/subjects/SubjectDetails.tsx:40-43 | filtering distributes over concatenation |
| Types.ClassWithCode | src/app/AuthContext.tsx:175 | `classes.find(c => c.code === code)`: none iff no class has the code, else the first class with it |
| Types.ClassFor | src/features/dashboard/DashboardPage.tsx:26-28 | a null class code finds no class; a code finds the first class with it |
| Types.ClassWithCodeAppend | src/features/admin/CreateClass.tsx:42 | appending classes never changes which class an already-present code finds |
| Membership.AssignClass | src/app/AuthContext.tsx:197-199 | exactly the records carrying the user's id get the code; every other field and record is unchanged |
| Membership.AddIfAbsent | src/app/AuthContext.tsx:203-210 | the email ends up in the roster; appended only if absent; a duplicate-free roster stays duplicate-free |
| Membership.SetRosters | src/app/AuthContext.tsx:206-214 | every class with the code gets the given roster; every other class is unchanged; codes and order are kept |
| Membership.AssignClassIdempotent | src/app/AuthContext.tsx:197-199 | assigning the same code twice equals assigning it once |
| Membership.SetRostersIdempotent | src/app/AuthContext.tsx:206-214 | setting the same roster twice equals setting it once |
| Membership.ClassWithCodeAfterSetRosters | src/app/AuthContext.tsx:206-214 | after the roster update, a lookup by any code finds the updated version of the class found before |
| AuthModel.RestoredRole | src/app/AuthContext.tsx:59-61 | a role is restored iff the saved text is exactly `admin` or `student`, and it is the role with that name |
| AuthModel.Mount | src/app/AuthContext.tsx:46-67 | loading stops; a parsable saved user, a saved `admin` or `student` role and a non-empty saved code are each restored, whatever the other keys hold; a field changes only to what the store holds; unparsable user text is removed from the store |
| AuthModel.MountRestoresPersisted | src/app/AuthContext.tsx:46-67 | a fresh provider mounting over a store that persists a session gets that session back, not loading |
| AuthModel.MalformedUserKeepsRoleAndCode | src/app/AuthContext.tsx:51-64 | unparsable user text `{` is removed, yet a saved `student` role and code `ABC123` are still restored, leaving a role without a user |
| AuthModel.AdminLogin | src/app/AuthContext.tsx:69-92 | succeeds iff the credentials are admin/admin123; then the session is the fixed admin with no class and is persisted; on failure nothing changes |
| AuthModel.StudentSignup | src/app/AuthContext.tsx:94-131 | succeeds iff no record has the email; then exactly one record with no class is appended and the new student is signed in and persisted; otherwise nothing changes |
| AuthModel.StudentLogin | src/app/AuthContext.tsx:133-160 | succeeds iff some record matches email and password; the session takes the first such record's identity and class, without the password; collections unchanged |
| AuthModel.NormalizeCode | src/app/AuthContext.tsx:163 | the normalised code is the trimmed input upper-cased: no lower-case letter, no surrounding whitespace |
| AuthModel.AlreadyJoinedFound | src/app/AuthContext.tsx:188-194 | the already-member search finds a record iff one has the user's email and the code |
| AuthModel.JoinGuards | src/app/AuthContext.tsx:169-194 | the guard chain with its `find` lookups passes exactly when the code has six characters, names a class, a user is signed in and no record of theirs carries it |
| AuthModel.Joined | src/app/AuthContext.tsx:196-222 | the state a successful join writes: records by id get the code, classes with the code get the updated roster, others untouched, session and store carry the code |
| AuthModel.JoinClass | src/app/AuthContext.tsx:162-231 | succeeds iff the normalised code has 6 characters, names a class, a user is signed in, and no record of theirs already has that code; on failure nothing changes |
| AuthModel.Logout | src/app/AuthContext.tsx:233-240 | session user, role and code are cleared in memory and in the store; the student and class collections are untouched |
| AuthModel.LogoutThenMountSignedOut | src/app/AuthContext.tsx:233-240 | a reload after logout finds nobody signed in |
| AuthModel.AdminLoginKeepsValid | src/app/AuthContext.tsx:69-92 | admin login keeps the session coherent, persisted, and the store well-formed |
| AuthModel.SignupKeepsValid | src/app/AuthContext.tsx:94-131 | signup keeps emails unique and the session coherent and persisted |
| AuthModel.LoginKeepsValid | src/app/AuthContext.tsx:133-160 | login keeps the session coherent and persisted |
| AuthModel.LogoutKeepsValid | src/app/AuthContext.tsx:233-240 | logout keeps the state valid |
| AuthModel.JoinClassKeepsValid | src/app/AuthContext.tsx:162-231 | joinClass keeps emails unique, no empty class code in records, and the session coherent and persisted |
| AuthModel.JoinedKeepsValid | src/app/AuthContext.tsx:195-221 | the writes of a successful join keep emails unique, no empty class code in records, and the session coherent and persisted |
| AuthModel.JoinClassRoundTrip | src/app/AuthContext.tsx:196-222 | after a join, the session's code finds a class with the normalised code whose roster holds the user, and the user's records carry that code |
| AuthModel.JoinClassNoDuplicate | src/app/AuthContext.tsx:202-215 | after a join every class with the code lists the email exactly once, given a duplicate-free roster before |
| AuthModel.JoinClassIdempotent | src/app/AuthContext.tsx:162-231 | joining the same code twice leaves the state the first join left |
| AuthModel.JoinClassKeepsIntegrity | src/app/AuthContext.tsx:196-215 | a join keeps every record's class pointing at an existing class that lists its email |
| Auth.AuthProvider.constructor | src/app/AuthContext.tsx:41-44 | a new provider has no user, role or code and is loading |
| Auth.AuthProvider.Mount | src/app/AuthContext.tsx:46-67 | the fields and store end as AuthModel.Mount gives |
| Auth.AuthProvider.AdminLogin | src/app/AuthContext.tsx:69-92 | result and new state are AuthModel.AdminLogin's; succeeds iff admin/admin123 |
| Auth.AuthProvider.StudentSignup | src/app/AuthContext.tsx:94-131 | result and new state are AuthModel.StudentSignup's; on success one record is appended |
| Auth.AuthProvider.StudentLogin | src/app/AuthContext.tsx:133-160 | result and new state are AuthModel.StudentLogin's; the collections are unchanged |
| Auth.AuthProvider.JoinClass | src/app/AuthContext.tsx:162-231 | result and new state are AuthModel.JoinClass's |
| Auth.AuthProvider.WriteJoin | src/app/AuthContext.tsx:217-222 | the writes ending a join set both collections and the session user and code, in memory and in the store, and nothing else |
| Auth.AuthProvider.Logout | src/app/AuthContext.tsx:233-240 | the new state is AuthModel.Logout's; the collections are unchanged |
| LegacyAuthModel.Mount | src/app/AuthContext.jsx:19-35 | an unparsable non-empty user text leaves the state as it was, still loading; otherwise loading stops and each non-empty key is restored |
| LegacyAuthModel.MountRestoresPersisted | src/app/AuthContext.jsx:19-35 | a fresh provider mounting over a persisted session gets it back |
| LegacyAuthModel.MalformedUserSetsNothing | src/app/AuthContext.jsx:25-27 | an unparsable saved user makes the mount effect throw before any setter runs, so the session stays initial |
| LegacyAuthModel.AdminLogin | src/app/AuthContext.jsx:37-57 | succeeds iff admin/admin123; sets user and role in memory and store; leaves the class code alone |
| LegacyAuthModel.StudentSignup | src/app/AuthContext.jsx:59-96 | succeeds iff the email is new; appends one record with no class and signs the student in |
| LegacyAuthModel.StudentLogin | src/app/AuthContext.jsx:98-117 | succeeds iff some record matches; the session takes the first match's whole record, password included |
| LegacyAuthModel.AddToRosters | src/app/AuthContext.jsx:135-146 | each class with the code gets the email appended to its own roster if absent; every other class unchanged |
| LegacyAuthModel.JoinClass | src/app/AuthContext.jsx:119-162 | succeeds iff some class has the upper-cased code and a user is signed in; then writes records, rosters, session user and code |
| LegacyAuthModel.Logout | src/app/AuthContext.jsx:164-172 | clears user, role and code in memory and in the store; collections untouched |
| LegacyAuthModel.AdminLoginKeepsPersisted | src/app/AuthContext.jsx:37-57 | admin login keeps the store mirroring the session |
| LegacyAuthModel.LoginKeepsPersisted | src/app/AuthContext.jsx:98-117 | login keeps the store mirroring the session |
| LegacyAuthModel.JoinClassKeepsPersisted | src/app/AuthContext.jsx:119-162 | joinClass keeps the store mirroring the session |
| LegacyAuthModel.AddToRostersIdempotent | src/app/AuthContext.jsx:135-146 | adding the email to the rosters twice equals adding it once |
| LegacyAuthModel.JoinClassIdempotent | src/app/AuthContext.jsx:119-162 | a repeated join also succeeds and leaves the state the first join left |
| LegacyAuthModel.FromTyped | src/app/AuthContext.jsx:15 | a typed state read as a legacy one: same store, user and code; the role becomes its stored name |
| LegacyAuthModel.TypedJoinImpliesLegacyJoin | src/app/AuthContext.jsx:124-126 | every join the typed provider accepts, the legacy one accepts on the trimmed code |
| LegacyAuthModel.TypedJoinAgreesOnUniqueCode | src/app/AuthContext.jsx:135-146 | when one class carries the code, both joins leave the same state |
| LegacyAuthModel.RostersAgreeOnUniqueCode | src/app/AuthContext.jsx:135-146 | when one class carries the code, adding the email to every matching roster equals setting that class's roster with the email added |
| LegacyAuthModel.TypedRefusesRejoin | src/app/AuthContext.tsx:187-194 | the typed provider refuses a student re-joining the class their record already carries |
| LegacyAuthModel.LegacyAcceptsRejoin | src/app/AuthContext.jsx:126-156 | the legacy provider accepts that re-join and rewrites the state unchanged |
| LegacyAuthModel.TypedRefusesShortCode | src/app/AuthContext.tsx:169-172 | the typed provider refuses the two-character code `ab` for its length, though a class carries `AB` |
| LegacyAuthModel.LegacyAcceptsShortCode | src/app/AuthContext.jsx:124-126 | the legacy provider accepts that same code, since a class carries it |
| LegacyAuth.LegacyAuthProvider.constructor | src/app/AuthContext.jsx:14-17 | a new provider has no user, role or code and is loading |
| LegacyAuth.LegacyAuthProvider.Mount | src/app/AuthContext.jsx:19-35 | the fields end as LegacyAuthModel.Mount gives; the store is not written |
| LegacyAuth.LegacyAuthProvider.AdminLogin | src/app/AuthContext.jsx:37-57 | result and new state are LegacyAuthModel.AdminLogin's; the class code is untouched |
| LegacyAuth.LegacyAuthProvider.StudentSignup | src/app/AuthContext.jsx:59-96 | result and new state are LegacyAuthModel.StudentSignup's |
| LegacyAuth.LegacyAuthProvider.StudentLogin | src/app/AuthContext.jsx:98-117 | result and new state are LegacyAuthModel.StudentLogin's |
| LegacyAuth.LegacyAuthProvider.JoinClass | src/app/AuthContext.jsx:119-162 | result and new state are LegacyAuthModel.JoinClass's |
| LegacyAuth.LegacyAuthProvider.WriteJoin | src/app/AuthContext.jsx:147-154 | the writes ending a join set both collections and the session user and code, and nothing else |
| LegacyAuth.LegacyAuthProvider.Logout | src/app/AuthContext.jsx:164-172 | the new state is LegacyAuthModel.Logout's |
| CreateClass.AlphabetIsCodeChars | src/features/admin/CreateClass.tsx:14 | the alphabet has 36 characters, each a capital letter or a digit |
| CreateClass.CodeFor | src/features/admin/CreateClass.tsx:13-20 | a generated code has six characters, each a capital letter or a digit |
| CreateClass.GenerateClassCode | src/features/admin/CreateClass.tsx:13-20 | the loop's code has six characters, the i-th being the alphabet character of the i-th pick |
| CreateClass.GeneratedCodeIsNormal | src/features/admin/CreateClass.tsx:13-20 | a generated code is unchanged by joinClass's normalisation and passes its length check |
| CreateClass.NewClass | src/features/admin/CreateClass.tsx:33-41 | the stored class has the form's name, the code, and empty roster, messages, subjects and events |
| CreateClass.CollidingCodeIsShadowed | src/features/admin/CreateClass.tsx:42 | if the code already exists, a lookup still finds the older class |
| CreateClass.FreshCodeFindsNewClass | src/features/admin/CreateClass.tsx:42 | if the code is new, a lookup finds the new class |
| CreateClass.AppendKeepsIntegrity | src/features/admin/CreateClass.tsx:42-43 | appending a class keeps every record's class pointing at a class that lists it |
| CreateClass.CreateClassForm.constructor | src/features/admin/CreateClass.tsx:6-11 | the form starts with an empty class name, not submitting, no code, no error |
| CreateClass.CreateClassForm.HandleSubmit | src/features/admin/CreateClass.tsx:22-48 | exactly one class, with the generated code, is appended to the stored classes; the rest of the store is unchanged; the code is shown |
| CreateClass.CreateClassForm.HandleInputChange | src/features/admin/CreateClass.tsx:50-54 | the named field takes the value and the error is cleared |
| AdminDashboard.ComputeStats | src/features/admin/AdminDashboard.tsx:15-20 | the class total is the number of classes, and no classes gives all-zero totals |
| AdminDashboard.Decorate | src/features/admin/AdminDashboard.tsx:23-26 | each class is kept, in order, with its roster length (0 when absent) as its count |
| AdminDashboard.DecoratedCountsSumToTotal | src/features/admin/AdminDashboard.tsx:17-25 | the per-class counts the list shows add up to the students total |
| AdminDashboard.AppendAddsCounts | src/features/admin/AdminDashboard.tsx:15-20 | appending a class adds one class and its own counts to each total |
| AdminDashboard.NewClassAddsOneClass | src/features/admin/AdminDashboard.tsx:15-20 | a created class raises the class total by one and no other total |
| AdminDashboard.TotalBoundsEachClass | src/features/admin/AdminDashboard.tsx:17 | no class has more students than the total |
| DashboardPage.SavedClassCode | src/features/dashboard/DashboardPage.tsx:22 | parsing fails iff the saved user text is non-empty and malformed; a code found is the saved user's own |
| DashboardPage.Stats | src/features/dashboard/DashboardPage.tsx:43-76 | four cards with ids 1 to 4: subject, event and student counts (0 when absent), and the code or N/A |
| DashboardPage.UpcomingEvents | src/features/dashboard/DashboardPage.tsx:79 | the first min(3, n) events, in order; none when the array is absent |
| DashboardPage.RecentActivities | src/features/dashboard/DashboardPage.tsx:82-87 | one activity per event, in order, with its id, `Event: ` title, date and kind `event` |
| DashboardPage.Render | src/features/dashboard/DashboardPage.tsx:22-87 | a parse failure throws; no matching class shows No class joined; otherwise the first class with the saved user's code, with its cards, events and activities |
| DashboardPage.ShownClassIsFirstMatch | src/features/dashboard/DashboardPage.tsx:26-28 | the class shown is the first stored class with its code |
| DashboardPage.AtMostThree | src/features/dashboard/DashboardPage.tsx:79-87 | at most three events are shown, exactly three when there are that many, and as many activities |
| SubjectsPage.StudentClass | src/features/subjects/SubjectsPage.tsx:13-14 | no user or no class code finds nothing; otherwise the first class with the user's code |
| SubjectsPage.Subjects | src/features/subjects/SubjectsPage.tsx:17 | no class gives no subjects; a found class gives its subjects array, absent when it has none |
| SubjectsPage.Render | src/features/subjects/SubjectsPage.tsx:27-47 | a selected subject's details take precedence; then the empty state iff there are no subjects, else the list; an absent array throws |
| SubjectsPage.NoClassEmptyState | src/features/subjects/SubjectsPage.tsx:40-60 | a user without a class always sees the no-class empty state |
| SubjectsPage.SubjectsPageState.constructor | src/features/subjects/SubjectsPage.tsx:9 | no subject is selected at first |
| SubjectsPage.SubjectsPageState.HandleSubjectClick | src/features/subjects/SubjectsPage.tsx:19-21 | the clicked subject becomes the selected one |
| SubjectsPage.SubjectsPageState.HandleBack | src/features/subjects/SubjectsPage.tsx:23-25 | the selection is cleared |
| EventsPage.Events | src/features/events/EventsPage.tsx:11-15 | no class gives no events; a found class gives its events array, absent when it has none |
| EventsPage.Render | src/features/events/EventsPage.tsx:29-48 | the empty state iff there are no events, worded by whether a class was found; else one card per event in order; an absent array throws |
| SubjectDetails.GradeColor | src/features/subjects/SubjectDetails.tsx:13-31 | absent or empty grade is gray; first letter A/B/C/D/F gives green/blue/yellow/orange/red; anything else gray |
| SubjectDetails.GradeColorByFirstLetter | src/features/subjects/SubjectDetails.tsx:16-17 | grades with the same first character get the same colour |
| SubjectDetails.AttendanceColor | src/features/subjects/SubjectDetails.tsx:33-38 | green iff at least 90, yellow iff 80 to 90, orange iff 70 to 80, red iff below 70 |
| SubjectDetails.AttendanceBarColor | src/features/subjects/SubjectDetails.tsx:129-137 | the progress bar's separate ternary chain always agrees with the figure's colour |
| SubjectDetails.AttendanceColorMonotonic | src/features/subjects/SubjectDetails.tsx:33-38 | more attendance never gives a worse band |
| SubjectDetails.SplitMaterials | src/features/subjects/SubjectDetails.tsx:40-43 | the PDF list holds only PDFs and the video list only videos; every material is in one; the counts add up |
| SubjectDetails.AppendMaterial | src/features/subjects/SubjectDetails.tsx:40-43 | adding a material appends it to its own list and leaves the other list alone |
| SubjectDetails.RenderMaterials | src/features/subjects/SubjectDetails.tsx:183-204 | the empty state iff there are no materials; else every material in order |
| CreateEvent.ShortDescription | src/features/admin/CreateEvent.tsx:60 | at most 103 characters; the description itself when at most 100; else its first 100 plus `...` |
| CreateEvent.NewEvent | src/features/admin/CreateEvent.tsx:52-68 | the event copies the form's fields; venue becomes location; zero counts, capacity 100, not registered; one tag, the type; poster only when non-empty |
| CreateEvent.ApplyEdit | src/features/admin/CreateEvent.tsx:32-36 | a change sets exactly the named field |
| CreateEvent.RequiredFieldsSuffice | src/features/admin/CreateEvent.tsx:44 | filling the six required fields makes the form complete, whatever the poster and type |
| CreateEvent.CreateEventForm.constructor | src/features/admin/CreateEvent.tsx:12-23 | the form starts empty with type academic, not submitting, no error |
| CreateEvent.CreateEventForm.HandleInputChange | src/features/admin/CreateEvent.tsx:32-36 | the named field takes the value and the error is cleared |
| CreateEvent.CreateEventForm.HandleSubmit | src/features/admin/CreateEvent.tsx:38-73 | an event is created iff no required field is empty, and it is the form's event; otherwise the required-fields error is set |
| AddMaterial.Validate | src/features/admin/AddMaterial.tsx:40-57 | each error message iff its check is the first to fail, in source order; no error means all required fields are set and the URL suits the type |
| AddMaterial.IsYoutubeUrl | src/features/admin/AddMaterial.tsx:47 | a YouTube URL is one in which `youtube.com` or `youtu.be` occurs at some position |
| AddMaterial.IsPdfUrl | src/features/admin/AddMaterial.tsx:53 | a PDF URL is one whose last four characters are `.pdf`, in lower case |
| AddMaterial.YoutubeHostsAccepted | src/features/admin/AddMaterial.tsx:47 | any URL containing `youtu.be` passes as a YouTube link |
| AddMaterial.UpperCasePdfRejected | src/features/admin/AddMaterial.tsx:53 | a `.PDF` suffix is rejected: the check is case-sensitive |
| AddMaterial.DescriptionIsOptional | src/features/admin/AddMaterial.tsx:40-57 | editing the description never changes the verdict |
| AddMaterial.NewMaterial | src/features/admin/AddMaterial.tsx:61-68 | the material copies title, type, URL and description, with the given id and date |
| AddMaterial.SelectedSubject | src/features/admin/AddMaterial.tsx:75 | none iff no subject has the id; otherwise the first subject with it |
| AddMaterial.ApplyEdit | src/features/admin/AddMaterial.tsx:28-32 | a change sets exactly the named field |
| AddMaterial.AddMaterialForm.constructor | src/features/admin/AddMaterial.tsx:13-21 | the form starts empty with type pdf, not submitting, no error |
| AddMaterial.AddMaterialForm.HandleInputChange | src/features/admin/AddMaterial.tsx:28-32 | the named field takes the value and the error is cleared |
| AddMaterial.AddMaterialForm.HandleSubmit | src/features/admin/AddMaterial.tsx:34-73 | a material is handed on with its subject id iff validation passes; the error shown is the validation message, or none |
| ProtectedRoute.Decide | src/app/ProtectedRoute.tsx:14-38 | spinner while loading; no role goes to `/`; a wrong role goes to the other login; the children render iff the role matches |
| ProtectedRoute.MismatchGoesToOtherLogin | src/app/ProtectedRoute.tsx:30-36 | a signed-in user on the other role's route is sent to the other role's login page |
| LegacyProtectedRoute.Decide | src/app/ProtectedRoute.jsx:9-48 | as the typed guard on known roles; Access Denied iff the required role is some other non-empty string the user lacks; children iff no role is required or it matches |
| LegacyProtectedRoute.AgreesWithTyped | src/app/ProtectedRoute.jsx:26-48 | on the two typed roles both guards decide alike |
| LegacyProtectedRoute.UnknownRoleOnAdminRoute | src/app/ProtectedRoute.jsx:27-29 | an unknown role string on an admin route goes to the student login |
| AppShell.ViewMap | src/App.tsx:138-143 | exactly the four admin item ids have a view: admin-dashboard maps to dashboard, the others to themselves |
| AppShell.PageTitle | src/App.tsx:112-130 | admins get their view's title (Admin Dashboard by default); students get the label of the item whose id is the active one, and Dashboard when none has it |
| AppShell.AdminContentFor | src/App.tsx:151-176 | each of the three form pages iff its view; anything else the admin dashboard |
| AppShell.StudentContentFor | src/App.tsx:178-191 | events, subjects and profile iff their item; anything else the dashboard |
| AppShell.SidebarActive | src/App.tsx:209 | admins highlight `admin-` plus the view; students the active item |
| AppShell.Highlighted | src/components/layout/Sidebar.tsx:64 | an item is highlighted iff the active id is its id, or `admin-` followed by its id |
| AppShell.Render | src/App.tsx:31-254 | the spinner iff loading; the layout iff loaded with a user, with title, highlight and content of the role; the public routes otherwise |
| AppShell.AdminClickIsConsistent | src/components/layout/Sidebar.tsx:64 | after an admin clicks one of the four pages, exactly that item is highlighted, the title is its label, and its page is shown |
| AppShell.StudentClickIsConsistent | src/App.tsx:132-149 | after a student clicks one of the four pages, exactly that item is highlighted, the title is its label, and its page is shown |
| AppShell.AppContent.constructor | src/App.tsx:26-29 | the shell starts on the dashboard, expanded, with the mobile menu closed |
| AppShell.AppContent.HandleNavItemClick | src/App.tsx:132-149 | logout signs out through the provider and navigates to `/`; otherwise the admin view or the student item changes and the mobile menu closes |
| Scenarios.JoinThenDashboard | src/features/dashboard/DashboardPage.tsx:22-28 | after a join the dashboard shows the joined class, whose roster holds the student and whose student count is at least one |
| Scenarios.JoinThenSubjects | src/features/subjects/SubjectsPage.tsx:13-14 | after a join the subjects page and the dashboard look at the same class |
| Scenarios.NormalizeXyz789 | src/app/AuthContext.tsx:163 | `xyz789` normalises to `XYZ789` |
| Scenarios.JoinXyz789Allowed | src/app/AuthContext.tsx:169-194 | a student without a class passes every joinClass guard for `xyz789` |
| Scenarios.JoinOnlyClass | src/app/AuthContext.tsx:202-215 | joining the only class, with an empty roster, leaves it listing just the student and the saved user carrying the code |
| Scenarios.JoinedOnlyClass | src/app/AuthContext.tsx:201-221 | the join writes on a one-class list with an empty roster list only the student in it and save the code in the stored user |
| Scenarios.JoinXyz789ThenDashboard | src/features/dashboard/DashboardPage.tsx:43-76 | after joining `xyz789`, the dashboard shows one subject, one event, one student and code XYZ789 |

## Left out

- The one-second `setTimeout` delays and promise resolution are not modelled. Each auth operation is one atomic step returning its boolean.
- React's batching of state updates and stale closures are not modelled. A setter takes effect at once, and joinClass reads the user as of the call.
- JSON encoding is not modelled. Each store key holds a typed value.
  - Unparsable text is modelled only under `user`.
  - Unparsable `students` or `classes` text is not modelled, so the catch branch of the typed joinClass is never reached.
  - A failed store write (a full quota) is not modelled, nor the missing rollback after one.
- `Date.now()`, `Math.random()` and `new Date()` are parameters: `id`, the six `picks`, and `uploadDate`.
- Side effects outside the model are not modelled: `navigate`, `window.location.href` in the legacy logout, the clipboard copy of CreateClass, and `console.error`.
- Strings are sequences of characters.
  - `toUpperCase` maps ASCII letters only.
  - The trim whitespace set is a fixed list of characters.
  - Lengths count characters, not UTF-16 code units.
- JavaScript's `undefined` and `null` are both `None`.
- Records with missing or non-string fields are not modelled.
- `viewMap` lookups of inherited property names such as `constructor` are not modelled.
- The source's `type` fields are called `kind`.
- The `onEventCreated` and `onMaterialAdded` callbacks are modelled as return values. Where the events and materials end up is not modelled.
  - App.tsx:162-164 mounts CreateEvent and AddMaterial without these callbacks. AddMaterial also gets no subjects there.
  - A submit from the main layout would therefore throw inside the timer and leave the form submitting. This path is not modelled.
- What happens after the legacy mount effect throws on an unparsable saved user is not modelled. With no error boundary, React unmounts the whole tree. The model only states that no setter ran.
- Attendance values that are not numbers (NaN) are not modelled.
- Presentation is not modelled: animations, colour class names, icons, texts, Header, Card, MaterialItem, and the quick-action buttons of AdminDashboard.
- App's collapse and mobile-menu toggles are not modelled.
- The public route table of App.tsx is modelled only as the `PublicRoutes` screen and the route guard's decision.
- ProfilePage, JoinClass.jsx, Welcome.jsx and AdminLogin.tsx are not part of this model.
- AuthModel.JoinClassKeepsIntegrity: holds only when the records carrying the session user's id carry the user's email. The already-member guard matches records by email, but the update writes them by id.
- AuthModel.JoinClassNoDuplicate: assumes the joined class's roster had no duplicate before. Nothing in the source prevents one written by other means.
- LegacyAuthModel.LoginKeepsPersisted: assumes no record has the empty class code, which signup and joinClass never write.
- LegacyAuthModel.JoinClassKeepsPersisted: assumes no class has the empty code, which CreateClass never writes.
- AdminDashboard.ComputeStats: its own contract covers only the class total and the empty list. The meaning of the three sums is given by AppendAddsCounts, DecoratedCountsSumToTotal and TotalBoundsEachClass.
