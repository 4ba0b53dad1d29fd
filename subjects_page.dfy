/**
 * The subject list of src/features/subjects/SubjectsPage.tsx: the subjects of the class the
 * session user belongs to, and the selected subject whose details replace the list.
 */
module SubjectsPage {
  import opened Wrappers
  import opened Types

  /** `classes.find(c => c.code === user?.classCode)`: no user, or a user without a class, finds nothing. */
  function StudentClass(classes: seq<ClassRecord>, user: Option<UserInfo>): (r: Option<ClassRecord>)
    ensures user.None? || user.value.classCode.None? ==> r.None?
    ensures user.Some? && user.value.classCode.Some? ==> r == ClassWithCode(classes, user.value.classCode.value)
  {
    if user.Some? then ClassFor(classes, user.value.classCode) else None
  }

  /**
   * `studentClass ? studentClass.subjects : []`. A found class without a `subjects` array makes
   * `subjects.length` throw; that case is `None`.
   */
  function Subjects(classes: seq<ClassRecord>, user: Option<UserInfo>): (r: Option<seq<Subject>>)
    ensures StudentClass(classes, user).None? ==> r == Some([])
    ensures StudentClass(classes, user).Some? ==> r == StudentClass(classes, user).value.subjects
  {
    match StudentClass(classes, user)
    case None => Some([])
    case Some(c) => c.subjects
  }

  /** What the page shows. */
  datatype View =
    | Details(subject: Subject)
    | EmptyList(classFound: bool)
    | SubjectList(subjects: seq<Subject>)
    | Crash

  /** The selected subject's details take precedence; an empty list gives the empty state. */
  function Render(selected: Option<Subject>, classes: seq<ClassRecord>, user: Option<UserInfo>): (r: View)
    ensures selected.Some? <==> r.Details?
    ensures selected.Some? ==> r.subject == selected.value
    ensures r.EmptyList? <==> selected.None? && Subjects(classes, user) == Some([])
    ensures r.EmptyList? ==> r.classFound == StudentClass(classes, user).Some?
    ensures r.SubjectList? ==> selected.None? && Subjects(classes, user) == Some(r.subjects) && r.subjects != []
    ensures r.Crash? <==> selected.None? && Subjects(classes, user).None?
  {
    if selected.Some? then Details(selected.value)
    else
      match Subjects(classes, user)
      case None => Crash
      case Some(subjects) =>
        if |subjects| == 0 then EmptyList(StudentClass(classes, user).Some?) else SubjectList(subjects)
  }

  /** A user without a class always sees the empty state, whatever the stored classes. */
  lemma NoClassEmptyState(classes: seq<ClassRecord>, user: Option<UserInfo>)
    requires user.None? || user.value.classCode.None?
    ensures Render(None, classes, user) == EmptyList(false)
  {
  }

  /** The page's one piece of state: the subject whose details are open. */
  class SubjectsPageState {
    var selectedSubject: Option<Subject>

    constructor ()
      ensures selectedSubject.None?
    {
      selectedSubject := None;
    }

    method HandleSubjectClick(subject: Subject)
      modifies this
      ensures selectedSubject == Some(subject)
    {
      selectedSubject := Some(subject);
    }

    method HandleBack()
      modifies this
      ensures selectedSubject.None?
    {
      selectedSubject := None;
    }
  }
}
