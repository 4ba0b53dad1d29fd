/**
 * The records the portal keeps: the shapes of src/types/index.ts (Event, Material, Subject) and
 * the stored student, class and session-user objects of the authentication context.
 * A field the source calls `type` is called `kind` here (`type` is a Dafny keyword).
 */
module Types {
  import opened Wrappers
  import opened Seqs

  datatype Role = Admin | Student

  /** The string a role is stored under in the `userRole` key. */
  function RoleName(r: Role): string {
    match r
    case Admin => "admin"
    case Student => "student"
  }

  datatype EventType = Academic | Social | Sports | Other

  function EventTypeName(t: EventType): string {
    match t
    case Academic => "academic"
    case Social => "social"
    case Sports => "sports"
    case Other => "other"
  }

  datatype MaterialType = Pdf | Youtube

  datatype Material = Material(
    id: string,
    title: string,
    kind: MaterialType,
    url: string,
    description: Option<string>,
    uploadDate: string)

  /** `attendance` is a JavaScript number, compared against thresholds only: a real here. */
  datatype Subject = Subject(
    id: string,
    name: string,
    code: string,
    instructor: string,
    credits: int,
    schedule: string,
    grade: Option<string>,
    attendance: real,
    description: string,
    materials: seq<Material>)

  datatype Event = Event(
    id: string,
    title: string,
    date: string,
    time: string,
    location: string,
    kind: EventType,
    description: string,
    shortDescription: string,
    viewCount: int,
    capacity: int,
    registeredCount: int,
    organizer: string,
    tags: seq<string>,
    imageUrl: Option<string>,
    isRegistered: Option<bool>)

  /**
   * A stored class. The three arrays the readers guard against being absent (`cls.students || []`,
   * `cls.subjects?.length`) are optional; `messages` is only ever written as an empty array.
   */
  datatype ClassRecord = ClassRecord(
    id: string,
    name: string,
    code: string,
    students: Option<seq<string>>,
    messages: seq<string>,
    subjects: Option<seq<Subject>>,
    events: Option<seq<Event>>)

  /** A stored student account, as studentSignup writes it into the `students` key. */
  datatype StudentRecord = StudentRecord(
    id: string,
    name: string,
    email: string,
    password: string,
    classCode: Option<string>,
    role: Role)

  /**
   * The session user. `password` is present when the source copies a whole student record into
   * the session (signup in both variants, login in the legacy one).
   */
  datatype UserInfo = UserInfo(
    id: string,
    name: string,
    email: string,
    role: Role,
    classCode: Option<string>,
    password: Option<string>)

  /** The member emails of a class, an absent array read as empty. */
  function Roster(c: ClassRecord): seq<string> {
    c.students.GetOr([])
  }

  function HasCode(code: string): ClassRecord -> bool {
    (c: ClassRecord) => c.code == code
  }

  /** `classes.find(c => c.code === code)`. */
  function ClassWithCode(classes: seq<ClassRecord>, code: string): (r: Option<ClassRecord>)
    ensures r.None? <==> forall j :: 0 <= j < |classes| ==> classes[j].code != code
    ensures r.Some? ==> exists k :: 0 <= k < |classes| && classes[k] == r.value && r.value.code == code &&
                                    forall j :: 0 <= j < k ==> classes[j].code != code
  {
    Find(classes, HasCode(code))
  }

  /**
   * The class a session class code designates: a `null` code designates nothing, since no stored
   * code is `null`.
   */
  function ClassFor(classes: seq<ClassRecord>, code: Option<string>): (r: Option<ClassRecord>)
    ensures code.None? ==> r.None?
    ensures code.Some? ==> r == ClassWithCode(classes, code.value)
  {
    match code
    case None => None
    case Some(c) => ClassWithCode(classes, c)
  }

  /** Appending classes never changes which class an already-present code designates. */
  lemma {:induction false} ClassWithCodeAppend(classes: seq<ClassRecord>, more: seq<ClassRecord>, code: string)
    requires ClassWithCode(classes, code).Some?
    ensures ClassWithCode(classes + more, code) == ClassWithCode(classes, code)
  {
    if classes[0].code != code {
      assert (classes + more)[1..] == classes[1..] + more;
      ClassWithCodeAppend(classes[1..], more, code);
    }
  }
}
