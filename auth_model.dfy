/**
 * What each operation of the authentication context (src/app/AuthContext.tsx) does to the
 * session and to the store, as functions from the state before to the outcome after. The
 * `setTimeout` delay is dropped: each operation is one atomic step returning a boolean.
 */
module AuthModel {
  import opened Wrappers
  import opened Seqs
  import opened Text
  import opened Types
  import opened Storage
  import opened Membership

  /** The React state of the provider. */
  datatype Session = Session(user: Option<UserInfo>, userRole: Option<Role>, classCode: Option<string>, isLoading: bool)

  datatype AuthState = AuthState(session: Session, store: StoreState)

  /** The boolean an operation resolves with, and the state it leaves behind. */
  datatype Outcome = Outcome(ok: bool, next: AuthState)

  const InitialSession: Session := Session(None, None, None, true)

  const AdminUsername: string := "admin"
  const AdminPassword: string := "admin123"
  const AdminUser: UserInfo := UserInfo("1", "Admin User", "admin@university.edu", Admin, None, None)

  // ---------------------------------------------------------------------------------------------
  // Invariants

  /**
   * The store holds what a reload needs to rebuild the session: the user, the role name, and the
   * class code (an empty or absent key standing for no class).
   */
  predicate Persisted(s: Session, st: StoreState) {
    st.user == (if s.user.Some? then Some(UserJson(s.user.value)) else None) &&
    st.userRole == (if s.userRole.Some? then Some(RoleName(s.userRole.value)) else None) &&
    if s.classCode.Some? then s.classCode.value != "" && st.classCode == s.classCode
    else st.classCode == None || st.classCode == Some("")
  }

  /** The session's role and class code mirror its user, and there is neither without a user. */
  predicate Coherent(s: Session) {
    match s.user
    case None => s.userRole.None? && s.classCode.None?
    case Some(u) => s.userRole == Some(u.role) && s.classCode == u.classCode
  }

  /** Emails are unique and no record names the empty class code. */
  predicate WellFormedStore(st: StoreState) {
    UniqueEmails(st.students) &&
    forall i :: 0 <= i < |st.students| ==> st.students[i].classCode != Some("")
  }

  predicate Valid(a: AuthState) {
    Coherent(a.session) && Persisted(a.session, a.store) && WellFormedStore(a.store)
  }

  // ---------------------------------------------------------------------------------------------
  // Restore on mount

  /** Only the exact strings `admin` and `student` restore a role. */
  function RestoredRole(saved: Option<string>): (r: Option<Role>)
    ensures r.Some? <==> saved == Some("admin") || saved == Some("student")
    ensures r.Some? ==> saved == Some(RoleName(r.value))
  {
    if saved == Some("admin") then Some(Admin)
    else if saved == Some("student") then Some(Student)
    else None
  }

  /**
   * The mount effect: restore the user if its text parses (removing it if it does not), the role
   * if it is `admin` or `student`, the class code if it is non-empty; then stop loading.
   */
  function Mount(a: AuthState): (r: AuthState)
    ensures !r.session.isLoading
    ensures r.store == a.store || (a.store.user.Some? && a.store.user.value.Malformed? && r.store == a.store.(user := None))
    ensures a.store.user.Some? && a.store.user.value.Malformed? && a.store.user.value.raw != "" ==> r.store.user.None?
    ensures r.session.user != a.session.user ==> r.session.user.Some? && a.store.user == Some(UserJson(r.session.user.value))
    ensures r.session.userRole != a.session.userRole ==>
      r.session.userRole.Some? && a.store.userRole == Some(RoleName(r.session.userRole.value))
    ensures r.session.classCode != a.session.classCode ==> r.session.classCode == a.store.classCode && a.store.classCode != Some("")
    ensures a.store.user.Some? && a.store.user.value.UserJson? ==> r.session.user == Some(a.store.user.value.info)
    ensures RestoredRole(a.store.userRole).Some? ==> r.session.userRole == RestoredRole(a.store.userRole)
    ensures a.store.classCode.Some? && a.store.classCode.value != "" ==> r.session.classCode == a.store.classCode
  {
    var st := a.store;
    var user := if st.user.Some? && st.user.value.UserJson? then Some(st.user.value.info) else a.session.user;
    var store := if st.user.Some? && st.user.value.Malformed? && st.user.value.raw != "" then st.(user := None) else st;
    var role := if RestoredRole(st.userRole).Some? then RestoredRole(st.userRole) else a.session.userRole;
    var code := if st.classCode.Some? && st.classCode.value != "" then st.classCode else a.session.classCode;
    AuthState(Session(user, role, code, false), store)
  }

  /** Reload round trip: a fresh provider mounting over a persisted session gets that session back. */
  lemma MountRestoresPersisted(s: Session, st: StoreState)
    requires Persisted(s, st)
    ensures Mount(AuthState(InitialSession, st)) == AuthState(s.(isLoading := false), st)
  {
  }

  /**
   * Unparsable user text does not stop the rest of the effect: the text is removed, yet a saved
   * role and class code are still restored, leaving a role without a user.
   */
  lemma MalformedUserKeepsRoleAndCode(st: StoreState)
    requires st.user == Some(Malformed("{")) && st.userRole == Some("student") && st.classCode == Some("ABC123")
    ensures var r := Mount(AuthState(InitialSession, st));
      r.session == Session(None, Some(Student), Some("ABC123"), false) && r.store == st.(user := None)
  {
  }

  // ---------------------------------------------------------------------------------------------
  // adminLogin

  function AdminLogin(a: AuthState, username: string, password: string): (r: Outcome)
    ensures r.ok <==> username == "admin" && password == "admin123"
    ensures !r.ok ==> r.next == a
    ensures r.ok ==> r.next.session == a.session.(user := Some(AdminUser), userRole := Some(Admin), classCode := None)
    ensures r.ok ==> Persisted(r.next.session, r.next.store) && r.next.store.classCode == Some("")
    ensures r.next.store.students == a.store.students && r.next.store.classes == a.store.classes
  {
    if username == AdminUsername && password == AdminPassword then
      Outcome(true, AuthState(
        a.session.(user := Some(AdminUser), userRole := Some(Admin), classCode := None),
        a.store.(user := Some(UserJson(AdminUser)), userRole := Some("admin"), classCode := Some(""))))
    else
      Outcome(false, a)
  }

  // ---------------------------------------------------------------------------------------------
  // studentSignup

  function HasEmail(email: string): StudentRecord -> bool {
    (s: StudentRecord) => s.email == email
  }

  /** The record signup appends: no class yet, role student. */
  function NewStudent(id: string, name: string, email: string, password: string): StudentRecord {
    StudentRecord(id, name, email, password, None, Student)
  }

  /** The session copy of a whole stored record, password included. */
  function RecordUser(rec: StudentRecord): UserInfo {
    UserInfo(rec.id, rec.name, rec.email, rec.role, rec.classCode, Some(rec.password))
  }

  /** `id` stands for `Date.now().toString()`. */
  function StudentSignup(a: AuthState, name: string, email: string, password: string, id: string): (r: Outcome)
    ensures r.ok <==> forall i :: 0 <= i < |a.store.students| ==> a.store.students[i].email != email
    ensures !r.ok ==> r.next == a
    ensures r.ok ==> r.next.store.students == a.store.students + [StudentRecord(id, name, email, password, None, Student)]
    ensures r.ok ==> r.next.session.user == Some(UserInfo(id, name, email, Student, None, Some(password)))
    ensures r.ok ==> r.next.session.userRole == Some(Student) && r.next.session.classCode == None
    ensures r.ok ==> Persisted(r.next.session, r.next.store) && r.next.store.classCode == Some("")
    ensures r.next.store.classes == a.store.classes && r.next.session.isLoading == a.session.isLoading
  {
    if Find(a.store.students, HasEmail(email)).Some? then
      Outcome(false, a)
    else
      var rec := NewStudent(id, name, email, password);
      var u := RecordUser(rec);
      Outcome(true, AuthState(
        a.session.(user := Some(u), userRole := Some(Student), classCode := None),
        a.store.(students := a.store.students + [rec], user := Some(UserJson(u)),
                 userRole := Some("student"), classCode := Some(""))))
  }

  // ---------------------------------------------------------------------------------------------
  // studentLogin

  function HasCredentials(email: string, password: string): StudentRecord -> bool {
    (s: StudentRecord) => s.email == email && s.password == password
  }

  /** The session user login builds from a record: no password, role student. */
  function LoginUser(rec: StudentRecord): UserInfo {
    UserInfo(rec.id, rec.name, rec.email, Student, rec.classCode, None)
  }

  function StudentLogin(a: AuthState, email: string, password: string): (r: Outcome)
    ensures r.ok <==> exists i :: 0 <= i < |a.store.students| &&
                        a.store.students[i].email == email && a.store.students[i].password == password
    ensures !r.ok ==> r.next == a
    ensures r.ok ==>
      exists k :: 0 <= k < |a.store.students| &&
        a.store.students[k].email == email && a.store.students[k].password == password &&
        (forall j :: 0 <= j < k ==> !(a.store.students[j].email == email && a.store.students[j].password == password)) &&
        r.next.session.user == Some(LoginUser(a.store.students[k])) &&
        r.next.session.classCode == a.store.students[k].classCode &&
        r.next.store.classCode == Some(a.store.students[k].classCode.GetOr(""))
    ensures r.ok ==> r.next.session.userRole == Some(Student) && r.next.store.userRole == Some("student")
    ensures r.ok ==> r.next.session.user.Some? && r.next.store.user == Some(UserJson(r.next.session.user.value))
    ensures r.next.store.students == a.store.students && r.next.store.classes == a.store.classes
  {
    match Find(a.store.students, HasCredentials(email, password))
    case None => Outcome(false, a)
    case Some(rec) =>
      var u := LoginUser(rec);
      Outcome(true, AuthState(
        a.session.(user := Some(u), userRole := Some(Student), classCode := rec.classCode),
        a.store.(user := Some(UserJson(u)), userRole := Some("student"), classCode := Some(rec.classCode.GetOr("")))))
  }

  // ---------------------------------------------------------------------------------------------
  // joinClass

  /** `code.toUpperCase().trim()`; trimming first would give the same code. */
  function NormalizeCode(code: string): (r: string)
    ensures r == ToUpper(Trim(code))
    ensures forall i :: 0 <= i < |r| ==> !IsAsciiLower(r[i])
    ensures r != [] ==> !IsWhitespace(r[0]) && !IsWhitespace(r[|r| - 1])
  {
    UpperTrimCommute(code);
    Trim(ToUpper(code))
  }

  function AlreadyJoined(email: string, code: string): StudentRecord -> bool {
    (s: StudentRecord) => s.email == email && s.classCode == Some(code)
  }

  /** The already-member test as the existence of a matching record. */
  lemma AlreadyJoinedFound(students: seq<StudentRecord>, email: string, code: string)
    ensures Find(students, AlreadyJoined(email, code)).Some? <==>
      exists i :: 0 <= i < |students| && students[i].email == email && students[i].classCode == Some(code)
  {
    if Find(students, AlreadyJoined(email, code)).None? {
      assert forall i :: 0 <= i < |students| ==> !AlreadyJoined(email, code)(students[i]);
    } else {
      var k := FindFirst(students, AlreadyJoined(email, code)).value;
      assert AlreadyJoined(email, code)(students[k]);
    }
  }

  /** The guard chain of joinClass; note that no guard looks at the role. */
  predicate JoinAllowed(a: AuthState, code: string) {
    var c := NormalizeCode(code);
    |c| == 6 &&
    (exists j :: 0 <= j < |a.store.classes| && a.store.classes[j].code == c) &&
    a.session.user.Some? &&
    !exists i :: 0 <= i < |a.store.students| &&
                 a.store.students[i].email == a.session.user.value.email && a.store.students[i].classCode == Some(c)
  }

  /** The guard chain as the source runs it, with `find` for each lookup, passes exactly when JoinAllowed holds. */
  lemma JoinGuards(a: AuthState, code: string)
    ensures JoinAllowed(a, code) <==>
      var c := NormalizeCode(code);
      c != "" && |c| == 6 && ClassWithCode(a.store.classes, c).Some? && a.session.user.Some? &&
      Find(a.store.students, AlreadyJoined(a.session.user.value.email, c)).None?
  {
    if a.session.user.Some? {
      AlreadyJoinedFound(a.store.students, a.session.user.value.email, NormalizeCode(code));
    }
  }

  /**
   * The state a successful join leaves: the records carrying the user's id name class `c`, every
   * class with code `c` gets the target's roster with the email appended if absent, and the
   * session user and session class code both become `c`.
   */
  function Joined(a: AuthState, c: string, u: UserInfo, target: ClassRecord): (r: AuthState)
    ensures var s, s' := a.store.students, r.store.students;
      |s'| == |s| &&
      forall i :: 0 <= i < |s| ==> s'[i] == if s[i].id == u.id then s[i].(classCode := Some(c)) else s[i]
    ensures var cs, cs' := a.store.classes, r.store.classes;
      |cs'| == |cs| &&
      (forall j :: 0 <= j < |cs| && cs[j].code != c ==> cs'[j] == cs[j]) &&
      (forall j :: 0 <= j < |cs| && cs[j].code == c ==> cs'[j] == cs[j].(students := Some(AddIfAbsent(Roster(target), u.email))))
    ensures r.session == a.session.(user := Some(u.(classCode := Some(c))), classCode := Some(c))
    ensures r.store.user == Some(UserJson(u.(classCode := Some(c)))) && r.store.classCode == Some(c)
    ensures r.store.userRole == a.store.userRole
  {
    var joined := u.(classCode := Some(c));
    AuthState(
      a.session.(user := Some(joined), classCode := Some(c)),
      a.store.(students := AssignClass(a.store.students, u.id, c),
               classes := SetRosters(a.store.classes, c, AddIfAbsent(Roster(target), u.email)),
               user := Some(UserJson(joined)),
               classCode := Some(c)))
  }

  function JoinClass(a: AuthState, code: string): (r: Outcome)
    ensures r.ok <==> JoinAllowed(a, code)
    ensures !r.ok ==> r.next == a
    ensures r.ok ==> r.next == Joined(a, NormalizeCode(code), a.session.user.value,
                                      ClassWithCode(a.store.classes, NormalizeCode(code)).value)
  {
    JoinGuards(a, code);
    var c := NormalizeCode(code);
    if c == "" || |c| != 6 then Outcome(false, a)
    else
      match ClassWithCode(a.store.classes, c)
      case None => Outcome(false, a)
      case Some(target) =>
        match a.session.user
        case None => Outcome(false, a)
        case Some(u) =>
          if Find(a.store.students, AlreadyJoined(u.email, c)).Some? then Outcome(false, a)
          else Outcome(true, Joined(a, c, u, target))
  }

  // ---------------------------------------------------------------------------------------------
  // logout

  function Logout(a: AuthState): (r: AuthState)
    ensures r.session.user.None? && r.session.userRole.None? && r.session.classCode.None?
    ensures r.store.user.None? && r.store.userRole.None? && r.store.classCode.None?
    ensures r.session.isLoading == a.session.isLoading
    ensures r.store.students == a.store.students && r.store.classes == a.store.classes
  {
    AuthState(
      a.session.(user := None, userRole := None, classCode := None),
      a.store.(user := None, userRole := None, classCode := None))
  }

  // ---------------------------------------------------------------------------------------------
  // Properties across operations

  /** A reload after logout finds nobody signed in. */
  lemma LogoutThenMountSignedOut(a: AuthState)
    ensures Mount(AuthState(InitialSession, Logout(a).store)).session == Session(None, None, None, false)
  {
  }

  lemma AdminLoginKeepsValid(a: AuthState, username: string, password: string)
    requires Valid(a)
    ensures Valid(AdminLogin(a, username, password).next)
  {
  }

  lemma {:induction false} SignupKeepsValid(a: AuthState, name: string, email: string, password: string, id: string)
    requires Valid(a)
    ensures Valid(StudentSignup(a, name, email, password, id).next)
  {
    var r := StudentSignup(a, name, email, password, id);
    if r.ok {
      var s, s' := a.store.students, r.next.store.students;
      forall i, j | 0 <= i < j < |s'| ensures s'[i].email != s'[j].email {
        if j == |s| {
          assert s'[i] == s[i];
        } else {
          assert s'[i] == s[i] && s'[j] == s[j];
        }
      }
    }
  }

  lemma LoginKeepsValid(a: AuthState, email: string, password: string)
    requires Valid(a)
    ensures Valid(StudentLogin(a, email, password).next)
  {
  }

  lemma LogoutKeepsValid(a: AuthState)
    requires Valid(a)
    ensures Valid(Logout(a))
  {
  }

  /** The writes of a join keep the state valid when the code is non-empty and the user is the session's. */
  lemma {:induction false} JoinedKeepsValid(a: AuthState, c: string, u: UserInfo, target: ClassRecord)
    requires Valid(a) && a.session.user == Some(u) && c != ""
    ensures Valid(Joined(a, c, u, target))
  {
    var n := Joined(a, c, u, target);
    var s, s' := a.store.students, n.store.students;
    assert forall i :: 0 <= i < |s| ==> s'[i].email == s[i].email;
    assert UniqueEmails(s');
    assert forall i :: 0 <= i < |s'| ==> s'[i].classCode != Some("");
    assert Coherent(n.session);
    assert Persisted(n.session, n.store);
  }

  lemma {:induction false} JoinClassKeepsValid(a: AuthState, code: string)
    requires Valid(a)
    ensures Valid(JoinClass(a, code).next)
  {
    if JoinClass(a, code).ok {
      var c := NormalizeCode(code);
      JoinedKeepsValid(a, c, a.session.user.value, ClassWithCode(a.store.classes, c).value);
    }
  }

  /**
   * Joining leaves the session pointing at the joined class: looking the session's class code up
   * finds a class with the normalised code whose roster holds the user's email, and every record
   * carrying the user's id names that class.
   */
  lemma JoinClassRoundTrip(a: AuthState, code: string)
    requires JoinClass(a, code).ok
    ensures var r := JoinClass(a, code).next;
      var found := ClassFor(r.store.classes, r.session.classCode);
      found.Some? && found.value.code == NormalizeCode(code) &&
      a.session.user.value.email in Roster(found.value) &&
      forall i :: 0 <= i < |r.store.students| && r.store.students[i].id == a.session.user.value.id ==>
        r.store.students[i].classCode == r.session.classCode
  {
    var c, u := NormalizeCode(code), a.session.user.value;
    var target := ClassWithCode(a.store.classes, c).value;
    ClassWithCodeAfterSetRosters(a.store.classes, c, AddIfAbsent(Roster(target), u.email), c);
  }

  /**
   * The email is appended only when absent: if the joined class's roster had no duplicate, every
   * class with that code ends up listing the email exactly once.
   */
  lemma JoinClassNoDuplicate(a: AuthState, code: string)
    requires JoinClass(a, code).ok
    requires NoDuplicates(Roster(ClassWithCode(a.store.classes, NormalizeCode(code)).value))
    ensures var cs' := JoinClass(a, code).next.store.classes;
      forall j :: 0 <= j < |cs'| && cs'[j].code == NormalizeCode(code) ==>
        NoDuplicates(Roster(cs'[j])) && a.session.user.value.email in Roster(cs'[j])
  {
  }

  /** Joining the same code twice leaves the state the first join left. */
  lemma {:induction false} JoinClassIdempotent(a: AuthState, code: string)
    ensures JoinClass(JoinClass(a, code).next, code).next == JoinClass(a, code).next
  {
    var r := JoinClass(a, code);
    var b := r.next;
    var r2 := JoinClass(b, code);
    if r.ok && r2.ok {
      var c, u := NormalizeCode(code), a.session.user.value;
      var roster := AddIfAbsent(Roster(ClassWithCode(a.store.classes, c).value), u.email);
      assert b.store.classes == SetRosters(a.store.classes, c, roster);
      ClassWithCodeAfterSetRosters(a.store.classes, c, roster, c);
      assert Roster(ClassWithCode(b.store.classes, c).value) == roster;
      assert AddIfAbsent(roster, u.email) == roster;
      SetRostersIdempotent(a.store.classes, c, roster);
      assert b.store.students == AssignClass(a.store.students, u.id, c);
      AssignClassIdempotent(a.store.students, u.id, c);
      assert b.session.user.value == u.(classCode := Some(c));
    }
  }

  /**
   * Joining keeps every student record's class pointing at an existing class that lists it,
   * provided the records carrying the session user's id carry the session user's email.
   */
  lemma {:induction false} JoinClassKeepsIntegrity(a: AuthState, code: string)
    requires JoinClass(a, code).ok
    requires ReferentialIntegrity(a.store.students, a.store.classes)
    requires forall i :: 0 <= i < |a.store.students| && a.store.students[i].id == a.session.user.value.id ==>
               a.store.students[i].email == a.session.user.value.email
    ensures ReferentialIntegrity(JoinClass(a, code).next.store.students, JoinClass(a, code).next.store.classes)
  {
    var r := JoinClass(a, code);
    var c, u := NormalizeCode(code), a.session.user.value;
    var roster := AddIfAbsent(Roster(ClassWithCode(a.store.classes, c).value), u.email);
    var s, s', cs' := a.store.students, r.next.store.students, r.next.store.classes;
    forall i | 0 <= i < |s'| && s'[i].classCode.Some?
      ensures ClassFor(cs', s'[i].classCode).Some? && s'[i].email in Roster(ClassFor(cs', s'[i].classCode).value)
    {
      var x := s'[i].classCode.value;
      ClassWithCodeAfterSetRosters(a.store.classes, c, roster, x);
      if s[i].id != u.id {
        assert s'[i] == s[i];
      }
    }
  }
}
