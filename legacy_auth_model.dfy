/**
 * The untyped predecessor of the authentication context (src/app/AuthContext.jsx), as functions
 * from the state before to the outcome after. It differs from AuthContext.tsx in four ways:
 * the role is any saved string, a malformed saved user makes the mount effect throw, admin login
 * leaves the class code alone, and joinClass only upper-cases the code, checks neither its length
 * nor an earlier join, and appends the email to each matching class's own roster.
 */
module LegacyAuthModel {
  import opened Wrappers
  import opened Seqs
  import opened Text
  import opened Types
  import opened Storage
  import opened Membership
  import AuthModel

  /** The React state of the provider; the role is the raw string that was saved or set. */
  datatype Session = Session(user: Option<UserInfo>, userRole: Option<string>, classCode: Option<string>, isLoading: bool)

  datatype AuthState = AuthState(session: Session, store: StoreState)

  datatype Outcome = Outcome(ok: bool, next: AuthState)

  const InitialSession: Session := Session(None, None, None, true)

  /** The store holds what a reload restores: the user, a non-empty role and a non-empty class code. */
  predicate Persisted(s: Session, st: StoreState) {
    st.user == (if s.user.Some? then Some(UserJson(s.user.value)) else None) &&
    (if s.userRole.Some? then s.userRole.value != "" && st.userRole == s.userRole
     else st.userRole == None || st.userRole == Some("")) &&
    if s.classCode.Some? then s.classCode.value != "" && st.classCode == s.classCode
    else st.classCode == None || st.classCode == Some("")
  }

  // ---------------------------------------------------------------------------------------------
  // Restore on mount

  /**
   * The mount effect. A non-empty text under `user` that does not parse makes JSON.parse throw
   * before any setter runs, so the state is left as it was, still loading. Otherwise each
   * non-empty key is restored and loading stops.
   */
  function Mount(a: AuthState): (r: AuthState)
    ensures r.store == a.store
    ensures a.store.user.Some? && a.store.user.value.Malformed? && a.store.user.value.raw != "" ==> r == a
    ensures !(a.store.user.Some? && a.store.user.value.Malformed? && a.store.user.value.raw != "") ==> !r.session.isLoading
    ensures r.session.user != a.session.user ==> r.session.user.Some? && a.store.user == Some(UserJson(r.session.user.value))
    ensures r.session.userRole != a.session.userRole ==> r.session.userRole == a.store.userRole && a.store.userRole != Some("")
    ensures r.session.classCode != a.session.classCode ==> r.session.classCode == a.store.classCode && a.store.classCode != Some("")
  {
    var st := a.store;
    if st.user.Some? && st.user.value.Malformed? && st.user.value.raw != "" then a
    else
      var user := if st.user.Some? && st.user.value.UserJson? then Some(st.user.value.info) else a.session.user;
      var role := if st.userRole.Some? && st.userRole.value != "" then st.userRole else a.session.userRole;
      var code := if st.classCode.Some? && st.classCode.value != "" then st.classCode else a.session.classCode;
      AuthState(Session(user, role, code, false), st)
  }

  /** Reload round trip: a fresh provider mounting over a persisted session gets that session back. */
  lemma MountRestoresPersisted(s: Session, st: StoreState)
    requires Persisted(s, st)
    ensures Mount(AuthState(InitialSession, st)) == AuthState(s.(isLoading := false), st)
  {
  }

  /** A malformed saved user makes the mount effect throw before any setter runs: the session stays initial. */
  lemma MalformedUserSetsNothing(st: StoreState)
    requires st.user.Some? && st.user.value.Malformed? && st.user.value.raw != ""
    ensures Mount(AuthState(InitialSession, st)).session == InitialSession
  {
  }

  // ---------------------------------------------------------------------------------------------
  // adminLogin

  /** Unlike AuthContext.tsx, neither the session's nor the store's class code is touched. */
  function AdminLogin(a: AuthState, username: string, password: string): (r: Outcome)
    ensures r.ok <==> username == "admin" && password == "admin123"
    ensures !r.ok ==> r.next == a
    ensures r.ok ==> r.next.session == a.session.(user := Some(AuthModel.AdminUser), userRole := Some("admin"))
    ensures r.ok ==> r.next.store == a.store.(user := Some(UserJson(AuthModel.AdminUser)), userRole := Some("admin"))
  {
    if username == AuthModel.AdminUsername && password == AuthModel.AdminPassword then
      Outcome(true, AuthState(
        a.session.(user := Some(AuthModel.AdminUser), userRole := Some("admin")),
        a.store.(user := Some(UserJson(AuthModel.AdminUser)), userRole := Some("admin"))))
    else
      Outcome(false, a)
  }

  // ---------------------------------------------------------------------------------------------
  // studentSignup

  /** `id` stands for `Date.now().toString()`. */
  function StudentSignup(a: AuthState, name: string, email: string, password: string, id: string): (r: Outcome)
    ensures r.ok <==> forall i :: 0 <= i < |a.store.students| ==> a.store.students[i].email != email
    ensures !r.ok ==> r.next == a
    ensures r.ok ==> r.next.store.students == a.store.students + [StudentRecord(id, name, email, password, None, Student)]
    ensures r.ok ==> r.next.session == a.session.(user := Some(UserInfo(id, name, email, Student, None, Some(password))),
                                                  userRole := Some("student"), classCode := None)
    ensures r.ok ==> Persisted(r.next.session, r.next.store) && r.next.store.classCode == Some("")
    ensures r.next.store.classes == a.store.classes
  {
    if Find(a.store.students, AuthModel.HasEmail(email)).Some? then
      Outcome(false, a)
    else
      var rec := AuthModel.NewStudent(id, name, email, password);
      var u := AuthModel.RecordUser(rec);
      Outcome(true, AuthState(
        a.session.(user := Some(u), userRole := Some("student"), classCode := None),
        a.store.(students := a.store.students + [rec], user := Some(UserJson(u)),
                 userRole := Some("student"), classCode := Some(""))))
  }

  // ---------------------------------------------------------------------------------------------
  // studentLogin

  /** The session receives the whole stored record, password included. */
  function StudentLogin(a: AuthState, email: string, password: string): (r: Outcome)
    ensures r.ok <==> exists i :: 0 <= i < |a.store.students| &&
                        a.store.students[i].email == email && a.store.students[i].password == password
    ensures !r.ok ==> r.next == a
    ensures r.ok ==>
      exists k :: 0 <= k < |a.store.students| &&
        a.store.students[k].email == email && a.store.students[k].password == password &&
        (forall j :: 0 <= j < k ==> !(a.store.students[j].email == email && a.store.students[j].password == password)) &&
        r.next.session.user == Some(AuthModel.RecordUser(a.store.students[k])) &&
        r.next.session.classCode == a.store.students[k].classCode &&
        r.next.store.classCode == Some(a.store.students[k].classCode.GetOr(""))
    ensures r.ok ==> r.next.session.userRole == Some("student") && r.next.store.userRole == Some("student")
    ensures r.ok ==> r.next.session.user.Some? && r.next.store.user == Some(UserJson(r.next.session.user.value))
    ensures r.next.store.students == a.store.students && r.next.store.classes == a.store.classes
  {
    match Find(a.store.students, AuthModel.HasCredentials(email, password))
    case None => Outcome(false, a)
    case Some(rec) =>
      var u := AuthModel.RecordUser(rec);
      Outcome(true, AuthState(
        a.session.(user := Some(u), userRole := Some("student"), classCode := rec.classCode),
        a.store.(user := Some(UserJson(u)), userRole := Some("student"), classCode := Some(rec.classCode.GetOr("")))))
  }

  // ---------------------------------------------------------------------------------------------
  // joinClass

  /**
   * Each class with the code keeps its own roster and gets the email appended if the roster lacks
   * it; a roster that already lists the email leaves its class as it was.
   */
  function AddToRosters(classes: seq<ClassRecord>, code: string, email: string): (r: seq<ClassRecord>)
    ensures |r| == |classes|
    ensures forall j :: 0 <= j < |r| ==> r[j].code == classes[j].code
    ensures forall j :: 0 <= j < |r| && (classes[j].code != code || email in Roster(classes[j])) ==> r[j] == classes[j]
    ensures forall j :: 0 <= j < |r| && classes[j].code == code ==>
      r[j] == classes[j].(students := Some(AddIfAbsent(Roster(classes[j]), email)))
  {
    seq(|classes|, j requires 0 <= j < |classes| =>
      if classes[j].code == code && email !in Roster(classes[j])
      then classes[j].(students := Some(Roster(classes[j]) + [email]))
      else classes[j])
  }

  /** The guards of the legacy joinClass: some class has the upper-cased code and someone is signed in. */
  predicate JoinAllowed(a: AuthState, code: string) {
    (exists j :: 0 <= j < |a.store.classes| && a.store.classes[j].code == ToUpper(code)) &&
    a.session.user.Some?
  }

  function JoinClass(a: AuthState, code: string): (r: Outcome)
    ensures r.ok <==> JoinAllowed(a, code)
    ensures !r.ok ==> r.next == a
    ensures r.ok ==>
      var c, u := ToUpper(code), a.session.user.value;
      r.next.session == a.session.(user := Some(u.(classCode := Some(c))), classCode := Some(c)) &&
      r.next.store == a.store.(students := AssignClass(a.store.students, u.id, c),
                               classes := AddToRosters(a.store.classes, c, u.email),
                               user := Some(UserJson(u.(classCode := Some(c)))),
                               classCode := Some(c))
  {
    var c := ToUpper(code);
    if ClassWithCode(a.store.classes, c).Some? && a.session.user.Some? then
      var u := a.session.user.value;
      var joined := u.(classCode := Some(c));
      Outcome(true, AuthState(
        a.session.(user := Some(joined), classCode := Some(c)),
        a.store.(students := AssignClass(a.store.students, u.id, c),
                 classes := AddToRosters(a.store.classes, c, u.email),
                 user := Some(UserJson(joined)),
                 classCode := Some(c))))
    else
      Outcome(false, a)
  }

  // ---------------------------------------------------------------------------------------------
  // logout

  function Logout(a: AuthState): (r: AuthState)
    ensures r.session.user.None? && r.session.userRole.None? && r.session.classCode.None?
    ensures r.store.user.None? && r.store.userRole.None? && r.store.classCode.None?
    ensures r.session.isLoading == a.session.isLoading
    ensures r.store.students == a.store.students && r.store.classes == a.store.classes
  {
    AuthState(
      a.session.(user := None, userRole := None, classCode := None),
      a.store.(user := None, userRole := None, classCode := None))
  }

  // ---------------------------------------------------------------------------------------------
  // Properties across operations

  lemma AdminLoginKeepsPersisted(a: AuthState, username: string, password: string)
    requires Persisted(a.session, a.store)
    ensures var r := AdminLogin(a, username, password).next; Persisted(r.session, r.store)
  {
  }

  lemma LoginKeepsPersisted(a: AuthState, email: string, password: string)
    requires Persisted(a.session, a.store)
    requires forall i :: 0 <= i < |a.store.students| ==> a.store.students[i].classCode != Some("")
    ensures var r := StudentLogin(a, email, password).next; Persisted(r.session, r.store)
  {
  }

  /** Persisted needs a non-empty class code, which only a class with an empty code could break. */
  lemma JoinClassKeepsPersisted(a: AuthState, code: string)
    requires Persisted(a.session, a.store)
    requires forall j :: 0 <= j < |a.store.classes| ==> a.store.classes[j].code != ""
    ensures var r := JoinClass(a, code).next; Persisted(r.session, r.store)
  {
    if JoinClass(a, code).ok {
      var j :| 0 <= j < |a.store.classes| && a.store.classes[j].code == ToUpper(code);
    }
  }

  /** Adding the email to the rosters a second time changes nothing. */
  lemma AddToRostersIdempotent(classes: seq<ClassRecord>, code: string, email: string)
    ensures AddToRosters(AddToRosters(classes, code, email), code, email) == AddToRosters(classes, code, email)
  {
    var once := AddToRosters(classes, code, email);
    var twice := AddToRosters(once, code, email);
    assert forall j :: 0 <= j < |twice| ==> twice[j] == once[j];
  }

  /** Joining the same code twice leaves the state the first join left, and the second join also succeeds. */
  lemma {:induction false} JoinClassIdempotent(a: AuthState, code: string)
    requires JoinClass(a, code).ok
    ensures JoinClass(JoinClass(a, code).next, code).ok
    ensures JoinClass(JoinClass(a, code).next, code).next == JoinClass(a, code).next
  {
    var b := JoinClass(a, code).next;
    var c, u := ToUpper(code), a.session.user.value;
    var j :| 0 <= j < |a.store.classes| && a.store.classes[j].code == c;
    assert b.store.classes[j].code == c;
    AddToRostersIdempotent(a.store.classes, c, u.email);
    AssignClassIdempotent(a.store.students, u.id, c);
  }

  /** The session of AuthContext.tsx seen as a legacy session: the role becomes its name. */
  function FromTyped(a: AuthModel.AuthState): (r: AuthState)
    ensures r.store == a.store
    ensures r.session.user == a.session.user && r.session.classCode == a.session.classCode
    ensures r.session.userRole.Some? <==> a.session.userRole.Some?
    ensures a.session.userRole.Some? ==> r.session.userRole == Some(RoleName(a.session.userRole.value))
  {
    var s := a.session;
    AuthState(Session(s.user, if s.userRole.Some? then Some(RoleName(s.userRole.value)) else None,
                      s.classCode, s.isLoading), a.store)
  }

  /** The typed joinClass accepts no code that the legacy one, given the trimmed code, would refuse. */
  lemma TypedJoinImpliesLegacyJoin(a: AuthModel.AuthState, code: string)
    requires AuthModel.JoinClass(a, code).ok
    ensures JoinClass(FromTyped(a), Trim(code)).ok
  {
    assert ToUpper(Trim(code)) == AuthModel.NormalizeCode(code);
  }

  /** At most one class carries `code`. */
  predicate CodeUnique(classes: seq<ClassRecord>, code: string) {
    forall j, k :: 0 <= j < |classes| && 0 <= k < |classes| && classes[j].code == code && classes[k].code == code ==> j == k
  }

  /**
   * On a code only one class carries, extending each matching class's own roster is the same as
   * giving every matching class the first match's extended roster.
   */
  lemma {:induction false} RostersAgreeOnUniqueCode(classes: seq<ClassRecord>, c: string, email: string, k: nat)
    requires CodeUnique(classes, c) && k < |classes| && classes[k].code == c
    ensures AddToRosters(classes, c, email) == SetRosters(classes, c, AddIfAbsent(Roster(classes[k]), email))
  {
    var legacy := AddToRosters(classes, c, email);
    var typed := SetRosters(classes, c, AddIfAbsent(Roster(classes[k]), email));
    forall j | 0 <= j < |legacy| ensures legacy[j] == typed[j] {
      if classes[j].code == c {
        assert j == k;
      }
    }
  }

  /**
   * Where the code names a single class, the typed join (which copies the first matching class's
   * roster) and the legacy join on the trimmed code (which extends each class's own roster) leave
   * the same state, the role aside.
   */
  lemma {:induction false} TypedJoinAgreesOnUniqueCode(a: AuthModel.AuthState, code: string)
    requires AuthModel.JoinClass(a, code).ok
    requires CodeUnique(a.store.classes, AuthModel.NormalizeCode(code))
    ensures JoinClass(FromTyped(a), Trim(code)).next == FromTyped(AuthModel.JoinClass(a, code).next)
  {
    var c := AuthModel.NormalizeCode(code);
    assert ToUpper(Trim(code)) == c;
    var target := ClassWithCode(a.store.classes, c).value;
    var k :| 0 <= k < |a.store.classes| && a.store.classes[k] == target && target.code == c;
    RostersAgreeOnUniqueCode(a.store.classes, c, a.session.user.value.email, k);
  }

  /** A signed-in student whose record already carries class ABC123, whose roster lists them. */
  const Rejoiner: AuthModel.AuthState :=
    var rec := StudentRecord("7", "Sam", "s@u.edu", "pw", Some("ABC123"), Student);
    var u := AuthModel.RecordUser(rec);
    AuthModel.AuthState(
      AuthModel.Session(Some(u), Some(Student), Some("ABC123"), false),
      StoreState(Some(UserJson(u)), Some("student"), Some("ABC123"), [rec],
                 [ClassRecord("1", "Maths", "ABC123", Some(["s@u.edu"]), [], None, None)]))

  /** The typed provider refuses a re-join of the class the student already carries. */
  lemma TypedRefusesRejoin()
    ensures !AuthModel.JoinClass(Rejoiner, "abc123").ok
  {
    assert ToUpper("abc123") == "ABC123";
    TrimmedIsFixed("abc123");
    assert AuthModel.NormalizeCode("abc123") == "ABC123";
    assert Rejoiner.store.students[0].email == Rejoiner.session.user.value.email;
  }

  /** The legacy provider accepts the same re-join, and it rewrites the state with what it held. */
  lemma LegacyAcceptsRejoin()
    ensures JoinClass(FromTyped(Rejoiner), "abc123") == Outcome(true, FromTyped(Rejoiner))
  {
    assert ToUpper("abc123") == "ABC123";
    var st := Rejoiner.store;
    assert st.classes[0].code == "ABC123";
    assert AssignClass(st.students, "7", "ABC123") == st.students;
    assert AddToRosters(st.classes, "ABC123", "s@u.edu") == st.classes;
  }

  /** A signed-in student, without a class, and one class whose code is the two characters AB. */
  const ShortCodeState: AuthModel.AuthState :=
    var u := UserInfo("7", "Sam", "s@u.edu", Student, None, None);
    AuthModel.AuthState(
      AuthModel.Session(Some(u), Some(Student), None, false),
      StoreState(Some(UserJson(u)), Some("student"), Some(""), [],
                 [ClassRecord("1", "Maths", "AB", None, [], None, None)]))

  /** The typed provider refuses the code `ab` for its length. */
  lemma TypedRefusesShortCode()
    ensures !AuthModel.JoinClass(ShortCodeState, "ab").ok
  {
    assert ToUpper("ab") == "AB";
    TrimmedIsFixed("AB");
    assert |AuthModel.NormalizeCode("ab")| == 2;
  }

  /** The legacy provider accepts the same code, since a class carries it. */
  lemma LegacyAcceptsShortCode()
    ensures JoinClass(FromTyped(ShortCodeState), "ab").ok
  {
    assert ToUpper("ab") == "AB";
    assert FromTyped(ShortCodeState).store.classes[0].code == "AB";
  }
}
