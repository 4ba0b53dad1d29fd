/**
 * The authentication provider of src/app/AuthContext.tsx as an object: its four pieces of React
 * state are fields, the shared store is a `Store` object, and each operation updates them step
 * by step, ending in exactly the state AuthModel gives.
 */
module Auth {
  import opened Wrappers
  import opened Seqs
  import opened Text
  import opened Types
  import opened Storage
  import opened Membership
  import AuthModel

  class AuthProvider {
    var user: Option<UserInfo>
    var userRole: Option<Role>
    var classCode: Option<string>
    var isLoading: bool
    const store: Store

    function Session(): AuthModel.Session
      reads this
    {
      AuthModel.Session(user, userRole, classCode, isLoading)
    }

    function State(): AuthModel.AuthState
      reads this, store
    {
      AuthModel.AuthState(Session(), store.Value())
    }

    constructor (store: Store)
      ensures this.store == store && Session() == AuthModel.InitialSession
    {
      this.store := store;
      user, userRole, classCode, isLoading := None, None, None, true;
    }

    /** The mount effect: restore what the store holds, then stop loading. */
    method Mount()
      modifies this, store
      ensures State() == AuthModel.Mount(old(State()))
      ensures !isLoading
    {
      var savedUser := store.user;
      var savedUserRole := store.userRole;
      var savedClassCode := store.classCode;
      match savedUser {
        case Some(UserJson(parsed)) =>
          user := Some(parsed);
        case Some(Malformed(raw)) =>
          if raw != "" {
            store.user := None;
          }
        case None =>
      }
      if savedUserRole == Some("admin") {
        userRole := Some(Admin);
      } else if savedUserRole == Some("student") {
        userRole := Some(Student);
      }
      if savedClassCode.Some? && savedClassCode.value != "" {
        classCode := savedClassCode;
      }
      isLoading := false;
    }

    method AdminLogin(username: string, password: string) returns (ok: bool)
      modifies this, store
      ensures AuthModel.AdminLogin(old(State()), username, password) == AuthModel.Outcome(ok, State())
      ensures ok <==> username == "admin" && password == "admin123"
    {
      if username == AuthModel.AdminUsername && password == AuthModel.AdminPassword {
        var adminUser := AuthModel.AdminUser;
        user := Some(adminUser);
        userRole := Some(Admin);
        classCode := None;
        store.user := Some(UserJson(adminUser));
        store.userRole := Some("admin");
        store.classCode := Some("");
        ok := true;
      } else {
        ok := false;
      }
    }

    /** `id` stands for `Date.now().toString()`. */
    method StudentSignup(name: string, email: string, password: string, id: string) returns (ok: bool)
      modifies this, store
      ensures AuthModel.StudentSignup(old(State()), name, email, password, id) == AuthModel.Outcome(ok, State())
      ensures ok ==> store.students == old(store.students) + [AuthModel.NewStudent(id, name, email, password)]
    {
      var students := store.students;
      var existingStudent := Find(students, AuthModel.HasEmail(email));
      if existingStudent.Some? {
        return false;
      }
      var newStudent := AuthModel.NewStudent(id, name, email, password);
      students := students + [newStudent];
      store.students := students;
      var u := AuthModel.RecordUser(newStudent);
      user := Some(u);
      userRole := Some(Student);
      classCode := None;
      store.user := Some(UserJson(u));
      store.userRole := Some("student");
      store.classCode := Some("");
      return true;
    }

    method StudentLogin(email: string, password: string) returns (ok: bool)
      modifies this, store
      ensures AuthModel.StudentLogin(old(State()), email, password) == AuthModel.Outcome(ok, State())
      ensures store.students == old(store.students) && store.classes == old(store.classes)
    {
      var students := store.students;
      var student := Find(students, AuthModel.HasCredentials(email, password));
      if student.Some? {
        var loggedIn := AuthModel.LoginUser(student.value);
        user := Some(loggedIn);
        userRole := Some(Student);
        classCode := loggedIn.classCode;
        store.user := Some(UserJson(loggedIn));
        store.userRole := Some("student");
        store.classCode := Some(loggedIn.classCode.GetOr(""));
        ok := true;
      } else {
        ok := false;
      }
    }

    /**
     * Normalise the code, run the guards, then write the student records, the class list, the
     * session user and the session class code, in the source's order.
     */
    method JoinClass(code: string) returns (ok: bool)
      modifies this, store
      ensures AuthModel.JoinClass(old(State()), code) == AuthModel.Outcome(ok, State())
    {
      ghost var before := State();
      var upperCode := AuthModel.NormalizeCode(code);
      if upperCode == "" || |upperCode| != 6 {
        return false;
      }
      var classes := store.classes;
      var targetClass := ClassWithCode(classes, upperCode);
      if targetClass.None? {
        return false;
      }
      if user.None? {
        return false;
      }
      var u := user.value;
      var students := store.students;
      var studentInClass := Find(students, AuthModel.AlreadyJoined(u.email, upperCode));
      if studentInClass.Some? {
        return false;
      }
      var newStudents := AssignClass(students, u.id, upperCode);
      var newClasses := SetRosters(classes, upperCode, AddIfAbsent(Roster(targetClass.value), u.email));
      var updatedUser := u.(classCode := Some(upperCode));
      ghost var after := AuthModel.Joined(before, upperCode, u, targetClass.value);
      assert after == AuthModel.AuthState(
        before.session.(user := Some(updatedUser), classCode := Some(upperCode)),
        before.store.(students := newStudents, classes := newClasses,
                      user := Some(UserJson(updatedUser)), classCode := Some(upperCode)));
      WriteJoin(newStudents, newClasses, updatedUser, upperCode);
      return true;
    }

    /** The six writes that end a successful join: two store collections, the session and its copy. */
    method WriteJoin(students: seq<StudentRecord>, classes: seq<ClassRecord>, joined: UserInfo, code: string)
      modifies this, store
      ensures Session() == old(Session()).(user := Some(joined), classCode := Some(code))
      ensures store.Value() == old(store.Value()).(students := students, classes := classes,
                                                   user := Some(UserJson(joined)), classCode := Some(code))
    {
      store.students := students;
      store.classes := classes;
      user := Some(joined);
      classCode := Some(code);
      store.user := Some(UserJson(joined));
      store.classCode := Some(code);
    }

    method Logout()
      modifies this, store
      ensures State() == AuthModel.Logout(old(State()))
      ensures store.students == old(store.students) && store.classes == old(store.classes)
    {
      user := None;
      userRole := None;
      classCode := None;
      store.user := None;
      store.userRole := None;
      store.classCode := None;
    }
  }
}
