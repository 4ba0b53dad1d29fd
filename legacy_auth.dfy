/**
 * The provider of src/app/AuthContext.jsx as an object over the same shared store, each
 * operation ending in exactly the state LegacyAuthModel gives.
 */
module LegacyAuth {
  import opened Wrappers
  import opened Seqs
  import opened Text
  import opened Types
  import opened Storage
  import opened Membership
  import AuthModel
  import LegacyAuthModel

  class LegacyAuthProvider {
    var user: Option<UserInfo>
    var userRole: Option<string>
    var classCode: Option<string>
    var isLoading: bool
    const store: Store

    function Session(): LegacyAuthModel.Session
      reads this
    {
      LegacyAuthModel.Session(user, userRole, classCode, isLoading)
    }

    function State(): LegacyAuthModel.AuthState
      reads this, store
    {
      LegacyAuthModel.AuthState(Session(), store.Value())
    }

    constructor (store: Store)
      ensures this.store == store && Session() == LegacyAuthModel.InitialSession
    {
      this.store := store;
      user, userRole, classCode, isLoading := None, None, None, true;
    }

    /** The mount effect; a malformed non-empty saved user throws before any setter runs. */
    method Mount()
      modifies this
      ensures State() == LegacyAuthModel.Mount(old(State()))
    {
      var savedUser := store.user;
      var savedUserRole := store.userRole;
      var savedClassCode := store.classCode;
      if savedUser.Some? && savedUser.value.Malformed? && savedUser.value.raw != "" {
        return;
      }
      if savedUser.Some? && savedUser.value.UserJson? {
        user := Some(savedUser.value.info);
      }
      if savedUserRole.Some? && savedUserRole.value != "" {
        userRole := savedUserRole;
      }
      if savedClassCode.Some? && savedClassCode.value != "" {
        classCode := savedClassCode;
      }
      isLoading := false;
    }

    method AdminLogin(username: string, password: string) returns (ok: bool)
      modifies this, store
      ensures LegacyAuthModel.AdminLogin(old(State()), username, password) == LegacyAuthModel.Outcome(ok, State())
      ensures classCode == old(classCode) && store.classCode == old(store.classCode)
    {
      if username == AuthModel.AdminUsername && password == AuthModel.AdminPassword {
        var adminUser := AuthModel.AdminUser;
        user := Some(adminUser);
        userRole := Some("admin");
        store.user := Some(UserJson(adminUser));
        store.userRole := Some("admin");
        ok := true;
      } else {
        ok := false;
      }
    }

    /** `id` stands for `Date.now().toString()`. */
    method StudentSignup(name: string, email: string, password: string, id: string) returns (ok: bool)
      modifies this, store
      ensures LegacyAuthModel.StudentSignup(old(State()), name, email, password, id) == LegacyAuthModel.Outcome(ok, State())
    {
      var students := store.students;
      var existingStudent := Find(students, AuthModel.HasEmail(email));
      if existingStudent.Some? {
        return false;
      }
      var newStudent := AuthModel.NewStudent(id, name, email, password);
      students := students + [newStudent];
      store.students := students;
      var u := AuthModel.RecordUser(newStudent);
      user := Some(u);
      userRole := Some("student");
      classCode := None;
      store.user := Some(UserJson(u));
      store.userRole := Some("student");
      store.classCode := Some("");
      return true;
    }

    method StudentLogin(email: string, password: string) returns (ok: bool)
      modifies this, store
      ensures LegacyAuthModel.StudentLogin(old(State()), email, password) == LegacyAuthModel.Outcome(ok, State())
    {
      var students := store.students;
      var student := Find(students, AuthModel.HasCredentials(email, password));
      if student.Some? {
        var loggedIn := AuthModel.RecordUser(student.value);
        user := Some(loggedIn);
        userRole := Some("student");
        classCode := student.value.classCode;
        store.user := Some(UserJson(loggedIn));
        store.userRole := Some("student");
        store.classCode := Some(student.value.classCode.GetOr(""));
        ok := true;
      } else {
        ok := false;
      }
    }

    /** Upper-case the code, check the class and the user, then write in the source's order. */
    method JoinClass(code: string) returns (ok: bool)
      modifies this, store
      ensures LegacyAuthModel.JoinClass(old(State()), code) == LegacyAuthModel.Outcome(ok, State())
    {
      var upperCode := ToUpper(code);
      var classes := store.classes;
      var classExists := ClassWithCode(classes, upperCode);
      if classExists.None? || user.None? {
        return false;
      }
      var u := user.value;
      var updatedStudents := AssignClass(store.students, u.id, upperCode);
      var updatedClasses := LegacyAuthModel.AddToRosters(classes, upperCode, u.email);
      WriteJoin(updatedStudents, updatedClasses, u.(classCode := Some(upperCode)), upperCode);
      return true;
    }

    /** The writes that end a successful join: two store collections, the session and its copy. */
    method WriteJoin(students: seq<StudentRecord>, classes: seq<ClassRecord>, joined: UserInfo, code: string)
      modifies this, store
      ensures Session() == old(Session()).(user := Some(joined), classCode := Some(code))
      ensures store.Value() == old(store.Value()).(students := students, classes := classes,
                                                   user := Some(UserJson(joined)), classCode := Some(code))
    {
      store.students := students;
      store.classes := classes;
      user := Some(joined);
      classCode := Some(code);
      store.user := Some(UserJson(joined));
      store.classCode := Some(code);
    }

    /** Clears the session and its copy; the redirect to `/` is navigation and is not modelled. */
    method Logout()
      modifies this, store
      ensures State() == LegacyAuthModel.Logout(old(State()))
    {
      user := None;
      userRole := None;
      classCode := None;
      store.user := None;
      store.userRole := None;
      store.classCode := None;
    }
  }
}
