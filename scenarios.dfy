/**
 * Properties that cross components: what the student pages show right after a successful
 * joinClass of src/app/AuthContext.tsx.
 */
module Scenarios {
  import opened Wrappers
  import opened Types
  import opened Text
  import opened Storage
  import opened Membership
  import AuthModel
  import DashboardPage
  import SubjectsPage

  /**
   * After a join, the dashboard (which reads the saved user) shows the joined class, whose
   * roster holds the student and whose student card counts at least one.
   */
  lemma {:induction false} JoinThenDashboard(a: AuthModel.AuthState, code: string)
    requires AuthModel.JoinClass(a, code).ok
    ensures var n := AuthModel.JoinClass(a, code).next;
      var v := DashboardPage.Render(n.store.user, n.store.classes);
      v.ClassDashboard? && v.current.code == AuthModel.NormalizeCode(code) &&
      a.session.user.value.email in Roster(v.current) &&
      v.stats[2].value.n >= 1
  {
    AuthModel.JoinClassRoundTrip(a, code);
    var n := AuthModel.JoinClass(a, code).next;
    assert DashboardPage.SavedClassCode(n.store.user) == Some(n.session.classCode);
  }

  /** After a join, the subjects page (which reads the session user) looks at the same class as the dashboard. */
  lemma {:induction false} JoinThenSubjects(a: AuthModel.AuthState, code: string)
    requires AuthModel.JoinClass(a, code).ok
    ensures var n := AuthModel.JoinClass(a, code).next;
      var found := SubjectsPage.StudentClass(n.store.classes, n.session.user);
      found.Some? && found == ClassFor(n.store.classes, Some(AuthModel.NormalizeCode(code))) &&
      DashboardPage.Render(n.store.user, n.store.classes).current == found.value
  {
    JoinThenDashboard(a, code);
  }

  /** One class XYZ789 with an empty roster, one subject and one event; a signed-in student s@x.com without a class. */
  const BeforeJoin: AuthModel.AuthState :=
    var rec := StudentRecord("7", "Sam", "s@x.com", "pw", None, Student);
    var u := AuthModel.LoginUser(rec);
    var subject := Subject("m1", "Maths", "MA101", "Dr. Lee", 4, "Mon 9:00", None, 95.0, "", []);
    var event := Event("e1", "Fair", "2024-05-01", "10:00", "Hall", Social, "", "", 0, 100, 0, "Club", ["social"], None, None);
    AuthModel.AuthState(
      AuthModel.Session(Some(u), Some(Student), None, false),
      StoreState(Some(UserJson(u)), Some("student"), Some(""), [rec],
                 [ClassRecord("1", "Year 1", "XYZ789", Some([]), [], Some([subject]), Some([event]))]))

  /** The lower-case code normalises to the stored one. */
  lemma NormalizeXyz789()
    ensures AuthModel.NormalizeCode("xyz789") == "XYZ789"
  {
    assert ToUpper("xyz789") == "XYZ789";
    TrimmedIsFixed("XYZ789");
  }

  /** Every guard of joinClass passes for the student without a class. */
  lemma JoinXyz789Allowed()
    ensures AuthModel.JoinClass(BeforeJoin, "xyz789").ok
  {
    NormalizeXyz789();
    assert BeforeJoin.store.classes[0].code == "XYZ789";
    assert BeforeJoin.store.students[0].classCode.None?;
  }

  /** The join writes into a one-class list with an empty roster: that class then lists just the user. */
  lemma JoinedOnlyClass(a: AuthModel.AuthState, c: string, u: UserInfo)
    requires |a.store.classes| == 1 && a.store.classes[0].code == c && Roster(a.store.classes[0]) == []
    ensures var n := AuthModel.Joined(a, c, u, a.store.classes[0]);
      n.store.classes == [a.store.classes[0].(students := Some([u.email]))] &&
      DashboardPage.SavedClassCode(n.store.user) == Some(Some(c))
  {
    assert AddIfAbsent(Roster(a.store.classes[0]), u.email) == [u.email];
  }

  /** Joining the only class, whose roster is empty, leaves that class listing just the student. */
  lemma JoinOnlyClass(a: AuthModel.AuthState, code: string)
    requires AuthModel.JoinClass(a, code).ok
    requires |a.store.classes| == 1 && Roster(a.store.classes[0]) == []
    ensures var n := AuthModel.JoinClass(a, code).next;
      n.store.classes == [a.store.classes[0].(students := Some([a.session.user.value.email]))] &&
      DashboardPage.SavedClassCode(n.store.user) == Some(Some(AuthModel.NormalizeCode(code)))
  {
    var c := AuthModel.NormalizeCode(code);
    assert ClassWithCode(a.store.classes, c).value == a.store.classes[0];
    JoinedOnlyClass(a, c, a.session.user.value);
  }

  /**
   * Joining with the lower-case code succeeds, and the dashboard then shows one subject, one
   * event, one student and the class code XYZ789.
   */
  lemma {:induction false} JoinXyz789ThenDashboard()
    ensures AuthModel.JoinClass(BeforeJoin, "xyz789").ok
    ensures var n := AuthModel.JoinClass(BeforeJoin, "xyz789").next;
      var v := DashboardPage.Render(n.store.user, n.store.classes);
      v.ClassDashboard? &&
      v.stats[0].value == DashboardPage.Count(1) && v.stats[1].value == DashboardPage.Count(1) &&
      v.stats[2].value == DashboardPage.Count(1) && v.stats[3].value == DashboardPage.Label("XYZ789")
  {
    JoinXyz789Allowed();
    NormalizeXyz789();
    JoinOnlyClass(BeforeJoin, "xyz789");
    var n := AuthModel.JoinClass(BeforeJoin, "xyz789").next;
    var joined := n.store.classes[0];
    assert ClassFor(n.store.classes, Some("XYZ789")) == Some(joined);
    assert DashboardPage.Render(n.store.user, n.store.classes).current == joined;
  }
}
