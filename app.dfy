/**
 * The application shell of src/App.tsx: the top-level render precedence, the page title, the
 * content selected for each view, the sidebar's active id and highlight test
 * (src/components/layout/Sidebar.tsx), and the navigation state `handleNavItemClick` updates.
 */
module AppShell {
  import opened Wrappers
  import opened Seqs
  import opened Types
  import AuthModel
  import Auth

  datatype NavItem = NavItem(id: string, name: string, path: string)

  const StudentNavItems: seq<NavItem> := [
    NavItem("dashboard", "Dashboard", "/dashboard"),
    NavItem("events", "Events", "/events"),
    NavItem("subjects", "Subjects", "/subjects"),
    NavItem("profile", "Profile", "/profile"),
    NavItem("logout", "Logout", "/logout")]

  const AdminNavItems: seq<NavItem> := [
    NavItem("admin-dashboard", "Admin Dashboard", "/admin/dashboard"),
    NavItem("create-event", "Create Event", "/admin/create-event"),
    NavItem("add-material", "Add Material", "/admin/add-material"),
    NavItem("create-class", "Create Class", "/admin/create-class"),
    NavItem("logout", "Logout", "/logout")]

  const LogoutId: string := "logout"

  /** `currentNavItems`. */
  function NavItems(userRole: Option<Role>): seq<NavItem> {
    if userRole == Some(Admin) then AdminNavItems else StudentNavItems
  }

  /** `viewMap[id]` for the four own keys of the map. */
  function ViewMap(id: string): (r: Option<string>)
    ensures r.Some? <==> id in {"admin-dashboard", "create-event", "add-material", "create-class"}
    ensures r.Some? && id != "admin-dashboard" ==> r.value == id
    ensures id == "admin-dashboard" ==> r == Some("dashboard")
  {
    if id == "admin-dashboard" then Some("dashboard")
    else if id == "create-event" || id == "add-material" || id == "create-class" then Some(id)
    else None
  }

  /** `viewMap[id] || 'dashboard'`. */
  function AdminViewAfterClick(id: string): string {
    ViewMap(id).GetOr("dashboard")
  }

  function HasId(id: string): NavItem -> bool {
    (item: NavItem) => item.id == id
  }

  /** `getPageTitle`: the admin view's title (Admin Dashboard by default), or the student item's label (Dashboard by default). */
  function PageTitle(userRole: Option<Role>, adminView: string, activeItem: string): (r: string)
    ensures userRole == Some(Admin) ==>
      r == (if adminView == "create-event" then "Create Event"
            else if adminView == "add-material" then "Add Material"
            else if adminView == "create-class" then "Create Class"
            else "Admin Dashboard")
    ensures userRole != Some(Admin) ==>
      (r == "Dashboard" || exists i :: 0 <= i < |StudentNavItems| && StudentNavItems[i].name == r &&
                                        StudentNavItems[i].id == activeItem)
    ensures userRole != Some(Admin) && (forall i :: 0 <= i < |StudentNavItems| ==> StudentNavItems[i].id != activeItem) ==>
      r == "Dashboard"
    ensures userRole != Some(Admin) ==>
      forall i :: 0 <= i < |StudentNavItems| && StudentNavItems[i].id == activeItem ==> r == StudentNavItems[i].name
  {
    if userRole == Some(Admin) then
      match adminView
      case "dashboard" => "Admin Dashboard"
      case "create-event" => "Create Event"
      case "add-material" => "Add Material"
      case "create-class" => "Create Class"
      case _ => "Admin Dashboard"
    else
      match Find(StudentNavItems, HasId(activeItem))
      case Some(item) => item.name
      case None => "Dashboard"
  }

  datatype AdminContent = AdminDashboardPage | CreateEventPage | AddMaterialPage | CreateClassPage

  datatype StudentContent = DashboardView | EventsView | SubjectsView | ProfileView

  /** `renderAdminContent`: an unknown view falls back to the dashboard. */
  function AdminContentFor(adminView: string): (r: AdminContent)
    ensures r == CreateEventPage <==> adminView == "create-event"
    ensures r == AddMaterialPage <==> adminView == "add-material"
    ensures r == CreateClassPage <==> adminView == "create-class"
  {
    match adminView
    case "dashboard" => AdminDashboardPage
    case "create-event" => CreateEventPage
    case "add-material" => AddMaterialPage
    case "create-class" => CreateClassPage
    case _ => AdminDashboardPage
  }

  /** `renderStudentContent`: an unknown item falls back to the dashboard. */
  function StudentContentFor(activeItem: string): (r: StudentContent)
    ensures r == EventsView <==> activeItem == "events"
    ensures r == SubjectsView <==> activeItem == "subjects"
    ensures r == ProfileView <==> activeItem == "profile"
  {
    match activeItem
    case "dashboard" => DashboardView
    case "events" => EventsView
    case "subjects" => SubjectsView
    case "profile" => ProfileView
    case _ => DashboardView
  }

  /** The sidebar's `activeItem` prop. */
  function SidebarActive(userRole: Option<Role>, adminView: string, activeItem: string): (r: string)
    ensures userRole == Some(Admin) ==> r == "admin-" + adminView
    ensures userRole != Some(Admin) ==> r == activeItem
  {
    if userRole == Some(Admin) then "admin-" + adminView else activeItem
  }

  /** Sidebar.tsx's highlight test for one item. */
  predicate Highlighted(active: string, itemId: string)
    ensures Highlighted(active, itemId) <==>
      active == itemId || (|active| == 6 + |itemId| && active[..6] == "admin-" && active[6..] == itemId)
  {
    active == itemId || active == "admin-" + itemId
  }

  /** What the shell renders: the spinner while loading, the main layout for a signed-in user, else the public routes. */
  datatype Screen =
    | LoadingSpinner
    | MainLayout(title: string, sidebarActive: string, content: Content)
    | PublicRoutes

  datatype Content = AdminPage(admin: AdminContent) | StudentPage(student: StudentContent)

  function Render(isLoading: bool, user: Option<UserInfo>, userRole: Option<Role>, adminView: string, activeItem: string): (r: Screen)
    ensures r.LoadingSpinner? <==> isLoading
    ensures r.MainLayout? <==> !isLoading && user.Some?
    ensures r.PublicRoutes? <==> !isLoading && user.None?
    ensures r.MainLayout? ==> r.content == (if userRole == Some(Admin) then AdminPage(AdminContentFor(adminView))
                                            else StudentPage(StudentContentFor(activeItem)))
    ensures r.MainLayout? ==> r.title == PageTitle(userRole, adminView, activeItem) &&
                              r.sidebarActive == SidebarActive(userRole, adminView, activeItem)
  {
    if isLoading then LoadingSpinner
    else if user.Some? then
      MainLayout(PageTitle(userRole, adminView, activeItem), SidebarActive(userRole, adminView, activeItem),
                 if userRole == Some(Admin) then AdminPage(AdminContentFor(adminView)) else StudentPage(StudentContentFor(activeItem)))
    else PublicRoutes
  }

  /**
   * After an admin clicks one of the four admin pages, the sidebar highlights exactly that item,
   * the title is its name, and the content is its page.
   */
  lemma {:induction false} AdminClickIsConsistent(clicked: nat)
    requires clicked < 4
    ensures var item := AdminNavItems[clicked];
      var view := AdminViewAfterClick(item.id);
      var active := SidebarActive(Some(Admin), view, "");
      PageTitle(Some(Admin), view, "") == item.name &&
      (forall i :: 0 <= i < |AdminNavItems| ==> (Highlighted(active, AdminNavItems[i].id) <==> i == clicked)) &&
      AdminContentFor(view) == [AdminDashboardPage, CreateEventPage, AddMaterialPage, CreateClassPage][clicked]
  {
    var ids := ["admin-dashboard", "create-event", "add-material", "create-class", "logout"];
    assert forall i :: 0 <= i < 5 ==> AdminNavItems[i].id == ids[i];
    var view := AdminViewAfterClick(ids[clicked]);
    assert view == ["dashboard", "create-event", "add-material", "create-class"][clicked];
    var active := "admin-" + view;
    forall i | 0 <= i < 5
      ensures Highlighted(active, ids[i]) <==> i == clicked
    {
      if i != clicked {
        assert active[6..] != ids[i] && active != ids[i] by {
          assert active[6..] == view;
        }
      }
    }
  }

  /** After a student clicks one of the four student pages, the title is its name and exactly that item is highlighted. */
  lemma {:induction false} StudentClickIsConsistent(clicked: nat)
    requires clicked < 4
    ensures var item := StudentNavItems[clicked];
      var active := SidebarActive(Some(Student), "dashboard", item.id);
      PageTitle(Some(Student), "dashboard", item.id) == item.name &&
      (forall i :: 0 <= i < |StudentNavItems| ==> (Highlighted(active, StudentNavItems[i].id) <==> i == clicked)) &&
      StudentContentFor(item.id) == [DashboardView, EventsView, SubjectsView, ProfileView][clicked]
  {
    var ids := ["dashboard", "events", "subjects", "profile", "logout"];
    assert forall i :: 0 <= i < 5 ==> StudentNavItems[i].id == ids[i];
    var active := ids[clicked];
    forall i | 0 <= i < 5
      ensures Highlighted(active, ids[i]) <==> i == clicked
    {
      assert |"admin-" + ids[i]| > |active|;
    }
    assert HasId(active)(StudentNavItems[clicked]);
    assert forall j :: 0 <= j < clicked ==> !HasId(active)(StudentNavItems[j]);
  }

  /** The shell's own state, over the authentication provider it reads the role from and logs out through. */
  class AppContent {
    var activeItem: string
    var isCollapsed: bool
    var isMobileMenuOpen: bool
    var adminView: string
    const auth: Auth.AuthProvider

    constructor (auth: Auth.AuthProvider)
      ensures this.auth == auth
      ensures activeItem == "dashboard" && !isCollapsed && !isMobileMenuOpen && adminView == "dashboard"
    {
      this.auth := auth;
      activeItem := "dashboard";
      isCollapsed := false;
      isMobileMenuOpen := false;
      adminView := "dashboard";
    }

    /**
     * `handleNavItemClick`: logout signs out and navigates to `/`, changing no shell state;
     * otherwise an admin's click sets the view, a student's click sets the item, and the mobile
     * menu closes. Returns the path navigated to, if any.
     */
    method HandleNavItemClick(id: string) returns (navigateTo: Option<string>)
      modifies this, auth, auth.store
      ensures id == LogoutId ==>
        navigateTo == Some("/") && auth.State() == AuthModel.Logout(old(auth.State())) &&
        activeItem == old(activeItem) && adminView == old(adminView) && isMobileMenuOpen == old(isMobileMenuOpen)
      ensures id != LogoutId ==> navigateTo.None? && auth.State() == old(auth.State()) && !isMobileMenuOpen
      ensures id != LogoutId && old(auth.userRole) == Some(Admin) ==>
        adminView == AdminViewAfterClick(id) && activeItem == old(activeItem)
      ensures id != LogoutId && old(auth.userRole) != Some(Admin) ==>
        activeItem == id && adminView == old(adminView)
      ensures isCollapsed == old(isCollapsed)
    {
      if id == LogoutId {
        auth.Logout();
        return Some("/");
      } else if auth.userRole == Some(Admin) {
        adminView := AdminViewAfterClick(id);
      } else {
        activeItem := id;
      }
      isMobileMenuOpen := false;
      return None;
    }
  }
}
