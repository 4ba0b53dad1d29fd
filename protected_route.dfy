/**
 * The route guard of src/app/ProtectedRoute.tsx as a decision from the loading flag, the session
 * role and the role the route requires to what is rendered.
 */
module ProtectedRoute {
  import opened Wrappers
  import opened Types

  /** The spinner, a `<Navigate replace>` to a path, the Access Denied page, or the children. */
  datatype RouteOutcome = Spinner | Redirect(path: string) | AccessDenied | Children

  const WelcomePath: string := "/"
  const StudentLoginPath: string := "/student/login"
  const AdminLoginPath: string := "/admin/login"

  function Decide(isLoading: bool, userRole: Option<Role>, requiredRole: Role): (r: RouteOutcome)
    ensures isLoading ==> r == Spinner
    ensures !isLoading && userRole.None? ==> r == Redirect(WelcomePath)
    ensures !isLoading && userRole.Some? && requiredRole == Admin && userRole.value != Admin ==> r == Redirect(StudentLoginPath)
    ensures !isLoading && userRole.Some? && requiredRole == Student && userRole.value != Student ==> r == Redirect(AdminLoginPath)
    ensures r == Children <==> !isLoading && userRole == Some(requiredRole)
    ensures !r.AccessDenied?
  {
    if isLoading then Spinner
    else if userRole.None? then Redirect(WelcomePath)
    else if requiredRole == Admin && userRole.value != Admin then Redirect(StudentLoginPath)
    else if requiredRole == Student && userRole.value != Student then Redirect(AdminLoginPath)
    else
      assert requiredRole == Admin || requiredRole == Student;
      Children
  }

  /** A signed-in user sent away from a route is sent to the other role's login page. */
  lemma MismatchGoesToOtherLogin(userRole: Role, requiredRole: Role)
    requires userRole != requiredRole
    ensures Decide(false, Some(userRole), requiredRole) ==
      Redirect(if requiredRole == Admin then StudentLoginPath else AdminLoginPath)
  {
  }
}
