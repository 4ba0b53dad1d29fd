/**
 * The untyped route guard of src/app/ProtectedRoute.jsx: the role and the required role are any
 * strings, the required role may be absent, and a last check renders Access Denied.
 */
module LegacyProtectedRoute {
  import opened Wrappers
  import opened Types
  import ProtectedRoute

  /** JavaScript truthiness of an optional string. */
  predicate Truthy(s: Option<string>) {
    s.Some? && s.value != ""
  }

  function Decide(isLoading: bool, userRole: Option<string>, requiredRole: Option<string>): (r: ProtectedRoute.RouteOutcome)
    ensures isLoading ==> r.Spinner?
    ensures !isLoading && !Truthy(userRole) ==> r == ProtectedRoute.Redirect(ProtectedRoute.WelcomePath)
    ensures !isLoading && Truthy(userRole) && requiredRole == Some("admin") && userRole != Some("admin") ==>
      r == ProtectedRoute.Redirect(ProtectedRoute.StudentLoginPath)
    ensures !isLoading && Truthy(userRole) && requiredRole == Some("student") && userRole != Some("student") ==>
      r == ProtectedRoute.Redirect(ProtectedRoute.AdminLoginPath)
    ensures r.AccessDenied? <==>
      !isLoading && Truthy(userRole) && Truthy(requiredRole) &&
      requiredRole != Some("admin") && requiredRole != Some("student") && userRole != requiredRole
    ensures r.Children? <==> !isLoading && Truthy(userRole) && (!Truthy(requiredRole) || userRole == requiredRole)
  {
    if isLoading then ProtectedRoute.Spinner
    else if !Truthy(userRole) then ProtectedRoute.Redirect(ProtectedRoute.WelcomePath)
    else if requiredRole == Some("admin") && userRole != Some("admin") then ProtectedRoute.Redirect(ProtectedRoute.StudentLoginPath)
    else if requiredRole == Some("student") && userRole != Some("student") then ProtectedRoute.Redirect(ProtectedRoute.AdminLoginPath)
    else if Truthy(requiredRole) && userRole != requiredRole then ProtectedRoute.AccessDenied
    else ProtectedRoute.Children
  }

  /** On the typed roles the two guards decide alike, so the typed guard drops only an unreachable branch. */
  lemma AgreesWithTyped(isLoading: bool, userRole: Option<Role>, requiredRole: Role)
    ensures Decide(isLoading, if userRole.Some? then Some(RoleName(userRole.value)) else None, Some(RoleName(requiredRole))) ==
            ProtectedRoute.Decide(isLoading, userRole, requiredRole)
  {
  }

  /** An unknown role string on an admin route goes to the student login, as an unknown student would. */
  lemma UnknownRoleOnAdminRoute()
    ensures Decide(false, Some("teacher"), Some("admin")) == ProtectedRoute.Redirect(ProtectedRoute.StudentLoginPath)
  {
  }
}
