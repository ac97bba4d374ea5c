/** The route guard: who may see a protected page, and where everyone else
    is sent. */
module PrivateRoute {
  import opened Wrappers
  import opened Auth

  const AdminEmail := "superadmin@test.com"

  /** The three things the guard can render. */
  datatype Access = RedirectToLogin | RedirectToDashboard | RenderChildren

  function TargetPath(a: Access): Option<string> {
    match a
    case RedirectToLogin => Some("/")
    case RedirectToDashboard => Some("/dashboard")
    case RenderChildren => None
  }

  /** The case-sensitive test user.email !== "superadmin@test.com"; a
      missing email is never the admin's. */
  predicate IsAdmin(user: AuthUser) {
    user.email == Some(AdminEmail)
  }

  /** PrivateRoute({ children, adminOnly }) for the signed-in user, if any. */
  function Decide(user: Option<AuthUser>, adminOnly: bool): (r: Access)
    ensures r == RedirectToLogin <==> user.None?
    ensures r == RedirectToDashboard <==> user.Some? && adminOnly && !IsAdmin(user.value)
    ensures r == RenderChildren <==> user.Some? && (!adminOnly || IsAdmin(user.value))
  {
    if user.None? then RedirectToLogin
    else if adminOnly && !IsAdmin(user.value) then RedirectToDashboard
    else RenderChildren
  }

  /** Signing out sends every protected route to the login page. */
  lemma NoUserGoesToLogin(adminOnly: bool)
    ensures Decide(None, adminOnly) == RedirectToLogin
    ensures TargetPath(Decide(None, adminOnly)) == Some("/")
  {
  }

  /** An admin-only route admits fewer users than a plain one, and the admin
      is admitted to both. */
  lemma AdminOnlyRestricts(user: Option<AuthUser>)
    ensures Decide(user, true) == RenderChildren ==> Decide(user, false) == RenderChildren
    ensures user.Some? && IsAdmin(user.value) ==> Decide(user, true) == RenderChildren && Decide(user, false) == RenderChildren
  {
  }

  /** The comparison is exact: the admin address in other letter case is
      sent to the dashboard. */
  lemma AdminEmailCaseSensitive(uid: string)
    ensures Decide(Some(AuthUser(uid, Some("SuperAdmin@test.com"))), true) == RedirectToDashboard
    ensures Decide(Some(AuthUser(uid, None)), true) == RedirectToDashboard
  {
  }
}
