/**
 * The two route guards: while the session loads they show a loading view, without a user
 * they send to the login page, and otherwise they let through only their own role.
 */
module ProtectedRoute {
  import opened Wrappers

  /** The signed-in user, by role (which may be missing). */
  datatype AuthUser = AuthUser(role: Option<string>)

  /** What a guard renders. */
  datatype View = LoadingView | Redirect(to: string) | StudentOutlet | AdminLayout

  /** `StudentRoute`. */
  function StudentRoute(loading: bool, user: Option<AuthUser>): (v: View)
    ensures v == StudentOutlet <==> !loading && user.Some? && user.value.role == Some("student")
    ensures v == LoadingView <==> loading
    ensures !loading && user.None? ==> v == Redirect("/login")
    ensures !loading && user.Some? && user.value.role == Some("admin") ==> v == Redirect("/admin")
    ensures !loading && user.Some? && user.value.role != Some("admin") && user.value.role != Some("student") ==> v == Redirect("/")
  {
    if loading then LoadingView
    else if user.None? then Redirect("/login")
    else if user.value.role != Some("student") then Redirect(if user.value.role == Some("admin") then "/admin" else "/")
    else StudentOutlet
  }

  /** `AdminRoute`. */
  function AdminRoute(loading: bool, user: Option<AuthUser>): (v: View)
    ensures v == AdminLayout <==> !loading && user.Some? && user.value.role == Some("admin")
    ensures v == LoadingView <==> loading
    ensures !loading && user.None? ==> v == Redirect("/login")
    ensures !loading && user.Some? && user.value.role != Some("admin") ==> v == Redirect("/student")
  {
    if loading then LoadingView
    else if user.None? then Redirect("/login")
    else if user.value.role != Some("admin") then Redirect("/student")
    else AdminLayout
  }

  /** No user gets through both guards. */
  lemma GuardsExclusive(loading: bool, user: Option<AuthUser>)
    ensures !(StudentRoute(loading, user) == StudentOutlet && AdminRoute(loading, user) == AdminLayout)
  {
  }

  /**
   * A signed-in user bounced by one guard lands where the other guard lets them through,
   * or (for a role that is neither) on the home page: redirects never loop between the guards.
   */
  lemma RedirectsSettle(user: AuthUser)
    ensures StudentRoute(false, Some(user)) == Redirect("/admin") ==> AdminRoute(false, Some(user)) == AdminLayout
    ensures AdminRoute(false, Some(user)) == Redirect("/student") ==>
              StudentRoute(false, Some(user)) == StudentOutlet || StudentRoute(false, Some(user)) == Redirect("/")
  {
  }
}
