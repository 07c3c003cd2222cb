/** The guard in front of the admin pages. */
module ProtectedRoute {
  import opened Js
  import opened Models

  datatype Outcome = RedirectLogin | RedirectHome | RenderChildren

  /** No user goes to /login, a user who is not an admin goes to /, an admin
      sees the page. */
  function Guard(user: Option<User>): (r: Outcome)
    ensures r == RedirectLogin <==> user.None?
    ensures r == RedirectHome <==> user.Some? && !user.value.isAdmin
    ensures r == RenderChildren <==> user.Some? && user.value.isAdmin
  {
    if user.None? then RedirectLogin
    else if !user.value.isAdmin then RedirectHome
    else RenderChildren
  }
}
