/**
 * The admin route guard: whether the admin page is rendered or the visitor is
 * sent elsewhere, decided from whether a user is logged in and whether that
 * user is an admin (both supplied by the profile store).
 */
module AdminGuard {

  /** The three outcomes of the guard. */
  datatype Outcome =
    | RedirectToLogin   // navigate to "/login", replacing the history entry
    | RedirectToHome    // navigate to "/", replacing the history entry
    | RenderChildren

  /** The decision of `AdminProtectedRoute`. */
  function Decide(userPresent: bool, userIsAdmin: bool): (o: Outcome)
    ensures !userPresent ==> o == RedirectToLogin
    ensures userPresent && !userIsAdmin ==> o == RedirectToHome
    ensures o == RenderChildren <==> userPresent && userIsAdmin
  {
    if !userPresent then RedirectToLogin
    else if !userIsAdmin then RedirectToHome
    else RenderChildren
  }
}
