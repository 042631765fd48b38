/** The admin page of src/app/admin/page.tsx: a redirect to the login page for a
    settled visitor without a user, a spinner while loading or while a user's claims
    are absent, "Access Denied" without the admin claim, and the dashboard with it.
    The page reads `claims` from the session hook, whose result has none. */
module AdminPage {
  import opened Types
  import opened Session

  datatype View = Spinner | Denied | Dashboard

  const LoginRedirect := "/login?redirect=/admin"

  /** The redirect effect: taken exactly when loading is over and there is no user. */
  function Redirect(isLoading: bool, user: Option<AuthUser>): (r: Option<string>)
    ensures r.Some? <==> !isLoading && user.None?
    ensures r.Some? ==> r.value == LoginRedirect
  {
    if !isLoading && user.None? then Some(LoginRedirect) else None
  }

  function Render(isLoading: bool, user: Option<AuthUser>, claims: Option<Claims>): (v: View)
    ensures v == Spinner <==> isLoading || (user.Some? && claims.None?)
    ensures v == Dashboard <==> !isLoading && claims.Some? && claims.value.admin
    ensures v == Denied <==> !isLoading && !(user.Some? && claims.None?) && !IsAdmin(claims)
  {
    if isLoading || (user.Some? && claims.None?) then Spinner
    else if !IsAdmin(claims) then Denied
    else Dashboard
  }

  /** The page as mounted on the session hook's result, which carries no claims. */
  function FromSession(r: UseUserResult): (v: View)
  {
    Render(r.isLoading, r.user, None)
  }

  /** On the session hook the dashboard is unreachable: a signed-in user waits on
      the spinner for good, and a settled visitor without a user sees "Access Denied"
      while being redirected to the login page. */
  lemma SessionNeverReachesDashboard(r: UseUserResult)
    ensures FromSession(r) != Dashboard
    ensures r.user.Some? ==> FromSession(r) == Spinner && Redirect(r.isLoading, r.user).None?
    ensures FromSession(r) == Denied <==> Redirect(r.isLoading, r.user) == Some(LoginRedirect)
  {
  }

  /** While the redirect is under way the page is past its spinner: it shows the
      dashboard only for admin claims and "Access Denied" otherwise. */
  lemma RedirectRendersDecision(isLoading: bool, user: Option<AuthUser>, claims: Option<Claims>)
    requires Redirect(isLoading, user).Some?
    ensures Render(isLoading, user, claims) != Spinner
    ensures Render(isLoading, user, claims) == Dashboard <==> IsAdmin(claims)
  {
  }

  /** After sign-in through the session, the admin page keeps its spinner whatever
      the user's rights. */
  method SignedInAdminSeesSpinner(u: AuthUser, p: UserProfile)
  {
    var s := new UserSession(true);
    s.OnAuthStateChanged(Some(u));
    s.SyncProfile();
    s.profile.OnSnapshot(LiveDoc.Exists(p));
    assert !s.Result().isLoading;
    assert FromSession(s.Result()) == Spinner;
  }
}
