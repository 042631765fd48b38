/** The account control of src/components/shared/UserNav.tsx: a placeholder while
    the session loads, Login and Sign Up links without a user, otherwise the account
    menu with avatar, name, e-mail and, for administrators, the Admin badge and link.
    The component reads `claims` from the session hook, whose result has none. */
module UserNav {
  import opened Types
  import opened Initials
  import opened Session

  datatype Menu = Menu(
    avatarSrc: Option<string>,
    avatarAlt: string,
    initials: string,
    name: Option<string>,
    email: Option<string>,
    showAdmin: bool)

  datatype View = Placeholder | GuestLinks | AccountMenu(menu: Menu)

  /** `profile?.displayName`, absent without a profile. */
  function ProfileName(profile: Option<UserProfile>): Option<string>
  {
    if profile.Some? then Some(profile.value.displayName) else None
  }

  /** `profile?.photoURL`. */
  function ProfilePhoto(profile: Option<UserProfile>): Option<string>
  {
    if profile.Some? then profile.value.photoURL else None
  }

  /** The view for one render. */
  function Render(isLoading: bool, user: Option<AuthUser>, profile: Option<UserProfile>, claims: Option<Claims>): (v: View)
    ensures v == Placeholder <==> isLoading
    ensures v == GuestLinks <==> !isLoading && user.None?
    ensures v.AccountMenu? <==> !isLoading && user.Some?
  {
    if isLoading then Placeholder
    else if user.None? then GuestLinks
    else
      var u := user.value;
      var name := Or(ProfileName(profile), u.displayName);
      AccountMenu(Menu(
        Or(Or(ProfilePhoto(profile), u.photoURL), None),
        OrDefault(name, "User"),
        GetInitials(name),
        name,
        u.email,
        IsAdmin(claims)))
  }

  /** While loading nothing about the user shows, whatever is known. */
  lemma LoadingHidesEverything(user: Option<AuthUser>, profile: Option<UserProfile>, claims: Option<Claims>,
                                user2: Option<AuthUser>, profile2: Option<UserProfile>, claims2: Option<Claims>)
    ensures Render(true, user, profile, claims) == Render(true, user2, profile2, claims2)
  {
  }

  /** The menu's name and picture come from the profile when it has a truthy one,
      else from the identity provider, and an empty picture URL is no picture; the
      initials are those of the shown name, the alt text that name or "User"; the
      e-mail is the provider's. */
  lemma MenuContents(u: AuthUser, profile: Option<UserProfile>, claims: Option<Claims>)
    ensures var m := Render(false, Some(u), profile, claims).menu;
      && (profile.Some? && profile.value.displayName != "" ==> m.name == Some(profile.value.displayName))
      && (profile.None? || profile.value.displayName == "" ==> m.name == u.displayName)
      && (profile.Some? && Truthy(profile.value.photoURL) ==> m.avatarSrc == profile.value.photoURL)
      && (profile.None? || !Truthy(profile.value.photoURL) ==>
            m.avatarSrc == if Truthy(u.photoURL) then u.photoURL else None)
      && (m.avatarSrc.Some? ==> m.avatarSrc.value != "")
      && m.initials == GetInitials(m.name)
      && (m.avatarAlt == "User" <==> !Truthy(m.name) || m.name == Some("User"))
      && m.email == u.email
  {
  }

  /** The Admin badge and link show exactly when the claims mark an administrator. */
  lemma AdminLinkGated(u: AuthUser, profile: Option<UserProfile>, claims: Option<Claims>)
    ensures Render(false, Some(u), profile, claims).menu.showAdmin <==> claims.Some? && claims.value.admin
  {
  }

  /** The component as mounted: its inputs are the session hook's result, which has
      no claims, so the badge is never shown. */
  function RenderFromSession(r: UseUserResult): View
  {
    Render(r.isLoading, r.user, r.profile, None)
  }

  lemma SessionNeverShowsAdmin(r: UseUserResult)
    ensures RenderFromSession(r).AccountMenu? ==> !RenderFromSession(r).menu.showAdmin
    ensures RenderFromSession(r).AccountMenu? <==> !r.isLoading && r.user.Some?
  {
  }
}
