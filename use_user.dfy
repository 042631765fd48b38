/** The session hook of src/firebase/auth/use-user.tsx: the signed-in user as the auth
    observer last reported it, the profile document `users/{uid}` through a live
    document subscription, and a combined loading flag. The hook's result holds
    exactly `user`, `profile` and `isLoading`; it carries no claims. */
module Session {
  import opened Types
  import opened LiveDoc

  /** `{ user, profile, isLoading }`, the whole of what the hook returns. */
  datatype UseUserResult = UseUserResult(user: Option<AuthUser>, profile: Option<UserProfile>, isLoading: bool)

  /** The profile reference: none without a database or a user, else `users/{uid}`. */
  function ProfileRef(hasFirestore: bool, user: Option<AuthUser>): (r: Option<DocRef>)
    ensures r.None? <==> !hasFirestore || user.None?
    ensures r.Some? ==> r.value.path == "users/" + user.value.uid
  {
    if !hasFirestore || user.None? then None else Some(DocRef("users/" + user.value.uid))
  }

  /** Distinct users get distinct profile documents. */
  lemma ProfileRefSeparatesUsers(a: AuthUser, b: AuthUser)
    requires ProfileRef(true, Some(a)) == ProfileRef(true, Some(b))
    ensures a.uid == b.uid
  {
    var pa, pb := "users/" + a.uid, "users/" + b.uid;
    assert pa[6..] == a.uid && pb[6..] == b.uid;
  }

  class UserSession {
    /** Whether a database instance is available (`useFirestore()` is non-null). */
    const hasFirestore: bool
    var user: Option<AuthUser>
    /** The hook's own `isLoading`: true until the auth observer first reports. */
    var authLoading: bool
    /** The `useDoc` the hook runs on the profile reference. */
    const profile: DocListener<UserProfile>
    /** Whether the `onAuthStateChanged` observer is still registered. */
    var authSubscribed: bool

    ghost predicate Valid()
      reads this, profile
    {
      profile.Valid() && profile.mounted
    }

    /** The profile subscription follows the current user. */
    ghost predicate Settled()
      reads this, profile
    {
      profile.ref == ProfileRef(hasFirestore, user)
    }

    /** What the hook returns on the current render. */
    function Result(): (r: UseUserResult)
      reads this, profile
      ensures r.isLoading <==> authLoading || profile.isLoading
      ensures r.user == user && r.profile == profile.data
    {
      UseUserResult(user, profile.data, authLoading || profile.isLoading)
    }

    /** Mount: no user yet and loading; the profile effect has run on the null
        reference, so only the auth observer is awaited. */
    constructor (hasFirestore: bool)
      ensures Valid() && Settled() && fresh(profile)
      ensures this.hasFirestore == hasFirestore
      ensures user.None? && authLoading && Result().isLoading && authSubscribed
      ensures !profile.isLoading && profile.Live() == {}
    {
      var p := new DocListener<UserProfile>();
      p.RunEffect(None);
      this.hasFirestore := hasFirestore;
      user := None;
      authLoading := true;
      profile := p;
      authSubscribed := true;
    }

    /** The auth observer's callback and the render it causes: `user` is replaced and
        the hook's own loading flag cleared; the profile subscription still holds
        what it held, its effect not having run yet. */
    method OnAuthStateChanged(u: Option<AuthUser>)
      requires Valid() && authSubscribed
      modifies this`user, this`authLoading
      ensures Valid()
      ensures user == u && !authLoading
      ensures Result() == UseUserResult(u, profile.data, profile.isLoading)
    {
      user := u;
      authLoading := false;
    }

    /** The profile subscription's effect after that render: it runs when the
        derived reference differs from the one it last ran on. */
    method SyncProfile()
      requires Valid()
      modifies profile
      ensures Valid() && Settled()
      ensures profile.errors == old(profile.errors) && |profile.Live()| <= 1
      ensures old(Settled()) ==> profile.data == old(profile.data) && profile.isLoading == old(profile.isLoading)
      ensures !old(Settled()) ==> profile.listening == ProfileRef(hasFirestore, user).Some?
      ensures !old(Settled()) && ProfileRef(hasFirestore, user).Some? ==>
        profile.isLoading && profile.data == old(profile.data)
      ensures ProfileRef(hasFirestore, user).None? ==> !profile.isLoading && profile.data.None?
      ensures !authLoading && user.None? ==> Result() == UseUserResult(None, None, false)
    {
      var r := ProfileRef(hasFirestore, user);
      if r != profile.ref {
        profile.RunEffect(r);
      }
    }

    /** Teardown: the auth observer is unsubscribed, so no further callback can
        change the user, and the profile subscription's listener is closed. */
    method Teardown()
      requires Valid()
      modifies this`authSubscribed, profile`listening, profile`closed
      ensures Valid() && !authSubscribed && profile.Live() == {}
      ensures user == old(user) && authLoading == old(authLoading)
    {
      authSubscribed := false;
      profile.Cleanup();
    }
  }

  /** A sign-in followed by a sign-out: loading holds until the observer reports, the
      profile loads while a user is present, and signing out settles with nothing
      loading. */
  method SignInThenOut(u: AuthUser, p: UserProfile)
  {
    var s := new UserSession(true);
    assert s.Result().isLoading;
    s.OnAuthStateChanged(Some(u));
    s.SyncProfile();
    assert s.Result().isLoading && s.profile.ref == Some(DocRef("users/" + u.uid));
    s.profile.OnSnapshot(Exists(p));
    assert s.Result() == UseUserResult(Some(u), Some(p), false);
    s.OnAuthStateChanged(None);
    s.SyncProfile();
    assert s.Result() == UseUserResult(None, None, false);
  }
}
