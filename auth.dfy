/** The authentication hook: the state kept for the signed-in user, its transitions on the
    initial session lookup, on session events and on a loaded profile, and the permission and
    role checks made against the profile. */
module Auth {
  import opened Seqs

  datatype AuthUser = AuthUser(id: string, email: string)

  /** A session; `session?.user` may be missing. */
  datatype Session = Session(accessToken: string, user: Option<AuthUser>)

  /** A user profile row with its role and its optional list of permissions. */
  datatype Profile = Profile(userId: string, role: string, permissions: Option<seq<string>>)

  /** `hasPermission` on the current profile: nothing without a profile; everything with 'all'
      listed; otherwise exactly the listed permissions, and nothing when there is no list. */
  function Grants(profile: Option<Profile>, permission: string): (r: bool)
    ensures profile.None? ==> !r
    ensures profile.Some? && profile.value.permissions.None? ==> !r
    ensures profile.Some? && profile.value.permissions.Some? && "all" in profile.value.permissions.value ==> r
    ensures profile.Some? && profile.value.permissions.Some? && "all" !in profile.value.permissions.value ==>
      (r <==> permission in profile.value.permissions.value)
  {
    if profile.None? then false
    else if profile.value.permissions.Some? && "all" in profile.value.permissions.value then true
    else profile.value.permissions.Some? && permission in profile.value.permissions.value
  }

  /** Listing more permissions never takes one away. */
  lemma GrantsMonotone(profile: Profile, more: seq<string>, permission: string)
    requires profile.permissions.Some?
    requires forall i :: 0 <= i < |profile.permissions.value| ==> profile.permissions.value[i] in more
    ensures Grants(Some(profile), permission) ==> Grants(Some(profile.(permissions := Some(more))), permission)
  {
    var ps := profile.permissions.value;
    if "all" in ps {
      var i :| 0 <= i < |ps| && ps[i] == "all";
      assert ps[i] in more;
    } else if permission in ps {
      var i :| 0 <= i < |ps| && ps[i] == permission;
      assert ps[i] in more;
    }
  }

  /** `isRole`: the profile exists and has that role. */
  function IsRole(profile: Option<Profile>, role: string): (r: bool)
    ensures r ==> profile.Some?
  {
    profile.Some? && profile.value.role == role
  }

  /** A profile has at most one role. */
  lemma IsRoleUnique(profile: Option<Profile>, a: string, b: string)
    requires IsRole(profile, a) && IsRole(profile, b)
    ensures a == b
  {
  }

  /** The hook's `authState` together with the user id whose profile is to be loaded
      (`shouldLoadProfile`) and whether a profile lookup is under way. The lookup is started by
      an effect that runs only when `shouldLoadProfile` takes a new value, and only for a
      non-empty id. */
  class AuthState {
    var user: Option<AuthUser>
    var profile: Option<Profile>
    var session: Option<Session>
    var loading: bool
    var shouldLoadProfile: Option<string>
    var loadPending: bool

    /** The user is the session's user, the profile to load is the user's, a profile is only
        held for a signed-in user, and a lookup is only under way for a non-empty id. */
    predicate Valid()
      reads this
    {
      (user.Some? <==> session.Some?) &&
      (session.Some? ==> session.value.user == user) &&
      (shouldLoadProfile.Some? <==> user.Some?) &&
      (user.Some? ==> shouldLoadProfile == Some(user.value.id)) &&
      (profile.Some? ==> user.Some?) &&
      (loadPending ==> shouldLoadProfile.Some? && shouldLoadProfile.value != "")
    }

    /** Nobody is signed in and the session is being looked up. */
    constructor ()
      ensures Valid()
      ensures user.None? && profile.None? && session.None? && loading && shouldLoadProfile.None? && !loadPending
    {
      user, profile, session, loading, shouldLoadProfile := None, None, None, true, None;
      loadPending := false;
    }

    /** `isAuthenticated`: a user is signed in. */
    function IsAuthenticated(): (r: bool)
      reads this
      ensures Valid() ==> (r <==> session.Some?)
    {
      user.Some?
    }

    /** `hasPermission` on the current state. */
    function HasPermission(permission: string): (r: bool)
      reads this
      ensures Valid() && r ==> IsAuthenticated()
    {
      Grants(profile, permission)
    }

    /** The profile effect after `setShouldLoadProfile(id)`: a new non-empty id starts a
        lookup; the same id as before starts none, and a lookup already under way goes on. */
    function PendingAfter(id: string): (r: bool)
      reads this
      ensures Some(id) != shouldLoadProfile ==> (r <==> id != "")
      ensures Some(id) == shouldLoadProfile ==> r == loadPending
    {
      if Some(id) != shouldLoadProfile then id != "" else loadPending
    }

    /** The initial session lookup: a session with a user signs that user in with no profile
        yet and asks for the profile; otherwise only `loading` changes. */
    method InitialSession(found: Option<Session>)
      requires Valid()
      modifies this
      ensures Valid()
      ensures found.Some? && found.value.user.Some? ==>
        user == found.value.user && session == found && profile.None? && !loading &&
        shouldLoadProfile == Some(found.value.user.value.id) &&
        loadPending == old(PendingAfter(found.value.user.value.id))
      ensures !(found.Some? && found.value.user.Some?) ==>
        user == old(user) && profile == old(profile) && session == old(session) && !loading &&
        shouldLoadProfile == old(shouldLoadProfile) && loadPending == old(loadPending)
    {
      if found.Some? && found.value.user.Some? {
        var id := found.value.user.value.id;
        loadPending := PendingAfter(id);
        user, profile, session, loading := found.value.user, None, found, false;
        shouldLoadProfile := Some(id);
      } else {
        loading := false;
      }
    }

    /** A session event: with a user it signs that user in with no profile yet, and a lookup
        starts only when the user id differs from the one asked for before; without a user it
        signs out. Either way loading is over and no permission is granted until a profile
        arrives. */
    method OnAuthStateChange(event: string, changed: Option<Session>)
      requires Valid()
      modifies this
      ensures Valid()
      ensures changed.Some? && changed.value.user.Some? ==>
        user == changed.value.user && session == changed &&
        shouldLoadProfile == Some(changed.value.user.value.id) &&
        loadPending == old(PendingAfter(changed.value.user.value.id))
      ensures !(changed.Some? && changed.value.user.Some?) ==>
        user.None? && session.None? && shouldLoadProfile.None? && !loadPending
      ensures profile.None? && !loading
      ensures forall p :: !HasPermission(p)
    {
      if changed.Some? && changed.value.user.Some? {
        var id := changed.value.user.value.id;
        loadPending := PendingAfter(id);
        user, profile, session, loading := changed.value.user, None, changed, false;
        shouldLoadProfile := Some(id);
      } else {
        user, profile, session, loading := None, None, None, false;
        shouldLoadProfile, loadPending := None, false;
      }
    }

    /** A session event as evidently intended: a user's event clears the profile and always
        looks it up again for a non-empty id, even when the user is the same. */
    method OnAuthStateChangeIntended(event: string, changed: Option<Session>)
      requires Valid()
      modifies this
      ensures Valid()
      ensures changed.Some? && changed.value.user.Some? ==>
        user == changed.value.user && session == changed &&
        shouldLoadProfile == Some(changed.value.user.value.id) &&
        (loadPending <==> changed.value.user.value.id != "")
      ensures !(changed.Some? && changed.value.user.Some?) ==>
        user.None? && session.None? && shouldLoadProfile.None? && !loadPending
      ensures profile.None? && !loading
    {
      if changed.Some? && changed.value.user.Some? {
        var id := changed.value.user.value.id;
        user, profile, session, loading := changed.value.user, None, changed, false;
        shouldLoadProfile, loadPending := Some(id), id != "";
      } else {
        user, profile, session, loading := None, None, None, false;
        shouldLoadProfile, loadPending := None, false;
      }
    }

    /** The lookup under way finished with `fetched` (None when it failed): the profile is
        stored and the lookup is over. With no lookup under way nothing changes. */
    method ProfileLoaded(fetched: Option<Profile>)
      requires Valid()
      modifies this
      ensures Valid()
      ensures old(loadPending) ==> profile == fetched && !loadPending
      ensures !old(loadPending) ==> profile == old(profile) && !loadPending
      ensures user == old(user) && session == old(session) && loading == old(loading) &&
        shouldLoadProfile == old(shouldLoadProfile)
    {
      if loadPending {
        profile, loadPending := fetched, false;
      }
    }
  }

  /** A session event, then the profile lookup it starts finishing with a profile listing
      'all', grants every permission, provided the event starts a lookup (a new user id) or
      one is still under way. */
  method SignInWithAllPermissions(a: AuthState, s: Session, p: Profile, permission: string)
    requires a.Valid() && s.user.Some? && s.user.value.id != ""
    requires a.loadPending || a.shouldLoadProfile != Some(s.user.value.id)
    requires p.permissions == Some(["all"])
    modifies a
    ensures a.Valid() && a.IsAuthenticated() && a.HasPermission(permission)
  {
    a.OnAuthStateChange("SIGNED_IN", Some(s));
    a.ProfileLoaded(Some(p));
    assert p.permissions.value[0] == "all";
  }

  /** As written: once the profile of the signed-in user has arrived, another event for that
      same user (a token refresh, a repeated sign-in) clears the profile and starts no
      lookup, so no later `ProfileLoaded` brings a permission back. */
  method SameUserEventLosesPermissions(a: AuthState, s: Session, fetched: Option<Profile>)
    requires a.Valid() && !a.loadPending && s.user.Some? && a.user == s.user
    modifies a
    ensures a.Valid() && a.IsAuthenticated() && forall q :: !a.HasPermission(q)
  {
    a.OnAuthStateChange("TOKEN_REFRESHED", Some(s));
    a.ProfileLoaded(fetched);
  }

  /** As intended: after any event for a user with a non-empty id, the lookup it starts
      finishing with a profile listing 'all' grants every permission, whatever the state
      before. */
  method IntendedSignInWithAllPermissions(a: AuthState, s: Session, p: Profile, permission: string)
    requires a.Valid() && s.user.Some? && s.user.value.id != ""
    requires p.permissions == Some(["all"])
    modifies a
    ensures a.Valid() && a.IsAuthenticated() && a.HasPermission(permission)
  {
    a.OnAuthStateChangeIntended("SIGNED_IN", Some(s));
    a.ProfileLoaded(Some(p));
    assert p.permissions.value[0] == "all";
  }

  /** One session: sign-in, the profile listing 'all' arrives, then a token refresh for the
      same user and a second lookup result. As written the permission held before is lost;
      with the intended event it is back. */
  method ProfileReloadDiffers() returns (before: bool, asWritten: bool, intended: bool)
    ensures before && !asWritten && intended
  {
    var s := Session("token", Some(AuthUser("u1", "directeur@ecole.ml")));
    var p := Profile("u1", "admin", Some(["all"]));
    assert p.permissions.value[0] == "all";
    var a := new AuthState();
    a.InitialSession(Some(s));
    a.ProfileLoaded(Some(p));
    before := a.HasPermission("finance");
    a.OnAuthStateChange("TOKEN_REFRESHED", Some(s));
    a.ProfileLoaded(Some(p));
    asWritten := a.HasPermission("finance");
    var b := new AuthState();
    b.InitialSession(Some(s));
    b.ProfileLoaded(Some(p));
    b.OnAuthStateChangeIntended("TOKEN_REFRESHED", Some(s));
    b.ProfileLoaded(Some(p));
    intended := b.HasPermission("finance");
  }
}
