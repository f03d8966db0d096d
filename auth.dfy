/**
 * The authentication provider of src/contexts/AuthContext.tsx: an in-memory
 * `user` kept in step with three entries of the browser's local storage.
 * Every answer from the authentication service and the profiles table is a
 * parameter, and so is the current time, already written as an ISO string.
 */
module Auth {
  import opened Common
  import opened UserCodec

  /** The three local-storage keys the provider owns. */
  const StorageKey: string := "genz-user-data"
  const SessionKey: string := "genz-session-timestamp"
  const SessionDataKey: string := "genz-session-data"

  /** The event name the authentication service sends on sign-out. */
  const SignedOut: string := "SIGNED_OUT"

  /** The error `signUp` raises when the service creates no user. */
  const CreationFailed: string := "User creation failed"

  /** The user as the authentication service knows it. */
  datatype ProviderUser = ProviderUser(id: string, email: Option<string>)

  /** A session: its user and the text `JSON.stringify` makes of it. */
  datatype Session = Session(user: ProviderUser, serialized: string)

  /** The answer of the single-row `profiles` lookup by id. */
  datatype ProfileLookup = ProfileRow(name: Option<string>) | ProfileError

  /** The answer of `getSession`. */
  datatype SessionLookup = SessionError | SessionResult(session: Option<Session>)

  /** The answer of `signInWithPassword` or `signUp`. */
  datatype AuthOutcome = AuthFailed(message: string) | AuthOk(user: Option<ProviderUser>, session: Option<Session>)

  /** What the provider holds: the user it shows and the local store. */
  datatype AuthState = AuthState(user: Option<AuthUser>, store: map<string, string>)

  /** What the cache holds under the user key. */
  datatype CacheEntry = NoCache | Unreadable | Cached(user: AuthUser)

  /**
   * The main invariant: the user shown is exactly the user cached, and no
   * user means no cache entry. So a user is shown exactly when a non-empty
   * entry is cached.
   */
  predicate Mirrors(s: AuthState)
  {
    match s.user
    case None => StorageKey !in s.store
    case Some(u) => StorageKey in s.store && DecodeUser(s.store[StorageKey]) == Some(u)
  }

  /** Reading the cache: an absent or empty entry counts as none; one `JSON.parse` cannot read throws. */
  function ReadCache(store: map<string, string>): (r: CacheEntry)
    ensures r.NoCache? <==> StorageKey !in store || store[StorageKey] == ""
    ensures r.Cached? ==> DecodeUser(store[StorageKey]) == Some(r.user)
    ensures r.Unreadable? ==> DecodeUser(store[StorageKey]).None?
  {
    if StorageKey !in store || store[StorageKey] == "" then NoCache
    else match DecodeUser(store[StorageKey])
      case None => Unreadable
      case Some(u) => Cached(u)
  }

  /** `updateStoredSession`: the new store. */
  function Refreshed(store: map<string, string>, sessionData: Option<Session>, now: string): (r: map<string, string>)
    ensures SessionKey in r && r[SessionKey] == now
    ensures sessionData.Some? ==> SessionDataKey in r && r[SessionDataKey] == sessionData.value.serialized
    ensures sessionData.None? ==> (SessionDataKey in r <==> SessionDataKey in store)
    ensures sessionData.None? && SessionDataKey in store ==> r[SessionDataKey] == store[SessionDataKey]
    ensures forall k | k != SessionKey && k != SessionDataKey :: (k in r <==> k in store) && (k in r ==> r[k] == store[k])
  {
    var stamped := store[SessionKey := now];
    if sessionData.Some? then stamped[SessionDataKey := sessionData.value.serialized] else stamped
  }

  /** `clearStoredSession`: the new store. */
  function Cleared(store: map<string, string>): (r: map<string, string>)
    ensures StorageKey !in r && SessionKey !in r && SessionDataKey !in r
    ensures forall k | k != StorageKey && k != SessionKey && k != SessionDataKey :: (k in r <==> k in store) && (k in r ==> r[k] == store[k])
  {
    store - {StorageKey, SessionKey, SessionDataKey}
  }

  /** `setUserWithStorage`: the new state. */
  function WithUser(s: AuthState, userData: Option<AuthUser>, sessionData: Option<Session>, now: string): (r: AuthState)
    ensures r.user == userData
    ensures userData.None? ==> r.store == Cleared(s.store)
    ensures userData.Some? ==> StorageKey in r.store && r.store[StorageKey] == EncodeUser(userData.value)
    ensures userData.Some? ==> SessionKey in r.store && r.store[SessionKey] == now
    ensures userData.Some? && sessionData.Some? ==>
      SessionDataKey in r.store && r.store[SessionDataKey] == sessionData.value.serialized
    ensures userData.Some? && sessionData.None? ==>
      (SessionDataKey in r.store <==> SessionDataKey in s.store) &&
      (SessionDataKey in s.store ==> r.store[SessionDataKey] == s.store[SessionDataKey])
    ensures userData.Some? ==> forall k | k != StorageKey && k != SessionKey && k != SessionDataKey ::
      (k in r.store <==> k in s.store) && (k in r.store ==> r.store[k] == s.store[k])
  {
    match userData
    case None => AuthState(None, Cleared(s.store))
    case Some(u) => AuthState(userData, Refreshed(s.store[StorageKey := EncodeUser(u)], sessionData, now))
  }

  /** The text before the first `@` of an address, or all of it when it has none. */
  function LocalPart(email: string): (r: string)
    ensures r <= email && '@' !in r
    ensures |r| < |email| ==> email[|r|] == '@'
  {
    if email == [] || email[0] == '@' then [] else [email[0]] + LocalPart(email[1..])
  }

  /** The name the provider shows: the profile's, else the address's local part, else `User`. */
  function DisplayName(profileName: Option<string>, email: Option<string>): (r: string)
    ensures r != ""
  {
    if profileName.Some? && profileName.value != "" then profileName.value
    else if email.Some? && LocalPart(email.value) != "" then LocalPart(email.value)
    else "User"
  }

  /** The address the provider shows; a missing one becomes empty. */
  function EmailOrEmpty(email: Option<string>): string {
    if email.Some? then email.value else ""
  }

  /** The user built from the service's user and its profile row. */
  function ProfileUser(su: ProviderUser, profileName: Option<string>): (r: AuthUser)
    ensures r.id == su.id && r.name != ""
  {
    AuthUser(su.id, EmailOrEmpty(su.email), DisplayName(profileName, su.email))
  }

  /**
   * `setUserFromSession`: a cache that cannot be read clears everything; a
   * cached user with the session's id is taken as is; otherwise the profile
   * row decides, and a failed lookup changes nothing.
   */
  function Resolve(s: AuthState, su: ProviderUser, sessionData: Option<Session>, profile: ProfileLookup, now: string): (r: AuthState)
    ensures r == s
         || (r.user.Some? && r.user.value.id == su.id && SessionKey in r.store && r.store[SessionKey] == now)
         || (r.user.None? && r.store == Cleared(s.store))
    ensures ReadCache(s.store).Unreadable? ==> r.user.None? && r.store == Cleared(s.store)
  {
    var cache := ReadCache(s.store);
    if cache.Unreadable? then WithUser(s, None, None, now)
    else if cache.Cached? && cache.user.id == su.id then AuthState(Some(cache.user), Refreshed(s.store, sessionData, now))
    else match profile
      case ProfileError => s
      case ProfileRow(name) => WithUser(s, Some(ProfileUser(su, name)), sessionData, now)
  }

  /** Whether the cache already holds the session's user. */
  predicate CacheHit(store: map<string, string>, id: string) {
    var cache := ReadCache(store);
    cache.Cached? && cache.user.id == id
  }

  /*** Properties of the transitions ***/

  /** Under the invariant the cache is never unreadable and holds exactly the user shown. */
  lemma MirroredCache(s: AuthState)
    requires Mirrors(s)
    ensures ReadCache(s.store) == if s.user.Some? then Cached(s.user.value) else NoCache
  {
    assert !(IdField <= "");
    assert DecodeUser("") == None;
  }

  /** Setting or clearing the user always leaves the user mirrored in the cache. */
  lemma WithUserMirrors(s: AuthState, userData: Option<AuthUser>, sessionData: Option<Session>, now: string)
    ensures Mirrors(WithUser(s, userData, sessionData, now))
  {
    if userData.Some? {
      DecodeEncode(userData.value);
    }
  }

  /** A cache hit keeps the invariant: the user key is not rewritten. */
  lemma HitMirrors(s: AuthState, su: ProviderUser, sessionData: Option<Session>, profile: ProfileLookup, now: string)
    requires Mirrors(s) && CacheHit(s.store, su.id)
    ensures Mirrors(Resolve(s, su, sessionData, profile, now))
  {
    MirroredCache(s);
    var r := Refreshed(s.store, sessionData, now);
    assert Resolve(s, su, sessionData, profile, now) == AuthState(s.user, r);
    assert StorageKey in r && r[StorageKey] == s.store[StorageKey];
  }

  /** Without a cache hit, a profile row keeps the invariant: its user is written to the cache. */
  lemma RowMirrors(s: AuthState, su: ProviderUser, sessionData: Option<Session>, name: Option<string>, now: string)
    requires Mirrors(s) && !CacheHit(s.store, su.id)
    ensures Mirrors(Resolve(s, su, sessionData, ProfileRow(name), now))
  {
    MirroredCache(s);
    var u := ProfileUser(su, name);
    assert Resolve(s, su, sessionData, ProfileRow(name), now) == WithUser(s, Some(u), sessionData, now);
    WithUserMirrors(s, Some(u), sessionData, now);
  }

  /** Resolving a session keeps the invariant. */
  lemma ResolveMirrors(s: AuthState, su: ProviderUser, sessionData: Option<Session>, profile: ProfileLookup, now: string)
    requires Mirrors(s)
    ensures Mirrors(Resolve(s, su, sessionData, profile, now))
  {
    if CacheHit(s.store, su.id) {
      HitMirrors(s, su, sessionData, profile, now);
    } else if profile.ProfileRow? {
      RowMirrors(s, su, sessionData, profile.name, now);
    } else {
      MirroredCache(s);
      assert Resolve(s, su, sessionData, profile, now) == s;
    }
  }

  /**
   * A cache hit takes the cached user without looking at the profile and
   * without rewriting the user key; only the session keys change.
   */
  lemma CacheHitSkipsLookup(s: AuthState, su: ProviderUser, sessionData: Option<Session>, p1: ProfileLookup, p2: ProfileLookup, now: string)
    requires CacheHit(s.store, su.id)
    ensures Resolve(s, su, sessionData, p1, now) == Resolve(s, su, sessionData, p2, now)
    ensures Resolve(s, su, sessionData, p1, now).user == Some(ReadCache(s.store).user)
    ensures Resolve(s, su, sessionData, p1, now).store == Refreshed(s.store, sessionData, now)
    ensures Resolve(s, su, sessionData, p1, now).store[StorageKey] == s.store[StorageKey]
  {
  }

  /** Without a cache hit, a failed profile lookup changes neither the user nor the store. */
  lemma ProfileErrorChangesNothing(s: AuthState, su: ProviderUser, sessionData: Option<Session>, now: string)
    requires !ReadCache(s.store).Unreadable? && !CacheHit(s.store, su.id)
    ensures Resolve(s, su, sessionData, ProfileError, now) == s
  {
  }

  /** A cached entry that cannot be read clears the user and all three keys. */
  lemma UnreadableCacheClears(s: AuthState, su: ProviderUser, sessionData: Option<Session>, profile: ProfileLookup, now: string)
    requires ReadCache(s.store).Unreadable?
    ensures Resolve(s, su, sessionData, profile, now).user == None
    ensures Resolve(s, su, sessionData, profile, now).store == Cleared(s.store)
  {
  }

  /** Without a cache hit, a profile row makes its user the one shown and cached. */
  lemma ProfileRowStored(s: AuthState, su: ProviderUser, sessionData: Option<Session>, name: Option<string>, now: string)
    requires !ReadCache(s.store).Unreadable? && !CacheHit(s.store, su.id)
    ensures Resolve(s, su, sessionData, ProfileRow(name), now).user == Some(ProfileUser(su, name))
    ensures DecodeUser(Resolve(s, su, sessionData, ProfileRow(name), now).store[StorageKey]) == Some(ProfileUser(su, name))
    ensures Resolve(s, su, sessionData, ProfileRow(name), now) == WithUser(s, Some(ProfileUser(su, name)), sessionData, now)
  {
    DecodeEncode(ProfileUser(su, name));
  }

  /** A newly signed-up user whose profile carries a name is shown under that name. */
  lemma NewUserShownByName(s: AuthState, su: ProviderUser, sessionData: Option<Session>, name: string, now: string)
    requires Mirrors(s) && (s.user.None? || s.user.value.id != su.id) && name != ""
    ensures Resolve(s, su, sessionData, ProfileRow(Some(name)), now).user == Some(AuthUser(su.id, EmailOrEmpty(su.email), name))
  {
    MirroredCache(s);
  }

  /** The local part of `local@domain` is `local`. */
  lemma {:induction false} LocalPartOfAddress(local: string, domain: string)
    requires '@' !in local
    ensures LocalPart(local + "@" + domain) == local
  {
    if local != [] {
      assert (local + "@" + domain)[1..] == local[1..] + "@" + domain;
      LocalPartOfAddress(local[1..], domain);
      assert [local[0]] + local[1..] == local;
    }
  }

  /** With no profile name, the address's local part is shown. */
  lemma NameFromAddress(profileName: Option<string>, local: string, domain: string)
    requires profileName.None? || profileName.value == ""
    requires '@' !in local && local != ""
    ensures DisplayName(profileName, Some(local + "@" + domain)) == local
  {
    LocalPartOfAddress(local, domain);
  }

  /** With no profile name, an address without `@` is shown whole. */
  lemma NameFromWholeAddress(profileName: Option<string>, email: string)
    requires profileName.None? || profileName.value == ""
    requires '@' !in email && email != ""
    ensures DisplayName(profileName, Some(email)) == email
  {
    assert email + "@" + "" == email + "@";
    LocalPartOfAddress(email, "");
    assert LocalPart(email) == email;
  }

  /** With neither a profile name nor a usable address, the name is `User`. */
  lemma NameDefault(profileName: Option<string>, email: Option<string>)
    requires profileName.None? || profileName.value == ""
    requires email.None? || email.value == "" || email.value[0] == '@'
    ensures DisplayName(profileName, email) == "User"
  {
  }

  /** A non-empty profile name always wins. */
  lemma NameFromProfile(name: string, email: Option<string>)
    requires name != ""
    ensures DisplayName(Some(name), email) == name
  {
  }

  /*** The provider ***/

  class AuthProvider {
    var user: Option<AuthUser>
    var store: map<string, string>
    var isLoading: bool
    var isInitialized: bool

    function State(): AuthState
      reads this
    {
      AuthState(user, store)
    }

    predicate Synced()
      reads this
    {
      Mirrors(State())
    }

    /**
     * Mounting the provider: the user is pre-filled from the cache before
     * any session is known. A cached entry that cannot be parsed makes the
     * source's initial render throw, so it is excluded here.
     */
    constructor(initial: map<string, string>)
      requires !ReadCache(initial).Unreadable?
      ensures store == initial && isLoading && !isInitialized
      ensures user == if ReadCache(initial).Cached? then Some(ReadCache(initial).user) else None
      ensures (StorageKey in initial ==> initial[StorageKey] != "") ==> Synced()
    {
      var cache := ReadCache(initial);
      user := if cache.Cached? then Some(cache.user) else None;
      store := initial;
      isLoading := true;
      isInitialized := false;
    }

    /** `updateStoredSession`: stamps the session time and, when given, stores the session. */
    method UpdateStoredSession(sessionData: Option<Session>, now: string)
      modifies this`store
      ensures store == Refreshed(old(store), sessionData, now)
    {
      store := store[SessionKey := now];
      if sessionData.Some? {
        store := store[SessionDataKey := sessionData.value.serialized];
      }
    }

    /** `clearStoredSession`: removes the three keys. */
    method ClearStoredSession()
      modifies this`store
      ensures store == Cleared(old(store))
    {
      store := store - {StorageKey};
      store := store - {SessionKey};
      store := store - {SessionDataKey};
    }

    /** `setUserWithStorage`. */
    method SetUserWithStorage(userData: Option<AuthUser>, sessionData: Option<Session>, now: string)
      modifies this`user, this`store
      ensures State() == WithUser(old(State()), userData, sessionData, now)
      ensures Synced()
    {
      user := userData;
      if userData.Some? {
        store := store[StorageKey := EncodeUser(userData.value)];
        UpdateStoredSession(sessionData, now);
      } else {
        ClearStoredSession();
      }
      WithUserMirrors(old(State()), userData, sessionData, now);
    }

    /** `setUserFromSession`. */
    method SetUserFromSession(su: ProviderUser, sessionData: Option<Session>, profile: ProfileLookup, now: string)
      modifies this`user, this`store
      ensures State() == Resolve(old(State()), su, sessionData, profile, now)
      ensures old(Synced()) ==> Synced()
    {
      ghost var before := State();
      ghost var after := Resolve(before, su, sessionData, profile, now);
      if Mirrors(before) {
        ResolveMirrors(before, su, sessionData, profile, now);
      }
      var cache := ReadCache(store);
      if cache.Unreadable? {
        assert after == WithUser(before, None, None, now);
        SetUserWithStorage(None, None, now);
      } else if cache.Cached? && cache.user.id == su.id {
        assert after == AuthState(Some(cache.user), Refreshed(before.store, sessionData, now));
        user := Some(cache.user);
        UpdateStoredSession(sessionData, now);
      } else if profile.ProfileRow? {
        assert after == WithUser(before, Some(ProfileUser(su, profile.name)), sessionData, now);
        SetUserWithStorage(Some(ProfileUser(su, profile.name)), sessionData, now);
      } else {
        assert after == before;
      }
    }

    /** `initializeAuth`: resolves the current session or clears, then marks the provider ready. */
    method InitializeAuth(lookup: SessionLookup, profile: ProfileLookup, now: string)
      modifies this
      ensures lookup.SessionResult? && lookup.session.Some? ==>
        State() == Resolve(old(State()), lookup.session.value.user, lookup.session, profile, now)
      ensures !(lookup.SessionResult? && lookup.session.Some?) ==> user == None && store == Cleared(old(store))
      ensures old(Synced()) ==> Synced()
      ensures !isLoading && isInitialized
    {
      if lookup.SessionResult? && lookup.session.Some? {
        SetUserFromSession(lookup.session.value.user, lookup.session, profile, now);
      } else {
        SetUserWithStorage(None, None, now);
      }
      isLoading := false;
      isInitialized := true;
    }

    /** The `onAuthStateChange` handler. */
    method OnAuthStateChange(event: string, session: Option<Session>, profile: ProfileLookup, now: string)
      modifies this
      ensures event == SignedOut ==> user == None && store == Cleared(old(store)) && isLoading == old(isLoading)
      ensures event != SignedOut && session.Some? ==>
        State() == Resolve(old(State()), session.value.user, session, profile, now) && !isLoading
      ensures event != SignedOut && session.None? ==> State() == old(State()) && isLoading == old(isLoading)
      ensures old(Synced()) ==> Synced()
      ensures isInitialized == old(isInitialized)
    {
      if event == SignedOut {
        SetUserWithStorage(None, None, now);
        return;
      }
      if session.Some? {
        isLoading := true;
        SetUserFromSession(session.value.user, session, profile, now);
        isLoading := false;
      }
    }

    /** `signOut`: a service error is passed on and changes nothing; otherwise everything is cleared. */
    method SignOut(serviceError: Option<string>, now: string) returns (err: Option<string>)
      modifies this
      ensures err == serviceError
      ensures serviceError.Some? ==> State() == old(State())
      ensures serviceError.None? ==> user == None && store == Cleared(old(store))
      ensures old(Synced()) ==> Synced()
      ensures isLoading == old(isLoading) && isInitialized == old(isInitialized)
    {
      if serviceError.Some? {
        return serviceError;
      }
      SetUserWithStorage(None, None, now);
      return None;
    }

    /** `signIn`: an error is passed on; a signed-in user is resolved. */
    method SignIn(outcome: AuthOutcome, profile: ProfileLookup, now: string) returns (err: Option<string>)
      modifies this
      ensures outcome.AuthFailed? ==> err == Some(outcome.message) && State() == old(State())
      ensures outcome.AuthOk? ==> err == None
      ensures outcome.AuthOk? && outcome.user.None? ==> State() == old(State())
      ensures outcome.AuthOk? && outcome.user.Some? ==>
        State() == Resolve(old(State()), outcome.user.value, outcome.session, profile, now)
      ensures old(Synced()) ==> Synced()
      ensures !isLoading && isInitialized == old(isInitialized)
    {
      isLoading := true;
      err := None;
      if outcome.AuthFailed? {
        err := Some(outcome.message);
      } else if outcome.user.Some? {
        SetUserFromSession(outcome.user.value, outcome.session, profile, now);
      }
      isLoading := false;
    }

    /**
     * `signUp`: as `signIn`, except that a missing user is an error. The
     * profile lookup passed in is the one made after the account exists.
     */
    method SignUp(outcome: AuthOutcome, profile: ProfileLookup, now: string) returns (err: Option<string>)
      modifies this
      ensures outcome.AuthFailed? ==> err == Some(outcome.message) && State() == old(State())
      ensures outcome.AuthOk? && outcome.user.None? ==> err == Some(CreationFailed) && State() == old(State())
      ensures outcome.AuthOk? && outcome.user.Some? ==>
        err == None && State() == Resolve(old(State()), outcome.user.value, outcome.session, profile, now)
      ensures old(Synced()) ==> Synced()
      ensures !isLoading && isInitialized == old(isInitialized)
    {
      isLoading := true;
      err := None;
      if outcome.AuthFailed? {
        err := Some(outcome.message);
      } else if outcome.user.None? {
        err := Some(CreationFailed);
      } else {
        SetUserFromSession(outcome.user.value, outcome.session, profile, now);
      }
      isLoading := false;
    }
  }
}
