/**
 * The authentication slice: its initial state read from the credential store,
 * the `login` and `logout` reducers (which also write through to the store),
 * the selectors, and which part of the state is persisted across reloads.
 */
module AuthSlice {
  import opened Wrappers
  import opened TokenStorage

  datatype Role = Manager | Staff

  datatype User = User(
    email: string, firstName: string, lastName: string, username: string,
    role: Role, id: int, isActive: bool)

  /**
   * The token pair the state holds. The initial state builds it from whatever the
   * store returned, non-null assertions notwithstanding, so either half may be null.
   */
  datatype TokenPair = TokenPair(access: Option<string>, refresh: Option<string>)

  datatype AuthState = AuthState(tokens: Option<TokenPair>, user: Option<User>, isAuthenticated: bool)

  /** The `login` action's payload: the tokens the server issued and the signed-in user. */
  datatype LoginPayload = LoginPayload(access: string, refresh: string, user: User)

  /** The state `logout` leaves. */
  const LoggedOut: AuthState := AuthState(None, None, false)

  /** `initialState`, from the two tokens read when the module loads. */
  function InitialState(access: Option<string>, refresh: Option<string>): (s: AuthState)
    ensures s.tokens == Some(TokenPair(access, refresh))
    ensures s.user.None?
    ensures s.isAuthenticated <==> access.Some? && access.value != ""
  {
    AuthState(Some(TokenPair(access, refresh)), None, match access case Some(a) => a != "" case None => false)
  }

  /** `login`: tokens and user come from the payload, and the user is authenticated, whatever came before. */
  function LoginReducer(s: AuthState, p: LoginPayload): (t: AuthState)
    ensures t.tokens == Some(TokenPair(Some(p.access), Some(p.refresh)))
    ensures t.user == Some(p.user) && t.isAuthenticated
  {
    s.(tokens := Some(TokenPair(Some(p.access), Some(p.refresh))), user := Some(p.user), isAuthenticated := true)
  }

  /** `logout`: tokens and user become null and the flag false. */
  function LogoutReducer(s: AuthState): (t: AuthState)
    ensures t.tokens.None? && t.user.None? && !t.isAuthenticated
  {
    s.(tokens := None, user := None, isAuthenticated := false)
  }

  /** Signing in and then out leaves the same state whatever the payload and the state before. */
  lemma LogoutAfterLogin(s1: AuthState, p1: LoginPayload, s2: AuthState, p2: LoginPayload)
    ensures LogoutReducer(LoginReducer(s1, p1)) == LogoutReducer(LoginReducer(s2, p2)) == LoggedOut
  {
  }

  /** A second login overrides the first completely. */
  lemma LoginOverridesLogin(s: AuthState, p1: LoginPayload, p2: LoginPayload)
    ensures LoginReducer(LoginReducer(s, p1), p2) == LoginReducer(s, p2)
  {
  }

  // -------------------------------------------------------------- selectors

  /** `getIsAuthenticated` */
  function GetIsAuthenticated(s: AuthState): (r: bool)
    ensures r <==> s.isAuthenticated
  {
    s.isAuthenticated
  }

  /** The record `getUserProfile` returns. */
  datatype UserProfile = UserProfile(user: Option<User>)

  /** `getUserProfile`: `{user}` */
  function GetUserProfile(s: AuthState): (p: UserProfile)
    ensures p.user == s.user
  {
    UserProfile(s.user)
  }

  /** What the selectors report after `login` and after `logout`. */
  lemma SelectorsAfterActions(s: AuthState, p: LoginPayload)
    ensures GetIsAuthenticated(LoginReducer(s, p)) && GetUserProfile(LoginReducer(s, p)) == UserProfile(Some(p.user))
    ensures !GetIsAuthenticated(LogoutReducer(s)) && GetUserProfile(LogoutReducer(s)) == UserProfile(None)
  {
  }

  // ------------------------------------------------------------ persistence

  const PersistKey: string := "user-profile"
  const PersistWhitelist: seq<string> := ["user"]

  /**
   * The state after a reload: the whitelisted `user` is restored from the saved state,
   * everything else starts from `initialState`, that is from the credential store.
   */
  function Rehydrate(saved: AuthState, access: Option<string>, refresh: Option<string>): (s: AuthState)
    ensures s.user == saved.user
    ensures s.tokens == InitialState(access, refresh).tokens
    ensures s.isAuthenticated == InitialState(access, refresh).isAuthenticated
  {
    InitialState(access, refresh).(user := saved.user)
  }

  /** After a reload only the user survives: two saved states with the same user rehydrate alike. */
  lemma RehydrateDependsOnlyOnUser(a: AuthState, b: AuthState, access: Option<string>, refresh: Option<string>)
    requires a.user == b.user
    ensures Rehydrate(a, access, refresh) == Rehydrate(b, access, refresh)
  {
  }

  // ------------------------------------------------------------------ store

  /** The slice's state together with the credential store it writes through to. */
  class AuthStore {
    var tokens: Option<TokenPair>
    var user: Option<User>
    var isAuthenticated: bool
    const storage: BaseTokenStorage

    function State(): AuthState
      reads this
    {
      AuthState(tokens, user, isAuthenticated)
    }

    /** The tokens the slice holds are the ones in the credential store, or none are in either. */
    predicate Synced()
      reads this, storage.stores
    {
      match tokens
      case Some(t) => t.access == storage.GetAccessToken() && t.refresh == storage.GetRefreshToken()
      case None => storage.GetAccessToken().None? && storage.GetRefreshToken().None?
    }

    /** The slice as created when the module loads: `initialState` from the store's current tokens. */
    constructor (storage: BaseTokenStorage)
      ensures this.storage == storage
      ensures State() == InitialState(storage.GetAccessToken(), storage.GetRefreshToken())
      ensures Synced()
    {
      this.storage := storage;
      var access := storage.GetAccessToken();
      var refresh := storage.GetRefreshToken();
      tokens := Some(TokenPair(access, refresh));
      user := None;
      isAuthenticated := match access case Some(a) => a != "" case None => false;
    }

    /** Dispatching `login`: the reducer's state, and `setTokens` with the payload's tokens. */
    method Login(p: LoginPayload)
      modifies this, storage.stores
      ensures State() == LoginReducer(old(State()), p)
      ensures storage.stores.session == old(storage.stores.session)[AccessTokenKey := p.access]
      ensures storage.stores.local == old(storage.stores.local)[RefreshTokenKey := p.refresh]
      ensures Synced()
    {
      tokens := Some(TokenPair(Some(p.access), Some(p.refresh)));
      user := Some(p.user);
      isAuthenticated := true;
      storage.SetTokens(p.access, p.refresh);
    }

    /** Dispatching `logout`: the reducer's state, and `clearTokens`. */
    method Logout()
      modifies this, storage.stores
      ensures State() == LogoutReducer(old(State())) && State() == LoggedOut
      ensures storage.stores.session == old(storage.stores.session) - {AccessTokenKey}
      ensures storage.stores.local == old(storage.stores.local) - {RefreshTokenKey}
      ensures Synced()
    {
      tokens := None;
      user := None;
      isAuthenticated := false;
      storage.ClearTokens();
    }
  }
}
