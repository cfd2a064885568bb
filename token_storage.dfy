/**
 * The credential store: BaseTokenStorage keeps the access token in the
 * session-scoped store under "accessToken" and the refresh token in the
 * durable store under "refreshToken".
 */
module TokenStorage {
  import opened Wrappers

  /** `getItem(key)` on a store: the value, or None for null. */
  function Lookup(store: map<string, string>, key: string): (r: Option<string>)
    ensures r.Some? <==> key in store
    ensures r.Some? ==> r.value == store[key]
  {
    if key in store then Some(store[key]) else None
  }

  /** The browser's two key/value stores: sessionStorage (`session`) and localStorage (`local`). */
  class BrowserStorage {
    var session: map<string, string>
    var local: map<string, string>

    constructor (session: map<string, string>, local: map<string, string>)
      ensures this.session == session && this.local == local
    {
      this.session := session;
      this.local := local;
    }

    /** `sessionStorage.getItem(key)`, with None for null. */
    function SessionItem(key: string): Option<string>
      reads this
    {
      Lookup(session, key)
    }

    /** `localStorage.getItem(key)`, with None for null. */
    function LocalItem(key: string): Option<string>
      reads this
    {
      Lookup(local, key)
    }
  }

  const AccessTokenKey: string := "accessToken"
  const RefreshTokenKey: string := "refreshToken"

  class BaseTokenStorage {
    const stores: BrowserStorage

    constructor (stores: BrowserStorage)
      ensures this.stores == stores
    {
      this.stores := stores;
    }

    /** `getAccessToken`: the session store's "accessToken" entry. */
    function GetAccessToken(): (r: Option<string>)
      reads stores
      ensures r.Some? <==> AccessTokenKey in stores.session
      ensures r.Some? ==> r.value == stores.session[AccessTokenKey]
    {
      stores.SessionItem(AccessTokenKey)
    }

    /** `getRefreshToken`: the durable store's "refreshToken" entry. */
    function GetRefreshToken(): (r: Option<string>)
      reads stores
      ensures r.Some? <==> RefreshTokenKey in stores.local
      ensures r.Some? ==> r.value == stores.local[RefreshTokenKey]
    {
      stores.LocalItem(RefreshTokenKey)
    }

    /** `setTokens`: writes both entries, so the getters return them, and touches no other key. */
    method SetTokens(accessToken: string, refreshToken: string)
      modifies stores
      ensures stores.session == old(stores.session)[AccessTokenKey := accessToken]
      ensures stores.local == old(stores.local)[RefreshTokenKey := refreshToken]
      ensures GetAccessToken() == Some(accessToken) && GetRefreshToken() == Some(refreshToken)
      ensures forall k :: k != AccessTokenKey ==> stores.SessionItem(k) == old(stores.SessionItem(k))
      ensures forall k :: k != RefreshTokenKey ==> stores.LocalItem(k) == old(stores.LocalItem(k))
    {
      stores.session := stores.session[AccessTokenKey := accessToken];
      stores.local := stores.local[RefreshTokenKey := refreshToken];
    }

    /** `clearTokens`: removes both entries, so the getters return null, and touches no other key. */
    method ClearTokens()
      modifies stores
      ensures stores.session == old(stores.session) - {AccessTokenKey}
      ensures stores.local == old(stores.local) - {RefreshTokenKey}
      ensures GetAccessToken() == None && GetRefreshToken() == None
      ensures forall k :: k != AccessTokenKey ==> stores.SessionItem(k) == old(stores.SessionItem(k))
      ensures forall k :: k != RefreshTokenKey ==> stores.LocalItem(k) == old(stores.LocalItem(k))
    {
      stores.session := stores.session - {AccessTokenKey};
      stores.local := stores.local - {RefreshTokenKey};
    }
  }
}
