/**
 * The auth context of frontend/lib/auth.tsx: `checkAuth`, `login`, `register`
 * and `logout` as transitions on the shared session store and on the React
 * state `user` and `loading`. Network calls arrive as parameters: the result
 * of `authAPI.me()`, `authAPI.login(...)` or `authAPI.register(...)`.
 */
module AuthContext {
  import opened Wrappers
  import Session
  import P = RefreshProtocol

  datatype User = User(id: nat, username: string, email: string, createdAt: string)

  /** The body of a login or register response. */
  datatype AuthResponse = AuthResponse(accessToken: string, refreshToken: string, user: User)

  class AuthProvider {
    /** The global `localStorage`, shared with the API client. */
    const storage: Session.LocalStorage
    var user: Option<User>
    var loading: bool
    var route: Option<string>   // the last path passed to router.push

    /** First render: `useState(null)` and `useState(true)`. */
    constructor (storage: Session.LocalStorage)
      ensures this.storage == storage
      ensures user == None && loading && route == None
    {
      this.storage := storage;
      user := None;
      loading := true;
      route := None;
    }

    /**
     * `checkAuth`, given what `authAPI.me()` would return. `me()` is called
     * only when both tokens are present (and non-empty); `loading` ends false
     * on every path.
     */
    method CheckAuth(me: Result<User, string>) returns (calledMe: bool)
      modifies this, storage
      ensures calledMe <==> Session.Truthy(old(storage.items), Session.AccessKey)
                            && Session.Truthy(old(storage.items), Session.RefreshKey)
      ensures !loading && route == old(route)
      ensures !calledMe ==> storage.items == old(storage.items) && user == old(user)
      ensures calledMe && me.Success? ==> storage.items == old(storage.items) && user == Some(me.value)
      ensures calledMe && me.Failure? ==> storage.items == Session.Cleared(old(storage.items)) && user == old(user)
    {
      var accessToken := storage.GetItem(Session.AccessKey);
      var refreshToken := storage.GetItem(Session.RefreshKey);
      if accessToken.None? || accessToken.value == "" || refreshToken.None? || refreshToken.value == "" {
        loading := false;
        return false;
      }
      calledMe := true;
      match me {
        case Success(u) =>
          user := Some(u);
        case Failure(_) =>
          storage.RemoveItem(Session.AccessKey);
          storage.RemoveItem(Session.RefreshKey);
          storage.RemoveItem(Session.UserKey);
          assert storage.items == Session.Cleared(old(storage.items));
      }
      loading := false;
    }

    /** The body shared by `login` and `register` once the response has arrived. */
    method SignIn(response: AuthResponse, userJson: string)
      modifies this, storage
      ensures storage.items == Session.SignedIn(old(storage.items), response.accessToken, response.refreshToken, userJson)
      ensures user == Some(response.user) && route == Some("/videos") && loading == old(loading)
    {
      storage.SetItem(Session.AccessKey, response.accessToken);
      storage.SetItem(Session.RefreshKey, response.refreshToken);
      storage.SetItem(Session.UserKey, userJson);
      user := Some(response.user);
      route := Some("/videos");
    }

    /**
     * `login`, given what `authAPI.login(...)` returned and `userJson`, the
     * text `JSON.stringify(user)` produces. A failed call changes nothing and
     * is rethrown.
     */
    method Login(response: Result<AuthResponse, string>, userJson: string) returns (thrown: Option<string>)
      modifies this, storage
      ensures response.Failure? ==>
        (thrown == Some(response.error)
         && storage.items == old(storage.items) && user == old(user) && route == old(route))
      ensures response.Success? ==>
        (thrown == None
         && storage.items == Session.SignedIn(old(storage.items), response.value.accessToken,
                                              response.value.refreshToken, userJson)
         && user == Some(response.value.user) && route == Some("/videos"))
      ensures loading == old(loading)
    {
      if response.Failure? {
        return Some(response.error);
      }
      SignIn(response.value, userJson);
      thrown := None;
    }

    /** `register`: the same transitions as `login`, after `authAPI.register(...)`. */
    method Register(response: Result<AuthResponse, string>, userJson: string) returns (thrown: Option<string>)
      modifies this, storage
      ensures response.Failure? ==>
        (thrown == Some(response.error)
         && storage.items == old(storage.items) && user == old(user) && route == old(route))
      ensures response.Success? ==>
        (thrown == None
         && storage.items == Session.SignedIn(old(storage.items), response.value.accessToken,
                                              response.value.refreshToken, userJson)
         && user == Some(response.value.user) && route == Some("/videos"))
      ensures loading == old(loading)
    {
      if response.Failure? {
        return Some(response.error);
      }
      SignIn(response.value, userJson);
      thrown := None;
    }

    /** `logout`: remove the three keys, forget the user, go to /login. */
    method Logout()
      modifies this, storage
      ensures storage.items == Session.Cleared(old(storage.items))
      ensures user == None && route == Some("/login") && loading == old(loading)
    {
      storage.RemoveItem(Session.AccessKey);
      storage.RemoveItem(Session.RefreshKey);
      storage.RemoveItem(Session.UserKey);
      assert storage.items == Session.Cleared(old(storage.items));
      user := None;
      route := Some("/login");
    }
  }

  /**
   * The keys login writes are the ones the API client reads: right after a
   * sign-in, every request carries the new access token, and a 401 would
   * refresh with the new refresh token.
   */
  lemma SignInFeedsCoordinator(items: Session.Items, response: AuthResponse, userJson: string, req: P.Request, e: P.HttpError)
    requires response.accessToken != "" && response.refreshToken != ""
    requires e.status == Some(P.Unauthorized) && !e.config.retry
    ensures var after := Session.SignedIn(items, response.accessToken, response.refreshToken, userJson);
      && P.Authorize(after, req).authorization == Some(Session.Bearer(response.accessToken))
      && P.OnError(P.Init(after), e).next.inFlight == Some(P.InFlight(e.config.(retry := true), response.refreshToken))
  {
    Session.SignInWritesSessionKeys(items, response.accessToken, response.refreshToken, userJson);
  }

  /**
   * Logout and a failed `checkAuth` remove exactly what the API client
   * removes when a refresh fails: the next 401 finds no refresh token.
   */
  lemma LogoutMatchesRefreshTeardown(s: P.State, reason: string)
    requires s.inFlight.Some?
    ensures P.OnRefreshFailure(s, reason).next.store == Session.Cleared(s.store)
    ensures !Session.Truthy(Session.Cleared(s.store), Session.RefreshKey)
    ensures !Session.Truthy(Session.Cleared(s.store), Session.AccessKey)
  {
  }
}
