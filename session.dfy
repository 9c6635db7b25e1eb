/**
 * The browser's `localStorage` as the session store shared by the API client
 * (frontend/lib/api.ts) and the auth context (frontend/lib/auth.tsx), and the
 * Bearer header the client builds from it.
 */
module Session {
  import opened Wrappers

  type Items = map<string, string>

  const AccessKey: string := "access_token"
  const RefreshKey: string := "refresh_token"
  const UserKey: string := "user"

  /** The three keys that sign-in writes and every teardown removes. */
  const SessionKeys: set<string> := {AccessKey, RefreshKey, UserKey}

  /**
   * JavaScript truthiness of `localStorage.getItem(key)`: `null` (absent) and
   * `""` are both falsy, so an empty stored token counts as no token.
   */
  predicate Truthy(items: Items, key: string) {
    key in items && items[key] != ""
  }

  /** The header value the request interceptor writes. */
  function Bearer(token: string): string {
    "Bearer " + token
  }

  /** The store after `removeItem` of the three session keys. */
  function Cleared(items: Items): (r: Items)
    ensures forall k :: k in r <==> k in items && k !in SessionKeys
    ensures forall k :: k in r ==> r[k] == items[k]
  {
    items - SessionKeys
  }

  /** The store after a successful refresh writes the new pair. */
  function WithTokens(items: Items, access: string, refresh: string): Items {
    items[AccessKey := access][RefreshKey := refresh]
  }

  /** The store after login or register writes the pair and the serialised user. */
  function SignedIn(items: Items, access: string, refresh: string, userJson: string): Items {
    WithTokens(items, access, refresh)[UserKey := userJson]
  }

  /** Signing in writes exactly the session keys and leaves every other entry alone. */
  lemma SignInWritesSessionKeys(items: Items, access: string, refresh: string, userJson: string)
    ensures SignedIn(items, access, refresh, userJson).Keys == items.Keys + SessionKeys
    ensures forall k :: k in items && k !in SessionKeys ==> SignedIn(items, access, refresh, userJson)[k] == items[k]
    ensures Truthy(SignedIn(items, access, refresh, userJson), AccessKey) <==> access != ""
    ensures Truthy(SignedIn(items, access, refresh, userJson), RefreshKey) <==> refresh != ""
  {
  }

  /** Tearing a session down after signing in leaves the store as it was, less the session keys. */
  lemma ClearUndoesSignIn(items: Items, access: string, refresh: string, userJson: string)
    ensures Cleared(SignedIn(items, access, refresh, userJson)) == Cleared(items)
  {
    var a := Cleared(SignedIn(items, access, refresh, userJson));
    var b := Cleared(items);
    assert a.Keys == b.Keys;
    forall k | k in a ensures a[k] == b[k] {
      assert k !in SessionKeys;
    }
  }

  /** The global `localStorage` object: one instance shared by every caller. */
  class LocalStorage {
    var items: Items

    constructor (initial: Items)
      ensures items == initial
    {
      items := initial;
    }

    /** `localStorage.getItem(key)`. */
    function GetItem(key: string): (r: Option<string>)
      reads this
      ensures r.Some? <==> key in items
      ensures r.Some? ==> r.value == items[key]
    {
      if key in items then Some(items[key]) else None
    }

    /** `localStorage.setItem(key, value)`. */
    method SetItem(key: string, value: string)
      modifies this
      ensures items == old(items)[key := value]
    {
      items := items[key := value];
    }

    /** `localStorage.removeItem(key)`. */
    method RemoveItem(key: string)
      modifies this
      ensures items == old(items) - {key}
    {
      items := items - {key};
    }
  }
}
