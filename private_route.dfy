/** The route guard of the client (frontend/src/components/PrivateRoute.jsx): a page behind
    it is rendered when the store holds a user id, and otherwise the browser is sent to the
    login page. */
module PrivateRoute {
  import opened Wrappers
  import opened CredentialStore
  import opened SessionGateway
  import opened UserApi

  /** What the guard renders: the nested route, or a redirect. */
  datatype Element = Outlet | Navigate(to: string, replace: bool)

  /** `PrivateRoute()` over store `items`: `getItem("user_id")` is `null` when absent, and
      the empty string is falsy. */
  function Guard(items: map<string, string>): (e: Element)
    ensures e == Outlet <==> UserIdKey in items && items[UserIdKey] != ""
    ensures e != Outlet ==> e == Navigate(LoginPage, true)
  {
    match Lookup(items, UserIdKey)
    case Some(user) => if user != "" then Outlet else Navigate(LoginPage, true)
    case None => Navigate(LoginPage, true)
  }

  /** The guard does not look at the tokens: replacing them, or letting them expire, never
      changes its decision. */
  lemma GuardIgnoresTokens(items: map<string, string>, access: string, refresh: string)
    ensures Guard(items[AccessKey := access][RefreshKey := refresh]) == Guard(items)
    ensures Guard(items - {AccessKey, RefreshKey}) == Guard(items)
  {
    assert Lookup(items[AccessKey := access][RefreshKey := refresh], UserIdKey) == Lookup(items, UserIdKey);
    assert Lookup(items - {AccessKey, RefreshKey}, UserIdKey) == Lookup(items, UserIdKey);
  }

  /** After `logout` (or a failed renewal, which also empties the store) the guard redirects. */
  lemma GuardAfterClear()
    ensures Guard(map[]) == Navigate(LoginPage, true)
  {
  }

  /** A login whose token decodes to a non-empty user id opens the guarded pages, whatever
      the store held before. */
  lemma GuardAfterLogin(items: map<string, string>, data: map<string, string>, pair: TokenPair,
                        decode: string -> Option<Claims>)
    requires decode(pair.access).Some? && decode(pair.access).value.userId != ""
    ensures LoggedIn(items, data, Some(pair), decode).1.navigation == Some(HomePage)
    ensures Guard(LoggedIn(items, data, Some(pair), decode).0) == Outlet
  {
  }

  /** When the new token does not decode, `storeAuthData` throws after writing the tokens, so
      the identity already stored stays and the guard decides as before. */
  lemma GuardKeepsStaleIdentity(items: map<string, string>, pair: TokenPair, decode: string -> Option<Claims>)
    requires decode(pair.access).None?
    ensures Guard(Stored(items, pair, decode)) == Guard(items)
  {
    assert UserIdKey in IdentityKeys;
  }

  /** A failed renewal inside the interceptor locks the guarded pages. */
  lemma {:induction false} GuardAfterFailedRenewal(items: map<string, string>, config: Config, nowMs: int,
      decode: string -> Option<Claims>, renew: RefreshCall -> Option<TokenPair>)
    requires DecodedAccess(items, decode).Some? && NeedsRenewal(DecodedAccess(items, decode).value.exp, nowMs)
    requires !RenewalSucceeds(items, decode, renew)
    ensures Guard(Intercepted(items, config, nowMs, decode, renew).0) == Navigate(LoginPage, true)
  {
    var r := Intercepted(items, config, nowMs, decode, renew);
    assert r.1.refreshCalls != [];
    assert r.0 == map[];
  }
}
