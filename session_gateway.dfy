/** The request interceptor of the authenticated axios instance
    (frontend/src/api/useAxios.js): it attaches the stored access token as a Bearer
    header (section 2.1 of RFC 6750) and renews the token pair when fewer than five
    minutes of validity remain. One invocation is modelled at a time; the clock, the
    token decoder and the server's answer to the refresh call are parameters. */
module SessionGateway {
  import opened Wrappers
  import opened CredentialStore

  const BaseURL := "http://127.0.0.1:8000"
  const UsersURL := "users"
  /** The renewal window: five minutes, in milliseconds. */
  const ResetTokenMs := 1000 * 60 * 5
  const RefreshURL := UsersURL + "/refresh/"
  const LoginPage := "/login"

  /** An axios instance; `intercepted` says whether a request interceptor is registered on it. */
  datatype Instance = Instance(baseURL: string, withCredentials: bool, intercepted: bool)

  /** `guestAxios`: no credentials and no interceptor. */
  const GuestAxios := Instance(BaseURL, false, false)
  /** `authAxios`: sends cookies and runs the interceptor below. */
  const AuthAxios := Instance(BaseURL, true, true)

  /** The largest magnitude of a JavaScript time value, in milliseconds. */
  const MaxTimeMs := 8_640_000_000_000_000

  /** `new Date(ms).getTime()`: `None` stands for NaN, the value of an invalid Date. */
  function TimeValue(ms: int): Option<int> {
    if -MaxTimeMs <= ms <= MaxTimeMs then Some(ms) else None
  }

  /** The interceptor's test `exp.getTime() - now.getTime() < resetToken`. An absent `exp`
      or an out-of-range time gives NaN, and every comparison with NaN is false. */
  predicate NeedsRenewal(exp: Option<int>, nowMs: int) {
    && exp.Some?
    && TimeValue(exp.value * 1000).Some?
    && TimeValue(nowMs).Some?
    && exp.value * 1000 - nowMs < ResetTokenMs
  }

  /** The parts of an axios request configuration the interceptor touches or passes on. */
  datatype Config = Config(url: string, verb: string, headers: map<string, string>, data: string)

  /** The refresh request: `guestAxios.post("users/refresh/", {oldRefresh})`. */
  datatype RefreshCall = RefreshCall(instance: Instance, url: string, oldRefresh: Option<string>)

  /** What axios gets back: the (possibly renewed) request goes out with `config`, or the
      interceptor threw (the stored access token did not decode) and the request is
      rejected unsent. */
  datatype Outcome = Send(config: Config) | Reject(config: Config)

  /** Everything one interceptor invocation does besides changing the store. */
  datatype Effects = Effects(outcome: Outcome, refreshCalls: seq<RefreshCall>, navigation: Option<string>)

  /** The headers the interceptor installs, replacing any the request had. A missing
      token is interpolated as the text "null". */
  function BearerHeaders(access: Option<string>): map<string, string> {
    map["Authorization" := "Bearer " + access.GetOr("null")]
  }

  /** `jwtDecode(localStorage.getItem("access"))`; `jwtDecode(null)` throws as well. */
  function DecodedAccess(items: map<string, string>, decode: string -> Option<Claims>): Option<Claims> {
    match Lookup(items, AccessKey)
    case None => None
    case Some(access) => decode(access)
  }

  /** The refresh call an invocation makes against the store it starts from. */
  function RefreshCallFor(items: map<string, string>): RefreshCall {
    RefreshCall(GuestAxios, RefreshURL, Lookup(items, RefreshKey))
  }

  /** Whether the server's answer to the refresh call was stored without an exception. */
  predicate RenewalSucceeds(items: map<string, string>, decode: string -> Option<Claims>, renew: RefreshCall -> Option<TokenPair>) {
    var answer := renew(RefreshCallFor(items));
    answer.Some? && decode(answer.value.access).Some?
  }

  /** One interceptor invocation from store `items` at time `nowMs`: the new store and the
      effects. `renew` is the server's answer to the refresh call (`None`: the request
      failed). */
  function Intercepted(items: map<string, string>, config: Config, nowMs: int,
                       decode: string -> Option<Claims>, renew: RefreshCall -> Option<TokenPair>)
    : (res: (map<string, string>, Effects))
    // Headers are replaced wholesale, from the token read on entry, before any renewal.
    ensures res.1.outcome.config == config.(headers := BearerHeaders(Lookup(items, AccessKey)))
    ensures res.1.outcome.Reject? <==> DecodedAccess(items, decode).None?
    // At most one refresh call, and exactly when the decoded expiry is inside the window.
    ensures |res.1.refreshCalls| <= 1
    ensures res.1.refreshCalls != [] <==>
      DecodedAccess(items, decode).Some? && NeedsRenewal(DecodedAccess(items, decode).value.exp, nowMs)
    // The refresh call carries the stored refresh token and goes through an instance without
    // an interceptor, so renewal never re-enters this function.
    ensures forall i :: 0 <= i < |res.1.refreshCalls| ==>
      res.1.refreshCalls[i] == RefreshCallFor(items) && !res.1.refreshCalls[i].instance.intercepted
    // No renewal: nothing changes and nobody navigates.
    ensures res.1.refreshCalls == [] ==> res.0 == items && res.1.navigation == None
    // A renewal that was stored: the store holds the new pair and its identity.
    ensures res.1.refreshCalls != [] && RenewalSucceeds(items, decode, renew) ==>
      res.0 == Stored(items, renew(RefreshCallFor(items)).value, decode) && res.1.navigation == None
    // A renewal that failed: the store is empty and the page goes to the login screen, yet
    // the request still goes out.
    ensures res.1.refreshCalls != [] && !RenewalSucceeds(items, decode, renew) ==>
      res.0 == map[] && res.1.navigation == Some(LoginPage) && res.1.outcome.Send?
  {
    var headers := BearerHeaders(Lookup(items, AccessKey));
    var sent := config.(headers := headers);
    match DecodedAccess(items, decode)
    case None => (items, Effects(Reject(sent), [], None))
    case Some(decoded) =>
      if !NeedsRenewal(decoded.exp, nowMs) then (items, Effects(Send(sent), [], None))
      else
        var call := RefreshCallFor(items);
        match renew(call)
        case None => (map[], Effects(Send(sent), [call], Some(LoginPage)))
        case Some(pair) =>
          if decode(pair.access).Some? then (Stored(items, pair, decode), Effects(Send(sent), [call], None))
          // storeAuthData threw inside the try block: the catch clears what it had written.
          else (map[], Effects(Send(sent), [call], Some(LoginPage)))
  }

  /** The interceptor registered on `authAxios`, acting on the global store. */
  method Intercept(store: Store, config: Config, nowMs: int,
                   decode: string -> Option<Claims>, renew: RefreshCall -> Option<TokenPair>)
    returns (eff: Effects)
    modifies store
    ensures (store.items, eff) == Intercepted(old(store.items), config, nowMs, decode, renew)
  {
    var access := store.GetItem(AccessKey);
    var sent := config.(headers := BearerHeaders(access));
    if access.None? || decode(access.value).None? {
      // jwtDecode throws outside the try block: the interceptor's promise rejects.
      return Effects(Reject(sent), [], None);
    }
    var decoded := decode(access.value).value;
    if !NeedsRenewal(decoded.exp, nowMs) {
      return Effects(Send(sent), [], None);
    }
    var oldRefresh := store.GetItem(RefreshKey);
    var call := RefreshCall(GuestAxios, RefreshURL, oldRefresh);
    var res := renew(call);
    var stored := false;
    if res.Some? {
      stored := store.StoreAuthData(res.value, decode);
    }
    if stored {
      eff := Effects(Send(sent), [call], None);
    } else {
      store.ClearAuthData();
      store.Clear();
      eff := Effects(Send(sent), [call], Some(LoginPage));
    }
  }

  /** The boundary: a token exactly five minutes from expiry is not renewed. */
  lemma ExactlyFiveMinutesLeftIsNotRenewed(exp: int)
    requires TimeValue(exp * 1000).Some? && TimeValue(exp * 1000 - ResetTokenMs).Some?
    ensures !NeedsRenewal(Some(exp), exp * 1000 - ResetTokenMs)
    ensures NeedsRenewal(Some(exp), exp * 1000 - ResetTokenMs + 1)
  {
  }

  /** A token that has already expired takes the renewal branch like any other token
      inside the window. */
  lemma ExpiredTokenIsRenewed(exp: int, nowMs: int)
    requires TimeValue(exp * 1000).Some? && TimeValue(nowMs).Some?
    requires exp * 1000 <= nowMs
    ensures NeedsRenewal(Some(exp), nowMs)
  {
  }

  /** A token without an `exp` claim is never renewed. */
  lemma MissingExpiryIsNeverRenewed(nowMs: int)
    ensures !NeedsRenewal(None, nowMs)
  {
  }

  /** After a renewal whose new token expires at `newExp`, a later invocation at a time
      at least five minutes before `newExp` makes no refresh call and changes nothing. */
  lemma {:induction false} RenewedSessionIsNotRenewedAgain(
    items: map<string, string>, config: Config, nowMs: int, config2: Config, laterMs: int,
    decode: string -> Option<Claims>, renew: RefreshCall -> Option<TokenPair>, newExp: int)
    requires DecodedAccess(items, decode).Some? && NeedsRenewal(DecodedAccess(items, decode).value.exp, nowMs)
    requires RenewalSucceeds(items, decode, renew)
    requires decode(renew(RefreshCallFor(items)).value.access).value.exp == Some(newExp)
    requires TimeValue(newExp * 1000).Some? && TimeValue(laterMs).Some?
    requires newExp * 1000 - laterMs >= ResetTokenMs
    ensures var first := Intercepted(items, config, nowMs, decode, renew);
            var second := Intercepted(first.0, config2, laterMs, decode, renew);
            second.1.refreshCalls == [] && second.0 == first.0 && second.1.outcome.Send?
  {
    var first := Intercepted(items, config, nowMs, decode, renew);
    var pair := renew(RefreshCallFor(items)).value;
    assert first.0 == Stored(items, pair, decode);
    assert Lookup(first.0, AccessKey) == Some(pair.access);
    assert DecodedAccess(first.0, decode) == decode(pair.access);
  }
}
