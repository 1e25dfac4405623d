/** The users API of the client (frontend/src/api/users.js): the request paths it builds and
    the three operations that write the credential store, `loginReq`, `registerReq` and
    `logout`. The server's answers, the token decoder and the toasts are parameters and
    results; navigation is recorded, not performed. */
module UserApi {
  import opened Wrappers
  import opened Strings
  import opened CredentialStore
  import opened SessionGateway
  import opened Routing
  import opened UserUrls

  /** Every users-app path starts with this prefix. */
  const UsersPrefix := "/" + UsersURL + "/"
  const LoginPath := UsersPrefix + "login/"
  const RegisterPath := UsersPrefix + "register/"
  const SearchPrefix := UsersPrefix + "u/search/?query="
  const HomePage := "/"
  const InvalidCredentials := "Credenciales invalidas"
  const RegisterFailed := "Ocurrió un error"

  /** `follow(username)`. */
  function FollowPath(username: string): string { UsersPrefix + "follow/" + username + "/" }

  /** `q(query)`: the query is interpolated as it is, without URL encoding. */
  function SearchPath(query: string): string { SearchPrefix + query }

  /** `getUserData(username)` and `userProfile(username)`. */
  function UserDataPath(username: string): string { UsersPrefix + username + "/" }

  /** `updateUserData`: the stored username, interpolated as "null" when there is none. */
  function UpdateUserPath(items: map<string, string>): string {
    UserDataPath(Lookup(items, UsernameKey).GetOr("null"))
  }

  /** The part of a client path the users app resolves, once its `/users/` prefix is gone. */
  function AppPath(url: string): Option<string> {
    if StartsWith(url, UsersPrefix) then Some(url[|UsersPrefix|..]) else None
  }

  lemma AppPathOf(rest: string)
    ensures AppPath(UsersPrefix + rest) == Some(rest)
  {
    assert (UsersPrefix + rest)[..|UsersPrefix|] == UsersPrefix;
    assert (UsersPrefix + rest)[|UsersPrefix|..] == rest;
  }

  /** `follow(u)` reaches the follow toggle for `u`. */
  lemma FollowPathReachesFollowView(u: string)
    requires u != "" && '/' !in u
    ensures AppPath(FollowPath(u)).Some?
    ensures ResolveUsers(AppPath(FollowPath(u)).value) == Some(Match(Follow, [StrArg(u)]))
  {
    assert FollowPath(u) == UsersPrefix + ("follow/" + u + "/");
    AppPathOf("follow/" + u + "/");
    FollowPathReachesFollow(u);
  }

  /** `getUserData(u)` reaches user detail for `u` unless `u` is one of the names a fixed
      route takes first: the profile of a user called "login" is never fetched. */
  lemma UserDataPathResolution(u: string)
    requires u != "" && '/' !in u
    ensures AppPath(UserDataPath(u)) == Some(u + "/")
    ensures u !in ReservedNames ==> ResolveUsers(u + "/") == Some(Match(UserDetail, [StrArg(u)]))
    ensures u in ReservedNames ==> ResolveUsers(u + "/").Some? && ResolveUsers(u + "/").value.view != UserDetail
  {
    assert UserDataPath(u) == UsersPrefix + (u + "/");
    AppPathOf(u + "/");
    SingleSegmentResolution(u);
  }

  /** `updateUserData` writes to the stored username's profile, and to the user called
      "null" when the store has no username. */
  lemma UpdateTargetsStoredUser(items: map<string, string>)
    ensures UsernameKey in items ==> UpdateUserPath(items) == UserDataPath(items[UsernameKey])
    ensures UsernameKey !in items ==>
      (UpdateUserPath(items) == UsersPrefix + "null/" &&
       ResolveUsers("null/") == Some(Match(UserDetail, [StrArg("null")])))
  {
    if UsernameKey !in items {
      DetailResolution("null");
      assert "null" + "/" == "null/";
    }
  }

  /** `q(query)` always reaches the search view, and the raw query text follows `?query=`. */
  lemma SearchPathCarriesRawQuery(query: string)
    ensures SearchPath(query) == UsersPrefix + "u/search/" + "?query=" + query
    ensures ResolveUsers("u" + "/" + "search" + "/") == Some(Match(Search, []))
    ensures SearchPath(query)[|SearchPrefix|..] == query
  {
    SearchPathReachesSearch();
    SearchPathShape(query);
  }

  lemma SearchPathShape(query: string)
    ensures SearchPath(query) == UsersPrefix + "u/search/" + "?query=" + query
    ensures SearchPath(query)[|SearchPrefix|..] == query
  {
    assert SearchPrefix == UsersPrefix + "u/search/" + "?query=";
  }

  /** The answer `registerReq` gets from the server: a message string, or the new user's
      `{username, email, password}` (the `register` view's two kinds of body). */
  datatype RegisterAnswer = Message(text: string) | Registered(username: string, email: string, password: string)

  /** A toast: a text, or a response body handed over as it is. */
  datatype Toast = ToastText(text: string) | ToastBody(body: RegisterAnswer)

  /** A request the client sends, with its form data. */
  datatype ApiCall = ApiCall(instance: Instance, url: string, data: map<string, string>)

  datatype UiEffects = UiEffects(calls: seq<ApiCall>, toasts: seq<Toast>, navigation: Option<string>)

  /** `loginReq(data)` from store `items`; `answer` is the login response (`None`: the post
      failed). */
  function LoggedIn(items: map<string, string>, data: map<string, string>, answer: Option<TokenPair>,
                    decode: string -> Option<Claims>): (res: (map<string, string>, UiEffects))
    ensures res.1.calls == [ApiCall(GuestAxios, LoginPath, data)]
    // The home page is opened only when the pair was stored without an exception.
    ensures res.1.navigation == Some(HomePage) <==> answer.Some? && decode(answer.value.access).Some?
    ensures res.1.navigation == None <==> res.1.toasts == [ToastText(InvalidCredentials)]
    ensures res.1.navigation.Some? ==> res.1.toasts == []
    // A failed post leaves the store alone; an answer is stored even when its token then
    // fails to decode.
    ensures answer.None? ==> res.0 == items
    ensures answer.Some? ==> res.0 == Stored(items, answer.value, decode)
  {
    var call := ApiCall(GuestAxios, LoginPath, data);
    match answer
    case None => (items, UiEffects([call], [ToastText(InvalidCredentials)], None))
    case Some(pair) =>
      if decode(pair.access).Some? then (Stored(items, pair, decode), UiEffects([call], [], Some(HomePage)))
      else (Stored(items, pair, decode), UiEffects([call], [ToastText(InvalidCredentials)], None))
  }

  /** `registerReq(data)`: `answer` is the register response (`None`: the post failed) and
      `login` the answer to the login request that follows a successful registration. */
  function RegisteredIn(items: map<string, string>, data: map<string, string>, answer: Option<RegisterAnswer>,
                        login: Option<TokenPair>, decode: string -> Option<Claims>)
    : (res: (map<string, string>, UiEffects))
    ensures |res.1.calls| >= 1 && res.1.calls[0] == ApiCall(GuestAxios, RegisterPath, data)
    // A new user with a non-empty username is logged in with the same form data.
    ensures answer.Some? && answer.value.Registered? && answer.value.username != "" ==>
      var l := LoggedIn(items, data, login, decode);
      res.0 == l.0 && res.1.calls == [res.1.calls[0]] + l.1.calls &&
      res.1.toasts == l.1.toasts && res.1.navigation == l.1.navigation
    // Every other outcome leaves the store alone and does not navigate.
    ensures !(answer.Some? && answer.value.Registered? && answer.value.username != "") ==>
      res.0 == items && res.1.navigation == None && |res.1.calls| == 1
    ensures answer.None? ==> res.1.toasts == [ToastText(RegisterFailed)]
    ensures answer.Some? && answer.value.Message? ==>
      res.1.toasts == (if answer.value.text != "" then [ToastText(answer.value.text)] else [])
    ensures answer.Some? && answer.value.Registered? && answer.value.username == "" ==>
      res.1.toasts == [ToastBody(answer.value)]
  {
    var call := ApiCall(GuestAxios, RegisterPath, data);
    match answer
    case None => (items, UiEffects([call], [ToastText(RegisterFailed)], None))
    case Some(Message(text)) =>
      // A string body has no `username`; a non-empty string is truthy.
      (items, UiEffects([call], if text != "" then [ToastText(text)] else [], None))
    case Some(Registered(username, _, _)) =>
      if username != "" then
        var l := LoggedIn(items, data, login, decode);
        (l.0, UiEffects([call] + l.1.calls, l.1.toasts, l.1.navigation))
      // An object body is truthy even when its username is empty.
      else (items, UiEffects([call], [ToastBody(answer.value)], None))
  }

  /** `loginReq(data)` on the global store. */
  method LoginReq(store: Store, data: map<string, string>, answer: Option<TokenPair>,
                  decode: string -> Option<Claims>) returns (eff: UiEffects)
    modifies store
    ensures (store.items, eff) == LoggedIn(old(store.items), data, answer, decode)
  {
    var call := ApiCall(GuestAxios, LoginPath, data);
    if answer.None? {
      return UiEffects([call], [ToastText(InvalidCredentials)], None);
    }
    var ok := store.StoreAuthData(answer.value, decode);
    if ok {
      eff := UiEffects([call], [], Some(HomePage));
    } else {
      // storeAuthData threw inside the try block.
      eff := UiEffects([call], [ToastText(InvalidCredentials)], None);
    }
  }

  /** `registerReq(data)` on the global store. */
  method RegisterReq(store: Store, data: map<string, string>, answer: Option<RegisterAnswer>,
                     login: Option<TokenPair>, decode: string -> Option<Claims>) returns (eff: UiEffects)
    modifies store
    ensures (store.items, eff) == RegisteredIn(old(store.items), data, answer, login, decode)
  {
    var call := ApiCall(GuestAxios, RegisterPath, data);
    if answer.None? {
      return UiEffects([call], [ToastText(RegisterFailed)], None);
    }
    var body := answer.value;
    if body.Registered? && body.username != "" {
      var l := LoginReq(store, data, login, decode);
      eff := UiEffects([call] + l.calls, l.toasts, l.navigation);
    } else if body.Registered? {
      eff := UiEffects([call], [ToastBody(body)], None);
    } else if body.text != "" {
      eff := UiEffects([call], [ToastText(body.text)], None);
    } else {
      eff := UiEffects([call], [], None);
    }
  }

  /** `logout()`. */
  method Logout(store: Store)
    modifies store
    ensures store.items == map[]
  {
    store.ClearAuthData();
  }

  /** A failed login post shows the error and nothing else: no store write, no navigation. */
  lemma FailedLoginChangesNothing(items: map<string, string>, data: map<string, string>, decode: string -> Option<Claims>)
    ensures LoggedIn(items, data, None, decode) ==
      (items, UiEffects([ApiCall(GuestAxios, LoginPath, data)], [ToastText(InvalidCredentials)], None))
  {
  }

  /** A registration with a failed transport or an error message never touches the store,
      whatever the login server would have answered. */
  lemma {:induction false} RejectedRegistrationKeepsStore(items: map<string, string>, data: map<string, string>,
      answer: Option<RegisterAnswer>, login: Option<TokenPair>, decode: string -> Option<Claims>)
    requires answer.None? || answer.value.Message?
    ensures RegisteredIn(items, data, answer, login, decode).0 == items
    ensures RegisteredIn(items, data, answer, login, decode).1.navigation == None
  {
  }
}
