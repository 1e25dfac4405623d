/** The browser's `localStorage`, as the client uses it to hold the session
    (frontend/src/api/localStorage.js): a global key/value store of strings. */
module CredentialStore {
  import opened Wrappers

  /** The claims `jwtDecode` reads from an access token. Each identity claim is held as the
      string `localStorage.setItem` stores for it (`String(v)`, so an absent claim is
      "undefined"); `exp` is seconds since the epoch (section 4.1.4 of RFC 7519), `None`
      when the token carries no numeric `exp` claim. */
  datatype Claims = Claims(exp: Option<int>, username: string, userId: string, avatar: string)

  /** The `{access, refresh}` body of a login or refresh response, as the strings that
      `setItem` stores for its two fields. */
  datatype TokenPair = TokenPair(access: string, refresh: string)

  const AccessKey := "access"
  const RefreshKey := "refresh"
  const UsernameKey := "username"
  const UserIdKey := "user_id"
  const AvatarKey := "avatar"

  /** The keys `storeAuthData` writes. */
  const AuthKeys: set<string> := {AccessKey, RefreshKey, UsernameKey, UserIdKey, AvatarKey}
  /** The keys written from the decoded access token. */
  const IdentityKeys: set<string> := {UsernameKey, UserIdKey, AvatarKey}

  /** `localStorage.getItem(key)`: `None` is `null`. */
  function Lookup(items: map<string, string>, key: string): Option<string> {
    if key in items then Some(items[key]) else None
  }

  /** The store after `storeAuthData(data)`. The two tokens are written first; the identity
      keys follow only when the token just written decodes, since a failing `jwtDecode`
      throws between the writes. */
  function Stored(items: map<string, string>, data: TokenPair, decode: string -> Option<Claims>): (r: map<string, string>)
    ensures Lookup(r, AccessKey) == Some(data.access) && Lookup(r, RefreshKey) == Some(data.refresh)
    ensures decode(data.access).Some? ==>
      var c := decode(data.access).value;
      Lookup(r, UsernameKey) == Some(c.username) && Lookup(r, UserIdKey) == Some(c.userId) &&
      Lookup(r, AvatarKey) == Some(c.avatar)
    ensures decode(data.access).None? ==>
      forall k :: k in IdentityKeys ==> Lookup(r, k) == Lookup(items, k)
    ensures forall k :: k !in AuthKeys ==> Lookup(r, k) == Lookup(items, k)
  {
    var written := items[AccessKey := data.access][RefreshKey := data.refresh];
    match decode(written[AccessKey])
    case None => written
    case Some(user) => written[UsernameKey := user.username][UserIdKey := user.userId][AvatarKey := user.avatar]
  }

  /** Storing the same response twice leaves the store as storing it once. */
  lemma StoredIdempotent(items: map<string, string>, data: TokenPair, decode: string -> Option<Claims>)
    ensures Stored(Stored(items, data, decode), data, decode) == Stored(items, data, decode)
  {
  }

  /** The identity keys come from the token being stored, whatever the store held before. */
  lemma StoredIdentityIgnoresPrevious(items1: map<string, string>, items2: map<string, string>, data: TokenPair, decode: string -> Option<Claims>)
    requires decode(data.access).Some?
    ensures forall k :: k in AuthKeys ==> Lookup(Stored(items1, data, decode), k) == Lookup(Stored(items2, data, decode), k)
  {
  }

  /** The process-wide store. */
  class Store {
    var items: map<string, string>

    constructor (initial: map<string, string>)
      ensures items == initial
    {
      items := initial;
    }

    /** `localStorage.getItem(key)`. */
    function GetItem(key: string): (v: Option<string>)
      reads this
      ensures v.Some? <==> key in items
      ensures v.Some? ==> v.value == items[key]
    {
      Lookup(items, key)
    }

    /** `localStorage.setItem(key, value)`. */
    method SetItem(key: string, value: string)
      modifies this
      ensures items == old(items)[key := value]
    {
      items := items[key := value];
    }

    /** `localStorage.clear()`. */
    method Clear()
      modifies this
      ensures items == map[]
    {
      items := map[];
    }

    /** `storeAuthData(data)`. `ok` is false when `jwtDecode` threw after the two token
        writes; the caller's `catch` then decides what happens. */
    method StoreAuthData(data: TokenPair, decode: string -> Option<Claims>) returns (ok: bool)
      modifies this
      ensures items == Stored(old(items), data, decode)
      ensures ok <==> decode(data.access).Some?
    {
      SetItem(AccessKey, data.access);
      SetItem(RefreshKey, data.refresh);
      var access := GetItem(AccessKey);
      var user := decode(access.value);
      if user.None? {
        return false;
      }
      SetItem(UsernameKey, user.value.username);
      SetItem(UserIdKey, user.value.userId);
      SetItem(AvatarKey, user.value.avatar);
      ok := true;
    }

    /** `clearAuthData()`: empties the whole store, not only the session keys. */
    method ClearAuthData()
      modifies this
      ensures items == map[]
    {
      Clear();
    }
  }
}
