/** The users app's serializers (users/serializers.py) and the `followed_usernames`
    property of the model (users/models.py): the derived fields of a user on the wire and
    the claims of the tokens the server issues. `media` is the storage's `.url` for a
    stored file name; `absolute` is `request.build_absolute_uri`, which an image field of a
    serializer with the request in its context applies (the user detail view, `search` and
    `reco`). The token claim and `followed_usernames` read `.url` itself and stay relative. */
module UserSerializers {
  import opened Wrappers
  import opened Seqs
  import opened Strings
  import opened UserModels
  import opened Database
  import opened CredentialStore
  import opened UserApi

  /** `obj.followed`: the users who follow user `id`. */
  function FollowersOf(t: Tables, id: UserId): (r: set<UserId>)
    ensures forall a :: a in r <==> (a, id) in t.following
  {
    set pr | pr in t.following && pr.1 == id :: pr.0
  }

  /** `obj.following`: the users user `id` follows. */
  function FollowingOf(t: Tables, id: UserId): (r: set<UserId>)
    ensures forall b :: b in r <==> (id, b) in t.following
  {
    set pr | pr in t.following && pr.0 == id :: pr.1
  }

  /** Following is directed: `b` is among the users `a` follows exactly when `a` is among
      `b`'s followers, and neither implies that `b` follows `a`. */
  lemma FollowingIsDirected(t: Tables, a: UserId, b: UserId)
    ensures b in FollowingOf(t, a) <==> a in FollowersOf(t, b)
    ensures t.following == {(a, b)} && a != b ==> a !in FollowingOf(t, b)
  {
  }

  /** `i_follow`: whether the requester `me` follows `obj`. */
  function IFollow(t: Tables, me: UserId, obj: User): (b: bool)
    ensures b <==> me in FollowersOf(t, obj.id)
    ensures b <==> obj.id in FollowingOf(t, me)
  {
    (me, obj.id) in t.following
  }

  /** An entry of `followed_usernames`. */
  datatype FollowEntry = FollowEntry(username: string, avatar: string)

  /** The users that follow `u`, in table order. */
  function FollowerRows(t: Tables, u: User): seq<User> {
    Filter(t.users, (v: User) => (v.id, u.id) in t.following)
  }

  function Entries(rows: seq<User>, media: string -> string): (r: seq<FollowEntry>)
    ensures |r| == |rows|
    ensures forall i :: 0 <= i < |rows| ==> r[i] == FollowEntry(rows[i].username, media(rows[i].avatar))
  {
    seq(|rows|, i requires 0 <= i < |rows| => FollowEntry(rows[i].username, media(rows[i].avatar)))
  }

  /** `followed_usernames`: one entry per follower. */
  function FollowedUsernames(t: Tables, u: User, media: string -> string): seq<FollowEntry> {
    Entries(FollowerRows(t, u), media)
  }

  /** In a valid database `followed_usernames` has exactly one entry per follower, and every
      follower's username is among them. */
  lemma FollowedUsernamesPerFollower(t: Tables, u: User, media: string -> string)
    requires Valid(t)
    ensures |FollowedUsernames(t, u, media)| == |FollowersOf(t, u.id)|
    ensures forall v :: v in t.users && (v.id, u.id) in t.following ==>
      FollowEntry(v.username, media(v.avatar)) in FollowedUsernames(t, u, media)
  {
    var rows := FollowerRows(t, u);
    FollowerRowsAreFollowers(t, u);
    forall v | v in t.users && (v.id, u.id) in t.following
      ensures FollowEntry(v.username, media(v.avatar)) in FollowedUsernames(t, u, media)
    {
      assert v in rows;
      var i :| 0 <= i < |rows| && rows[i] == v;
      assert FollowedUsernames(t, u, media)[i] == FollowEntry(v.username, media(v.avatar));
    }
  }

  /** The follower rows are as many as the followers, since user ids are unique. */
  lemma FollowerRowsAreFollowers(t: Tables, u: User)
    requires Valid(t)
    ensures |FollowerRows(t, u)| == |FollowersOf(t, u.id)|
  {
    var p := (v: User) => (v.id, u.id) in t.following;
    FilterInjective(t.users, p, UserKey);
    InjectiveImageSize(FollowerRows(t, u), UserKey);
    FollowerRowsImage(t, u);
  }

  /** The ids of the follower rows are the followers. */
  lemma FollowerRowsImage(t: Tables, u: User)
    requires References(t)
    ensures Image(FollowerRows(t, u), UserKey) == FollowersOf(t, u.id)
  {
    var p := (v: User) => (v.id, u.id) in t.following;
    var rows := FollowerRows(t, u);
    FilterImage(t.users, p, UserKey);
    forall a | a in FollowersOf(t, u.id) ensures a in Image(rows, UserKey) {
      assert a in UserIds(t);
      var i :| 0 <= i < |t.users| && t.users[i].id == a;
      assert t.users[i] in t.users;
    }
    forall a | a in Image(rows, UserKey) ensures a in FollowersOf(t, u.id) {
      var i :| 0 <= i < |rows| && rows[i].id == a;
    }
  }

  /** `UserSerializer`'s output. */
  datatype UserOut = UserOut(
    id: UserId, username: string, email: string, avatar: string, bio: string, coverImage: string,
    dateJoined: int, iFollow: bool, followers: nat, following: nat, name: string,
    followedUsernames: seq<FollowEntry>)

  function UserOutFor(t: Tables, obj: User, me: UserId, media: string -> string, absolute: string -> string): (o: UserOut)
    ensures o.iFollow <==> (me, obj.id) in t.following
    ensures o.followers == |FollowersOf(t, obj.id)| && o.following == |FollowingOf(t, obj.id)|
    ensures o.username == obj.username && o.email == obj.email && o.avatar == absolute(media(obj.avatar))
    ensures o.coverImage == absolute(media(obj.coverImage)) && o.id == obj.id
    ensures o.followedUsernames == FollowedUsernames(t, obj, media)
  {
    UserOut(obj.id, obj.username, obj.email, absolute(media(obj.avatar)), obj.bio, absolute(media(obj.coverImage)),
            obj.dateJoined, IFollow(t, me, obj), |FollowersOf(t, obj.id)|, |FollowingOf(t, obj.id)|,
            obj.name, FollowedUsernames(t, obj, media))
  }

  /** The writable fields of a `UserSerializer` update. `username` and `email` are declared
      read-only, so a request that sends them has them ignored; `id` is read-only too. */
  datatype ProfilePatch = ProfilePatch(
    username: Option<string>, email: Option<string>, name: Option<string>, bio: Option<string>,
    avatar: Option<string>, coverImage: Option<string>, dateJoined: Option<int>)

  function Patched(u: User, patch: ProfilePatch): (r: User)
    ensures r.username == u.username && r.email == u.email && r.id == u.id && r.password == u.password
    ensures r.isStaff == u.isStaff && r.isSuperuser == u.isSuperuser
    ensures r.name == patch.name.GetOr(u.name) && r.bio == patch.bio.GetOr(u.bio)
    ensures r.avatar == patch.avatar.GetOr(u.avatar) && r.coverImage == patch.coverImage.GetOr(u.coverImage)
    ensures r.dateJoined == patch.dateJoined.GetOr(u.dateJoined)
  {
    u.(name := patch.name.GetOr(u.name), bio := patch.bio.GetOr(u.bio),
       avatar := patch.avatar.GetOr(u.avatar), coverImage := patch.coverImage.GetOr(u.coverImage),
       dateJoined := patch.dateJoined.GetOr(u.dateJoined))
  }

  /** A patch that names only the read-only fields changes nothing. */
  lemma ReadOnlyPatchIsIgnored(u: User, username: Option<string>, email: Option<string>)
    ensures Patched(u, ProfilePatch(username, email, None, None, None, None, None)) == u
  {
  }

  /** `SearchSerializer`'s output: exactly these four fields. */
  datatype SearchOut = SearchOut(name: string, username: string, avatar: string, iFollow: bool)

  function SearchOutFor(t: Tables, obj: User, me: UserId, media: string -> string, absolute: string -> string): (o: SearchOut)
    ensures o.iFollow <==> (me, obj.id) in t.following
    ensures o.username == obj.username && o.name == obj.name && o.avatar == absolute(media(obj.avatar))
  {
    SearchOut(obj.name, obj.username, absolute(media(obj.avatar)), IFollow(t, me, obj))
  }

  /** A search row is the profile row without the fields search leaves out. */
  lemma SearchOutAgreesWithUserOut(t: Tables, obj: User, me: UserId, media: string -> string, absolute: string -> string)
    ensures var s := SearchOutFor(t, obj, me, media, absolute); var u := UserOutFor(t, obj, me, media, absolute);
      s.name == u.name && s.username == u.username && s.avatar == u.avatar && s.iFollow == u.iFollow
  {
  }

  /** The claims in an access token `MyTokenObtainPairSerializer` issues for `u`, as the
      client stores them: simplejwt's `user_id` and `exp` plus the added `username` and
      `avatar`. `exp` is in seconds. */
  function TokenClaims(u: User, exp: int, media: string -> string): (c: Claims)
    ensures c.username == u.username && c.avatar == media(u.avatar) && c.exp == Some(exp)
    ensures IsDigits(c.userId) && DecimalValue(c.userId) == u.id
  {
    DecimalRoundTrip(u.id);
    Claims(Some(exp), u.username, NatToString(u.id), media(u.avatar))
  }

  /** Storing a pair whose access token carries these claims writes the user's own name,
      id and avatar into the store. */
  lemma StoredTokenIdentity(items: map<string, string>, pair: TokenPair, decode: string -> Option<Claims>,
                            u: User, exp: int, media: string -> string)
    requires decode(pair.access) == Some(TokenClaims(u, exp, media))
    ensures var s := Stored(items, pair, decode);
      && s[UsernameKey] == u.username && s[AvatarKey] == media(u.avatar)
      && DecimalValue(s[UserIdKey]) == u.id && s[UserIdKey] != ""
  {
  }

  /** `MyUserSerializer`'s output: the user's username, email and stored password. */
  function MyUserOut(u: User): (r: RegisterAnswer)
    ensures r.Registered? && r.username == u.username && r.email == u.email && r.password == u.password
  {
    Registered(u.username, u.email, u.password)
  }
}
