/** The users app's views (users/views.py): the follow toggle, recommendations, search and
    registration. */
module UserViews {
  import opened Wrappers
  import opened Seqs
  import opened Ordered
  import opened Strings
  import opened UserModels
  import opened NotiModels
  import opened Database
  import opened UserApi
  import opened UserSerializers

  const FollowKind := "te empezó a seguir"
  const NoLongerFollowing := "Ya no lo sigues"

  /** What `follow` answers: a detail message, or the notification it saved. */
  datatype FollowAnswer = Detail(text: string) | Saved(noti: Noti)

  /** The notification a follow saves. */
  function FollowNoti(t: Tables, me: UserId, target: UserId, now: int): Noti {
    NewNoti(t.nextNoti, FollowKind, me, target, None, now)
  }

  /** `follow(username)` by `me`: the named user must exist; if `me` follows them the pair
      goes, otherwise it is added and a new notification is saved, every time. Following
      oneself is not refused. */
  function Followed(t: Tables, me: UserId, name: string, now: int): (r: Outcome<FollowAnswer>)
  {
    match UserNamed(t, name)
    case Err(e) => Outcome(t, Err(e))
    case Ok(target) =>
      if (me, target.id) in t.following then
        Outcome(t.(following := t.following - {(me, target.id)}), Ok(Detail(NoLongerFollowing)))
      else
        var n := FollowNoti(t, me, target.id, now);
        Outcome(InsertNoti(t.(following := t.following + {(me, target.id)}), n), Ok(Saved(n)))
  }

  /** A follow flips exactly the requester's pair for the target; an unknown name changes
      nothing. Nothing but the following pairs and the notifications is touched. */
  lemma FollowFlips(t: Tables, me: UserId, name: string, now: int)
    ensures var r := Followed(t, me, name, now);
      && (UserNamed(t, name).Ok? ==>
            var target := UserNamed(t, name).value.id;
            && ((me, target) in r.tables.following <==> (me, target) !in t.following)
            && (forall pr :: pr != (me, target) ==> (pr in r.tables.following <==> pr in t.following)))
      && (UserNamed(t, name).Err? ==> r == Outcome(t, Err(DoesNotExist)))
      && r.tables.users == t.users && r.tables.posts == t.posts && r.tables.comments == t.comments
      && r.tables.liked == t.liked && r.tables.shared == t.shared && r.tables.chats == t.chats
  {
  }

  /** Unfollowing answers `'Ya no lo sigues'` and sends no notification; following always
      saves an unread notification from the requester to the target. */
  lemma FollowNotifiesOnlyOnFollow(t: Tables, me: UserId, name: string, now: int)
    requires UserNamed(t, name).Ok?
    ensures var target := UserNamed(t, name).value.id;
      var r := Followed(t, me, name, now);
      && ((me, target) in t.following ==> r.tables.notis == t.notis && r.result == Ok(Detail(NoLongerFollowing)))
      && ((me, target) !in t.following ==>
            r.result.Ok? && r.result.value.Saved? &&
            var n := r.result.value.noti;
            n.kind == FollowKind && n.fromUser == me && n.toUser == target && !n.isRead &&
            multiset(r.tables.notis) == multiset(t.notis) + multiset{n})
  {
    var target := UserNamed(t, name).value.id;
    if (me, target) !in t.following {
      var n := FollowNoti(t, me, target, now);
      assert n.(id := t.nextNoti) == n;
      InsertNewestContents(t.notis, n, NotiTime);
    }
  }

  /** A follow then an unfollow gives back the following pairs but leaves one more
      notification: cycles accumulate them. */
  lemma FollowCycleAccumulates(t: Tables, me: UserId, name: string, now: int, later: int)
    requires UserNamed(t, name).Ok? && (me, UserNamed(t, name).value.id) !in t.following
    ensures var once := Followed(t, me, name, now).tables;
      var twice := Followed(once, me, name, later).tables;
      twice.following == t.following && |twice.notis| == |t.notis| + 1
  {
    var target := UserNamed(t, name).value;
    var once := Followed(t, me, name, now).tables;
    FollowNotifiesOnlyOnFollow(t, me, name, now);
    assert |multiset(once.notis)| == |multiset(t.notis)| + 1;
    assert once.users == t.users;
    assert UserNamed(once, name) == UserNamed(t, name);
  }

  /** A follow by an existing user keeps the database valid. */
  lemma FollowValid(t: Tables, me: UserId, name: string, now: int)
    requires Valid(t) && me in UserIds(t)
    ensures Valid(Followed(t, me, name, now).tables)
  {
    match UserNamed(t, name)
    case Err(_) =>
    case Ok(target) =>
      assert target.id in UserIds(t);
      if (me, target.id) in t.following {
        WithFollowingValid(t, t.following - {(me, target.id)});
      } else {
        var t2 := t.(following := t.following + {(me, target.id)});
        WithFollowingValid(t, t2.following);
        InsertNotiValid(t2, FollowNoti(t2, me, target.id, now));
      }
  }

  /** `follow` as the server runs it. */
  method Follow(db: Db, me: UserId, name: string, now: int) returns (r: Result<FollowAnswer, DbError>)
    modifies db
    ensures db.tables == Followed(old(db.tables), me, name, now).tables
    ensures r == Followed(old(db.tables), me, name, now).result
    ensures Valid(old(db.tables)) && me in UserIds(old(db.tables)) ==> Valid(db.tables)
  {
    if Valid(db.tables) && me in UserIds(db.tables) {
      FollowValid(db.tables, me, name, now);
    }
    var target := UserNamed(db.tables, name);
    if target.Err? {
      return Err(target.error);
    }
    var id := target.value.id;
    if (me, id) in db.tables.following {
      db.tables := db.tables.(following := db.tables.following - {(me, id)});
      return Ok(Detail(NoLongerFollowing));
    }
    db.tables := db.tables.(following := db.tables.following + {(me, id)});
    var n := FollowNoti(db.tables, me, id, now);
    db.tables := InsertNoti(db.tables, n);
    return Ok(Saved(n));
  }

  /** The users `reco` may suggest to `me`, in table order: anyone with another username
      whom `me` does not follow. */
  function Candidates(t: Tables, me: User): seq<User> {
    Filter(t.users, (u: User) => u.username != me.username && (me.id, u.id) !in t.following)
  }

  /** `reco`: the first five candidates. */
  function Recommended(t: Tables, me: User): (r: seq<User>)
    ensures |r| <= 5
    ensures forall i :: 0 <= i < |r| ==>
      r[i] in t.users && r[i].username != me.username && (me.id, r[i].id) !in t.following
    ensures r <= Candidates(t, me)
    ensures |Candidates(t, me)| <= 5 ==> r == Candidates(t, me)
  {
    Take(Candidates(t, me), 5)
  }

  /** In a valid database `reco` never suggests the requester. */
  lemma RecoNeverSuggestsMe(t: Tables, me: User)
    requires Valid(t) && me in t.users
    ensures forall u :: u in Recommended(t, me) ==> u.id != me.id
  {
    forall u | u in Recommended(t, me) ensures u.id != me.id {
      var i :| 0 <= i < |t.users| && t.users[i] == u;
      var j :| 0 <= j < |t.users| && t.users[j] == me;
      assert UserKey(t.users[i]) == UserKey(t.users[j]) ==> i == j;
    }
  }

  /** Every candidate `reco` leaves out comes after the five it shows. */
  lemma RecoDropsOnlyLaterCandidates(t: Tables, me: User)
    ensures forall i :: 0 <= i < |Candidates(t, me)| && i < 5 ==> Candidates(t, me)[i] in Recommended(t, me)
  {
    var c := Candidates(t, me);
    var r := Recommended(t, me);
    forall i | 0 <= i < |c| && i < 5 ensures c[i] in r {
      assert r[i] == c[i];
    }
  }

  /** `search`: without `query` nothing; otherwise every user whose username contains the
      query once both are case-folded by `fold` (`icontains`), in table order. */
  function Searched(t: Tables, query: Option<string>, fold: string -> string): (r: seq<User>)
    ensures query.None? ==> r == []
    ensures query.Some? ==> forall u :: u in r <==> u in t.users && Contains(fold(u.username), fold(query.value))
  {
    match query
    case None => []
    case Some(q) => Filter(t.users, (u: User) => Contains(fold(u.username), fold(q)))
  }

  /** A found username has the query at some position, and a username that has it is found. */
  lemma SearchFindsOccurrences(t: Tables, q: string, fold: string -> string, u: User)
    requires u in t.users
    ensures u in Searched(t, Some(q), fold) <==> exists i: nat :: OccursAt(fold(u.username), fold(q), i)
  {
    ContainsAt(fold(u.username), fold(q));
  }

  /** An empty query finds every user, when folding keeps the empty string empty. */
  lemma EmptyQueryFindsEveryone(t: Tables, fold: string -> string)
    requires fold("") == ""
    ensures Searched(t, Some(""), fold) == t.users
  {
    forall u | u in t.users ensures Contains(fold(u.username), fold("")) {
      ContainsTrivial(fold(u.username));
    }
    FilterKeepsAll(t.users, (u: User) => Contains(fold(u.username), fold("")));
  }

  /** Search and recommendation lists keep the users' newest-first order. */
  lemma UserListsNewestFirst(t: Tables, query: Option<string>, fold: string -> string, me: User)
    requires Valid(t)
    ensures NewestFirst(Searched(t, query, fold), Joined)
    ensures NewestFirst(Recommended(t, me), Joined)
  {
    if query.Some? {
      FilterNewestFirst(t.users, (u: User) => Contains(fold(u.username), fold(query.value)), Joined);
    }
    var c := Candidates(t, me);
    FilterNewestFirst(t.users, (u: User) => u.username != me.username && (me.id, u.id) !in t.following, Joined);
    var r := Recommended(t, me);
    forall i, j | 0 <= i < j < |r| ensures Newer(Joined)(r[i], r[j]) {
      assert r[i] == c[i] && r[j] == c[j];
    }
  }

  const UsernameInUse := "El nombre de usuario ya está en uso."
  const EmailMalformed := "El correo electrónico no tiene un formato válido."
  const EmailInUse := "El correo electrónico ya está en uso."

  /** The user `register` creates: through `User.objects.create`, so the email is not
      normalised and every other field takes its default. */
  function RegisteredUser(t: Tables, username: string, email: string, password: string, hash: string -> string, now: int): User {
    NewUser(t.nextUser, email, hash(password), NoFields.(username := Some(username)), now)
  }

  /** `register` with request data `data`: a missing key raises `KeyError` when it is first
      read; `validEmail` is Django's `validate_email`. The checks run in this order and the
      first that fails answers with its message. */
  function Registration(t: Tables, data: map<string, string>, validEmail: string -> bool,
                        hash: string -> string, now: int): (r: Outcome<RegisterAnswer>)
  {
    if "username" !in data then Outcome(t, Err(KeyError("username")))
    else if UsernameTaken(t, data["username"]) then Outcome(t, Ok(Message(UsernameInUse)))
    else if "email" !in data then Outcome(t, Err(KeyError("email")))
    else if !validEmail(data["email"]) then Outcome(t, Ok(Message(EmailMalformed)))
    else if EmailTaken(t, data["email"]) then Outcome(t, Ok(Message(EmailInUse)))
    else if "password" !in data then Outcome(t, Err(KeyError("password")))
    else
      var u := RegisteredUser(t, data["username"], data["email"], data["password"], hash, now);
      Outcome(InsertUser(t, u).value, Ok(MyUserOut(u.(id := t.nextUser))))
  }

  /** The order of the checks: a taken username wins over any email problem, a malformed
      email over a taken one. */
  lemma RegisterCheckOrder(t: Tables, data: map<string, string>, validEmail: string -> bool, hash: string -> string, now: int)
    requires "username" in data
    ensures UsernameTaken(t, data["username"]) ==>
      Registration(t, data, validEmail, hash, now) == Outcome(t, Ok(Message(UsernameInUse)))
    ensures !UsernameTaken(t, data["username"]) && "email" in data && !validEmail(data["email"]) ==>
      Registration(t, data, validEmail, hash, now) == Outcome(t, Ok(Message(EmailMalformed)))
    ensures !UsernameTaken(t, data["username"]) && "email" in data && validEmail(data["email"]) && EmailTaken(t, data["email"]) ==>
      Registration(t, data, validEmail, hash, now) == Outcome(t, Ok(Message(EmailInUse)))
  {
  }

  /** A registration that creates no user leaves the database as it was. */
  lemma RefusedRegistrationChangesNothing(t: Tables, data: map<string, string>, validEmail: string -> bool, hash: string -> string, now: int)
    requires !Registration(t, data, validEmail, hash, now).result.Ok? || Registration(t, data, validEmail, hash, now).result.value.Message?
    ensures Registration(t, data, validEmail, hash, now).tables == t
  {
  }

  /** A successful registration saves exactly one user, with the given username and the
      given email, whose stored password is the hash of the given one, and answers with
      those three values. */
  lemma RegistrationCreatesOne(t: Tables, data: map<string, string>, validEmail: string -> bool, hash: string -> string, now: int)
    requires Registration(t, data, validEmail, hash, now).result.Ok?
    requires Registration(t, data, validEmail, hash, now).result.value.Registered?
    ensures var r := Registration(t, data, validEmail, hash, now);
      var u := RegisteredUser(t, data["username"], data["email"], data["password"], hash, now);
      && multiset(r.tables.users) == multiset(t.users) + multiset{u}
      && u.username == data["username"] && u.email == data["email"] && u.password == hash(data["password"])
      && r.result.value == Registered(data["username"], data["email"], hash(data["password"]))
      && r.tables.(users := t.users, nextUser := t.nextUser) == t
  {
    var u := RegisteredUser(t, data["username"], data["email"], data["password"], hash, now);
    assert u.(id := t.nextUser) == u;
    InsertNewestContents(t.users, u, Joined);
  }

  /** Registration keeps the database valid. */
  lemma RegistrationValid(t: Tables, data: map<string, string>, validEmail: string -> bool, hash: string -> string, now: int)
    requires Valid(t)
    ensures Valid(Registration(t, data, validEmail, hash, now).tables)
  {
    if "username" in data && "email" in data && "password" in data {
      var u := RegisteredUser(t, data["username"], data["email"], data["password"], hash, now);
      if InsertUser(t, u).Ok? {
        InsertUserValid(t, u);
      }
    }
  }

  /** `register` as the server runs it. */
  method Register(db: Db, data: map<string, string>, validEmail: string -> bool, hash: string -> string, now: int)
    returns (r: Result<RegisterAnswer, DbError>)
    modifies db
    ensures db.tables == Registration(old(db.tables), data, validEmail, hash, now).tables
    ensures r == Registration(old(db.tables), data, validEmail, hash, now).result
    ensures Valid(old(db.tables)) ==> Valid(db.tables)
  {
    if Valid(db.tables) {
      RegistrationValid(db.tables, data, validEmail, hash, now);
    }
    if "username" !in data {
      return Err(KeyError("username"));
    }
    if UsernameTaken(db.tables, data["username"]) {
      return Ok(Message(UsernameInUse));
    }
    if "email" !in data {
      return Err(KeyError("email"));
    }
    if !validEmail(data["email"]) {
      return Ok(Message(EmailMalformed));
    }
    if EmailTaken(db.tables, data["email"]) {
      return Ok(Message(EmailInUse));
    }
    if "password" !in data {
      return Err(KeyError("password"));
    }
    var u := RegisteredUser(db.tables, data["username"], data["email"], data["password"], hash, now);
    var saved := InsertUser(db.tables, u);
    db.tables := saved.value;
    return Ok(MyUserOut(u));
  }
}
