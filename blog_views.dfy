/** The blog app's views (blog/views.py): the like and share toggles, comment creation and
    the per-user post lists. A view that writes changes the database one ORM call at a
    time; nothing wraps a request in a transaction, so a write made before a later step
    raises stays in place. */
module BlogViews {
  import opened Wrappers
  import opened Seqs
  import opened Ordered
  import opened UserModels
  import opened BlogModels
  import opened NotiModels
  import opened Database
  import opened BlogSerializers

  const LikeKind := "le gusto tu publicación"
  const ShareKind := "compartió tu publicación"
  const CommentKind := "Comentó tu publicación"

  /** The body of a toggle's response, `{'status': 'ok'}`. */
  const StatusOk := "ok"

  /** The keyword arguments of `Noti.objects.get_or_create(type=…, post=…, to_user=…, from_user=…)`. */
  datatype NotiQuery = NotiQuery(kind: string, post: PostId, to: UserId, from: UserId)

  predicate Fits(q: NotiQuery, n: Noti) {
    n.kind == q.kind && n.post == Some(q.post) && n.toUser == q.to && n.fromUser == q.from
  }

  function FitsQuery(q: NotiQuery): Noti -> bool {
    (n: Noti) => Fits(q, n)
  }

  /** The notifications `get_or_create` looks up. */
  function Matching(t: Tables, q: NotiQuery): seq<Noti> {
    Filter(t.notis, FitsQuery(q))
  }

  /** The row `get_or_create` saves when nothing matches. */
  function NotiFor(t: Tables, q: NotiQuery, now: int): Noti {
    NewNoti(t.nextNoti, q.kind, q.from, q.to, Some(q.post), now)
  }

  /** `get_or_create`: with one match nothing changes, with none the row is created, with
      more than one the lookup raises. Afterwards exactly one notification matches. */
  function GetOrCreate(t: Tables, q: NotiQuery, now: int): (r: Result<Tables, DbError>)
    ensures r.Err? <==> |Matching(t, q)| >= 2
    ensures r.Err? ==> r.error == MultipleObjectsReturned
    ensures r.Ok? ==> |Matching(r.value, q)| == 1
    ensures r.Ok? ==> r.value.(notis := t.notis, nextNoti := t.nextNoti) == t
    ensures r.Ok? && |Matching(t, q)| == 1 ==> r.value == t
    ensures r.Ok? && |Matching(t, q)| == 0 ==> r.value == InsertNoti(t, NotiFor(t, q, now))
  {
    var found := Matching(t, q);
    if |found| >= 2 then Err(MultipleObjectsReturned)
    else if |found| == 1 then Ok(t)
    else
      InsertNewestCount(t.notis, NotiFor(t, q, now), NotiTime, FitsQuery(q));
      Ok(InsertNoti(t, NotiFor(t, q, now)))
  }

  /** `get_or_create` for a notification between existing users about an existing post
      keeps the database valid. */
  lemma GetOrCreateValid(t: Tables, q: NotiQuery, now: int)
    requires Valid(t) && q.from in UserIds(t) && q.to in UserIds(t) && q.post in PostIds(t)
    ensures GetOrCreate(t, q, now).Ok? ==> Valid(GetOrCreate(t, q, now).value)
  {
    if |Matching(t, q)| == 0 {
      InsertNotiValid(t, NotiFor(t, q, now));
    }
  }

  /** The two many-to-many relations of a post that the toggles flip. */
  datatype Relation = Likes | Shares

  function Other(rel: Relation): Relation {
    match rel
    case Likes => Shares
    case Shares => Likes
  }

  function Pairs(t: Tables, rel: Relation): set<(UserId, PostId)> {
    match rel
    case Likes => t.liked
    case Shares => t.shared
  }

  function WithPairs(t: Tables, rel: Relation, s: set<(UserId, PostId)>): Tables {
    match rel
    case Likes => t.(liked := s)
    case Shares => t.(shared := s)
  }

  function Kind(rel: Relation): string {
    match rel
    case Likes => LikeKind
    case Shares => ShareKind
  }

  /** `like` and `shared`: the post must exist; a requester already in the relation is
      removed, anyone else is added and, unless they wrote the post, the author is
      notified once. */
  function Toggled(t: Tables, rel: Relation, me: UserId, pk: PostId, now: int): (r: Outcome<string>)
    ensures r.result.Ok? ==> r.result.value == StatusOk
  {
    match PostWithId(t, pk)
    case Err(e) => Outcome(t, Err(e))
    case Ok(post) =>
      if (me, pk) in Pairs(t, rel) then Outcome(WithPairs(t, rel, Pairs(t, rel) - {(me, pk)}), Ok(StatusOk))
      else
        var added := WithPairs(t, rel, Pairs(t, rel) + {(me, pk)});
        if me == post.author then Outcome(added, Ok(StatusOk))
        else
          match GetOrCreate(added, NotiQuery(Kind(rel), pk, post.author, me), now)
          case Err(e) => Outcome(added, Err(e))
          case Ok(t') => Outcome(t', Ok(StatusOk))
  }

  /** A toggle flips exactly the requester's pair in its relation and leaves the other
      relation, the following pairs and every table but the notifications as they were. */
  lemma ToggleFlips(t: Tables, rel: Relation, me: UserId, pk: PostId, now: int)
    ensures var r := Toggled(t, rel, me, pk, now).tables;
      && (pk in PostIds(t) ==> ((me, pk) in Pairs(r, rel) <==> (me, pk) !in Pairs(t, rel)))
      && (forall pr :: pr != (me, pk) ==> (pr in Pairs(r, rel) <==> pr in Pairs(t, rel)))
      && Pairs(r, Other(rel)) == Pairs(t, Other(rel)) && r.following == t.following
      && r.users == t.users && r.posts == t.posts && r.comments == t.comments && r.chats == t.chats
    ensures pk !in PostIds(t) ==> Toggled(t, rel, me, pk, now) == Outcome(t, Err(DoesNotExist))
  {
    if pk in PostIds(t) {
      var flipped := if (me, pk) in Pairs(t, rel) then Pairs(t, rel) - {(me, pk)} else Pairs(t, rel) + {(me, pk)};
      ToggledShape(t, rel, me, pk, now);
      WithPairsShape(t, rel, flipped);
    }
  }

  /** A toggle ends with the tables its relation update gives, up to the notifications. */
  lemma ToggledShape(t: Tables, rel: Relation, me: UserId, pk: PostId, now: int)
    requires pk in PostIds(t)
    ensures var flipped := if (me, pk) in Pairs(t, rel) then Pairs(t, rel) - {(me, pk)} else Pairs(t, rel) + {(me, pk)};
      var w := WithPairs(t, rel, flipped);
      Toggled(t, rel, me, pk, now).tables.(notis := w.notis, nextNoti := w.nextNoti) == w
  {
  }

  /** Replacing one relation's pairs changes that relation only. */
  lemma WithPairsShape(t: Tables, rel: Relation, s: set<(UserId, PostId)>)
    ensures Pairs(WithPairs(t, rel, s), rel) == s
    ensures Pairs(WithPairs(t, rel, s), Other(rel)) == Pairs(t, Other(rel))
    ensures WithPairs(t, rel, s).(liked := t.liked, shared := t.shared) == t
  {
  }

  /** Toggling twice gives back the relation it started from. */
  lemma ToggleTwiceRestores(t: Tables, rel: Relation, me: UserId, pk: PostId, now: int, later: int)
    ensures var once := Toggled(t, rel, me, pk, now).tables;
      Pairs(Toggled(once, rel, me, pk, later).tables, rel) == Pairs(t, rel)
  {
    var once := Toggled(t, rel, me, pk, now).tables;
    var twice := Toggled(once, rel, me, pk, later).tables;
    ToggleFlips(t, rel, me, pk, now);
    ToggleFlips(once, rel, me, pk, later);
    assert PostIds(once) == PostIds(t);
  }

  /** Removing oneself from the relation, or adding oneself to one's own post, sends no
      notification and always answers ok. */
  lemma NoNotiOnRemoveOrOwnPost(t: Tables, rel: Relation, me: UserId, pk: PostId, now: int)
    requires pk in PostIds(t)
    requires (me, pk) in Pairs(t, rel) || PostWithId(t, pk).value.author == me
    ensures Toggled(t, rel, me, pk, now).tables.notis == t.notis
    ensures Toggled(t, rel, me, pk, now).result == Ok(StatusOk)
  {
  }

  /** Adding oneself to someone else's post leaves exactly one notification of the
      relation's kind from the requester to the author about that post, provided there
      was at most one before. */
  lemma AddNotifiesAuthorOnce(t: Tables, rel: Relation, me: UserId, pk: PostId, now: int)
    requires pk in PostIds(t) && (me, pk) !in Pairs(t, rel)
    requires PostWithId(t, pk).value.author != me
    requires |Matching(t, NotiQuery(Kind(rel), pk, PostWithId(t, pk).value.author, me))| <= 1
    ensures var r := Toggled(t, rel, me, pk, now);
      r.result == Ok(StatusOk) && |Matching(r.tables, NotiQuery(Kind(rel), pk, PostWithId(t, pk).value.author, me))| == 1
  {
    var added := WithPairs(t, rel, Pairs(t, rel) + {(me, pk)});
    assert added.notis == t.notis;
  }

  /** A notification inserted for one query fits another only when the queries agree. */
  lemma NotiForFits(t: Tables, q: NotiQuery, q': NotiQuery, now: int)
    ensures Fits(q', NotiFor(t, q, now)) <==> q' == q
  {
  }

  /** `get_or_create` never makes any query match more than once that matched at most once. */
  lemma GetOrCreateKeepsAtMostOne(t: Tables, q: NotiQuery, now: int, q': NotiQuery)
    requires |Matching(t, q')| <= 1 && GetOrCreate(t, q, now).Ok?
    ensures |Matching(GetOrCreate(t, q, now).value, q')| <= 1
  {
    if |Matching(t, q)| == 0 {
      InsertNewestCount(t.notis, NotiFor(t, q, now).(id := t.nextNoti), NotiTime, FitsQuery(q'));
      NotiForFits(t, q, q', now);
    }
  }

  /** Like/unlike cycles never duplicate a notification: once at most one notification
      matches a query, every toggle keeps it so. */
  lemma ToggleKeepsAtMostOne(t: Tables, rel: Relation, me: UserId, pk: PostId, now: int, q: NotiQuery)
    requires |Matching(t, q)| <= 1
    ensures |Matching(Toggled(t, rel, me, pk, now).tables, q)| <= 1
  {
    if pk in PostIds(t) && (me, pk) !in Pairs(t, rel) {
      var post := PostWithId(t, pk).value;
      var added := WithPairs(t, rel, Pairs(t, rel) + {(me, pk)});
      assert added.notis == t.notis;
      var q0 := NotiQuery(Kind(rel), pk, post.author, me);
      if me != post.author && GetOrCreate(added, q0, now).Ok? {
        GetOrCreateKeepsAtMostOne(added, q0, now, q);
      }
    }
  }

  /** Replacing a relation by one whose pairs name existing rows keeps the database valid. */
  lemma WithPairsValid(t: Tables, rel: Relation, s: set<(UserId, PostId)>)
    requires Valid(t)
    requires forall pr :: pr in s ==> pr.0 in UserIds(t) && pr.1 in PostIds(t)
    ensures Valid(WithPairs(t, rel, s))
  {
    match rel
    case Likes => WithReactionsValid(t, s, t.shared);
    case Shares => WithReactionsValid(t, t.liked, s);
  }

  /** A toggle by an existing user keeps the database valid, whichever way it ends. */
  lemma ToggleValid(t: Tables, rel: Relation, me: UserId, pk: PostId, now: int)
    requires Valid(t) && me in UserIds(t)
    ensures Valid(Toggled(t, rel, me, pk, now).tables)
  {
    if pk in PostIds(t) {
      var post := PostWithId(t, pk).value;
      assert post.author in UserIds(t);
      if (me, pk) in Pairs(t, rel) {
        WithPairsValid(t, rel, Pairs(t, rel) - {(me, pk)});
      } else {
        var added := WithPairs(t, rel, Pairs(t, rel) + {(me, pk)});
        WithPairsValid(t, rel, Pairs(t, rel) + {(me, pk)});
        assert UserIds(added) == UserIds(t) && PostIds(added) == PostIds(t);
        GetOrCreateValid(added, NotiQuery(Kind(rel), pk, post.author, me), now);
      }
    }
  }

  /** `like` and `shared` as the server runs them. */
  method Toggle(db: Db, rel: Relation, me: UserId, pk: PostId, now: int) returns (r: Result<string, DbError>)
    modifies db
    ensures db.tables == Toggled(old(db.tables), rel, me, pk, now).tables
    ensures r == Toggled(old(db.tables), rel, me, pk, now).result
    ensures Valid(old(db.tables)) && me in UserIds(old(db.tables)) ==> Valid(db.tables)
  {
    if Valid(db.tables) && me in UserIds(db.tables) {
      ToggleValid(db.tables, rel, me, pk, now);
    }
    var post := PostWithId(db.tables, pk);
    if post.Err? {
      return Err(post.error);
    }
    var pairs := Pairs(db.tables, rel);
    if (me, pk) in pairs {
      db.tables := WithPairs(db.tables, rel, pairs - {(me, pk)});
      return Ok(StatusOk);
    }
    db.tables := WithPairs(db.tables, rel, pairs + {(me, pk)});
    if me != post.value.author {
      var made := GetOrCreate(db.tables, NotiQuery(Kind(rel), pk, post.value.author, me), now);
      if made.Err? {
        return Err(made.error);
      }
      db.tables := made.value;
    }
    return Ok(StatusOk);
  }

  method Like(db: Db, me: UserId, pk: PostId, now: int) returns (r: Result<string, DbError>)
    modifies db
    ensures db.tables == Toggled(old(db.tables), Likes, me, pk, now).tables
    ensures r == Toggled(old(db.tables), Likes, me, pk, now).result
    ensures Valid(old(db.tables)) && me in UserIds(old(db.tables)) ==> Valid(db.tables)
  {
    r := Toggle(db, Likes, me, pk, now);
  }

  method Shared(db: Db, me: UserId, pk: PostId, now: int) returns (r: Result<string, DbError>)
    modifies db
    ensures db.tables == Toggled(old(db.tables), Shares, me, pk, now).tables
    ensures r == Toggled(old(db.tables), Shares, me, pk, now).result
    ensures Valid(old(db.tables)) && me in UserIds(old(db.tables)) ==> Valid(db.tables)
  {
    r := Toggle(db, Shares, me, pk, now);
  }

  /** The comment `CommentList.create` saves, before the database gives it its id. */
  function NewComment(t: Tables, me: User, pk: PostId, body: string, now: int): Comment {
    Comment(t.nextComment, me.id, pk, body, now)
  }

  /** `CommentList.create`: the post must exist and the request must carry `body`; the
      comment is saved (its length is not checked on this path), then the post's author
      is notified once unless they wrote the comment. The answer is the saved comment. */
  function CommentCreated(t: Tables, me: User, pk: PostId, body: Option<string>, now: int, media: string -> string): (r: Outcome<CommentOut>)
  {
    match PostWithId(t, pk)
    case Err(e) => Outcome(t, Err(e))
    case Ok(post) =>
      match body
      case None => Outcome(t, Err(KeyError("body")))
      case Some(text) =>
        var c := NewComment(t, me, pk, text, now);
        var saved := InsertComment(t, c);
        var out := CommentOutOf(c, me, media);
        if me.id == post.author then Outcome(saved, Ok(out))
        else
          match GetOrCreate(saved, NotiQuery(CommentKind, pk, post.author, me.id), now)
          case Err(e) => Outcome(saved, Err(e))
          case Ok(t') => Outcome(t', Ok(out))
  }

  /** A missing post or a missing `body` raises before anything is written. */
  lemma CommentErrors(t: Tables, me: User, pk: PostId, body: Option<string>, now: int, media: string -> string)
    ensures pk !in PostIds(t) ==> CommentCreated(t, me, pk, body, now, media) == Outcome(t, Err(DoesNotExist))
    ensures pk in PostIds(t) && body.None? ==> CommentCreated(t, me, pk, body, now, media) == Outcome(t, Err(KeyError("body")))
  {
  }

  /** A comment request that gets past the checks adds exactly one comment, by the
      requester, with the given body, on the post, and answers with that comment. */
  lemma CommentAddsOne(t: Tables, me: User, pk: PostId, body: string, now: int, media: string -> string)
    requires pk in PostIds(t)
    ensures var r := CommentCreated(t, me, pk, Some(body), now, media);
      var c := NewComment(t, me, pk, body, now);
      && multiset(r.tables.comments) == multiset(t.comments) + multiset{c}
      && |CommentsOf(r.tables, pk)| == |CommentsOf(t, pk)| + 1
      && r.tables.posts == t.posts && r.tables.users == t.users
      && r.tables.liked == t.liked && r.tables.shared == t.shared && r.tables.following == t.following
      && r.tables.chats == t.chats
      && (r.result.Ok? ==> r.result.value.body == body && r.result.value.user == me.username && r.result.value.post == pk)
  {
    var c := NewComment(t, me, pk, body, now);
    assert c.(id := t.nextComment) == c;
    CommentTouchesOnlyNotis(t, me, pk, body, now, media);
    InsertNewestContents(t.comments, c, CommentTime);
    InsertNewestCount(t.comments, c, CommentTime, (x: Comment) => x.post == pk);
  }

  /** Past the checks, the tables end as after saving the comment, up to the notifications,
      and a success answers the saved comment. */
  lemma CommentTouchesOnlyNotis(t: Tables, me: User, pk: PostId, body: string, now: int, media: string -> string)
    requires pk in PostIds(t)
    ensures var r := CommentCreated(t, me, pk, Some(body), now, media);
      var c := NewComment(t, me, pk, body, now);
      var saved := InsertComment(t, c);
      && r.tables.(notis := saved.notis, nextNoti := saved.nextNoti) == saved
      && (r.result.Ok? ==> r.result.value == CommentOutOf(c, me, media))
  {
  }

  /** Commenting on someone else's post leaves exactly one comment notification from the
      commenter to the author, provided there was at most one; commenting on one's own post
      notifies nobody. */
  lemma CommentNotifiesAuthorOnce(t: Tables, me: User, pk: PostId, body: string, now: int, media: string -> string)
    requires pk in PostIds(t)
    ensures var author := PostWithId(t, pk).value.author;
      var r := CommentCreated(t, me, pk, Some(body), now, media);
      && (me.id == author ==> r.tables.notis == t.notis && r.result.Ok?)
      && (me.id != author && |Matching(t, NotiQuery(CommentKind, pk, author, me.id))| <= 1 ==>
            r.result.Ok? && |Matching(r.tables, NotiQuery(CommentKind, pk, author, me.id))| == 1)
  {
  }

  /** Commenting as an existing user keeps the database valid, whichever way it ends. */
  lemma CommentValid(t: Tables, me: User, pk: PostId, body: Option<string>, now: int, media: string -> string)
    requires Valid(t) && me.id in UserIds(t)
    ensures Valid(CommentCreated(t, me, pk, body, now, media).tables)
  {
    if pk in PostIds(t) && body.Some? {
      var post := PostWithId(t, pk).value;
      assert post.author in UserIds(t);
      var c := NewComment(t, me, pk, body.value, now);
      var saved := InsertComment(t, c);
      InsertCommentValid(t, c);
      assert UserIds(saved) == UserIds(t) && PostIds(saved) == PostIds(t);
      GetOrCreateValid(saved, NotiQuery(CommentKind, pk, post.author, me.id), now);
    }
  }

  /** `CommentList.create` as the server runs it. */
  method CreateComment(db: Db, me: User, pk: PostId, body: Option<string>, now: int, media: string -> string)
    returns (r: Result<CommentOut, DbError>)
    modifies db
    ensures db.tables == CommentCreated(old(db.tables), me, pk, body, now, media).tables
    ensures r == CommentCreated(old(db.tables), me, pk, body, now, media).result
    ensures Valid(old(db.tables)) && me.id in UserIds(old(db.tables)) ==> Valid(db.tables)
  {
    if Valid(db.tables) && me.id in UserIds(db.tables) {
      CommentValid(db.tables, me, pk, body, now, media);
    }
    var post := PostWithId(db.tables, pk);
    if post.Err? {
      return Err(post.error);
    }
    if body.None? {
      return Err(KeyError("body"));
    }
    var c := NewComment(db.tables, me, pk, body.value, now);
    db.tables := InsertComment(db.tables, c);
    if me.id != post.value.author {
      var made := GetOrCreate(db.tables, NotiQuery(CommentKind, pk, post.value.author, me.id), now);
      if made.Err? {
        return Err(made.error);
      }
      db.tables := made.value;
    }
    return Ok(CommentOutOf(c, me, media));
  }

  /** `CommentList.get`: the comments of an existing post. */
  function PostComments(t: Tables, pk: PostId): (r: Result<seq<Comment>, DbError>)
    ensures r.Err? <==> pk !in PostIds(t)
    ensures r.Ok? ==> forall c :: c in r.value <==> c in t.comments && c.post == pk
  {
    match PostWithId(t, pk)
    case Err(e) => Err(e)
    case Ok(_) => Ok(CommentsOf(t, pk))
  }

  /** The posts a user query returns for user `u`, by which relation they are picked. */
  datatype PostQuery = AuthoredBy | LikedBy | SharedBy

  function Picks(t: Tables, query: PostQuery, u: UserId): Post -> bool {
    match query
    case AuthoredBy => (p: Post) => p.author == u
    case LikedBy => (p: Post) => (u, p.id) in t.liked
    case SharedBy => (p: Post) => (u, p.id) in t.shared
  }

  /** `get_user_posts`, `get_user_likes` and `get_user_shared`: the named user must exist;
      the answer is every post they wrote, liked or shared, in table order. */
  function UserPosts(t: Tables, query: PostQuery, name: string): (r: Result<seq<Post>, DbError>)
    ensures r.Err? <==> !UsernameTaken(t, name)
    ensures r.Err? ==> r.error == DoesNotExist
    ensures r.Ok? ==> var u := UserNamed(t, name).value;
      forall p :: p in r.value <==> p in t.posts && Picks(t, query, u.id)(p)
  {
    match UserNamed(t, name)
    case Err(e) => Err(e)
    case Ok(u) => Ok(Filter(t.posts, Picks(t, query, u.id)))
  }

  /** The user lists keep the posts' newest-first order. */
  lemma UserPostsNewestFirst(t: Tables, query: PostQuery, name: string)
    requires Valid(t) && UserPosts(t, query, name).Ok?
    ensures NewestFirst(UserPosts(t, query, name).value, PostTime)
  {
    FilterNewestFirst(t.posts, Picks(t, query, UserNamed(t, name).value.id), PostTime);
  }

  /** With unique usernames, the user a name finds is the one who has it. */
  lemma UserNamedIsUnique(t: Tables, u: User)
    requires Unique(t) && u in t.users
    ensures UserNamed(t, u.username) == Ok(u)
  {
    var v := UserNamed(t, u.username).value;
    var i :| 0 <= i < |t.users| && t.users[i] == u;
    var j :| 0 <= j < |t.users| && t.users[j] == v;
    assert Username(t.users[i]) == Username(t.users[j]);
    assert i == j;
  }

  /** After a user likes a post it is among their liked posts, and after they unlike it,
      it is not. */
  lemma LikeShowsInLikes(t: Tables, me: User, pk: PostId, now: int)
    requires Valid(t) && me in t.users && pk in PostIds(t)
    ensures var t' := Toggled(t, Likes, me.id, pk, now).tables;
      var listed := UserPosts(t', LikedBy, me.username);
      listed.Ok? && ((exists p :: p in listed.value && p.id == pk) <==> (me.id, pk) !in t.liked)
  {
    var t' := Toggled(t, Likes, me.id, pk, now).tables;
    ToggleFlips(t, Likes, me.id, pk, now);
    assert Unique(t');
    UserNamedIsUnique(t', me);
    var listed := UserPosts(t', LikedBy, me.username).value;
    var i :| 0 <= i < |t.posts| && t.posts[i].id == pk;
    assert t.posts[i] in t'.posts;
    assert (me.id, pk) in t'.liked ==> t.posts[i] in listed;
  }
}
