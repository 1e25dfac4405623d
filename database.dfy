/** The database behind the backend: the user, post, comment, notification and chat tables
    and the three many-to-many relations, with the integrity the schema declares (primary
    keys, unique username and email, foreign keys with cascading deletes) and the
    newest-first order the models ask of their queries. */
module Database {
  import opened Wrappers
  import opened Seqs
  import opened Ordered
  import opened UserModels
  import opened BlogModels
  import opened NotiModels
  import opened ChatModels

  /** The tables. `liked` and `shared` hold (user, post) pairs; `following` holds
      (follower, followee) pairs, so `b` is in `a.following` and `a` in `b.followed`
      exactly when `(a, b)` is in it. The `next` counters are the primary-key sequences. */
  datatype Tables = Tables(
    users: seq<User>, posts: seq<Post>, comments: seq<Comment>, notis: seq<Noti>, chats: seq<ChatRow>,
    liked: set<(UserId, PostId)>, shared: set<(UserId, PostId)>, following: set<(UserId, UserId)>,
    nextUser: nat, nextPost: nat, nextComment: nat, nextNoti: nat)

  /** An empty database. */
  const Empty := Tables([], [], [], [], [], {}, {}, {}, 1, 1, 1, 1)

  /** Errors the ORM raises. */
  datatype DbError = DoesNotExist | MultipleObjectsReturned | IntegrityError | KeyError(key: string) | ValueError(message: string)

  /** The database after a view has run and what the view answers. */
  datatype Outcome<T> = Outcome(tables: Tables, result: Result<T, DbError>)

  function UserIds(t: Tables): set<UserId> { Image(t.users, UserKey) }
  function PostIds(t: Tables): set<PostId> { Image(t.posts, PostKey) }
  function CommentIds(t: Tables): set<CommentId> { Image(t.comments, CommentKey) }

  predicate KeysBelow<T>(s: seq<T>, key: T -> nat, n: nat) {
    forall i :: 0 <= i < |s| ==> key(s[i]) < n
  }

  /** Every foreign key names an existing row. */
  predicate References(t: Tables) {
    && (forall p :: p in t.posts ==> p.author in UserIds(t))
    && (forall c :: c in t.comments ==> c.author in UserIds(t) && c.post in PostIds(t))
    && (forall n :: n in t.notis ==> NotiReferences(t, n))
    && (forall pr :: pr in t.liked ==> pr.0 in UserIds(t) && pr.1 in PostIds(t))
    && (forall pr :: pr in t.shared ==> pr.0 in UserIds(t) && pr.1 in PostIds(t))
    && (forall pr :: pr in t.following ==> pr.0 in UserIds(t) && pr.1 in UserIds(t))
  }

  predicate NotiReferences(t: Tables, n: Noti) {
    && n.fromUser in UserIds(t) && n.toUser in UserIds(t)
    && (n.post.Some? ==> n.post.value in PostIds(t))
    && (n.comment.Some? ==> n.comment.value in CommentIds(t))
  }

  /** Primary keys are unique and below their sequence. */
  predicate Keys(t: Tables) {
    && InjectiveOn(t.users, UserKey) && KeysBelow(t.users, UserKey, t.nextUser)
    && InjectiveOn(t.posts, PostKey) && KeysBelow(t.posts, PostKey, t.nextPost)
    && InjectiveOn(t.comments, CommentKey) && KeysBelow(t.comments, CommentKey, t.nextComment)
    && InjectiveOn(t.notis, NotiKey) && KeysBelow(t.notis, NotiKey, t.nextNoti)
  }

  /** Usernames and emails are unique. */
  predicate Unique(t: Tables) {
    InjectiveOn(t.users, Username) && InjectiveOn(t.users, Email)
  }

  /** Users newest `date_joined` first; posts, comments and notifications newest
      `created_at` first. */
  predicate Orders(t: Tables) {
    && NewestFirst(t.users, Joined) && NewestFirst(t.posts, PostTime)
    && NewestFirst(t.comments, CommentTime) && NewestFirst(t.notis, NotiTime)
  }

  predicate Valid(t: Tables) {
    Keys(t) && Unique(t) && Orders(t) && References(t)
  }

  lemma EmptyValid()
    ensures Valid(Empty)
  {
  }

  /** `User.objects.get(username=name)`. */
  function UserNamed(t: Tables, name: string): (r: Result<User, DbError>)
    ensures r.Ok? ==> r.value in t.users && r.value.username == name
    ensures r.Err? ==> r.error == DoesNotExist && forall i :: 0 <= i < |t.users| ==> t.users[i].username != name
  {
    var found := Filter(t.users, (u: User) => u.username == name);
    if found == [] then Err(DoesNotExist) else Ok(found[0])
  }

  /** `User.objects.filter(username=name).exists()`. */
  predicate UsernameTaken(t: Tables, name: string) {
    exists i :: 0 <= i < |t.users| && t.users[i].username == name
  }

  predicate EmailTaken(t: Tables, email: string) {
    exists i :: 0 <= i < |t.users| && t.users[i].email == email
  }

  /** `Post.objects.get(pk=id)`. */
  function PostWithId(t: Tables, id: PostId): (r: Result<Post, DbError>)
    ensures r.Ok? ==> r.value in t.posts && r.value.id == id
    ensures r.Err? ==> r.error == DoesNotExist && id !in PostIds(t)
  {
    var found := Filter(t.posts, (p: Post) => p.id == id);
    if found == [] then Err(DoesNotExist) else Ok(found[0])
  }

  /** Saving a new user: the unique constraints reject a taken username or email. */
  function InsertUser(t: Tables, u: User): (r: Result<Tables, DbError>)
    ensures r.Err? <==> UsernameTaken(t, u.username) || EmailTaken(t, u.email)
    ensures r.Err? ==> r.error == IntegrityError
    ensures r.Ok? ==> r.value == t.(users := InsertNewest(t.users, u.(id := t.nextUser), Joined), nextUser := t.nextUser + 1)
  {
    if UsernameTaken(t, u.username) || EmailTaken(t, u.email) then Err(IntegrityError)
    else Ok(t.(users := InsertNewest(t.users, u.(id := t.nextUser), Joined), nextUser := t.nextUser + 1))
  }

  /** Saving a new post; `liked` and `shared` start empty for it. */
  function InsertPost(t: Tables, p: Post): Tables {
    t.(posts := InsertNewest(t.posts, p.(id := t.nextPost), PostTime), nextPost := t.nextPost + 1)
  }

  function InsertComment(t: Tables, c: Comment): Tables {
    t.(comments := InsertNewest(t.comments, c.(id := t.nextComment), CommentTime), nextComment := t.nextComment + 1)
  }

  function InsertNoti(t: Tables, n: Noti): Tables {
    t.(notis := InsertNewest(t.notis, n.(id := t.nextNoti), NotiTime), nextNoti := t.nextNoti + 1)
  }

  lemma InsertedKeyIsNew<T>(s: seq<T>, key: T -> nat, n: nat)
    requires KeysBelow(s, key, n)
    ensures n !in Image(s, key)
  {
  }

  /** The keys of a table after a row with key `n` is saved. */
  lemma InsertImage<T>(s: seq<T>, x: T, time: T -> int, key: T -> nat)
    ensures Image(InsertNewest(s, x, time), key) == Image(s, key) + {key(x)}
  {
    InsertNewestShape(s, x, time);
    var k := InsertPos(s, time, time(x));
    var r := InsertNewest(s, x, time);
    forall y | y in Image(r, key) ensures y in Image(s, key) + {key(x)} {
      var i :| 0 <= i < |r| && key(r[i]) == y;
      if i < k { assert r[i] == s[i]; } else if i > k { assert r[i] == s[i - 1]; }
    }
    forall y | y in Image(s, key) ensures y in Image(r, key) {
      var i :| 0 <= i < |s| && key(s[i]) == y;
      if i < k { assert r[i] == s[i]; } else { assert r[i + 1] == s[i]; }
    }
    assert key(r[k]) == key(x);
  }

  /** Foreign keys stay valid when no row changes and no key disappears. */
  lemma ReferencesWiden(t: Tables, t': Tables)
    requires References(t)
    requires UserIds(t) <= UserIds(t') && PostIds(t) <= PostIds(t') && CommentIds(t) <= CommentIds(t')
    requires t'.posts == t.posts && t'.comments == t.comments && t'.notis == t.notis
    requires t'.liked == t.liked && t'.shared == t.shared && t'.following == t.following
    ensures References(t')
  {
    forall n | n in t'.notis ensures NotiReferences(t', n) {
      assert NotiReferences(t, n);
    }
  }

  /** Replacing the following pairs by pairs of existing users keeps the database valid. */
  lemma WithFollowingValid(t: Tables, f: set<(UserId, UserId)>)
    requires Valid(t)
    requires forall pr :: pr in f ==> pr.0 in UserIds(t) && pr.1 in UserIds(t)
    ensures Valid(t.(following := f))
  {
    var t' := t.(following := f);
    forall n | n in t'.notis ensures NotiReferences(t', n) {
      assert NotiReferences(t, n);
    }
  }

  /** Replacing the like and share pairs by pairs of existing users and posts keeps the
      database valid. */
  lemma WithReactionsValid(t: Tables, liked: set<(UserId, PostId)>, shared: set<(UserId, PostId)>)
    requires Valid(t)
    requires forall pr :: pr in liked ==> pr.0 in UserIds(t) && pr.1 in PostIds(t)
    requires forall pr :: pr in shared ==> pr.0 in UserIds(t) && pr.1 in PostIds(t)
    ensures Valid(t.(liked := liked, shared := shared))
  {
    var t' := t.(liked := liked, shared := shared);
    forall n | n in t'.notis ensures NotiReferences(t', n) {
      assert NotiReferences(t, n);
    }
  }

  /** Inserting a user keeps the database valid. */
  lemma InsertUserValid(t: Tables, u: User)
    requires Valid(t) && InsertUser(t, u).Ok?
    ensures Valid(InsertUser(t, u).value)
  {
    var x := u.(id := t.nextUser);
    var t' := InsertUser(t, u).value;
    InsertNewestOrdered(t.users, x, Joined);
    InsertNewestKeyed(t.users, x, Joined, UserKey, t.nextUser);
    InsertNewestInjective(t.users, x, Joined, Username);
    InsertNewestInjective(t.users, x, Joined, Email);
    InsertImage(t.users, x, Joined, UserKey);
    ReferencesWiden(t, t');
  }

  /** Inserting a post by an existing user keeps the database valid. */
  lemma InsertPostValid(t: Tables, p: Post)
    requires Valid(t) && p.author in UserIds(t)
    ensures Valid(InsertPost(t, p))
  {
    var x := p.(id := t.nextPost);
    InsertNewestOrdered(t.posts, x, PostTime);
    InsertNewestKeyed(t.posts, x, PostTime, PostKey, t.nextPost);
    InsertPostReferences(t, p);
  }

  lemma InsertPostReferences(t: Tables, p: Post)
    requires References(t) && p.author in UserIds(t)
    ensures References(InsertPost(t, p))
  {
    var x := p.(id := t.nextPost);
    var t' := InsertPost(t, p);
    InsertNewestMembers(t.posts, x, PostTime);
    InsertImage(t.posts, x, PostTime, PostKey);
    NotiReferencesWiden(t, t');
  }

  /** Inserting a comment by an existing user on an existing post keeps the database valid. */
  lemma InsertCommentValid(t: Tables, c: Comment)
    requires Valid(t) && c.author in UserIds(t) && c.post in PostIds(t)
    ensures Valid(InsertComment(t, c))
  {
    var x := c.(id := t.nextComment);
    InsertNewestOrdered(t.comments, x, CommentTime);
    InsertNewestKeyed(t.comments, x, CommentTime, CommentKey, t.nextComment);
    InsertCommentReferences(t, c);
  }

  lemma InsertCommentReferences(t: Tables, c: Comment)
    requires References(t) && c.author in UserIds(t) && c.post in PostIds(t)
    ensures References(InsertComment(t, c))
  {
    var x := c.(id := t.nextComment);
    var t' := InsertComment(t, c);
    InsertNewestMembers(t.comments, x, CommentTime);
    InsertImage(t.comments, x, CommentTime, CommentKey);
    NotiReferencesWiden(t, t');
  }

  /** Inserting a notification whose references exist keeps the database valid. */
  lemma InsertNotiValid(t: Tables, n: Noti)
    requires Valid(t) && NotiReferences(t, n)
    ensures Valid(InsertNoti(t, n))
  {
    var x := n.(id := t.nextNoti);
    InsertNewestOrdered(t.notis, x, NotiTime);
    InsertNewestKeyed(t.notis, x, NotiTime, NotiKey, t.nextNoti);
    InsertNotiReferences(t, n);
  }

  lemma InsertNotiReferences(t: Tables, n: Noti)
    requires References(t) && NotiReferences(t, n)
    ensures References(InsertNoti(t, n))
  {
    var x := n.(id := t.nextNoti);
    var t' := InsertNoti(t, n);
    InsertNewestMembers(t.notis, x, NotiTime);
    forall m | m in t'.notis ensures NotiReferences(t', m) {
      if m != x { assert NotiReferences(t, m); }
    }
  }

  /** A notification's references stay valid when no key disappears. */
  lemma NotiReferencesWiden(t: Tables, t': Tables)
    requires UserIds(t) <= UserIds(t') && PostIds(t) <= PostIds(t') && CommentIds(t) <= CommentIds(t')
    ensures forall n :: NotiReferences(t, n) ==> NotiReferences(t', n)
  {
  }

  /** A kept row's key is among the keys of what a filter keeps. */
  lemma FilterImage<T>(s: seq<T>, p: T -> bool, key: T -> nat)
    ensures forall x :: x in s && p(x) ==> key(x) in Image(Filter(s, p), key)
    ensures Image(Filter(s, p), key) <= Image(s, key)
  {
    var r := Filter(s, p);
    forall x | x in s && p(x) ensures key(x) in Image(r, key) {
      var i :| 0 <= i < |s| && s[i] == x;
      assert x in r;
      var j :| 0 <= j < |r| && r[j] == x;
    }
    forall y | y in Image(r, key) ensures y in Image(s, key) {
      var j :| 0 <= j < |r| && key(r[j]) == y;
      assert r[j] in s;
      var i :| 0 <= i < |s| && s[i] == r[j];
    }
  }

  lemma FilterKeysBelow<T>(s: seq<T>, p: T -> bool, key: T -> nat, n: nat)
    requires KeysBelow(s, key, n)
    ensures KeysBelow(Filter(s, p), key, n)
  {
    var r := Filter(s, p);
    forall j | 0 <= j < |r| ensures key(r[j]) < n {
      assert r[j] in s;
    }
  }

  /** The comments of a post (its reverse relation `parent`). */
  function CommentsOf(t: Tables, post: PostId): seq<Comment> {
    Filter(t.comments, (c: Comment) => c.post == post)
  }

  /** The ids of the comments a post deletion takes with it. */
  function CommentIdsOn(t: Tables, posts: set<PostId>): set<CommentId> {
    set c | c in t.comments && c.post in posts :: c.id
  }

  /** Deleting the post with id `id` (`on_delete=CASCADE`): its comments, the notifications
      about it or about those comments, and its likes and shares go with it. */
  function DeletePost(t: Tables, id: PostId): Tables {
    var gone := CommentIdsOn(t, {id});
    t.(posts := Filter(t.posts, (p: Post) => p.id != id),
       comments := Filter(t.comments, (c: Comment) => c.post != id),
       notis := Filter(t.notis, (n: Noti) => n.post != Some(id) && !(n.comment.Some? && n.comment.value in gone)),
       liked := (set pr | pr in t.liked && pr.1 != id),
       shared := (set pr | pr in t.shared && pr.1 != id))
  }

  /** The posts of a user. */
  function PostIdsBy(t: Tables, user: UserId): set<PostId> {
    set p | p in t.posts && p.author == user :: p.id
  }

  /** The ids of the comments a user deletion takes: theirs and those on their posts. */
  function CommentIdsGoneWith(t: Tables, user: UserId): set<CommentId> {
    set c | c in t.comments && (c.author == user || c.post in PostIdsBy(t, user)) :: c.id
  }

  /** Deleting the user with id `id`: their posts, their comments and the comments on their
      posts, every notification from or to them or about a deleted row, and every relation
      pair they or a deleted post take part in. Chat rows hold plain strings and stay. */
  function DeleteUser(t: Tables, id: UserId): Tables {
    var posts := PostIdsBy(t, id);
    var comments := CommentIdsGoneWith(t, id);
    t.(users := Filter(t.users, (u: User) => u.id != id),
       posts := Filter(t.posts, (p: Post) => p.author != id),
       comments := Filter(t.comments, (c: Comment) => c.id !in comments),
       notis := Filter(t.notis, (n: Noti) =>
         n.fromUser != id && n.toUser != id &&
         !(n.post.Some? && n.post.value in posts) && !(n.comment.Some? && n.comment.value in comments)),
       liked := (set pr | pr in t.liked && pr.0 != id && pr.1 !in posts),
       shared := (set pr | pr in t.shared && pr.0 != id && pr.1 !in posts),
       following := (set pr | pr in t.following && pr.0 != id && pr.1 != id))
  }

  /** After a post is deleted no row refers to it: it has no comments left. */
  lemma DeletePostLeavesNoComments(t: Tables, id: PostId)
    ensures CommentsOf(DeletePost(t, id), id) == []
    ensures forall c :: c in DeletePost(t, id).comments ==> c.post != id
    ensures forall pr :: pr in DeletePost(t, id).liked + DeletePost(t, id).shared ==> pr.1 != id
  {
    var t' := DeletePost(t, id);
    FilterKeepsNone(t'.comments, (c: Comment) => c.post == id);
  }

  /** Deleting a post keeps the database valid. */
  lemma DeletePostValid(t: Tables, id: PostId)
    requires Valid(t)
    ensures Valid(DeletePost(t, id))
  {
    var gone := CommentIdsOn(t, {id});
    var keepPost := (p: Post) => p.id != id;
    var keepComment := (c: Comment) => c.post != id;
    var keepNoti := (n: Noti) => n.post != Some(id) && !(n.comment.Some? && n.comment.value in gone);
    FilterInjective(t.posts, keepPost, PostKey);
    FilterInjective(t.comments, keepComment, CommentKey);
    FilterInjective(t.notis, keepNoti, NotiKey);
    FilterKeysBelow(t.posts, keepPost, PostKey, t.nextPost);
    FilterKeysBelow(t.comments, keepComment, CommentKey, t.nextComment);
    FilterKeysBelow(t.notis, keepNoti, NotiKey, t.nextNoti);
    FilterNewestFirst(t.posts, keepPost, PostTime);
    FilterNewestFirst(t.comments, keepComment, CommentTime);
    FilterNewestFirst(t.notis, keepNoti, NotiTime);
    DeletePostReferences(t, id);
  }

  lemma DeletePostReferences(t: Tables, id: PostId)
    requires References(t)
    ensures References(DeletePost(t, id))
  {
    var t' := DeletePost(t, id);
    DeletePostSurvivors(t, id);
    assert UserIds(t') == UserIds(t);
    forall c | c in t'.comments ensures c.author in UserIds(t') && c.post in PostIds(t') {
      assert c in t.comments;
    }
    forall n | n in t'.notis ensures NotiReferences(t', n) {
      assert n in t.notis && NotiReferences(t, n);
    }
  }

  /** The keys a post's deletion does not take along still name rows. */
  lemma DeletePostSurvivors(t: Tables, id: PostId)
    ensures forall pid :: pid in PostIds(t) && pid != id ==> pid in PostIds(DeletePost(t, id))
    ensures forall cid :: cid in CommentIds(t) && cid !in CommentIdsOn(t, {id}) ==> cid in CommentIds(DeletePost(t, id))
  {
    var t' := DeletePost(t, id);
    var gone := CommentIdsOn(t, {id});
    var keepPost := (p: Post) => p.id != id;
    var keepComment := (c: Comment) => c.post != id;
    FilterImage(t.posts, keepPost, PostKey);
    FilterImage(t.comments, keepComment, CommentKey);
    forall pid | pid in PostIds(t) && pid != id ensures pid in PostIds(t') {
      var i :| 0 <= i < |t.posts| && t.posts[i].id == pid;
      assert t.posts[i] in t.posts;
    }
    forall cid | cid in CommentIds(t) && cid !in gone ensures cid in CommentIds(t') {
      var i :| 0 <= i < |t.comments| && t.comments[i].id == cid;
      var c := t.comments[i];
      assert c in t.comments;
      assert c.post == id ==> cid in gone;
    }
  }

  /** After a user is deleted no row refers to them. */
  lemma DeleteUserLeavesNoTrace(t: Tables, id: UserId)
    ensures forall p :: p in DeleteUser(t, id).posts ==> p.author != id
    ensures forall c :: c in DeleteUser(t, id).comments ==> c.author != id
    ensures forall n :: n in DeleteUser(t, id).notis ==> n.fromUser != id && n.toUser != id
    ensures forall pr :: pr in DeleteUser(t, id).following ==> pr.0 != id && pr.1 != id
    ensures forall pr :: pr in DeleteUser(t, id).liked + DeleteUser(t, id).shared ==> pr.0 != id
  {
    var t' := DeleteUser(t, id);
    forall c | c in t'.comments ensures c.author != id {
      assert c in t.comments;
      assert c.author == id ==> c.id in CommentIdsGoneWith(t, id);
    }
  }

  /** Deleting a user keeps the database valid. */
  lemma DeleteUserValid(t: Tables, id: UserId)
    requires Valid(t)
    ensures Valid(DeleteUser(t, id))
  {
    var t' := DeleteUser(t, id);
    var posts := PostIdsBy(t, id);
    var comments := CommentIdsGoneWith(t, id);
    var keepUser := (u: User) => u.id != id;
    var keepPost := (p: Post) => p.author != id;
    var keepComment := (c: Comment) => c.id !in comments;
    var keepNoti := (n: Noti) =>
         n.fromUser != id && n.toUser != id &&
         !(n.post.Some? && n.post.value in posts) && !(n.comment.Some? && n.comment.value in comments);
    DeleteUserKeys(t, id);
    FilterInjective(t.users, keepUser, Username);
    FilterInjective(t.users, keepUser, Email);
    FilterNewestFirst(t.users, keepUser, Joined);
    FilterNewestFirst(t.posts, keepPost, PostTime);
    FilterNewestFirst(t.comments, keepComment, CommentTime);
    FilterNewestFirst(t.notis, keepNoti, NotiTime);
    DeleteUserReferences(t, id);
  }

  lemma DeleteUserKeys(t: Tables, id: UserId)
    requires Keys(t)
    ensures Keys(DeleteUser(t, id))
  {
    var posts := PostIdsBy(t, id);
    var comments := CommentIdsGoneWith(t, id);
    var keepUser := (u: User) => u.id != id;
    var keepPost := (p: Post) => p.author != id;
    var keepComment := (c: Comment) => c.id !in comments;
    var keepNoti := (n: Noti) =>
         n.fromUser != id && n.toUser != id &&
         !(n.post.Some? && n.post.value in posts) && !(n.comment.Some? && n.comment.value in comments);
    FilterInjective(t.users, keepUser, UserKey);
    FilterInjective(t.posts, keepPost, PostKey);
    FilterInjective(t.comments, keepComment, CommentKey);
    FilterInjective(t.notis, keepNoti, NotiKey);
    FilterKeysBelow(t.users, keepUser, UserKey, t.nextUser);
    FilterKeysBelow(t.posts, keepPost, PostKey, t.nextPost);
    FilterKeysBelow(t.comments, keepComment, CommentKey, t.nextComment);
    FilterKeysBelow(t.notis, keepNoti, NotiKey, t.nextNoti);
  }

  lemma DeleteUserReferences(t: Tables, id: UserId)
    requires References(t)
    ensures References(DeleteUser(t, id))
  {
    var t' := DeleteUser(t, id);
    var posts := PostIdsBy(t, id);
    var comments := CommentIdsGoneWith(t, id);
    DeleteUserSurvivors(t, id);
    forall p | p in t'.posts ensures p.author in UserIds(t') {
      assert p in t.posts;
    }
    forall c | c in t'.comments ensures c.author in UserIds(t') && c.post in PostIds(t') {
      assert c in t.comments;
      assert c.author == id || c.post in posts ==> c.id in comments;
    }
    forall n | n in t'.notis ensures NotiReferences(t', n) {
      assert n in t.notis && NotiReferences(t, n);
    }
  }

  /** The keys a user's deletion does not take along still name rows. */
  lemma DeleteUserSurvivors(t: Tables, id: UserId)
    ensures forall uid :: uid in UserIds(t) && uid != id ==> uid in UserIds(DeleteUser(t, id))
    ensures forall pid :: pid in PostIds(t) && pid !in PostIdsBy(t, id) ==> pid in PostIds(DeleteUser(t, id))
    ensures forall cid :: cid in CommentIds(t) && cid !in CommentIdsGoneWith(t, id) ==> cid in CommentIds(DeleteUser(t, id))
  {
    var t' := DeleteUser(t, id);
    var posts := PostIdsBy(t, id);
    var comments := CommentIdsGoneWith(t, id);
    var keepUser := (u: User) => u.id != id;
    var keepPost := (p: Post) => p.author != id;
    var keepComment := (c: Comment) => c.id !in comments;
    FilterImage(t.users, keepUser, UserKey);
    FilterImage(t.posts, keepPost, PostKey);
    FilterImage(t.comments, keepComment, CommentKey);
    forall uid | uid in UserIds(t) && uid != id ensures uid in UserIds(t') {
      var i :| 0 <= i < |t.users| && t.users[i].id == uid;
      assert t.users[i] in t.users;
    }
    forall pid | pid in PostIds(t) && pid !in posts ensures pid in PostIds(t') {
      var i :| 0 <= i < |t.posts| && t.posts[i].id == pid;
      var p := t.posts[i];
      assert p in t.posts;
      assert p.author == id ==> pid in posts;
    }
    forall cid | cid in CommentIds(t) && cid !in comments ensures cid in CommentIds(t') {
      var i :| 0 <= i < |t.comments| && t.comments[i].id == cid;
      assert t.comments[i] in t.comments;
    }
  }

  /** The database of the running server. */
  class Db {
    var tables: Tables

    constructor ()
      ensures tables == Empty
    {
      tables := Empty;
    }
  }
}
