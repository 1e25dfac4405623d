/** The blog app's serializers (blog/serializers.py): what a post or a comment looks like
    on the wire. `media` is the storage's `.url` for a stored file name, and `absolute` is
    `request.build_absolute_uri`, which an image field applies when the serializer has the
    request in its context (the generic post views); a `ReadOnlyField` over `.url` and a
    serializer built without the request give the relative `.url`. */
module BlogSerializers {
  import opened Wrappers
  import opened Seqs
  import opened UserModels
  import opened BlogModels
  import opened Database

  /** The users whose (user, post) pair for `post` is in `rel`. */
  function UsersOf(rel: set<(UserId, PostId)>, post: PostId): (r: set<UserId>)
    ensures forall u :: u in r <==> (u, post) in rel
  {
    set pr | pr in rel && pr.1 == post :: pr.0
  }

  /** `likes_count`: how many users like the post. */
  function LikesCount(t: Tables, post: PostId): nat { |UsersOf(t.liked, post)| }

  /** `shareds_count`: how many users shared the post. */
  function SharedsCount(t: Tables, post: PostId): nat { |UsersOf(t.shared, post)| }

  /** `iliked` for the requesting user. */
  function ILiked(t: Tables, me: UserId, post: PostId): (b: bool)
    ensures b <==> me in UsersOf(t.liked, post)
  {
    (me, post) in t.liked
  }

  /** `ishared` for the requesting user. */
  function IShared(t: Tables, me: UserId, post: PostId): (b: bool)
    ensures b <==> me in UsersOf(t.shared, post)
  {
    (me, post) in t.shared
  }

  /** A serialized post. `iliked` and `ishared` are present only in `PostSerializer`'s output. */
  datatype PostOut = PostOut(
    id: PostId, user: string, avatar: string, content: string, image: Option<string>,
    liked: set<UserId>, shared: set<UserId>, createdAt: int,
    likesCount: nat, sharedsCount: nat, iliked: Option<bool>, ishared: Option<bool>, parent: set<CommentId>)

  const PostFields := ["id", "user", "avatar", "content", "image", "liked", "shared", "created_at",
                       "likes_count", "shareds_count", "iliked", "ishared", "parent"]
  const MyPostFields := ["id", "user", "avatar", "content", "image", "liked", "shared", "created_at",
                         "likes_count", "shareds_count", "parent"]

  function Media(media: string -> string, file: Option<string>): Option<string> {
    match file
    case None => None
    case Some(name) => Some(media(name))
  }

  /** The body of `MyPostSerializer` for post `p` by `author`. */
  function MyPostOut(t: Tables, p: Post, author: User, media: string -> string): (o: PostOut)
    requires author.id == p.author
    ensures o.user == author.username && o.avatar == media(author.avatar)
    ensures o.likesCount == |o.liked| && o.sharedsCount == |o.shared|
    ensures o.liked == UsersOf(t.liked, p.id) && o.shared == UsersOf(t.shared, p.id)
    ensures o.iliked.None? && o.ishared.None?
    ensures forall c :: c in CommentsOf(t, p.id) ==> c.id in o.parent
    ensures forall id :: id in o.parent ==> exists c :: c in CommentsOf(t, p.id) && c.id == id
  {
    PostOut(p.id, author.username, media(author.avatar), p.content, Media(media, p.image),
            UsersOf(t.liked, p.id), UsersOf(t.shared, p.id), p.createdAt,
            LikesCount(t, p.id), SharedsCount(t, p.id), None, None,
            set c | c in CommentsOf(t, p.id) :: c.id)
  }

  /** The body of `PostSerializer` for post `p` by `author`, requested by `me` through the
      generic views, whose context holds the request: the image is an absolute URL. */
  function PostOutFor(t: Tables, p: Post, author: User, me: UserId, media: string -> string, absolute: string -> string): (o: PostOut)
    requires author.id == p.author
    ensures o.(iliked := None, ishared := None, image := Media(media, p.image)) == MyPostOut(t, p, author, media)
    ensures o.image.None? <==> p.image.None?
    ensures p.image.Some? ==> o.image == Some(absolute(media(p.image.value)))
    ensures o.iliked == Some(me in o.liked) && o.ishared == Some(me in o.shared)
  {
    MyPostOut(t, p, author, media).(image := Media(s => absolute(media(s)), p.image),
                                    iliked := Some(ILiked(t, me, p.id)), ishared := Some(IShared(t, me, p.id)))
  }

  /** `MyPostSerializer` lists `PostSerializer`'s fields, in the same order, without the two
      flags about the requester. */
  lemma MyPostFieldsDropFlags()
    ensures PostFields[10..12] == ["iliked", "ishared"]
    ensures MyPostFields == PostFields[..10] + PostFields[12..]
  {
  }

  /** A new post has nobody in `liked` or `shared`. */
  lemma NewPostHasNoReactions(t: Tables, p: Post, author: User, media: string -> string)
    requires Valid(t) && author.id == p.author
    ensures var t' := InsertPost(t, p);
      var o := MyPostOut(t', p.(id := t.nextPost), author, media);
      o.likesCount == 0 && o.sharedsCount == 0
  {
    var t' := InsertPost(t, p);
    InsertedKeyIsNew(t.posts, PostKey, t.nextPost);
    forall pr | pr in t.liked + t.shared ensures pr.1 != t.nextPost {
      assert pr.1 in PostIds(t);
    }
    assert UsersOf(t'.liked, t.nextPost) == {};
    assert UsersOf(t'.shared, t.nextPost) == {};
  }

  /** A serialized comment: `CommentSerializer` gives all model fields, with the commenter's
      username in place of the user key and their avatar's URL. */
  datatype CommentOut = CommentOut(id: CommentId, user: string, avatar: string, post: PostId, body: string, createdAt: int)

  function CommentOutOf(c: Comment, author: User, media: string -> string): (o: CommentOut)
    requires author.id == c.author
    ensures o.user == author.username && o.avatar == media(author.avatar)
    ensures o.id == c.id && o.post == c.post && o.body == c.body && o.createdAt == c.createdAt
  {
    CommentOut(c.id, author.username, media(author.avatar), c.post, c.body, c.createdAt)
  }
}
