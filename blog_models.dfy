/** The `Post` and `Comment` models of the blog app (blog/models.py). Who liked and who
    shared a post are relations of the database, not fields of the row. */
module BlogModels {
  import opened Wrappers
  import opened UserModels

  type PostId = nat
  type CommentId = nat

  /** The declared maximum length of a post's content and of a comment's body. */
  const MaxContent := 140

  /** A post by `author`; `image` is the stored file name, `None` when there is none. */
  datatype Post = Post(id: PostId, author: UserId, content: string, image: Option<string>, createdAt: int)

  /** A comment by `author` on post `post` (the post reaches its comments as `parent`). */
  datatype Comment = Comment(id: CommentId, author: UserId, post: PostId, body: string, createdAt: int)

  function PostKey(p: Post): nat { p.id }
  function PostTime(p: Post): int { p.createdAt }
  function CommentKey(c: Comment): nat { c.id }
  function CommentTime(c: Comment): int { c.createdAt }
}
