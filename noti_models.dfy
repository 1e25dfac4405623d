/** The `Noti` model of the noti app (noti/models.py). */
module NotiModels {
  import opened Wrappers
  import opened UserModels
  import opened BlogModels

  type NotiId = nat

  /** The declared maximum length of a notification's `type`. */
  const MaxKind := 40

  /** `kind` is the `type` column. `post` and `comment` may be null; the two users may not. */
  datatype Noti = Noti(
    id: NotiId, kind: string, fromUser: UserId, toUser: UserId,
    post: Option<PostId>, comment: Option<CommentId>, createdAt: int, isRead: bool)

  function NotiKey(n: Noti): nat { n.id }
  function NotiTime(n: Noti): int { n.createdAt }

  /** A notification as saved: no comment unless one is given, and unread. */
  function NewNoti(id: NotiId, kind: string, fromUser: UserId, toUser: UserId, post: Option<PostId>, now: int): (n: Noti)
    ensures !n.isRead && n.comment.None?
    ensures n.id == id && n.kind == kind && n.fromUser == fromUser && n.toUser == toUser && n.post == post
    ensures n.createdAt == now
  {
    Noti(id, kind, fromUser, toUser, post, None, now, false)
  }
}
