/** The comment forms (frontend/src/components/AddComment.jsx and EditComment.jsx): the
    empty-body check and what each one sends. */
module CommentForms {
  import opened Wrappers
  import opened BlogModels

  const WriteSomething := "Escribe algo .. "
  const EmptyComment := "El comentario no puede estar vacío.."
  const CommentUpdated := "Comentario actualizado"
  const SomethingWentWrong := "Algo ha ido mal!"
  /** The query key a successful new comment invalidates. */
  const CommentedKey := "Comentaste! \U{1F973}"

  /** `{...values, id: post.id}`: the new comment's body and the post it is for. */
  datatype NewCommentPayload = NewCommentPayload(body: string, id: PostId)

  /** `{id: c.id, body, post: c.post}`. */
  datatype EditCommentPayload = EditCommentPayload(id: CommentId, body: string, post: PostId)

  /** The add-comment form under a post. */
  class AddCommentForm {
    var body: string
    const postId: PostId
    var sent: seq<NewCommentPayload>
    var toasts: seq<string>
    var invalidated: seq<string>

    constructor (post: PostId)
      ensures body == "" && postId == post && sent == [] && toasts == [] && invalidated == []
    {
      body, postId, sent, toasts, invalidated := "", post, [], [], [];
    }

    /** `onSubmit`: an empty body only raises a toast; any other body, blanks included, is
        sent with the post's id and the form is reset. */
    method Submit()
      modifies this
      ensures old(body) == "" ==> toasts == old(toasts) + [WriteSomething] && sent == old(sent) && body == old(body)
      ensures old(body) != "" ==> sent == old(sent) + [NewCommentPayload(old(body), postId)] && body == "" && toasts == old(toasts)
      ensures invalidated == old(invalidated)
    {
      if body == "" {
        toasts := toasts + [WriteSomething];
      } else {
        sent := sent + [NewCommentPayload(body, postId)];
        body := "";
      }
    }

    /** The mutation settles (`ok` on success). Success passes `CommentedKey`, a toast's
        text, to the query invalidation instead of the `comments` key the edit form passes;
        failure toasts. */
    method Settle(ok: bool)
      modifies this
      ensures ok ==> invalidated == old(invalidated) + [CommentedKey] && toasts == old(toasts)
      ensures !ok ==> invalidated == old(invalidated) && toasts == old(toasts) + [SomethingWentWrong]
      ensures body == old(body) && sent == old(sent)
    {
      if ok {
        invalidated := invalidated + [CommentedKey];
      } else {
        toasts := toasts + [SomethingWentWrong];
      }
    }
  }

  /** The invalidation argument of a new comment is not the `comments` argument an edited
      comment passes. */
  lemma CommentedKeyIsNotComments()
    ensures CommentedKey != "comments"
  {

  }

  /** The edit dialog for comment `c`. */
  class EditCommentForm {
    var body: string
    const comment: Comment
    var open: bool
    var sent: seq<EditCommentPayload>
    var toasts: seq<string>
    var invalidated: seq<string>

    /** The dialog starts from the comment's current body. */
    constructor (c: Comment)
      ensures body == c.body && comment == c && open && sent == [] && toasts == [] && invalidated == []
    {
      body, comment, open, sent, toasts, invalidated := c.body, c, true, [], [], [];
    }

    /** `onSubmit`: an empty body only raises a toast; otherwise the edit is sent. */
    method Submit()
      modifies this
      ensures body == old(body) && open == old(open) && invalidated == old(invalidated)
      ensures body == "" ==> toasts == old(toasts) + [EmptyComment] && sent == old(sent)
      ensures body != "" ==> sent == old(sent) + [EditCommentPayload(comment.id, body, comment.post)] && toasts == old(toasts)
    {
      if body == "" {
        toasts := toasts + [EmptyComment];
      } else {
        sent := sent + [EditCommentPayload(comment.id, body, comment.post)];
      }
    }

    /** The mutation settles (`ok` on success): the dialog closes either way; only success
        invalidates the comments. */
    method Settle(ok: bool)
      modifies this
      ensures !open && sent == old(sent) && body == old(body)
      ensures ok ==> invalidated == old(invalidated) + ["comments"] && toasts == old(toasts) + [CommentUpdated]
      ensures !ok ==> invalidated == old(invalidated) && toasts == old(toasts) + [SomethingWentWrong]
    {
      if ok {
        invalidated := invalidated + ["comments"];
        toasts := toasts + [CommentUpdated];
      } else {
        toasts := toasts + [SomethingWentWrong];
      }
      open := false;
    }
  }

  /** Whether a body passes the check: any non-empty text, even one of blanks only. */
  predicate Submittable(body: string) {
    body != ""
  }

  /** The two forms apply the same check. */
  lemma BlankBodiesPass()
    ensures Submittable(" ") && Submittable("\t") && !Submittable("")
  {
  }
}
