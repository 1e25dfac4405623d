/** The new-post form (frontend/src/components/AddPost.jsx): what a submit sends and how the
    form is left afterwards. */
module PostForm {
  import opened Wrappers
  import opened FormDataBuffer

  /** The filler text appended with an image: U+3164, HANGUL FILLER, which renders blank. */
  const Filler := "\U{3164}"
  const Published := "Publicaste! \U{1F973}"
  const SomethingWentWrong := "Algo ha ido mal!"

  /** The entries a submit sends for the typed `content` and the chosen image, if any. */
  function PostEntries(content: string, image: Option<string>): (r: seq<Entry>)
    ensures |r| >= 1 && r[0] == ("content", Text(content))
    ensures image.None? ==> |r| == 1
    ensures image.Some? ==> r == [("content", Text(content)), ("content", Text(Filler)), ("image", Upload(image.value))]
  {
    [("content", Text(content))] + (if image.Some? then [("content", Text(Filler)), ("image", Upload(image.value))] else [])
  }

  /** A server reading the form by key takes the last `content`: the typed text when there
      is no image, the filler when there is one, whatever was typed. */
  lemma ContentTheServerReads(content: string, image: Option<string>)
    ensures image.None? ==> LastValue(PostEntries(content, image), "content") == Some(Text(content))
    ensures image.Some? ==> LastValue(PostEntries(content, image), "content") == Some(Text(Filler))
    ensures image.Some? ==> LastValue(PostEntries(content, image), "image") == Some(Upload(image.value))
  {
    if image.Some? {
      LastValueOfAppend([("content", Text(content))], "content", Text(Filler), [("image", Upload(image.value))]);
      LastValueOfAppend([("content", Text(content)), ("content", Text(Filler))], "image", Upload(image.value), []);
    } else {
      LastValueOfAppend([], "content", Text(content), []);
    }
  }

  /** The form: its two values and the entry lists handed to the mutation so far. */
  class AddPostForm {
    var content: string
    /** `''` until a file is chosen. */
    var image: Option<string>
    var sent: seq<seq<Entry>>
    var toasts: seq<string>
    /** The query keys invalidated so far. */
    var invalidated: seq<string>

    constructor ()
      ensures content == "" && image.None? && sent == [] && toasts == [] && invalidated == []
    {
      content, image, sent, toasts, invalidated := "", None, [], [], [];
    }

    /** `onSubmit`: no check on the values; the form data is built, the mutation called
        once, and the form reset to its initial values. */
    method Submit() returns (data: seq<Entry>)
      modifies this
      ensures data == PostEntries(old(content), old(image))
      ensures sent == old(sent) + [data]
      ensures content == "" && image.None?
      ensures toasts == old(toasts) && invalidated == old(invalidated)
    {
      var formData := new FormData();
      formData.Append("content", Text(content));
      if image.Some? {
        formData.Append("content", Text(Filler));
        formData.Append("image", Upload(image.value));
      }
      data := formData.entries;
      sent := sent + [data];
      content, image := "", None;
    }

    /** The mutation settles (`ok` on success): success refreshes the posts and
        congratulates, failure only reports. */
    method Settle(ok: bool)
      modifies this
      ensures ok ==> invalidated == old(invalidated) + ["posts"] && toasts == old(toasts) + [Published]
      ensures !ok ==> invalidated == old(invalidated) && toasts == old(toasts) + [SomethingWentWrong]
      ensures content == old(content) && image == old(image) && sent == old(sent)
    {
      if ok {
        invalidated := invalidated + ["posts"];
        toasts := toasts + [Published];
      } else {
        toasts := toasts + [SomethingWentWrong];
      }
    }
  }
}
