/** The edit-profile dialog (frontend/src/components/EditProfile.jsx). */
module ProfileForm {
  import opened Wrappers
  import opened FormDataBuffer

  const ProfileUpdated := "Perfil actualizado"
  const SomethingWentWrong := "Algo ha ido mal!"

  /** The entries a submit sends: `name` and `bio` always, `''` for a missing one (`None`
      is a null or undefined value); each picture only when a file was chosen. */
  function ProfileEntries(name: Option<string>, bio: Option<string>, avatar: Option<string>, cover: Option<string>): (r: seq<Entry>)
    ensures |r| >= 2 && r[0] == ("name", Text(name.GetOr(""))) && r[1] == ("bio", Text(bio.GetOr("")))
    ensures |r| == 2 + (if avatar.Some? then 1 else 0) + (if cover.Some? then 1 else 0)
    ensures avatar.Some? ==> r[2] == ("avatar", Upload(avatar.value))
    ensures cover.Some? ==> r[|r| - 1] == ("cover_image", Upload(cover.value))
  {
    [("name", Text(name.GetOr(""))), ("bio", Text(bio.GetOr("")))]
    + (if avatar.Some? then [("avatar", Upload(avatar.value))] else [])
    + (if cover.Some? then [("cover_image", Upload(cover.value))] else [])
  }

  /** The keys come in the order `name`, `bio`, then whichever pictures were chosen, and no
      key repeats, so the server reads each value as sent. */
  lemma ProfileKeys(name: Option<string>, bio: Option<string>, avatar: Option<string>, cover: Option<string>)
    ensures Keys(ProfileEntries(name, bio, avatar, cover)) ==
      ["name", "bio"] + (if avatar.Some? then ["avatar"] else []) + (if cover.Some? then ["cover_image"] else [])
    ensures LastValue(ProfileEntries(name, bio, avatar, cover), "name") == Some(Text(name.GetOr("")))
    ensures avatar.None? ==> LastValue(ProfileEntries(name, bio, avatar, cover), "avatar").None?
    ensures cover.None? ==> LastValue(ProfileEntries(name, bio, avatar, cover), "cover_image").None?
  {
    var r := ProfileEntries(name, bio, avatar, cover);
    var rest := r[1..];
    assert r == [] + [("name", Text(name.GetOr("")))] + rest;
    LastValueOfAppend([], "name", Text(name.GetOr("")), rest);
  }

  /** The `FormData` buffer `onSubmit` fills: `name` and `bio` always, `''` for a falsy
      value, then each chosen picture. */
  method BuildProfileData(name: Option<string>, bio: Option<string>, avatar: Option<string>, cover: Option<string>)
    returns (data: seq<Entry>)
    ensures data == ProfileEntries(name, bio, avatar, cover)
  {
    var formData := new FormData();
    formData.Append("name", Text(if name.Some? && name.value != "" then name.value else ""));
    formData.Append("bio", Text(if bio.Some? && bio.value != "" then bio.value else ""));
    if avatar.Some? {
      formData.Append("avatar", Upload(avatar.value));
    }
    if cover.Some? {
      formData.Append("cover_image", Upload(cover.value));
    }
    data := formData.entries;
  }

  class EditProfileForm {
    var name: Option<string>
    var bio: Option<string>
    var avatar: Option<string>
    var coverImage: Option<string>
    var open: bool
    var sent: seq<seq<Entry>>
    var toasts: seq<string>
    /** The query keys invalidated so far. */
    var invalidated: seq<seq<string>>

    /** The dialog opened for a user: their name and bio, no pictures chosen. */
    constructor (userName: Option<string>, userBio: Option<string>)
      ensures name == userName && bio == userBio && avatar.None? && coverImage.None?
      ensures open && sent == [] && toasts == [] && invalidated == []
    {
      name, bio, avatar, coverImage := userName, userBio, None, None;
      open, sent, toasts, invalidated := true, [], [], [];
    }

    /** `onSubmit`: the form data is built and the mutation called; the values stay. */
    method Submit() returns (data: seq<Entry>)
      modifies this
      ensures data == ProfileEntries(name, bio, avatar, coverImage)
      ensures sent == old(sent) + [data]
      ensures name == old(name) && bio == old(bio) && avatar == old(avatar) && coverImage == old(coverImage)
      ensures open == old(open) && toasts == old(toasts) && invalidated == old(invalidated)
    {
      data := BuildProfileData(name, bio, avatar, coverImage);
      sent := sent + [data];
    }

    /** The mutation settles for the user `username`: `error` is the failure's message, or
        `None` on success. The dialog closes either way; only success invalidates the user's
        query. */
    method Settle(username: string, error: Option<string>)
      modifies this
      ensures !open
      ensures error.None? ==> invalidated == old(invalidated) + [["user", username]] && toasts == old(toasts) + [ProfileUpdated]
      ensures error.Some? ==> invalidated == old(invalidated) && toasts == old(toasts) + [error.value, SomethingWentWrong]
      ensures name == old(name) && bio == old(bio) && avatar == old(avatar) && coverImage == old(coverImage) && sent == old(sent)
    {
      if error.None? {
        invalidated := invalidated + [["user", username]];
        toasts := toasts + [ProfileUpdated];
      } else {
        toasts := toasts + [error.value, SomethingWentWrong];
      }
      open := false;
    }
  }
}
