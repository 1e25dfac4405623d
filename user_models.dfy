/** The `User` model of the users app (users/models.py): a row per account, identified for
    login by its email. */
module UserModels {
  import opened Wrappers

  type UserId = nat

  const DefaultAvatar := "profiles/default/avatar.png"
  const DefaultCover := "profiles/default/cover.png"

  /** One account. `avatar` and `coverImage` are stored file names; `password` is the stored
      hash; `dateJoined` is a timestamp. */
  datatype User = User(
    id: UserId, username: string, email: string, password: string,
    name: string, bio: string, avatar: string, coverImage: string,
    dateJoined: int, isStaff: bool, isSuperuser: bool)

  function UserKey(u: User): nat { u.id }
  function Joined(u: User): int { u.dateJoined }
  function Username(u: User): string { u.username }
  function Email(u: User): string { u.email }

  /** The keyword arguments a `User(...)` construction may carry besides the email; a field
      left out takes its declared default. */
  datatype UserFields = UserFields(
    username: Option<string>, name: Option<string>, bio: Option<string>,
    avatar: Option<string>, coverImage: Option<string>,
    isStaff: Option<bool>, isSuperuser: Option<bool>)

  const NoFields := UserFields(None, None, None, None, None, None, None)

  /** `User(email=email, **fields)` with id `id`, password hash `password`, at time `now`.
      A `CharField` without a default is the empty string. */
  function NewUser(id: UserId, email: string, password: string, fields: UserFields, now: int): User {
    User(id, fields.username.GetOr(""), email, password,
         fields.name.GetOr(""), fields.bio.GetOr(""),
         fields.avatar.GetOr(DefaultAvatar), fields.coverImage.GetOr(DefaultCover),
         now, fields.isStaff.GetOr(false), fields.isSuperuser.GetOr(false))
  }

  /** A user built without extra fields has blank name and bio, the default pictures, joins
      now and holds no staff or superuser flag; the fields that are given are kept. */
  lemma NewUserDefaults(id: UserId, email: string, password: string, fields: UserFields, now: int)
    ensures var u := NewUser(id, email, password, fields, now);
      && u.id == id && u.email == email && u.password == password && u.dateJoined == now
      && (fields.name.None? ==> u.name == "") && (fields.bio.None? ==> u.bio == "")
      && (fields.avatar.None? ==> u.avatar == DefaultAvatar)
      && (fields.coverImage.None? ==> u.coverImage == DefaultCover)
      && (fields.isStaff.None? ==> !u.isStaff) && (fields.isSuperuser.None? ==> !u.isSuperuser)
      && (fields.username.Some? ==> u.username == fields.username.value)
      && (fields.isStaff.Some? ==> u.isStaff == fields.isStaff.value)
      && (fields.isSuperuser.Some? ==> u.isSuperuser == fields.isSuperuser.value)
  {
  }
}
