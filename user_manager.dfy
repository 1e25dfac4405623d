/** `CustomUserManager` (users/models.py): account creation through the manager. Email
    normalisation and password hashing are Django's and are parameters here. */
module UserManager {
  import opened Wrappers
  import opened UserModels
  import opened Database
  import opened Ordered

  const NoEmailMessage := "Debes proporcionar una dirección de correo electrónico válida"

  /** The stored password for a raw one (`set_password`; `None` is Python's `None`). */
  type Hasher = Option<string> -> string

  /** `_create_user(email, password, **fields)` at time `now`: the new database and the saved
      user. */
  function CreatedUser(t: Tables, email: Option<string>, password: Option<string>, fields: UserFields,
                       normalize: string -> string, hash: Hasher, now: int)
    : (r: Result<(Tables, User), DbError>)
    // A missing or empty email is refused before anything is saved.
    ensures (email.None? || email.value == "") <==> r == Err(ValueError(NoEmailMessage))
    // Otherwise the unique constraints decide.
    ensures email.Some? && email.value != "" ==>
      var u := NewUser(t.nextUser, normalize(email.value), hash(password), fields, now);
      (r.Err? <==> UsernameTaken(t, u.username) || EmailTaken(t, u.email)) &&
      (r.Err? ==> r.error == IntegrityError) &&
      (r.Ok? ==> r.value.1 == u && r.value.1 in r.value.0.users && r.value.0 == InsertUser(t, u).value)
  {
    if email.None? || email.value == "" then Err(ValueError(NoEmailMessage))
    else
      var u := NewUser(t.nextUser, normalize(email.value), hash(password), fields, now);
      match InsertUser(t, u)
      case Err(e) => Err(e)
      case Ok(t') =>
        InsertNewestMembers(t.users, u.(id := t.nextUser), Joined);
        Ok((t', u))
  }

  /** `extra_fields.setdefault(...)` for the two flags: a value the caller gave is kept. */
  function WithFlagDefaults(fields: UserFields, flag: bool): (f: UserFields)
    ensures f.isStaff == Some(fields.isStaff.GetOr(flag)) && f.isSuperuser == Some(fields.isSuperuser.GetOr(flag))
    ensures f.(isStaff := fields.isStaff, isSuperuser := fields.isSuperuser) == fields
  {
    fields.(isStaff := Some(fields.isStaff.GetOr(flag)), isSuperuser := Some(fields.isSuperuser.GetOr(flag)))
  }

  /** `create_user`: the flags default to off. */
  function CreatedStandardUser(t: Tables, email: Option<string>, password: Option<string>, fields: UserFields,
                               normalize: string -> string, hash: Hasher, now: int): Result<(Tables, User), DbError> {
    CreatedUser(t, email, password, WithFlagDefaults(fields, false), normalize, hash, now)
  }

  /** `create_superuser`: the flags default to on, and nothing checks a flag given as off. */
  function CreatedSuperuser(t: Tables, email: Option<string>, password: Option<string>, fields: UserFields,
                            normalize: string -> string, hash: Hasher, now: int): Result<(Tables, User), DbError> {
    CreatedUser(t, email, password, WithFlagDefaults(fields, true), normalize, hash, now)
  }

  /** The flags of a user `create_user` or `create_superuser` saved. */
  lemma CreatedFlags(t: Tables, email: Option<string>, password: Option<string>, fields: UserFields,
                     normalize: string -> string, hash: Hasher, now: int)
    ensures var r := CreatedStandardUser(t, email, password, fields, normalize, hash, now);
      r.Ok? ==> r.value.1.isStaff == fields.isStaff.GetOr(false) && r.value.1.isSuperuser == fields.isSuperuser.GetOr(false)
    ensures var r := CreatedSuperuser(t, email, password, fields, normalize, hash, now);
      r.Ok? ==> r.value.1.isStaff == fields.isStaff.GetOr(true) && r.value.1.isSuperuser == fields.isSuperuser.GetOr(true)
  {
  }

  /** A superuser asked for with `is_staff=False` is created as a non-staff superuser. */
  lemma SuperuserMayLackStaff(t: Tables, email: string, password: Option<string>, fields: UserFields,
                              normalize: string -> string, hash: Hasher, now: int)
    requires email != "" && fields.isStaff == Some(false) && fields.isSuperuser.None?
    requires CreatedSuperuser(t, Some(email), password, fields, normalize, hash, now).Ok?
    ensures var u := CreatedSuperuser(t, Some(email), password, fields, normalize, hash, now).value.1;
      !u.isStaff && u.isSuperuser
  {
  }

  /** The manager keeps the database valid. */
  lemma CreatedUserValid(t: Tables, email: Option<string>, password: Option<string>, fields: UserFields,
                         normalize: string -> string, hash: Hasher, now: int)
    requires Valid(t) && CreatedUser(t, email, password, fields, normalize, hash, now).Ok?
    ensures Valid(CreatedUser(t, email, password, fields, normalize, hash, now).value.0)
  {
    var u := NewUser(t.nextUser, normalize(email.value), hash(password), fields, now);
    InsertUserValid(t, u);
  }

  /** `_create_user` on the server's database; nothing is saved when it raises. */
  method CreateUser(db: Db, email: Option<string>, password: Option<string>, fields: UserFields,
                    normalize: string -> string, hash: Hasher, now: int) returns (r: Result<User, DbError>)
    modifies db
    ensures var c := CreatedUser(old(db.tables), email, password, fields, normalize, hash, now);
      (c.Ok? ==> r == Ok(c.value.1) && db.tables == c.value.0) &&
      (c.Err? ==> r == Err(c.error) && db.tables == old(db.tables))
    ensures Valid(old(db.tables)) ==> Valid(db.tables)
  {
    if Valid(db.tables) && CreatedUser(db.tables, email, password, fields, normalize, hash, now).Ok? {
      CreatedUserValid(db.tables, email, password, fields, normalize, hash, now);
    }
    if email.None? || email.value == "" {
      return Err(ValueError(NoEmailMessage));
    }
    var user := NewUser(db.tables.nextUser, normalize(email.value), "", fields, now);
    user := user.(password := hash(password));
    var saved := InsertUser(db.tables, user);
    if saved.Err? {
      return Err(saved.error);
    }
    db.tables := saved.value;
    r := Ok(user);
  }
}
