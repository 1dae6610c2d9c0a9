/** `POST /api/auth/signup`: registers an email with a hashed password. */
module Signup {
  import opened Wrappers
  import opened Http
  import opened Crypto
  import opened Db

  const MinPasswordLength: nat := 6
  const BadInput := "Email and a password of at least 6 characters are required"
  const AlreadyExists := "User already exists"
  const Created := "User created successfully"
  const InternalError := "An internal server error occurred"

  /** The guard `!email || !password || password.length < 6`, negated. */
  predicate AcceptableInput(email: Option<string>, password: Option<string>)
  {
    Truthy(email) && Truthy(password) && |password.value| >= MinPasswordLength
  }

  /** The validation bound is inclusive: a six-character password passes, a five-character one does not. */
  lemma PasswordLengthBoundary(email: string, password: string)
    requires email != ""
    ensures |password| == 6 ==> AcceptableInput(Some(email), Some(password))
    ensures |password| == 5 ==> !AcceptableInput(Some(email), Some(password))
  {
  }

  /**
   * `POST(req)`. An unreadable body gives 500; bad input gives 400 before the
   * database is read; a stored email gives 409; otherwise one user is appended
   * with the bcrypt hash of the password and the answer is 201. No cookie is
   * set, so the caller is not logged in, and nothing else in the store changes.
   */
  method Post(db: Store, req: Request, cfg: Config, salt: nat) returns (res: Response)
    requires db.Valid() && db.Ready()
    modifies db
    ensures db.Valid() && db.Ready()
    ensures fresh(res) && res.cookies == map[]
    ensures db.bookmarks == old(db.bookmarks) && db.nextBookmarkId == old(db.nextBookmarkId) && db.clock == old(db.clock)
    ensures req.body.Unparseable? ==> res.status == 500 && res.body == Message(InternalError) && unchanged(db)
    ensures req.body.Object? ==>
      var email, password := Member(req.body.members, "email"), Member(req.body.members, "password");
      if !AcceptableInput(email, password) then
        res.status == 400 && res.body == Message(BadInput) && unchanged(db)
      else if UserByEmail(old(db.users), email.value).Some? then
        res.status == 409 && res.body == Message(AlreadyExists) && unchanged(db)
      else
        && res.status == 201 && res.body == Message(Created)
        && db.users == old(db.users) + [User(old(db.nextUserId), email.value, cfg.hash(password.value, salt))]
        && db.nextUserId == old(db.nextUserId) + 1
  {
    if req.body.Unparseable? {
      res := new Response.Json(Message(InternalError), 500);
      return;
    }
    var email := Member(req.body.members, "email");
    var password := Member(req.body.members, "password");
    if !AcceptableInput(email, password) {
      res := new Response.Json(Message(BadInput), 400);
      return;
    }
    var existingUser := UserByEmail(db.users, email.value);
    if existingUser.Some? {
      res := new Response.Json(Message(AlreadyExists), 409);
      return;
    }
    var hashedPassword := cfg.hash(password.value, salt);
    // The UNIQUE constraint cannot fire here: the lookup just found no such email.
    var inserted := db.InsertUser(email.value, hashedPassword);
    res := new Response.Json(Message(Created), 201);
  }
}
