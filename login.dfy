/** `POST /api/auth/login`: checks a password and hands out a session cookie. */
module Login {
  import opened Wrappers
  import opened Http
  import opened Crypto
  import opened Db
  import Auth

  const MissingFields := "Email and password are required"
  const InvalidCredentials := "Invalid credentials"
  const LoggedIn := "Login successful"
  const InternalError := "An internal server error occurred"

  /** The handler's decision, before any response is built. */
  datatype Verdict = ServerError | Incomplete | Denied | Accepted(user: User)

  /**
   * The credential check of login's `POST`: an unreadable body is a server error; a missing or empty email or
   * password is incomplete; a stored user whose hash matches the password is
   * accepted; an unknown email and a wrong password are both denied.
   */
  function Decide(users: seq<User>, body: JsonBody, compare: (string, string) -> bool): (v: Verdict)
    ensures v.ServerError? <==> body.Unparseable?
    ensures body.Object? ==>
      var email, password := Member(body.members, "email"), Member(body.members, "password");
      && (v.Incomplete? <==> !(Truthy(email) && Truthy(password)))
      && (v.Accepted? ==> v.user in users && v.user.email == email.value && compare(password.value, v.user.password))
      && (v.Denied? && EmailsDistinct(users) ==>
            forall u :: u in users && u.email == email.value ==> !compare(password.value, u.password))
  {
    match body
    case Unparseable => ServerError
    case Object(members) =>
      var email, password := Member(members, "email"), Member(members, "password");
      if !Truthy(email) || !Truthy(password) then Incomplete
      else
        match UserByEmail(users, email.value)
        case None => Denied
        case Some(user) =>
          if compare(password.value, user.password) then Accepted(user) else Denied
  }

  /** An unknown email and a known email with the wrong password get the same verdict. */
  lemma NoUserEnumeration(users: seq<User>, email: string, password: string, compare: (string, string) -> bool)
    requires EmailsDistinct(users) && email != "" && password != ""
    requires (forall u :: u in users ==> u.email != email)
          || (exists u :: u in users && u.email == email && !compare(password, u.password))
    ensures Decide(users, Object(map["email" := email, "password" := password]), compare) == Denied
  {
  }

  /** A user just created by signup is accepted with the password they signed up with. */
  lemma AcceptsFreshSignup(cfg: Config, users: seq<User>, id: nat, email: string, password: string, salt: nat)
    requires Sound(cfg)
    requires forall v :: v in users ==> v.email != email
    requires email != "" && password != ""
    ensures var user := User(id, email, cfg.hash(password, salt));
      Decide(users + [user], Object(map["email" := email, "password" := password]), cfg.compare) == Accepted(user)
  {
  }

  /** The cookie login's `POST` sets: HttpOnly, Secure outside development, one hour, path `/`. */
  function SessionCookie(token: string, nodeEnv: string): (c: Cookie)
    ensures c.name == Auth.TokenCookieName && c.value == token
    ensures c.httpOnly && c.path == "/" && c.maxAge == TokenLifetime
    ensures c.secure <==> nodeEnv != "development"
  {
    Cookie(Auth.TokenCookieName, token, true, SecureFor(nodeEnv), 3600, "/")
  }

  /**
   * The browser keeps the session cookie exactly as long as the token in it
   * verifies: both end at issue time + 3600.
   */
  lemma CookieLivesAsLongAsToken(cfg: Config, userId: int, now: nat, t: nat)
    requires Sound(cfg)
    ensures var token := Issue(cfg, userId, now);
      cfg.verify(token, t).Verified? <==> t < ExpiryTime(SessionCookie(token, cfg.nodeEnv), now)
  {
  }

  /**
   * `POST(req)`: the response for the verdict; on acceptance, status 200 and the
   * cookie `token` holding a token for the user's id issued now. The store is only
   * read.
   */
  method Post(db: Store, req: Request, cfg: Config) returns (res: Response)
    requires db.Valid() && db.Ready()
    ensures fresh(res)
    ensures match Decide(db.users, req.body, cfg.compare)
      case ServerError => res.status == 500 && res.body == Message(InternalError) && res.cookies == map[]
      case Incomplete => res.status == 400 && res.body == Message(MissingFields) && res.cookies == map[]
      case Denied => res.status == 401 && res.body == Message(InvalidCredentials) && res.cookies == map[]
      case Accepted(user) =>
        && res.status == 200 && res.body == Message(LoggedIn)
        && res.cookies == map[Auth.TokenCookieName := SessionCookie(Issue(cfg, user.id, db.clock), cfg.nodeEnv)]
  {
    if req.body.Unparseable? {
      res := new Response.Json(Message(InternalError), 500);
      return;
    }
    var email := Member(req.body.members, "email");
    var password := Member(req.body.members, "password");
    if !Truthy(email) || !Truthy(password) {
      res := new Response.Json(Message(MissingFields), 400);
      return;
    }
    var user := UserByEmail(db.users, email.value);
    if user.None? {
      res := new Response.Json(Message(InvalidCredentials), 401);
      return;
    }
    var isPasswordValid := cfg.compare(password.value, user.value.password);
    if !isPasswordValid {
      res := new Response.Json(Message(InvalidCredentials), 401);
      return;
    }
    var token := Issue(cfg, user.value.id, db.clock);
    res := new Response.Json(Message(LoggedIn), 200);
    res.SetCookie(SessionCookie(token, cfg.nodeEnv));
  }
}
