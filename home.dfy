/** `src/app/page.tsx`: the server-rendered home page and its own copy of the identity resolver. */
module Home {
  import opened Wrappers
  import opened Crypto
  import opened Db
  import Auth

  /**
   * `getUserIdFromCookie()`, which reads the same `token` cookie through
   * `cookies()`: no user for an absent or empty token or for any verify failure,
   * the `userId` claim of a token that verifies.
   */
  function UserIdFromCookie(cookies: map<string, string>, verify: string -> VerifyOutcome): (r: Option<int>)
    ensures (Auth.TokenCookieName !in cookies || cookies[Auth.TokenCookieName] == "") ==> r.None?
    ensures Auth.TokenCookieName in cookies && cookies[Auth.TokenCookieName] != "" ==>
      match verify(cookies[Auth.TokenCookieName])
      case Verified(claims) => r == Some(claims.userId)
      case Rejected(_) => r.None?
  {
    var token := if Auth.TokenCookieName in cookies then Some(cookies[Auth.TokenCookieName]) else None;
    if token.None? || token.value == "" then None
    else
      match verify(token.value)
      case Verified(decoded) => Some(decoded.userId)
      case Rejected(_) => None
  }

  /** The page's resolver and the API's resolver agree on every cookie jar and every verifier. */
  lemma ResolversAgree(cookies: map<string, string>, verify: string -> VerifyOutcome)
    ensures UserIdFromCookie(cookies, verify) == Auth.UserIdFromToken(cookies, verify)
  {
  }

  /** What `HomePage` renders: a redirect, or the dashboard with its initial bookmarks. */
  datatype Page = Redirect(location: string) | Dashboard(initialBookmarks: seq<Bookmark>)

  /**
   * `HomePage()`: a visitor without a valid token is sent to `/login` before any
   * query; a user gets the dashboard seeded with their bookmarks, newest first.
   */
  method HomePage(db: Store, cookies: map<string, string>, cfg: Config) returns (page: Page)
    requires db.Valid() && db.Ready()
    ensures var userId := UserIdFromCookie(cookies, VerifierAt(cfg, db.clock));
      if !Auth.Authenticated(userId) then page == Redirect("/login")
      else page == Dashboard(NewestFirst(db.bookmarks, userId.value))
  {
    var userId := UserIdFromCookie(cookies, VerifierAt(cfg, db.clock));
    if !Auth.Authenticated(userId) {
      return Redirect("/login");
    }
    var initialBookmarks := NewestFirst(db.bookmarks, userId.value);
    page := Dashboard(initialBookmarks);
  }
}
