/** Request sequences through the handlers, and what a client can conclude from their contracts alone. */
module Scenarios {
  import opened Wrappers
  import opened Http
  import opened Crypto
  import opened Db
  import Auth
  import Signup
  import Login
  import Bookmarks
  import Home

  /**
   * Signing up with a fresh email and a valid password, then logging in with the
   * same credentials, succeeds; the cookie it sets resolves to the new user's id.
   */
  method SignupThenLogin(db: Store, email: string, password: string, salt: nat, cfg: Config)
    returns (signup: Response, login: Response)
    requires Sound(cfg) && db.Valid() && db.Ready()
    requires email != "" && |password| >= Signup.MinPasswordLength
    requires UserByEmail(db.users, email).None?
    modifies db
    ensures db.Valid() && db.Ready()
    ensures signup.status == 201 && login.status == 200
    ensures Auth.TokenCookieName in login.cookies
    ensures Auth.UserIdFromToken(map[Auth.TokenCookieName := login.cookies[Auth.TokenCookieName].value], VerifierAt(cfg, db.clock))
         == Some(old(db.nextUserId))
  {
    var body := Object(map["email" := email, "password" := password]);
    assert Member(body.members, "email") == Some(email) && Member(body.members, "password") == Some(password);
    ghost var before := db.users;
    signup := Signup.Post(db, Request(map[], body), cfg, salt);
    Login.AcceptsFreshSignup(cfg, before, old(db.nextUserId), email, password, salt);
    login := Login.Post(db, Request(map[], body), cfg);
    Auth.IssuedTokenResolves(cfg, old(db.nextUserId), db.clock, db.clock);
  }

  /**
   * Creating a bookmark that is strictly more recent than the caller's others and
   * then listing puts the new bookmark first.
   */
  method CreateThenList(db: Store, req: Request, cfg: Config, page: Bookmarks.PageOutcome,
                        fetched: Bookmarks.SummaryOutcome, resolve: (string, string) -> Option<string>, userId: int)
    returns (created: Response, listed: Response)
    requires db.Valid() && db.Ready()
    requires Auth.UserIdFromToken(req.cookies, VerifierAt(cfg, db.clock)) == Some(userId) && userId != 0
    requires Bookmarks.Ingest(req.body, page, fetched, resolve).Save?
    requires forall b :: b in db.bookmarks && b.userId == userId ==> b.createdAt < db.clock
    modifies db
    ensures created.status == 201 && listed.status == 200
    ensures created.body.Row? && listed.body.Rows?
    ensures |listed.body.bookmarks| > 0 && listed.body.bookmarks[0] == created.body.bookmark
  {
    created := Bookmarks.Post(db, req, cfg, page, fetched, resolve);
    var row := created.body.bookmark;
    AppendedNewestHeadsList(old(db.bookmarks), row);
    listed := Bookmarks.Get(db, req, cfg);
  }

  /** A row appended after all of its owner's rows, and newer than each, heads its owner's list. */
  lemma AppendedNewestHeadsList(bookmarks: seq<Bookmark>, row: Bookmark)
    requires forall b :: b in bookmarks && b.userId == row.userId ==> b.createdAt < row.createdAt
    ensures |NewestFirst(bookmarks + [row], row.userId)| > 0 && NewestFirst(bookmarks + [row], row.userId)[0] == row
  {
    var all := bookmarks + [row];
    forall x | x in all && x.userId == row.userId && x != row
      ensures x.createdAt < row.createdAt
    {
      assert x in bookmarks;
    }
    MostRecentFirst(all, row);
  }

  /** The home page's initial list is what `GET /api/bookmarks` answers for the same cookies. */
  method DashboardMatchesApi(db: Store, req: Request, cfg: Config) returns (page: Home.Page, res: Response)
    requires db.Valid() && db.Ready()
    ensures page.Dashboard? <==> res.status == 200
    ensures page.Redirect? <==> res.status == 401
    ensures page.Dashboard? ==> res.body == Rows(page.initialBookmarks)
  {
    Home.ResolversAgree(req.cookies, VerifierAt(cfg, db.clock));
    page := Home.HomePage(db, req.cookies, cfg);
    res := Bookmarks.Get(db, req, cfg);
  }
}
