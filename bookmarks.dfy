/**
 * `/api/bookmarks`: GET lists the caller's bookmarks, POST saves a URL enriched
 * with the page's title and favicon and a third-party summary. The page fetch
 * and `new JSDOM`, the summary fetch of `https://r.jina.ai/<url>`, and `new URL`
 * are given to POST as their outcomes.
 */
module Bookmarks {
  import opened Wrappers
  import opened Http
  import opened Crypto
  import opened Db
  import JsString
  import Auth

  const Unauthorized := "Unauthorized"
  const UrlRequired := "URL is required"
  const SaveFailed := "Failed to save bookmark"
  const NoTitle := "No title found"
  const DefaultIcon := "/favicon.ico"
  const NoSummary := "Summary is unavailable."

  /**
   * Fetching and parsing the page: either `fetch(url)`, `.text()` or `new JSDOM`
   * throws, or the document yields the text of its first `title` element, if any,
   * and the first `link[rel~='icon']` element, if any, with its `href` attribute,
   * if any. A non-ok HTTP status still yields a document.
   */
  datatype PageOutcome = PageThrows | Page(title: Option<string>, firstIconHref: Option<Option<string>>)

  /** The summary request: it throws, answers with a non-ok status, or answers ok with a text. */
  datatype SummaryOutcome = SummaryThrows | NotOk | Ok(text: string)

  /** POST's title: the first `title` element's text, or the sentinel when the element is absent or its text empty. */
  function Title(title: Option<string>): (r: string)
    ensures r != ""
    ensures title.Some? && title.value != "" ==> r == title.value
    ensures title.None? || title.value == "" ==> r == NoTitle
  {
    if title.Some? && title.value != "" then title.value else NoTitle
  }

  /** POST's favicon reference: the icon link's `href`, or `/favicon.ico` when there is no icon link or its `href` is absent or empty. */
  function IconHref(icon: Option<Option<string>>): (r: string)
    ensures r != ""
    ensures icon.Some? && Truthy(icon.value) ==> r == icon.value.value
    ensures !(icon.Some? && Truthy(icon.value)) ==> r == DefaultIcon
  {
    match icon
    case Some(Some(href)) => if href != "" then href else DefaultIcon
    case _ => DefaultIcon
  }

  /** POST's summary before trimming: the response text of an ok summary response, the sentinel after a non-ok status or a throw. */
  function SummaryText(fetched: SummaryOutcome): (r: string)
    ensures fetched.Ok? ==> r == fetched.text
    ensures !fetched.Ok? ==> r == NoSummary
  {
    if fetched.Ok? then fetched.text else NoSummary
  }

  /** The sentinel is already trimmed, so a degraded summary is stored as exactly the sentinel. */
  lemma SentinelSurvivesTrim()
    ensures JsString.Trim(NoSummary) == NoSummary
  {
  }

  /** The values saved for a bookmark (the store adds id, owner and time). */
  datatype Derived = Derived(url: string, title: string, favicon: string, summary: string)

  /** What POST does once the caller is authenticated. */
  datatype Ingestion = BadRequest | Failed | Save(fields: Derived)

  /**
   * The create pipeline after the identity gate: an unreadable body fails; a
   * missing or empty `url` is a bad request whatever the fetches would give; a
   * throwing page fetch or a throwing `new URL` fails; otherwise the row is saved
   * with the derived title, the resolved favicon and the trimmed summary. The
   * summary fetch never decides whether the row is saved.
   */
  function Ingest(body: JsonBody, page: PageOutcome, fetched: SummaryOutcome, resolve: (string, string) -> Option<string>): (r: Ingestion)
    ensures body.Unparseable? ==> r == Failed
    ensures r == BadRequest <==> body.Object? && !Truthy(Member(body.members, "url"))
    ensures r.Save? <==>
      && body.Object? && Truthy(Member(body.members, "url")) && page.Page?
      && resolve(IconHref(page.firstIconHref), Member(body.members, "url").value).Some?
    ensures body.Object? && !Truthy(Member(body.members, "url")) ==> r == BadRequest
    ensures r.Save? ==>
      && body.Object? && Member(body.members, "url") == Some(r.fields.url) && r.fields.url != ""
      && page.Page?
      && r.fields.title == Title(page.title)
      && resolve(IconHref(page.firstIconHref), r.fields.url) == Some(r.fields.favicon)
      && r.fields.summary == JsString.Trim(SummaryText(fetched))
    ensures body.Object? && Truthy(Member(body.members, "url")) && page.PageThrows? ==> r == Failed
  {
    match body
    case Unparseable => Failed
    case Object(members) =>
      var url := Member(members, "url");
      if !Truthy(url) then BadRequest
      else
        match page
        case PageThrows => Failed
        case Page(title, icon) =>
          match resolve(IconHref(icon), url.value)
          case None => Failed
          case Some(favicon) => Save(Derived(url.value, Title(title), favicon, JsString.Trim(SummaryText(fetched))))
  }

  /**
   * A readable body with a non-empty url, a page that loads and parses (whatever
   * its HTTP status) and an icon reference that resolves is saved with every
   * column derived, whatever the summary fetch gives.
   */
  lemma SavedWhenPageLoads(members: map<string, string>, title: Option<string>, icon: Option<Option<string>>,
                           fetched: SummaryOutcome, resolve: (string, string) -> Option<string>)
    requires Truthy(Member(members, "url"))
    requires resolve(IconHref(icon), members["url"]).Some?
    ensures Ingest(Object(members), Page(title, icon), fetched, resolve)
         == Save(Derived(members["url"], Title(title), resolve(IconHref(icon), members["url"]).value,
                         JsString.Trim(SummaryText(fetched))))
  {
  }

  /** The summary fetch never decides whether a row is saved, nor what the other columns hold. */
  lemma SummaryNeverDecides(body: JsonBody, page: PageOutcome, s1: SummaryOutcome, s2: SummaryOutcome, resolve: (string, string) -> Option<string>)
    ensures Ingest(body, page, s1, resolve).Save? <==> Ingest(body, page, s2, resolve).Save?
    ensures !Ingest(body, page, s1, resolve).Save? ==> Ingest(body, page, s1, resolve) == Ingest(body, page, s2, resolve)
    ensures Ingest(body, page, s1, resolve).Save? ==>
      Ingest(body, page, s1, resolve).fields.(summary := "") == Ingest(body, page, s2, resolve).fields.(summary := "")
  {
  }

  /** A summary outage degrades the stored summary to the sentinel and nothing else. */
  lemma SummaryFailureIsAbsorbed(body: JsonBody, page: PageOutcome, resolve: (string, string) -> Option<string>, ok: string)
    requires Ingest(body, page, Ok(ok), resolve).Save?
    ensures Ingest(body, page, NotOk, resolve).Save? && Ingest(body, page, SummaryThrows, resolve).Save?
    ensures Ingest(body, page, NotOk, resolve).fields.summary == NoSummary
    ensures Ingest(body, page, SummaryThrows, resolve) == Ingest(body, page, NotOk, resolve)
    ensures Ingest(body, page, NotOk, resolve).fields == Ingest(body, page, Ok(ok), resolve).fields.(summary := NoSummary)
  {
    SentinelSurvivesTrim();
  }

  /**
   * `GET(req)`: 401 unless the token names a user; otherwise 200 with exactly that
   * user's bookmarks, newest first. The store is only read.
   */
  method Get(db: Store, req: Request, cfg: Config) returns (res: Response)
    requires db.Valid() && db.Ready()
    ensures fresh(res) && res.cookies == map[]
    ensures var userId := Auth.UserIdFromToken(req.cookies, VerifierAt(cfg, db.clock));
      if !Auth.Authenticated(userId) then res.status == 401 && res.body == Message(Unauthorized)
      else res.status == 200 && res.body == Rows(NewestFirst(db.bookmarks, userId.value))
  {
    var userId := Auth.UserIdFromToken(req.cookies, VerifierAt(cfg, db.clock));
    if !Auth.Authenticated(userId) {
      res := new Response.Json(Message(Unauthorized), 401);
      return;
    }
    var bookmarks := NewestFirst(db.bookmarks, userId.value);
    res := new Response.Json(Rows(bookmarks), 200);
  }

  /**
   * `POST(req)`: 401 unless the token names a user; then 400 or 500 with the store
   * untouched, or 201 with the one appended row, as read back by its new id.
   */
  method Post(db: Store, req: Request, cfg: Config, page: PageOutcome, fetched: SummaryOutcome,
              resolve: (string, string) -> Option<string>)
    returns (res: Response)
    requires db.Valid() && db.Ready()
    modifies db
    ensures db.Valid() && db.Ready()
    ensures fresh(res) && res.cookies == map[]
    ensures db.users == old(db.users) && db.nextUserId == old(db.nextUserId) && db.clock == old(db.clock)
    ensures var userId := Auth.UserIdFromToken(req.cookies, VerifierAt(cfg, old(db.clock)));
      if !Auth.Authenticated(userId) then
        res.status == 401 && res.body == Message(Unauthorized) && unchanged(db)
      else
        match Ingest(req.body, page, fetched, resolve)
        case BadRequest => res.status == 400 && res.body == Message(UrlRequired) && unchanged(db)
        case Failed => res.status == 500 && res.body == Message(SaveFailed) && unchanged(db)
        case Save(d) =>
          var row := Bookmark(old(db.nextBookmarkId), userId.value, d.url, Some(d.title), Some(d.favicon), Some(d.summary), old(db.clock));
          && res.status == 201 && res.body == Row(row)
          && db.bookmarks == old(db.bookmarks) + [row]
          && db.nextBookmarkId == old(db.nextBookmarkId) + 1
  {
    var userId := Auth.UserIdFromToken(req.cookies, VerifierAt(cfg, db.clock));
    if !Auth.Authenticated(userId) {
      res := new Response.Json(Message(Unauthorized), 401);
      return;
    }
    if req.body.Unparseable? {
      res := new Response.Json(Message(SaveFailed), 500);
      return;
    }
    var url := Member(req.body.members, "url");
    if !Truthy(url) {
      res := new Response.Json(Message(UrlRequired), 400);
      return;
    }
    // The page must load and parse, and its icon reference must resolve
    if page.PageThrows? {
      res := new Response.Json(Message(SaveFailed), 500);
      return;
    }
    var title := Title(page.title);
    var favicon := resolve(IconHref(page.firstIconHref), url.value);
    if favicon.None? {
      res := new Response.Json(Message(SaveFailed), 500);
      return;
    }
    // The summary starts as the sentinel and is replaced only by an ok answer
    var summary := NoSummary;
    if fetched.Ok? {
      summary := fetched.text;
    }
    // Insert, then read the row back by its new id
    var lastId := db.InsertBookmark(userId.value, url.value, Some(title), Some(favicon.value), Some(JsString.Trim(summary)));
    BookmarkByIdAppended(old(db.bookmarks), db.bookmarks[|db.bookmarks| - 1]);
    assert old(db.bookmarks) + [db.bookmarks[|db.bookmarks| - 1]] == db.bookmarks;
    var newBookmark := BookmarkById(db.bookmarks, lastId);
    res := new Response.Json(Row(newBookmark.value), 201);
  }
}
