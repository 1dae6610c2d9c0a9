/** The request and response shapes the route handlers see (Next.js `NextRequest` / `NextResponse`). */
module Http {
  import opened Wrappers
  import opened Db

  /**
   * The outcome of `await req.json()`: the call throws on a body that is not JSON,
   * otherwise it yields an object whose string-valued members are listed here.
   */
  datatype JsonBody = Unparseable | Object(members: map<string, string>)

  /** An incoming request: its cookies by name and its body. */
  datatype Request = Request(cookies: map<string, string>, body: JsonBody)

  /** Destructuring `const { key } = body`: `undefined` when the member is absent. */
  function Member(members: map<string, string>, key: string): (v: Option<string>)
    ensures v.Some? <==> key in members
    ensures v.Some? ==> v.value == members[key]
  {
    if key in members then Some(members[key]) else None
  }

  /** JavaScript truthiness of a string-or-undefined value: `!v` is false exactly for a non-empty string. */
  predicate Truthy(v: Option<string>)
  {
    v.Some? && v.value != ""
  }

  /** The JSON payload of a response. */
  datatype Body = Message(text: string) | Row(bookmark: Bookmark) | Rows(bookmarks: seq<Bookmark>)

  /** The attributes `response.cookies.set(name, value, options)` writes into `Set-Cookie`. */
  datatype Cookie = Cookie(name: string, value: string, httpOnly: bool, secure: bool, maxAge: int, path: string)

  /** `process.env.NODE_ENV !== 'development'`. */
  predicate SecureFor(nodeEnv: string)
  {
    nodeEnv != "development"
  }

  /**
   * The expiry time a user agent gives a cookie received at `now` (section 5.2.2 of
   * RFC 6265): `now + Max-Age` for a positive Max-Age, otherwise the earliest
   * representable time, which is 0 on this clock.
   */
  function ExpiryTime(c: Cookie, now: nat): (t: nat)
    ensures c.maxAge > 0 ==> t == now + c.maxAge
    ensures c.maxAge <= 0 ==> t == 0
  {
    if c.maxAge <= 0 then 0 else now + c.maxAge
  }

  /** A `NextResponse`: status and JSON body are fixed at creation, the cookie jar is filled afterwards. */
  class Response {
    const status: int
    const body: Body
    var cookies: map<string, Cookie>

    /** `NextResponse.json(body, { status })`. */
    constructor Json(body: Body, status: int)
      ensures this.body == body && this.status == status && cookies == map[]
    {
      this.body := body;
      this.status := status;
      cookies := map[];
    }

    /** `response.cookies.set(...)`: adds the cookie, replacing any earlier one of the same name. */
    method SetCookie(c: Cookie)
      modifies this
      ensures cookies == old(cookies)[c.name := c]
    {
      cookies := cookies[c.name := c];
    }
  }
}
