# Link saver: verified model of the session gate and the bookmark pipeline

This project models the server side of a small Next.js bookmark service: an
SQLite database holding `users` and `bookmarks`, the resolver that finds the
caller's identity in the `token` cookie, the signup, login and logout
handlers, the bookmark list and create handlers, and the home page's
redirect-or-dashboard gate. Each request runs by itself, one after another.

- `db.dfy` (module `Db`): the two tables as a `Store` class. It holds the row
  sequences, the AUTOINCREMENT counters, the table-exists flags and an abstract
  clock. `Valid()` states the schema: ids ascending in insertion order, every id
  below its counter, distinct emails, every `createdAt` no later than the clock.
  NOT NULL columns are non-optional fields; the nullable `title`, `favicon` and
  `summary` are `Option`. The nullable `createdAt` is a plain `nat`, because no
  INSERT names it and its DEFAULT therefore always fills it. This module
  also holds the queries the handlers run (lookup by email, lookup by id, and the
  owner list ordered by `createdAt` descending).
- `auth.dfy` (`Auth`) and `home.dfy` (`Home`): `getUserIdFromToken` and its copy
  `getUserIdFromCookie`, as pure functions of the cookie jar and a verifier.
  `Home.HomePage` is the redirect-or-dashboard gate.
- `signup.dfy`, `login.dfy`, `logout.dfy`, `bookmarks.dfy`: one module per
  route. Each handler is a method that returns a `Response` object. Login and
  logout fill that object's cookie jar afterwards, as `response.cookies.set` does.
- `crypto.dfy` (`Crypto`): bcrypt and JWT as functions passed in through a
  `Config`. `Sound(cfg)` holds the assumptions the proofs use:
  - a password matches every hash of itself;
  - a signed token is non-empty;
  - a signed token verifies to its own claims until its `exp` (RFC 7519, section 4.1.4) and is rejected as expired from then on;
  - no token verifies at or after the `exp` it carries.
- `http.dfy` (`Http`): requests, JSON bodies, JavaScript truthiness, cookies and
  their expiry time by section 5.2.2 of RFC 6265. `js_string.dfy` (`JsString`):
  ECMAScript `String.prototype.trim` (ECMA-262, sections 12.2 and 12.3).
  `scenarios.dfy` (`Scenarios`): request sequences whose outcome follows from the
  handlers' contracts.

Values the source obtains by I/O are inputs of the model:
- the bcrypt salt;
- the outcome of fetching and parsing the page (`PageOutcome`);
- the outcome of the summary request (`SummaryOutcome`);
- `new URL(href, base)`, as a function that returns `None` where it throws.

The time that `CURRENT_TIMESTAMP` and `jsonwebtoken` read is `Store.clock`.

Behaviour of the source worth noting:
- An icon `href` that `new URL` cannot resolve makes POST fail with 500 (`src/app/api/bookmarks/route.ts:40` runs inside the `try`). It does not fall back to `/favicon.ico`.
- The summary is trimmed on every path, not only on success. Trimming leaves the sentinel unchanged (`Bookmarks.SentinelSurvivesTrim`).
- The page fetch and the summary fetch run one after the other. The summary is requested only once the page has been fetched, parsed and its icon resolved.
- An empty `href` falls back to `/favicon.ico` just as a missing one does.
- An empty password is rejected like a missing one.
- A decoded `userId` of 0 is treated as unauthenticated (`if (!userId)`). Stored ids start at 1, so no stored user is affected.

## Model

| member | source | states |
|---|---|---|
| `Db.Store.Valid` | src/lib/db.ts:19-34 | the schema invariant every handler keeps: rows exist only in created tables; ids are AUTOINCREMENT, so they ascend, start at 1 and stay below the next counter value; email is UNIQUE; every createdAt is at most the current clock |
| `Db.Store.Open` | src/lib/db.ts:6-11 | creating the database file (getDb's first call; later calls see the current rows, which the handlers receive as the store): no tables, empty rows, both AUTOINCREMENT counters at 1, satisfying the schema invariant |
| `Db.Store.InitializeDb` | src/lib/db.ts:14-41 | afterwards both tables exist and the invariant holds; only the table flags may change, so no row changes; on a store whose tables already exist nothing changes (IF NOT EXISTS) |
| `Db.Store.Tick` | src/lib/db.ts:34 | the clock that CURRENT_TIMESTAMP reads moves forward only, preserving "every createdAt is no later than the clock" |
| `Db.Store.InsertUser` | src/lib/db.ts:19-23 | UNIQUE email: a stored email is rejected with no change; otherwise exactly one row is appended with id = the old counter, which then grows by one, so ids are fresh and never reused; emails stay pairwise distinct |
| `Db.Store.InsertBookmark` | src/lib/db.ts:27-37 | exactly one row is appended with id = the old counter (returned as lastID), createdAt = the clock, the given owner, url and nullable columns; earlier rows are unchanged |
| `Db.UserByEmail` | src/app/api/auth/login/route.ts:15 | `SELECT ... WHERE email = ?`: a found row is stored and has that email; nothing is found exactly when no stored row has that email |
| `Db.UserByEmailAppended` | src/app/api/auth/signup/route.ts:17-25 | after appending a user whose email was not stored, a lookup by that email finds exactly that user |
| `Db.BookmarkById` | src/app/api/bookmarks/route.ts:61 | `SELECT ... WHERE id = ?`: a found row is stored and has that id; nothing is found exactly when no row has it |
| `Db.BookmarkByIdAppended` | src/app/api/bookmarks/route.ts:55-61 | re-reading by lastID after the insert returns exactly the inserted row (its id is fresh) |
| `Db.OwnedBy` | src/app/api/bookmarks/route.ts:15 | `WHERE userId = ?`: a row is in the result iff it is stored and owned by that user, with the same multiplicity as stored |
| `Db.InsertNewest` | src/app/api/bookmarks/route.ts:15 | inserting into a createdAt-descending list keeps it descending and adds exactly that row (multiset) |
| `Db.SortNewestFirst` | src/app/api/bookmarks/route.ts:15 | `ORDER BY createdAt DESC`: the result is createdAt non-increasing and a permutation of the input |
| `Db.NewestFirst` | src/app/api/bookmarks/route.ts:15 | the owner query: non-increasing createdAt, exactly the owner's rows (membership both ways), a permutation of the owner filter |
| `Db.MostRecentFirst` | src/app/api/bookmarks/route.ts:15 | a row strictly more recent than every other row of its owner is the first element of the owner's list |
| `Db.ListsArePrivate` | src/app/api/bookmarks/route.ts:15 | no row appears in the lists of two different owners |
| `JsString.Trim` | src/app/api/bookmarks/route.ts:57 | `trim()`: the result is the slice of the input after its leading ECMAScript whitespace; only whitespace follows it; it neither starts nor ends with whitespace |
| `JsString.TrimCharacterized` | src/app/api/bookmarks/route.ts:57 | trim is determined by that contract: whitespace + core + whitespace, with a core that does not start or end with whitespace, trims to the core |
| `JsString.TrimIdempotent` | src/app/api/bookmarks/route.ts:57 | trimming twice equals trimming once |
| `Http.Truthy` | src/app/api/auth/signup/route.ts:9 | JavaScript's `!v` test on a string member: a value is truthy exactly when it is present and non-empty |
| `Http.SecureFor` | src/app/api/auth/login/route.ts:35 | `process.env.NODE_ENV !== 'development'` (also at src/app/api/auth/logout/route.ts:14): cookies are Secure in every environment but development |
| `Http.Member` | src/app/api/auth/signup/route.ts:7 | destructuring a JSON member: present iff the key is in the body, with its value |
| `Http.ExpiryTime` | src/app/api/auth/logout/route.ts:15 | RFC 6265 section 5.2.2: positive Max-Age expires at receipt + Max-Age, a zero or negative one at the earliest time |
| `Http.Response.Json` | src/app/api/bookmarks/route.ts:64 | `NextResponse.json(body, {status})`: that body and status and an empty cookie jar |
| `Http.Response.SetCookie` | src/app/api/auth/login/route.ts:33-38 | `response.cookies.set`: the jar afterwards is the old jar with that cookie name bound to the new cookie |
| `Crypto.Issue` | src/app/api/auth/login/route.ts:28-30 | `jwt.sign({ userId }, …, { expiresIn: '1h' })` at the clock: claims carry the user id, iat = now and exp = now + 3600 |
| `Auth.Authenticated` | src/app/api/bookmarks/route.ts:10 | `if (!userId)` (also at src/app/api/bookmarks/route.ts:24 and src/app/page.tsx:29): a missing id and the id 0 are both unauthenticated |
| `Auth.TokenCookie` | src/lib/auth.ts:12 | the `token` cookie's value if present, nothing otherwise |
| `Auth.UserIdFromToken` | src/lib/auth.ts:11-22 | absent or empty token gives null; otherwise a verified token gives exactly its userId claim and every verify failure gives null |
| `Auth.NoTokenNoVerify` | src/lib/auth.ts:12-15 | with an absent or empty token, any two verifiers give the same null answer: verify is never consulted |
| `Auth.FailuresIndistinguishable` | src/lib/auth.ts:16-21 | bad signature, malformed token and expiry all produce the same result |
| `Auth.IssuedTokenResolves` | src/lib/auth.ts:17-18 | a token issued for a user id at iat resolves to that id at every time before iat + 3600 |
| `Auth.ResolvedTokenUnexpired` | src/lib/auth.ts:16-18 | under the library assumptions, any token cookie, issued here or not, that resolves to a user at time t verified at t, and the claims it carries have exp > t |
| `Auth.ExpiredTokenRejected` | src/app/api/auth/login/route.ts:28-30 | from iat + 3600 on, an issued token resolves to nobody |
| `Signup.AcceptableInput` | src/app/api/auth/signup/route.ts:9 | the negation of `!email \|\| !password \|\| password.length < 6`: both members present and non-empty, and the password at least 6 characters long |
| `Signup.PasswordLengthBoundary` | src/app/api/auth/signup/route.ts:9 | with a non-empty email, a 6-character password passes validation and a 5-character one fails |
| `Signup.Post` | src/app/api/auth/signup/route.ts:5-33 | unreadable body gives 500 with the generic message; missing/empty email, missing/empty password or a password shorter than 6 gives 400; a stored email gives 409 "User already exists". In all three the store is unchanged. Otherwise 201 and exactly one appended user with the next id and password = hash(password, salt), other users and all bookmarks unchanged; never a cookie |
| `Login.Decide` | src/app/api/auth/login/route.ts:8-26 | unreadable body: server error; empty or missing email or password: incomplete (both directions); accepted only for a stored user with that email whose hash matches; denied means no stored user of that email matches the password |
| `Login.NoUserEnumeration` | src/app/api/auth/login/route.ts:18-26 | an unknown email and a known email with a wrong password get the same verdict, Denied |
| `Login.AcceptsFreshSignup` | src/app/api/auth/login/route.ts:15-26 | a user appended by signup with hash(password, salt) is accepted with that password |
| `Login.SessionCookie` | src/app/api/auth/login/route.ts:33-38 | cookie `token` holds the token, httpOnly, secure iff NODE_ENV is not "development", Max-Age 3600 (the token lifetime), path "/" |
| `Login.CookieLivesAsLongAsToken` | src/app/api/auth/login/route.ts:28-36 | under the library assumptions, at every time t the issued token verifies iff t is before the session cookie's expiry, both being issue time + 3600 |
| `Login.Post` | src/app/api/auth/login/route.ts:6-45 | 500/400/401 "Invalid credentials"/200 "Login successful" as the verdict says; only on 200 a cookie jar holding exactly the session cookie with a token for the user's id issued now; the store is only read |
| `Logout.ClearedCookie` | src/app/api/auth/logout/route.ts:12-17 | cookie `token` with an empty value and Max-Age -1, with the session cookie's name, path, httpOnly and secure for any token |
| `Logout.ClearedCookieExpiresNow` | src/app/api/auth/logout/route.ts:15 | the clearing cookie expires no later than the moment it is received |
| `Logout.Post` | src/app/api/auth/logout/route.ts:8-20 | always 200 "Logout successful" with exactly the clearing cookie; it has no input and no store |
| `Bookmarks.Title` | src/app/api/bookmarks/route.ts:38 | never empty; the title text when it is non-empty, "No title found" when the element is absent or its text empty |
| `Bookmarks.IconHref` | src/app/api/bookmarks/route.ts:39-40 | never empty; the icon link's href when present and non-empty, "/favicon.ico" when there is no icon link or its href is absent or empty |
| `Bookmarks.SummaryText` | src/app/api/bookmarks/route.ts:43-51 | the response text only for an ok response; "Summary is unavailable." for a non-ok status or a throw |
| `Bookmarks.SentinelSurvivesTrim` | src/app/api/bookmarks/route.ts:43-57 | the sentinel is its own trim, so a degraded summary is stored as exactly the sentinel |
| `Bookmarks.Ingest` | src/app/api/bookmarks/route.ts:28-58 | unreadable body fails; it is a 400 exactly when the body is readable and url is missing/empty, whatever the fetches would return; a row is saved exactly when the url is non-empty, the page loads and parses (any HTTP status) and the icon reference resolves; a throwing page fails; a saved row has the body's non-empty url, the fallback title, favicon = resolve(href or "/favicon.ico", url), summary = trim(summary text) |
| `Bookmarks.SavedWhenPageLoads` | src/app/api/bookmarks/route.ts:35-58 | a non-empty url, a page that loads and parses (whatever its status) and a resolvable icon give a saved row with the fallback title, the resolved favicon and the trimmed summary, for every summary outcome |
| `Bookmarks.SummaryNeverDecides` | src/app/api/bookmarks/route.ts:42-51 | the summary outcome never changes whether the row is saved or any column other than summary |
| `Bookmarks.SummaryFailureIsAbsorbed` | src/app/api/bookmarks/route.ts:43-57 | if an ok summary would be saved, then a non-ok or throwing summary saves the same row with summary = "Summary is unavailable." |
| `Bookmarks.Get` | src/app/api/bookmarks/route.ts:8-19 | 401 "Unauthorized" unless the resolver yields a truthy id; otherwise 200 with exactly that user's rows, newest first; the store is only read |
| `Bookmarks.Post` | src/app/api/bookmarks/route.ts:22-70 | 401 with no change when unauthenticated; 400 "URL is required" or 500 "Failed to save bookmark" with no change as the pipeline says; otherwise 201 and exactly one appended row with the caller's id, the derived columns, the fresh id and createdAt = clock, returned as the body; users unchanged |
| `Home.UserIdFromCookie` | src/app/page.tsx:16-25 | absent or empty token gives null, a verified token its userId claim, every verify failure null |
| `Home.ResolversAgree` | src/app/page.tsx:16-25 | `getUserIdFromCookie` and `getUserIdFromToken` agree on every cookie jar and verifier |
| `Home.HomePage` | src/app/page.tsx:27-38 | redirect to "/login" unless the token names a truthy id; otherwise the dashboard with exactly that user's rows, newest first |
| `Scenarios.SignupThenLogin` | src/app/api/auth/login/route.ts:15-33 | under the library assumptions, signup with a fresh email and a valid password gives 201, login with the same credentials gives 200, and the issued cookie resolves to the new user's id |
| `Scenarios.CreateThenList` | src/app/api/bookmarks/route.ts:15-64 | a saved bookmark that is strictly newer than the caller's others is the first element GET returns |
| `Scenarios.AppendedNewestHeadsList` | src/app/api/bookmarks/route.ts:15 | a row appended after rows of its owner that are all older heads that owner's createdAt-descending list |
| `Scenarios.DashboardMatchesApi` | src/app/page.tsx:33-37 | the home page redirects exactly when GET answers 401, and otherwise its initial list is GET's body |

## Left out

- `src/app/api/bookmarks/[id]/route.ts` (DELETE) is not part of this model. No bookmark or user deletion is modelled, and AUTOINCREMENT's "never reuse an id after a delete" is only shown for a store that grows.
- The foreign key `ON DELETE CASCADE` is not claimed. SQLite enforces it only with `PRAGMA foreign_keys`, which `getDb` never enables. The model states no invariant tying `bookmarks.userId` to `users.id`.
- React rendering, client state and the login/signup pages are presentation. `init-db.ts` is start-up plumbing. The JSX half of `src/app/page.tsx` is rendering too.
- Network fetches, JSDOM parsing, `new URL`, bcrypt and JWT signing are not modelled internally. They are inputs or `Config` functions constrained only by `Sound`.
- Opening and closing connections and `console` logging are not modelled.
- Concurrency is not modelled. In the source, two signups racing between the lookup (src/app/api/auth/signup/route.ts:17) and the insert (src/app/api/auth/signup/route.ts:25) let the loser fail on UNIQUE with 500. Requests here run one at a time.
- `CURRENT_TIMESTAMP` has one-second granularity; the model uses an abstract `nat` clock. Rows with equal `createdAt` come out in the order the model's sort produces; SQLite leaves that order unspecified.
- Signup.Post: states that the stored password is `hash(password, salt)`, but does not state that it differs from the plaintext. bcrypt is opaque here, and no assumption about its output format is made.
- Signup.Post, Login.Post, Bookmarks.Get, Bookmarks.Post, Home.HomePage: require that both tables exist, which `init-db.ts` ensures at start-up. The SQL error a missing table would raise is not modelled.
- Internal failures other than an unreadable JSON body are not modelled: database errors, a missing JWT_SECRET, a throwing bcrypt.
- JSON members that are not strings are not modelled. In the source, a numeric password passes the length guard and then makes bcrypt throw.
- `password.length` counts UTF-16 code units. The model counts Dafny characters, which differ for characters outside the Basic Multilingual Plane.
- `redirect('/login')` works in Next.js by throwing. The model returns a `Redirect` value instead.
