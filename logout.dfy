/** `POST /api/auth/logout`: tells the browser to drop the session cookie. */
module Logout {
  import opened Http
  import Auth
  import Login

  const LoggedOut := "Logout successful"

  /** The cookie logout's `POST` sets: the session cookie's name, flags and path, an empty value, Max-Age -1. */
  function ClearedCookie(nodeEnv: string): (c: Cookie)
    ensures c.name == Auth.TokenCookieName && c.value == "" && c.maxAge == -1
    ensures forall token :: var s := Login.SessionCookie(token, nodeEnv);
      c.name == s.name && c.path == s.path && c.httpOnly == s.httpOnly && c.secure == s.secure
  {
    Cookie(Auth.TokenCookieName, "", true, SecureFor(nodeEnv), -1, "/")
  }

  /** A negative Max-Age expires the cookie at once (section 5.2.2 of RFC 6265). */
  lemma ClearedCookieExpiresNow(nodeEnv: string, now: nat)
    ensures ExpiryTime(ClearedCookie(nodeEnv), now) <= now
  {
  }

  /** `POST()`: always 200 with the clearing cookie. It takes no input and touches no store. */
  method Post(nodeEnv: string) returns (res: Response)
    ensures fresh(res)
    ensures res.status == 200 && res.body == Message(LoggedOut)
    ensures res.cookies == map[Auth.TokenCookieName := ClearedCookie(nodeEnv)]
  {
    res := new Response.Json(Message(LoggedOut), 200);
    res.SetCookie(ClearedCookie(nodeEnv));
  }
}
