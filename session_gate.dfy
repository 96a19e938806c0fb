/** The session gate (`src/middleware.ts`): the decision the Next.js middleware
    takes for every request it sees, from the request path, the `jwt` cookie and
    the current time. The response objects become a `Disposition` value. */
module SessionGate {
  import opened Wrappers

  /** `s` begins with `prefix`, as JavaScript's `String.prototype.startsWith`. */
  predicate StartsWith(s: string, prefix: string) {
    |prefix| <= |s| && s[..|prefix|] == prefix
  }

  const LoginPath: string := "/login"
  const LogoutPath: string := "/logout"
  const DashboardPath: string := "/dashboard"

  /** The session token as the gate sees it. */
  datatype Token =
    | Absent                     // no `jwt` cookie, or its value is the empty string
    | Decoded(exp: Option<int>)  // `jwtDecode` returned a payload; `exp` is its NumericDate claim, in seconds
    | Malformed                  // `jwtDecode` throws on this value

  /** What the middleware reads of a request: the path, the origin of its URL
      and the `jwt` cookie, read as a token. */
  datatype Request = Request(path: string, origin: string, token: Token)

  /** The middleware's answer. */
  datatype Disposition =
    | Allow                                     // `NextResponse.next()`
    | Redirect(target: string)                  // `NextResponse.redirect(new URL(target, request.url))`
    | ClearCookieAndRedirect(location: string)  // status 302 with a `location` header; the `jwt` cookie is deleted
    | DecodeThrows                              // `jwtDecode` raised an error that nothing catches

  /** The only disposition that touches cookies. */
  predicate DeletesCookie(d: Disposition) {
    d.ClearCookieAndRedirect?
  }

  /** Reads the `jwt` cookie: a missing cookie and an empty value are both falsy
      (`if (!token)`); any other value goes to the decoder, whose failure is
      `None` and whose success carries the payload's `exp` claim. */
  function ReadToken(cookie: Option<string>, decode: string -> Option<Option<int>>): (t: Token)
    ensures t == Absent <==> cookie == None || cookie == Some("")
    ensures t == Malformed <==> cookie.Some? && cookie.value != "" && decode(cookie.value) == None
    ensures t.Decoded? ==> cookie.Some? && decode(cookie.value) == Some(t.exp)
  {
    match cookie
    case None => Absent
    case Some(value) =>
      if value == "" then Absent
      else match decode(value)
        case None => Malformed
        case Some(exp) => Decoded(exp)
  }

  /** The largest time value, in milliseconds, an ECMAScript `Date` can hold;
      beyond it in either direction `new Date(...)` is an Invalid Date. */
  const MaxTimeValue: int := 8_640_000_000_000_000

  /** `decoded.exp && isBefore(new Date(decoded.exp * 1000), Date.now())`:
      a missing or zero `exp` is falsy; otherwise the claim, scaled from seconds
      to milliseconds, must be a valid date strictly before `now` (`isBefore`
      is false for an Invalid Date). */
  predicate Expired(exp: Option<int>, now: int) {
    exp.Some? && exp.value != 0 &&
    -MaxTimeValue <= exp.value * 1000 <= MaxTimeValue &&
    exp.value * 1000 < now
  }

  /** The token is present, decodes and is not expired. */
  predicate Authenticated(token: Token, now: int) {
    token.Decoded? && !Expired(token.exp, now)
  }

  /** The helper `redirect`: a request already under `/login` is let through
      instead of being sent to `/login` again. */
  function RedirectFor(path: string, newDest: string): (d: Disposition)
    ensures d == Allow <==> StartsWith(path, LoginPath) && newDest == LoginPath
    ensures d != Allow ==> d == Redirect(newDest)
    ensures StartsWith(path, LoginPath) ==> d != Redirect(LoginPath)
  {
    if StartsWith(path, LoginPath) && newDest == LoginPath then Allow
    else Redirect(newDest)
  }

  /** The function `middleware`: ordered branches, first match wins. `now` is
      `Date.now()`, in milliseconds. */
  function Middleware(req: Request, now: int): (d: Disposition)
    // logout comes first and is the only branch that deletes the cookie
    ensures StartsWith(req.path, LogoutPath) ==> d == ClearCookieAndRedirect(req.origin + LoginPath)
    ensures DeletesCookie(d) <==> StartsWith(req.path, LogoutPath)
    // a token that cannot be decoded is an uncaught error
    ensures d == DecodeThrows <==> !StartsWith(req.path, LogoutPath) && req.token.Malformed?
    // no session: allowed on the login pages, sent to /login elsewhere
    ensures !StartsWith(req.path, LogoutPath) && (req.token.Absent? || (req.token.Decoded? && Expired(req.token.exp, now))) ==>
              d == (if StartsWith(req.path, LoginPath) then Allow else Redirect(LoginPath))
    // a live session: sent away from the login pages, allowed elsewhere
    ensures !StartsWith(req.path, LogoutPath) && Authenticated(req.token, now) ==>
              d == (if StartsWith(req.path, LoginPath) then Redirect(DashboardPath) else Allow)
  {
    var isLogin := StartsWith(req.path, LoginPath);
    var isLogout := StartsWith(req.path, LogoutPath);
    if isLogout then ClearCookieAndRedirect(req.origin + LoginPath)
    else match req.token
      case Absent => RedirectFor(req.path, LoginPath)
      case Malformed => DecodeThrows
      case Decoded(exp) =>
        if Expired(exp, now) then RedirectFor(req.path, LoginPath)
        else if isLogin then RedirectFor(req.path, DashboardPath)
        else Allow
  }

  /** The decision table, stated over "is there a live session" instead of the
      source's branch order. */
  function DecisionTable(req: Request, now: int): Disposition {
    if StartsWith(req.path, LogoutPath) then ClearCookieAndRedirect(req.origin + LoginPath)
    else if req.token.Malformed? then DecodeThrows
    else if Authenticated(req.token, now) then
      (if StartsWith(req.path, LoginPath) then Redirect(DashboardPath) else Allow)
    else
      (if StartsWith(req.path, LoginPath) then Allow else Redirect(LoginPath))
  }

  lemma MiddlewareIsDecisionTable(req: Request, now: int)
    ensures Middleware(req, now) == DecisionTable(req, now)
  {
  }

  /** An expired token is handled exactly like a missing one. */
  lemma ExpiredIsAbsent(path: string, origin: string, exp: Option<int>, now: int)
    requires Expired(exp, now)
    ensures Middleware(Request(path, origin, Decoded(exp)), now) == Middleware(Request(path, origin, Absent), now)
  {
  }

  /** A token without `exp`, or with `exp == 0`, never expires. */
  lemma NoExpiryClaimNeverExpires(exp: Option<int>, now: int)
    requires exp == None || exp == Some(0)
    ensures !Expired(exp, now)
  {
  }

  /** The test is strict: at `exp * 1000 == now` the token is still live, and it
      is expired from the next millisecond on. */
  lemma ExpiryBoundary(exp: int)
    requires exp != 0 && -MaxTimeValue <= exp * 1000 <= MaxTimeValue
    ensures !Expired(Some(exp), exp * 1000)
    ensures Expired(Some(exp), exp * 1000 + 1)
  {
  }

  /** An `exp` too far from 1970 to make a valid `Date` never counts as expired. */
  lemma OutOfRangeExpiryNeverExpires(exp: int, now: int)
    requires exp * 1000 < -MaxTimeValue || exp * 1000 > MaxTimeValue
    ensures !Expired(Some(exp), now)
  {
  }

  /** Once expired, a token stays expired as time goes on. */
  lemma ExpiryIsMonotone(exp: Option<int>, now: int, later: int)
    requires now <= later && Expired(exp, now)
    ensures Expired(exp, later)
  {
  }

  /** No redirect loop: the gate never redirects a request to a path the
      request is already under. */
  lemma NoSelfRedirect(req: Request, now: int)
    ensures Middleware(req, now).Redirect? ==> !StartsWith(req.path, Middleware(req, now).target)
  {
    var d := Middleware(req, now);
    if d.Redirect? && d.target == DashboardPath {
      assert StartsWith(req.path, LoginPath);
      assert req.path[1] == 'l';
    }
  }

  /** Following a redirect with the same cookie at the same time ends the
      chain: the target is let through. */
  lemma RedirectSettles(req: Request, now: int)
    requires Middleware(req, now).Redirect?
    ensures Middleware(req.(path := Middleware(req, now).target), now) == Allow
  {
    var t := Middleware(req, now).target;
    assert t == LoginPath || t == DashboardPath;
    assert StartsWith(t, t);
    if t == DashboardPath {
      assert t[1] != LoginPath[1] && t[1] != LogoutPath[1];
    }
  }

  // ---- The matcher: which paths reach the middleware at all ----

  /** After the leading `/`, the negative lookahead of
      `/((?!api|_next/static|_next/image|favicon.ico).*)`. The `.` in
      `favicon.ico` is a regular-expression wildcard and matches any character. */
  predicate ExcludedTail(rest: string) {
    StartsWith(rest, "api") || StartsWith(rest, "_next/static") || StartsWith(rest, "_next/image") ||
    (|rest| >= 11 && rest[..7] == "favicon" && rest[8..11] == "ico")
  }

  /** The gate runs on `path` (the `config.matcher`). */
  predicate GateApplies(path: string) {
    |path| >= 1 && path[0] == '/' && !ExcludedTail(path[1..])
  }

  datatype GateResult =
    | Bypassed            // the middleware is not invoked; the request passes through untouched
    | Gated(d: Disposition)

  /** A request as seen by the framework: matched first, then decided. */
  function Handle(req: Request, now: int): (r: GateResult)
    ensures r == Bypassed <==> !GateApplies(req.path)
    ensures r.Gated? ==> r.d == Middleware(req, now)
  {
    if GateApplies(req.path) then Gated(Middleware(req, now)) else Bypassed
  }

  /** API routes, built assets and the favicon bypass the gate, whatever the token. */
  lemma ExcludedPathsBypass(origin: string, token: Token, now: int)
    ensures Handle(Request("/api/patient/5", origin, token), now) == Bypassed
    ensures Handle(Request("/_next/static/chunks/main.js", origin, token), now) == Bypassed
    ensures Handle(Request("/_next/image", origin, token), now) == Bypassed
    ensures Handle(Request("/favicon.ico", origin, token), now) == Bypassed
  {
    assert "/api/patient/5"[1..][..3] == "api";
    assert "/_next/static/chunks/main.js"[1..][..12] == "_next/static";
    assert "/_next/image"[1..][..11] == "_next/image";
    assert "/favicon.ico"[1..][..7] == "favicon" && "/favicon.ico"[1..][8..11] == "ico";
  }

  /** The exclusion holds for every path under an excluded prefix, and for
      every character in the place of the `.` of `favicon.ico`. */
  lemma ExcludedPrefixesBypass(rest: string, c: char, origin: string, token: Token, now: int)
    ensures Handle(Request("/api" + rest, origin, token), now) == Bypassed
    ensures Handle(Request("/_next/static" + rest, origin, token), now) == Bypassed
    ensures Handle(Request("/_next/image" + rest, origin, token), now) == Bypassed
    ensures Handle(Request("/favicon" + [c] + "ico" + rest, origin, token), now) == Bypassed
  {
    assert ("/api" + rest)[1..][..3] == "api";
    assert ("/_next/static" + rest)[1..][..12] == "_next/static";
    assert ("/_next/image" + rest)[1..][..11] == "_next/image";
    var f := ("/favicon" + [c] + "ico" + rest)[1..];
    assert f[..7] == "favicon" && f[8..11] == "ico";
  }

  /** Conversely, a path whose first character after the `/` cannot begin an
      excluded prefix always reaches the middleware. */
  lemma OtherPathsAreGated(c: char, rest: string, origin: string, token: Token, now: int)
    requires c != 'a' && c != '_' && c != 'f'
    ensures Handle(Request("/" + [c] + rest, origin, token), now) == Gated(Middleware(Request("/" + [c] + rest, origin, token), now))
  {
    assert ("/" + [c] + rest)[1..][0] == c;
  }

  /** The exclusion is a bare prefix test: `/apiary` and `/favicon-ico` bypass
      the gate too, while the application's own pages are gated. */
  lemma ExclusionIsPrefixOnly(origin: string, token: Token, now: int)
    ensures Handle(Request("/apiary", origin, token), now) == Bypassed
    ensures Handle(Request("/favicon-ico", origin, token), now) == Bypassed
    ensures Handle(Request("/patients", origin, token), now).Gated?
    ensures Handle(Request("/login", origin, token), now).Gated?
    ensures Handle(Request("/logout", origin, token), now).Gated?
  {
    assert "/apiary"[1..][..3] == "api";
    assert "/favicon-ico"[1..][..7] == "favicon" && "/favicon-ico"[1..][8..11] == "ico";
    assert "/patients"[1..][0] == 'p';
    assert "/login"[1..][0] == 'l';
    assert "/logout"[1..][0] == 'l';
  }

  // ---- Concrete scenarios ----

  lemma LogoutWithLiveToken(origin: string, exp: int, now: int)
    requires exp * 1000 == now + 3_600_000
    ensures Handle(Request("/logout", origin, Decoded(Some(exp))), now) == Gated(ClearCookieAndRedirect(origin + "/login"))
  {
    assert "/logout"[1..][0] == 'l';
    assert StartsWith("/logout", LogoutPath);
  }

  lemma PatientsWithExpiredToken(origin: string, exp: int, now: int)
    requires 0 <= now <= MaxTimeValue  // `Date.now()` is a valid time
    requires exp != 0 && exp * 1000 == now - 3_600_000
    ensures Handle(Request("/patients", origin, Decoded(Some(exp))), now) == Gated(Redirect("/login"))
  {
    assert "/patients"[1..][0] == 'p';
    assert !StartsWith("/patients", LogoutPath) && !StartsWith("/patients", LoginPath);
  }

  lemma LoginWithLiveToken(origin: string, exp: int, now: int)
    requires exp * 1000 == now + 3_600_000
    ensures Handle(Request("/login", origin, Decoded(Some(exp))), now) == Gated(Redirect("/dashboard"))
  {
    assert "/login"[1..][0] == 'l';
    assert StartsWith("/login", LoginPath) && !StartsWith("/login", LogoutPath);
  }

  lemma MalformedTokenThrows(origin: string, now: int)
    ensures Handle(Request("/dashboard", origin, Malformed), now) == Gated(DecodeThrows)
  {
    assert "/dashboard"[1..][0] == 'd';
    assert !StartsWith("/dashboard", LogoutPath);
  }
}
