/** The route guard that runs before every matched page request: the login
    page is "/", every other page needs a `token` cookie. */
module Middleware {
  import opened Wrappers
  import opened Text

  datatype Decision = Redirect(target: string) | Next

  /** The truthiness of `request.cookies.get("token")?.value`. */
  predicate HasToken(cookie: Option<string>) {
    Truthy(cookie)
  }

  /** `middleware`: `path` is the request's pathname, `cookie` the value of
      its `token` cookie if it has one. */
  function Decide(path: string, cookie: Option<string>): (d: Decision)
    ensures d == Redirect("/dashboard") <==> path == "/" && HasToken(cookie)
    ensures d == Redirect("/") <==> path != "/" && !HasToken(cookie)
    ensures d == Next <==> (path == "/" && !HasToken(cookie)) || (path != "/" && HasToken(cookie))
  {
    var isAuthPage := path == "/";
    if isAuthPage && HasToken(cookie) then Redirect("/dashboard")
    else if !isAuthPage && !HasToken(cookie) then Redirect("/")
    else Next
  }

  /** A request is never redirected to the path it asked for, so the guard
      cannot loop on one page; and it only ever redirects to "/" or
      "/dashboard". */
  lemma NoSelfRedirect(path: string, cookie: Option<string>)
    ensures Decide(path, cookie).Redirect? ==> Decide(path, cookie).target != path
    ensures Decide(path, cookie).Redirect? ==> Decide(path, cookie).target in {"/", "/dashboard"}
  {
  }

  /** Following a redirect with the same cookie lands on a page the guard
      lets through. */
  lemma RedirectSettles(path: string, cookie: Option<string>)
    requires Decide(path, cookie).Redirect?
    ensures Decide(Decide(path, cookie).target, cookie) == Next
  {
  }

  /** An empty cookie is treated exactly like a missing one. */
  lemma EmptyCookieIsAbsent(path: string)
    ensures Decide(path, Some("")) == Decide(path, None)
  {
  }

  /** Only "/" itself is the login page: "/dashboard" and "/x" with a token
      pass, and without one go back to "/". */
  lemma LoginPageIsExact(token: string)
    requires token != ""
    ensures Decide("/dashboard", Some(token)) == Next && Decide("/x", Some(token)) == Next
    ensures Decide("/dashboard", None) == Redirect("/") && Decide("/x", None) == Redirect("/")
  {
  }

  function StartsWith(s: string, prefix: string): (b: bool)
    ensures b <==> |prefix| <= |s| && forall i | 0 <= i < |prefix| :: s[i] == prefix[i]
  {
    |prefix| <= |s| && s[..|prefix|] == prefix
  }

  /** The negative look-ahead of the matcher `/((?!api|_next/static|_next/image|favicon.ico).*)`
      applied to the text after the leading "/"; the unescaped `.` in
      `favicon.ico` matches any one character. */
  predicate Excluded(rest: string) {
    || StartsWith(rest, "api")
    || StartsWith(rest, "_next/static")
    || StartsWith(rest, "_next/image")
    || (|rest| >= 11 && StartsWith(rest, "favicon") && rest[8..11] == "ico")
  }

  /** Whether the matcher sends a request to the guard at all. */
  predicate Guarded(path: string) {
    |path| > 0 && path[0] == '/' && !Excluded(path[1..])
  }

  /** What happens to a request: unmatched paths go straight through. */
  function Route(path: string, cookie: Option<string>): (d: Decision)
    ensures !Guarded(path) ==> d == Next
    ensures Guarded(path) ==> d == Decide(path, cookie)
    ensures d.Redirect? ==> d.target != path
  {
    if Guarded(path) then Decide(path, cookie) else Next
  }

  lemma StartsWithAfterSlash(p: string, x: string)
    requires |p| > 0 && p[0] == '/'
    ensures StartsWith(p[1..], x) <==> StartsWith(p, "/" + x)
  {
    var t := p[1..];
    if StartsWith(p, "/" + x) {
      forall i | 0 <= i < |x| ensures t[i] == x[i] {
        assert p[i + 1] == ("/" + x)[i + 1];
      }
    }
    if StartsWith(t, x) {
      forall i | 0 <= i < |"/" + x| ensures p[i] == ("/" + x)[i] {
        if i > 0 {
          assert p[i] == t[i - 1];
        }
      }
    }
  }

  /** The matcher in terms of the whole path: a path is guarded exactly when
      it starts with "/" and with none of "/api", "/_next/static",
      "/_next/image" and "/favicon", any character, "ico". */
  lemma GuardedIff(p: string)
    ensures Guarded(p) <==>
              && StartsWith(p, "/")
              && !StartsWith(p, "/api")
              && !StartsWith(p, "/_next/static")
              && !StartsWith(p, "/_next/image")
              && !(|p| >= 12 && StartsWith(p, "/favicon") && p[9..12] == "ico")
  {
    assert "/" + "api" == "/api" && "/" + "favicon" == "/favicon";
    assert "/" + "_next/static" == "/_next/static" && "/" + "_next/image" == "/_next/image";
    if |p| > 0 && p[0] == '/' {
      StartsWithAfterSlash(p, "api");
      StartsWithAfterSlash(p, "_next/static");
      StartsWithAfterSlash(p, "_next/image");
      StartsWithAfterSlash(p, "favicon");
      assert |p| >= 12 ==> p[1..][8..11] == p[9..12];
    }
  }

  /** No API route reaches the guard, whatever follows "/api", so it never
      redirects them. */
  lemma ApiNeverGuarded(rest: string, cookie: Option<string>)
    ensures !Guarded("/api" + rest) && Route("/api" + rest, cookie) == Next
  {
    assert ("/api" + rest)[1..][..3] == "api";
  }

  /** Every dashboard page reaches the guard. */
  lemma DashboardGuarded(rest: string)
    ensures Guarded("/dashboard" + rest)
  {
    var t := ("/dashboard" + rest)[1..];
    assert t[0] == 'd';
  }

  /** Pages are guarded; API routes, static assets and the favicon are not,
      with or without a token. A path that merely contains "api" later on is
      still guarded. */
  lemma MatcherExamples(cookie: Option<string>)
    ensures Guarded("/") && Guarded("/dashboard") && Guarded("/dashboard/api")
    ensures !Guarded("/api/login") && !Guarded("/_next/static/app.js")
    ensures !Guarded("/_next/image") && !Guarded("/favicon.ico")
    ensures Route("/api/login", cookie) == Next
  {
    assert "/dashboard"[1..] == "dashboard" && "dashboard"[0] == 'd';
    assert "/dashboard/api"[1..] == "dashboard/api" && "dashboard/api"[0] == 'd';
    assert !StartsWith("dashboard", "api") && !StartsWith("dashboard", "_next/image");
    assert !StartsWith("dashboard/api", "api") && !StartsWith("dashboard/api", "favicon");
    assert "/api/login"[1..][..3] == "api";
    assert "/_next/static/app.js"[1..][..12] == "_next/static";
    assert "/_next/image"[1..][..11] == "_next/image";
    assert "/favicon.ico"[1..][..7] == "favicon";
    assert "/favicon.ico"[1..][8..11] == "ico";
  }
}
