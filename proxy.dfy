/** The request guard of src/proxy.ts: where a request is sent given who is
    signed in and the role stored for them.

    The session lookup and the `users` query are parameters: `loggedIn` says
    whether the session names a user, and `role` is the `role` of that user's
    row, `None` when the query returns no row. */
module Proxy {
  import opened Text

  /** A redirect to another path, or the session-refreshed response as is. */
  datatype Decision = Redirect(pathname: string) | PassThrough

  const ADMIN_PREFIX: string := "/admin"
  const RECRUITER_PREFIX: string := "/recruiter"

  /** The dashboard a signed-in user is sent to from the root path. */
  function HomeOf(role: string): (path: string)
    ensures path == "/admin/dashboard" <==> role == "admin"
    ensures path != "/admin/dashboard" ==> path == "/recruiter/dashboard"
  {
    if role == "admin" then "/admin/dashboard" else "/recruiter/dashboard"
  }

  /** No path starts with both guarded prefixes. */
  lemma PrefixesExclude(p: string)
    ensures !(StartsWith(p, ADMIN_PREFIX) && StartsWith(p, RECRUITER_PREFIX))
  {
    assert StartsWith(p, ADMIN_PREFIX) ==> p[1] == ADMIN_PREFIX[1] == 'a';
    assert StartsWith(p, RECRUITER_PREFIX) ==> p[1] == RECRUITER_PREFIX[1] == 'r';
  }

  /** `proxy`: the root redirect for a user with a row, then the admin guard,
      then the recruiter guard, else pass through. */
  function Route(loggedIn: bool, role: Option<string>, pathname: string): (d: Decision)
    ensures loggedIn && pathname == "/" && role.Some? ==> d == Redirect(HomeOf(role.value))
    ensures pathname == "/" && !(loggedIn && role.Some?) ==> d == PassThrough
    ensures StartsWith(pathname, ADMIN_PREFIX) && !loggedIn ==> d == Redirect("/login")
    ensures StartsWith(pathname, ADMIN_PREFIX) && loggedIn ==>
      (d == PassThrough <==> role == Some("admin"))
    ensures StartsWith(pathname, ADMIN_PREFIX) && loggedIn && role != Some("admin") ==>
      d == Redirect("/recruiter/dashboard")
    ensures StartsWith(pathname, RECRUITER_PREFIX) ==> (d == PassThrough <==> loggedIn)
    ensures StartsWith(pathname, RECRUITER_PREFIX) && !loggedIn ==> d == Redirect("/login")
    ensures pathname != "/" && !StartsWith(pathname, ADMIN_PREFIX) && !StartsWith(pathname, RECRUITER_PREFIX) ==>
      d == PassThrough
  {
    PrefixesExclude(pathname);
    if loggedIn && pathname == "/" && role.Some? then Redirect(HomeOf(role.value))
    else if StartsWith(pathname, ADMIN_PREFIX) then
      (if !loggedIn then Redirect("/login")
       else if role != Some("admin") then Redirect("/recruiter/dashboard")
       else PassThrough)
    else if StartsWith(pathname, RECRUITER_PREFIX) then
      (if !loggedIn then Redirect("/login") else PassThrough)
    else PassThrough
  }

  /** The prefix test is not segment-aware: '/administrator' is guarded like
      '/admin', while '/login' is open to everyone. */
  lemma AdministratorIsGuarded(role: Option<string>)
    ensures Route(false, role, "/administrator") == Redirect("/login")
    ensures role != Some("admin") ==> Route(true, role, "/administrator") == Redirect("/recruiter/dashboard")
    ensures Route(false, role, "/login") == PassThrough
  {
    assert "/administrator"[..|ADMIN_PREFIX|] == ADMIN_PREFIX;
    assert "/login"[1] != ADMIN_PREFIX[1] && "/login"[1] != RECRUITER_PREFIX[1];
  }

  /** Every redirect lands on a path that the same visitor is let through:
      one hop is enough and no request bounces forever. */
  lemma RedirectsSettle(loggedIn: bool, role: Option<string>, pathname: string)
    ensures Route(loggedIn, role, pathname).Redirect? ==>
      Route(loggedIn, role, Route(loggedIn, role, pathname).pathname) == PassThrough
  {
    var d := Route(loggedIn, role, pathname);
    if d.Redirect? {
      var login := "/login";
      assert login[1] != ADMIN_PREFIX[1] && login[1] != RECRUITER_PREFIX[1];
      var admin := "/admin/dashboard";
      assert admin[..|ADMIN_PREFIX|] == ADMIN_PREFIX;
      var recruiter := "/recruiter/dashboard";
      assert recruiter[..|RECRUITER_PREFIX|] == RECRUITER_PREFIX;
      assert d.pathname == login || d.pathname == admin || d.pathname == recruiter;
      if d.pathname == admin {
        assert loggedIn && role == Some("admin");
      } else if d.pathname == recruiter {
        assert loggedIn;
      }
    }
  }

  /** Whatever the role, a signed-in user reaches every recruiter page, and a
      visitor without a session is sent to sign in. */
  lemma RecruiterPagesNeedOnlyASession(role: Option<string>, pathname: string)
    requires StartsWith(pathname, RECRUITER_PREFIX)
    ensures Route(true, role, pathname) == PassThrough
    ensures Route(false, role, pathname) == Redirect("/login")
  {
  }

  /** The path prefixes (after the leading '/') and the file extensions that the
      exported `config.matcher` keeps away from the proxy. */
  const EXCLUDED_PREFIXES: seq<string> := ["_next/static", "_next/image", "favicon.ico", "Verbal-Assessment-Videos", "Written-Assessment-Videos"]
  const EXCLUDED_EXTENSIONS: seq<string> := ["svg", "png", "jpg", "jpeg", "gif", "webp", "mp4", "webm"]

  predicate EndsWith(s: string, suffix: string) {
    |suffix| <= |s| && s[|s| - |suffix|..] == suffix
  }

  /** `config.matcher`: a '/' followed by a rest that starts with none of the
      excluded prefixes and does not end in '.' and an excluded extension. */
  predicate Matched(pathname: string) {
    |pathname| >= 1 && pathname[0] == '/' &&
    (forall p :: p in EXCLUDED_PREFIXES ==> !StartsWith(pathname[1..], p)) &&
    (forall e :: e in EXCLUDED_EXTENSIONS ==> !EndsWith(pathname[1..], "." + e))
  }

  /** What a request meets: the proxy only for a matched path, otherwise the
      route is served untouched. */
  function Respond(loggedIn: bool, role: Option<string>, pathname: string): (d: Decision)
    ensures !Matched(pathname) ==> d == PassThrough
    ensures Matched(pathname) ==> d == Route(loggedIn, role, pathname)
  {
    if Matched(pathname) then Route(loggedIn, role, pathname) else PassThrough
  }

  /** A path whose first segment starts with none of the excluded prefixes'
      first letters, and whose last character ends no excluded extension, is
      matched. */
  lemma PlainPathIsMatched(pathname: string)
    requires |pathname| >= 2 && pathname[0] == '/'
    requires pathname[1] != '_' && pathname[1] != 'f' && pathname[1] != 'V' && pathname[1] != 'W'
    requires var last := pathname[|pathname| - 1];
      last != 'g' && last != 'f' && last != 'p' && last != '4' && last != 'm'
    ensures Matched(pathname)
  {
    var rest := pathname[1..];
    forall x | x in EXCLUDED_PREFIXES
      ensures !StartsWith(rest, x)
    {
      assert x[0] == '_' || x[0] == 'f' || x[0] == 'V' || x[0] == 'W';
      assert rest[0] == pathname[1];
    }
    forall e | e in EXCLUDED_EXTENSIONS
      ensures !EndsWith(rest, "." + e)
    {
      var last := e[|e| - 1];
      assert last == 'g' || last == 'f' || last == 'p' || last == '4' || last == 'm';
      assert rest[|rest| - 1] == pathname[|pathname| - 1];
      assert ("." + e)[|e|] == last;
    }
  }

  /** The pages the guard protects and the targets it sends visitors to are all
      matched, so the matcher changes nothing for them. */
  lemma GuardedPagesAreMatched()
    ensures Matched("/") && Matched("/login")
    ensures Matched("/admin/dashboard") && Matched("/recruiter/dashboard")
  {
    PlainPathIsMatched("/login");
    PlainPathIsMatched("/admin/dashboard");
    PlainPathIsMatched("/recruiter/dashboard");
  }

  /** An image or video file is served without the guard, even under '/admin':
      a visitor without a session gets '/admin/logo.png' while '/admin/users'
      sends them to sign in. */
  lemma AssetsBypassTheGuard(role: Option<string>)
    ensures Respond(false, role, "/admin/logo.png") == PassThrough
    ensures Route(false, role, "/admin/logo.png") == Redirect("/login")
    ensures Respond(false, role, "/admin/users") == Redirect("/login")
  {
    var logo, users := "/admin/logo.png", "/admin/users";
    assert EndsWith(logo[1..], "." + EXCLUDED_EXTENSIONS[1]);
    assert logo[..|ADMIN_PREFIX|] == ADMIN_PREFIX;
    assert users[..|ADMIN_PREFIX|] == ADMIN_PREFIX;
    PlainPathIsMatched(users);
  }

  /** With the matcher in front, every redirect still settles in one hop. */
  lemma RespondRedirectsSettle(loggedIn: bool, role: Option<string>, pathname: string)
    ensures Respond(loggedIn, role, pathname).Redirect? ==>
      Respond(loggedIn, role, Respond(loggedIn, role, pathname).pathname) == PassThrough
  {
    RedirectsSettle(loggedIn, role, pathname);
  }
}
