/** The page middleware: which paths need a signed-in user, and where a
    request is sent instead of its page. */
module RouteGuard {
  import opened Text

  const ProtectedRoutes: seq<string> := ["/protected", "/api-docs", "/dashboard"]
  const SignInPath: string := "/sign-in"
  const SignUpPath: string := "/sign-up"
  const HomePath: string := "/"

  /** The path is the route itself or lies below it. */
  predicate UnderRoute(path: string, route: string) {
    path == route || StartsWith(path, route + "/")
  }

  /** `routes.some(route => pathname === route || pathname.startsWith(route + '/'))`. */
  function AnyRoute(routes: seq<string>, path: string): (r: bool)
    ensures r <==> exists i :: 0 <= i < |routes| && UnderRoute(path, routes[i])
  {
    if routes == [] then false
    else UnderRoute(path, routes[0]) || AnyRoute(routes[1..], path)
  }

  function IsProtectedRoute(path: string): bool {
    AnyRoute(ProtectedRoutes, path)
  }

  /** What the middleware answers. The sign-in redirect carries the
      original path as its `callbackUrl` parameter. */
  datatype Decision = RedirectToSignIn(callbackUrl: string) | RedirectHome | PassThrough

  /** `middleware`, for a request to `path` by a signed-in user or not. */
  function Decide(path: string, signedIn: bool): Decision {
    if IsProtectedRoute(path) && !signedIn then RedirectToSignIn(path)
    else if signedIn && (path == SignInPath || path == SignUpPath) then RedirectHome
    else PassThrough
  }

  /** Only the three routes and what lies below them are guarded: a path
      that merely begins with a route's name is not. */
  lemma ProtectedExamples()
    ensures IsProtectedRoute("/protected")
    ensures IsProtectedRoute("/dashboard/settings")
    ensures !IsProtectedRoute("/protectedX")
    ensures !IsProtectedRoute("/")
  {
    assert UnderRoute("/dashboard/settings", "/dashboard") by {
      assert ("/dashboard/settings")[..|"/dashboard/"|] == "/dashboard/";
    }
    assert !StartsWith("/protectedX", "/protected/") by {
      assert ("/protectedX")[10] != ("/protected/")[10];
    }
    assert !StartsWith("/protectedX", "/api-docs/") by { assert ("/protectedX")[1] != 'a'; }
    assert !StartsWith("/protectedX", "/dashboard/") by { assert ("/protectedX")[1] != 'd'; }
  }

  /** Everything below a guarded path is guarded too. */
  lemma SubpathsProtected(path: string, rest: string)
    requires IsProtectedRoute(path)
    ensures IsProtectedRoute(path + "/" + rest)
  {
    var i :| 0 <= i < |ProtectedRoutes| && UnderRoute(path, ProtectedRoutes[i]);
    var route := ProtectedRoutes[i];
    var p := path + "/" + rest;
    if path == route {
      assert p[..|route + "/"|] == route + "/";
    } else {
      assert p[..|route + "/"|] == path[..|route + "/"|];
    }
    assert UnderRoute(p, route);
  }

  /** A signed-out visitor is sent to sign in exactly for guarded paths, with
      the path to come back to; nothing else is redirected for them. */
  lemma SignedOut(path: string)
    ensures Decide(path, false) == (if IsProtectedRoute(path) then RedirectToSignIn(path) else PassThrough)
  {
  }

  /** A signed-in user is sent home exactly from the sign-in and sign-up
      pages, and is never sent to sign in. */
  lemma SignedIn(path: string)
    ensures Decide(path, true) == (if path == SignInPath || path == SignUpPath then RedirectHome else PassThrough)
  {
  }

  /** The redirect targets themselves pass: no redirect loops. */
  lemma TargetsPass()
    ensures Decide(SignInPath, false) == PassThrough
    ensures Decide(HomePath, true) == PassThrough
  {
    assert !StartsWith(SignInPath, "/protected/") by { assert SignInPath[1] != 'p'; }
    assert !StartsWith(SignInPath, "/api-docs/") by { assert SignInPath[1] != 'a'; }
    assert !StartsWith(SignInPath, "/dashboard/") by { assert SignInPath[1] != 'd'; }
  }

  /** The matcher's `/<route>/:path*` patterns, by route, and its exact
      paths. */
  const MatcherRoutes: seq<string> := ["/protected", "/api-docs", "/dashboard"]
  const MatcherPaths: seq<string> := ["/sign-in", "/sign-up"]

  /** The paths the middleware is configured to run on: a pattern's route
      with anything below it, or one of the exact paths. */
  predicate Matched(path: string) {
    AnyRoute(MatcherRoutes, path) || path in MatcherPaths
  }

  /** On a path outside the matcher, the middleware would have let the
      request through anyway, so running it only on matched paths changes
      no answer. */
  lemma MatcherChangesNothing(path: string, signedIn: bool)
    ensures Decide(path, signedIn) != PassThrough ==> Matched(path)
  {
  }
}
