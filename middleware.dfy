/// The route guard of `middleware.ts`: which paths are public, API or auth
/// pages, and what happens to a request given whether someone is signed in.
/// The session lookup is an input: it names a user, names none, or throws. So
/// is the URL parser, through the predicate `resolves`.
module Middleware {
  import opened Wrappers
  import opened Strings

  const PublicRoutes: seq<string> := ["/products", "/product"]
  const LoginPath: string := "/auth/login"

  /** `publicRoutes.some(route => path === route || path.startsWith(route + '/'))`. */
  predicate IsPublicRoute(path: string) {
    exists i :: 0 <= i < |PublicRoutes| && (path == PublicRoutes[i] || StartsWith(path, PublicRoutes[i] + "/"))
  }

  predicate IsApiRoute(path: string) {
    StartsWith(path, "/api")
  }

  predicate IsAuthPage(path: string) {
    StartsWith(path, "/auth")
  }

  /** What `supabase.auth.getUser()` gives: a user, no user, or a throw caught by the handler. */
  datatype Session = SignedIn | SignedOut | LookupThrew

  /** The response the middleware returns. */
  datatype Decision =
    | Next                           // `supabaseResponse`: the request goes on
    | NextAfterError                 // `NextResponse.next()` from the `catch`
    | RedirectToLogin(redirect: string)
    | RedirectTo(target: string)

  /** `searchParams.get('redirect') || '/'`: the parameter when it is non-empty, otherwise the root. */
  function RedirectTarget(redirectParam: Option<string>): (t: string)
    ensures t != ""
    ensures redirectParam.Some? && redirectParam.value != "" ==> t == redirectParam.value
    ensures redirectParam.None? || redirectParam == Some("") ==> t == "/"
  {
    if redirectParam.Some? && redirectParam.value != "" then redirectParam.value else "/"
  }

  /**
   * The decision in the order the handler takes it. `resolves(t)` says whether
   * `new URL(t, request.url)` succeeds; when it throws, the `catch` lets the request on.
   */
  function Decide(session: Session, path: string, redirectParam: Option<string>, resolves: string -> bool): Decision {
    if session.LookupThrew? then NextAfterError
    else if session.SignedOut? && !IsAuthPage(path) && !IsApiRoute(path) && !IsPublicRoute(path) then
      RedirectToLogin(path)
    else if session.SignedIn? && StartsWith(path, "/auth") then
      if resolves(RedirectTarget(redirectParam)) then RedirectTo(RedirectTarget(redirectParam)) else NextAfterError
    else Next
  }

  // ---------------------------------------------------------------------
  // Properties

  /** A path is public exactly when it is one of the two catalog roots or lies below one. */
  lemma IsPublicRouteMeaning(path: string)
    ensures IsPublicRoute(path) <==>
              path == "/products" || path == "/product"
              || StartsWith(path, "/products/") || StartsWith(path, "/product/")
  {
    if path == "/products" || StartsWith(path, "/products/") {
      assert PublicRoutes[0] == "/products";
    }
    if path == "/product" || StartsWith(path, "/product/") {
      assert PublicRoutes[1] == "/product";
    }
  }

  /** The public test is not a bare prefix test: "/productsx" is neither root nor below one. */
  lemma NearMissIsNotPublic()
    ensures !IsPublicRoute("/productsx") && IsPublicRoute("/products/abc")
  {
    IsPublicRouteMeaning("/productsx");
    IsPublicRouteMeaning("/products/abc");
    assert "/productsx"[9] == 'x';
    assert "/productsx"[8] == 's';
    assert "/products/abc"[..10] == "/products/";
  }

  /** The auth test is a bare prefix test, so "/authors" counts as an auth page. */
  lemma AuthorsIsAuthPage(resolves: string -> bool)
    ensures IsAuthPage("/authors")
    ensures Decide(SignedOut, "/authors", None, resolves) == Next
    ensures resolves("/") ==> Decide(SignedIn, "/authors", None, resolves) == RedirectTo("/")
  {
    assert "/authors"[..5] == "/auth";
  }

  /** With no user, only a path that is none of auth, API or public is sent to the login page, carrying the path. */
  lemma SignedOutDecision(path: string, redirectParam: Option<string>, resolves: string -> bool)
    ensures Decide(SignedOut, path, redirectParam, resolves).RedirectToLogin? <==>
              !IsAuthPage(path) && !IsApiRoute(path) && !IsPublicRoute(path)
    ensures Decide(SignedOut, path, redirectParam, resolves).RedirectToLogin? ==>
              Decide(SignedOut, path, redirectParam, resolves).redirect == path
    ensures !Decide(SignedOut, path, redirectParam, resolves).RedirectToLogin? ==>
              Decide(SignedOut, path, redirectParam, resolves) == Next
  {
  }

  /**
   * A signed-in user is redirected only away from auth pages, to the redirect parameter
   * or "/", and only when that target resolves to a URL; a target that does not makes
   * `new URL` throw, and the request passes.
   */
  lemma SignedInDecision(path: string, redirectParam: Option<string>, resolves: string -> bool)
    ensures Decide(SignedIn, path, redirectParam, resolves).RedirectTo? <==>
              IsAuthPage(path) && resolves(RedirectTarget(redirectParam))
    ensures Decide(SignedIn, path, redirectParam, resolves).RedirectTo? ==>
              Decide(SignedIn, path, redirectParam, resolves).target
              == (if redirectParam.Some? && redirectParam.value != "" then redirectParam.value else "/")
    ensures IsAuthPage(path) && !resolves(RedirectTarget(redirectParam)) ==>
              Decide(SignedIn, path, redirectParam, resolves) == NextAfterError
    ensures !IsAuthPage(path) ==> Decide(SignedIn, path, redirectParam, resolves) == Next
  {
  }

  /** A throw during the session lookup never blocks the request. */
  lemma LookupFailurePasses(path: string, redirectParam: Option<string>, resolves: string -> bool)
    ensures Decide(LookupThrew, path, redirectParam, resolves) == NextAfterError
  {
  }

  /**
   * The `catch` answers exactly the two throws the handler can meet: the session lookup,
   * and the redirect target of a signed-in user on an auth page that is no URL.
   */
  lemma CaughtErrorsPass(session: Session, path: string, redirectParam: Option<string>, resolves: string -> bool)
    ensures Decide(session, path, redirectParam, resolves) == NextAfterError <==>
              || session.LookupThrew?
              || (session.SignedIn? && IsAuthPage(path) && !resolves(RedirectTarget(redirectParam)))
  {
  }

  /** Nobody is redirected to the login page from the login page itself. */
  lemma LoginPageNeverLoops(session: Session, redirectParam: Option<string>, resolves: string -> bool)
    ensures !Decide(session, LoginPath, redirectParam, resolves).RedirectToLogin?
  {
    assert LoginPath[..5] == "/auth";
  }
}
