/**
 * The route table and its two guards. A path is given as its list of
 * segments (`/r/abc` is `["r", "abc"]`, `/` is `[]`); the session is reduced
 * to whether a user is signed in.
 */
module AppRoutes {
  import Dashboard
  datatype Page = DashboardPage | NewLinkPage | LoginPage | RegisterPage | RedirectPage(code: string) | InvalidPage

  /** What a route renders: a page, or a redirect to another path. */
  datatype Element = Show(page: Page) | NavigateTo(path: seq<string>)

  const HomePath: seq<string> := []
  const LoginPath: seq<string> := ["login"]

  predicate IsPrivate(p: Page) { p == DashboardPage || p == NewLinkPage }
  predicate IsPublicOnly(p: Page) { p == LoginPage || p == RegisterPage }

  /** `PrivateRoute`: the outlet for a signed-in user, "/login" otherwise. */
  function PrivateRoute(signedIn: bool, outlet: Page): (e: Element)
    ensures e == NavigateTo(LoginPath) <==> !signedIn
    ensures e == Show(outlet) <==> signedIn
  {
    if !signedIn then NavigateTo(LoginPath) else Show(outlet)
  }

  /** `PublicRoute`: the outlet for a visitor, "/" once signed in. */
  function PublicRoute(signedIn: bool, outlet: Page): (e: Element)
    ensures e == NavigateTo(HomePath) <==> signedIn
    ensures e == Show(outlet) <==> !signedIn
  {
    if signedIn then NavigateTo(HomePath) else Show(outlet)
  }

  /** Whatever the session, exactly one of the two guards lets its outlet
      through. */
  lemma GuardsAreComplementary(signedIn: bool, privateOutlet: Page, publicOutlet: Page)
    ensures PrivateRoute(signedIn, privateOutlet).Show? != PublicRoute(signedIn, publicOutlet).Show?
  {
  }

  /** The `<Routes>` table, with the fallback `*` sending every other path
      home. Each page is shown at its own path only: the dashboard at "/" and
      the create form at "/new" to a signed-in user, the login and
      registration forms to a visitor, the error page and the redirect page
      (with the code from the path) to anyone. A visitor at a private path is
      sent to "/login". */
  function Resolve(path: seq<string>, signedIn: bool): (e: Element)
    ensures e.Show? && IsPrivate(e.page) ==> signedIn
    ensures e.Show? && IsPublicOnly(e.page) ==> !signedIn
    ensures e == Show(DashboardPage) <==> path == HomePath && signedIn
    ensures e == Show(NewLinkPage) <==> path == ["new"] && signedIn
    ensures e == Show(LoginPage) <==> path == LoginPath && !signedIn
    ensures e == Show(RegisterPage) <==> path == ["register"] && !signedIn
    ensures e == Show(InvalidPage) <==> path == ["invalid"]
    ensures e.Show? && e.page.RedirectPage? <==> |path| == 2 && path[0] == "r" && path[1] != ""
    ensures e.Show? && e.page.RedirectPage? ==> e.page.code == path[1]
    ensures e == NavigateTo(LoginPath) <==> !signedIn && (path == HomePath || path == ["new"])
  {
    if path == [] then PrivateRoute(signedIn, DashboardPage)
    else if path == ["new"] then PrivateRoute(signedIn, NewLinkPage)
    else if path == ["login"] then PublicRoute(signedIn, LoginPage)
    else if path == ["register"] then PublicRoute(signedIn, RegisterPage)
    else if |path| == 2 && path[0] == "r" && path[1] != "" then Show(RedirectPage(path[1]))
    else if path == ["invalid"] then Show(InvalidPage)
    else NavigateTo(HomePath)
  }

  predicate IsKnownPath(path: seq<string>) {
    path == [] || path == ["new"] || path == ["login"] || path == ["register"] ||
    (|path| == 2 && path[0] == "r" && path[1] != "") || path == ["invalid"]
  }

  /** The redirect and the error page sit outside both guards. */
  lemma OpenRoutesReachable(code: string, signedIn: bool)
    requires code != ""
    ensures Resolve(["r", code], signedIn) == Show(RedirectPage(code))
    ensures Resolve(["invalid"], signedIn) == Show(InvalidPage)
  {
  }

  /** A path is sent home exactly when it is outside the table, or when it is
      the login or registration page and a user is signed in. */
  lemma UnknownPathsGoHome(path: seq<string>, signedIn: bool)
    ensures Resolve(path, signedIn) == NavigateTo(HomePath) <==>
      !IsKnownPath(path) || (signedIn && (path == ["login"] || path == ["register"]))
  {
  }

  /** Following redirects, up to `hops` of them. */
  function Follow(path: seq<string>, signedIn: bool, hops: nat): Element
    decreases hops
  {
    match Resolve(path, signedIn)
    case Show(p) => Show(p)
    case NavigateTo(next) => if hops == 0 then NavigateTo(next) else Follow(next, signedIn, hops - 1)
  }

  /** Every path settles on a page after at most two redirects (an unknown
      path goes home, and home sends a visitor to the login page), and that
      page suits the session: a visitor never lands on a private page, a
      signed-in user never on the login or registration page. */
  lemma SettlesWithinTwoRedirects(path: seq<string>, signedIn: bool)
    ensures Follow(path, signedIn, 2).Show?
    ensures !signedIn ==> !IsPrivate(Follow(path, signedIn, 2).page)
    ensures signedIn ==> !IsPublicOnly(Follow(path, signedIn, 2).page)
  {
    assert Resolve(HomePath, signedIn) == if signedIn then Show(DashboardPage) else NavigateTo(LoginPath);
    assert Resolve(LoginPath, signedIn) == if signedIn then NavigateTo(HomePath) else Show(LoginPage);
  }

  // ---------------------------------------------------------------------------
  // From a URL to its path segments

  /** The length of the segment at the front of `s`: everything up to the
      first '/'. */
  function SegmentLength(s: string): (n: nat)
    ensures n <= |s|
    ensures forall k :: 0 <= k < n ==> s[k] != '/'
    ensures n < |s| ==> s[n] == '/'
  {
    if s == [] || s[0] == '/' then 0 else 1 + SegmentLength(s[1..])
  }

  /** The non-empty pieces of `s` between slashes, in order. */
  function Segments(s: string): seq<string>
    decreases |s|
  {
    if s == [] then []
    else if s[0] == '/' then Segments(s[1..])
    else
      var n := SegmentLength(s);
      [s[..n]] + Segments(s[n..])
  }

  lemma {:induction false} SlashFreeIsOneSegment(s: string)
    requires '/' !in s
    ensures SegmentLength(s) == |s|
  {
    if s != [] {
      assert '/' !in s[1..] by {
        forall k | 0 <= k < |s| - 1 ensures s[1..][k] != '/' { assert s[1..][k] == s[k + 1]; }
      }
      SlashFreeIsOneSegment(s[1..]);
    }
  }

  /** A slash-free code is a single segment, and `r/` followed by it is two. */
  lemma CodeSegments(code: string)
    requires code != "" && '/' !in code
    ensures Segments(code) == [code]
    ensures Segments("r/" + code) == ["r", code]
  {
    SlashFreeIsOneSegment(code);
    assert code[..|code|] == code && code[|code|..] == [];
    assert Segments(code) == [code] + Segments([]);
    var p := "r/" + code;
    var rest := p[1..];
    assert rest == "/" + code && rest[0] == '/';
    assert SegmentLength(rest) == 0;
    assert SegmentLength(p) == 1;
    assert rest[1..] == code;
    assert Segments(rest) == Segments(code);
    assert Segments(p) == [p[..1]] + Segments(rest);
    assert p[..1] == "r";
  }

  /** The path segments of a URL on `origin`. */
  function PathOf(origin: string, url: string): seq<string>
    requires |origin| <= |url|
  {
    Segments(url[|origin|..])
  }

  /** The dashboard's short URL is `origin/code`, which no route but the
      fallback matches unless the code happens to name a page: following it
      goes home instead of to the redirect page. */
  lemma ShortUrlMissesRedirectRoute(origin: string, code: string, signedIn: bool)
    requires code != "" && '/' !in code
    requires code !in {"new", "login", "register", "invalid"}
    ensures Resolve(PathOf(origin, Dashboard.FullShortUrl(origin, code)), signedIn) == NavigateTo(HomePath)
  {
    var url := Dashboard.FullShortUrl(origin, code);
    assert url[|origin|..] == "/" + code;
    assert Segments("/" + code) == Segments(code) by {
      assert ("/" + code)[1..] == code;
    }
    CodeSegments(code);
  }

  /** With `/r/` in front of the code the URL reaches the redirect page, for
      every code and whether or not anyone is signed in. */
  lemma RedirectUrlReachesRedirectPage(origin: string, code: string, signedIn: bool)
    requires code != "" && '/' !in code
    ensures Resolve(PathOf(origin, Dashboard.RedirectShortUrl(origin, code)), signedIn) == Show(RedirectPage(code))
  {
    var url := Dashboard.RedirectShortUrl(origin, code);
    assert Segments("/r/" + code) == Segments("r/" + code) by {
      assert ("/r/" + code)[1..] == "r/" + code;
    }
    CodeSegments(code);
  }
}
