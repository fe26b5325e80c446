/**
 The request middleware: which host, path and session lead to which response, and
 where a browser ends up that follows its redirects.
 */
module Middleware {
  import opened Common

  const BARE := "securewarp.com"
  const WWW := "www.securewarp.com"
  const PDF := "pdf.securewarp.com"

  /** The session cookie as the middleware sees it; `valid` is what jwtVerify says given a usable secret. */
  datatype Cookie = Absent | Token(valid: bool)

  /**
   `cookies` is the cookie the browser sends to each host. `hostOf` is the URL
   parser's reading of an authority as the host the browser then asks for, None if
   the URL is invalid.
   */
  datatype Setting = Setting(maintenance: bool, secretLength: nat, cookies: string -> Cookie,
                             hostOf: string -> Option<string>)

  /** `host` is the Host header in lower case, empty if there is none; `path` comes from a parsed URL. */
  datatype Request = Request(host: string, path: string, search: string)

  datatype Response = Next | Closed | ServerError | Redirect(to: Request)

  predicate StartsWith(s: string, prefix: string) {
    |s| >= |prefix| && s[..|prefix|] == prefix
  }

  // -------------------------------------------------------------------
  // The matcher and the path tests
  // -------------------------------------------------------------------

  predicate Alphanumeric(c: char) {
    'a' <= c <= 'z' || 'A' <= c <= 'Z' || '0' <= c <= '9'
  }

  predicate EndsInExtension(path: string) {
    exists k :: 0 <= k < |path| - 1 && path[k] == '.' && forall i :: k < i < |path| ==> Alphanumeric(path[i])
  }

  /** Build output and public files never reach the middleware. */
  predicate Matched(path: string) {
    && !StartsWith(path, "/_next/static") && !StartsWith(path, "/_next/image")
    && !(path != "" && EndsInExtension(path[1..]))
  }

  predicate Under(path: string, prefix: string) {
    path == prefix || StartsWith(path, prefix + "/")
  }

  predicate MaintenanceExempt(path: string) {
    Under(path, "/api/billing/webhook") || Under(path, "/api/cron") || Under(path, "/api/admin/cleanup-stale")
  }

  predicate Protected(path: string) {
    StartsWith(path, "/drive") || StartsWith(path, "/admin") || StartsWith(path, "/welcome")
  }

  predicate AuthRoute(path: string) {
    StartsWith(path, "/login")
  }

  predicate Viewer(path: string) {
    path == "/viewer" || path == "/viewer/docx" || path == "/viewer/xlsx"
  }

  /** A path that a URL parser takes for an authority followed by a path. */
  predicate NetworkPath(path: string) {
    StartsWith(path, "//")
  }

  function FirstSlash(s: string): (k: nat)
    ensures k <= |s| && (k < |s| ==> s[k] == '/') && forall i :: 0 <= i < k ==> s[i] != '/'
  {
    if s == "" || s[0] == '/' then 0 else 1 + FirstSlash(s[1..])
  }

  function Authority(path: string): string
    requires NetworkPath(path)
  {
    path[2..][..FirstSlash(path[2..])]
  }

  function PathBehind(path: string): string
    requires NetworkPath(path)
  {
    var rest := path[2..][FirstSlash(path[2..])..];
    if rest == "" then "/" else rest
  }

  /** new URL(path + search, "https://securewarp.com") */
  function OnBareHost(g: Setting, path: string, search: string): Response {
    if !NetworkPath(path) then Redirect(Request(BARE, path, search))
    else if g.hostOf(Authority(path)).None? then ServerError
    else Redirect(Request(g.hostOf(Authority(path)).value, PathBehind(path), search))
  }

  // -------------------------------------------------------------------
  // The middleware
  // -------------------------------------------------------------------

  predicate SecretUsable(g: Setting) {
    g.secretLength >= 32
  }

  predicate ClosedFor(g: Setting, r: Request) {
    g.maintenance && !MaintenanceExempt(r.path)
  }

  function CheckSession(g: Setting, r: Request): Response {
    if !Protected(r.path) && !AuthRoute(r.path) then Next
    else
      var cookie := g.cookies(r.host);
      if cookie.Token? && !SecretUsable(g) then Redirect(Request(r.host, "/login", ""))
      else
        var authenticated := cookie.Token? && cookie.valid;
        if Protected(r.path) && !authenticated then Redirect(Request(r.host, "/login", ""))
        else if AuthRoute(r.path) && authenticated then Redirect(Request(r.host, "/drive", ""))
        else Next
  }

  function Respond(g: Setting, r: Request): Response {
    if !Matched(r.path) then Next
    else if r.host == WWW && !StartsWith(r.path, "/api/billing/webhook") then OnBareHost(g, r.path, r.search)
    else if ClosedFor(g, r) then Closed
    else if r.host == PDF then if Viewer(r.path) then Next else OnBareHost(g, r.path, "")
    else CheckSession(g, r)
  }

  /**
   Maintenance closes everything but its exemptions, except that www is sent on first; an
   authority that is no host is an error; the PDF host serves the viewer pages only.
   */
  lemma HostsAnswerExactly(g: Setting, r: Request)
    requires Matched(r.path)
    ensures Respond(g, r) == Closed <==>
            && g.maintenance && !MaintenanceExempt(r.path)
            && (r.host == WWW ==> StartsWith(r.path, "/api/billing/webhook"))
    ensures Respond(g, r) == ServerError <==>
            && NetworkPath(r.path) && g.hostOf(Authority(r.path)).None?
            && (r.host == WWW || (r.host == PDF && !ClosedFor(g, r)))
    ensures r.host == PDF && !ClosedFor(g, r) ==> (Respond(g, r) == Next <==> Viewer(r.path))
  {
    HostsDiffer();
    if StartsWith(r.path, "/api/billing/webhook") {
      ExemptLetters(r.path);
      NoNetworkPath(r.path);
    }
    if Viewer(r.path) {
      NoNetworkPath(r.path);
    }
  }

  /**
   On every other host a session route sends the signed-out to /login and the signed-in
   from /login to /drive; without a usable secret it sends whoever has a token to /login.
   */
  lemma SessionsAnswerExactly(g: Setting, r: Request)
    requires Matched(r.path) && r.host != WWW && r.host != PDF && !ClosedFor(g, r)
    ensures g.secretLength >= 32 ==>
              Respond(g, r) ==
              if g.cookies(r.host) == Token(true)
              then if AuthRoute(r.path) then Redirect(Request(r.host, "/drive", "")) else Next
              else if Protected(r.path) then Redirect(Request(r.host, "/login", "")) else Next
    ensures g.secretLength < 32 ==>
              Respond(g, r) ==
              if Protected(r.path) || (AuthRoute(r.path) && g.cookies(r.host).Token?)
              then Redirect(Request(r.host, "/login", "")) else Next
  {
    PathsDiffer(r.path);
  }

  lemma NoNetworkPath(path: string)
    requires |path| > 1 && path[1] != '/'
    ensures !NetworkPath(path)
  {
    assert "//"[1] == '/';
  }

  // -------------------------------------------------------------------
  // Which paths are which
  // -------------------------------------------------------------------

  /** The path itself and everything below it, but not what merely begins with the same letters. */
  lemma UnderExactly(path: string, prefix: string)
    ensures Under(path, prefix) <==> path == prefix || exists rest :: path == prefix + "/" + rest
  {
    if StartsWith(path, prefix + "/") {
      assert path == prefix + "/" + path[|prefix| + 1..];
    }
    if rest :| path == prefix + "/" + rest {
      assert path[..|prefix| + 1] == prefix + "/";
    }
  }

  /** By code point: digits, capitals, small letters. */
  lemma AlphanumericExactly(c: char)
    ensures Alphanumeric(c) <==> 48 <= c as int <= 57 || 65 <= c as int <= 90 || 97 <= c as int <= 122
  {
  }

  /** A name, a dot and a nonempty extension of letters and digits. */
  lemma EndsInExtensionExactly(path: string)
    ensures EndsInExtension(path) <==>
            exists name, ext :: path == name + "." + ext && ext != "" && forall c :: c in ext ==> Alphanumeric(c)
  {
    if EndsInExtension(path) {
      var k :| 0 <= k < |path| - 1 && path[k] == '.' && forall i :: k < i < |path| ==> Alphanumeric(path[i]);
      assert path == path[..k] + "." + path[k + 1..];
    }
    if name, ext :| path == name + "." + ext && ext != "" && forall c :: c in ext ==> Alphanumeric(c) {
      assert path[|name|] == '.';
      assert forall i :: |name| < i < |path| ==> path[i] == ext[i - |name| - 1];
    }
  }

  lemma Starts(prefix: string, rest: string)
    ensures StartsWith(prefix + rest, prefix)
  {
  }

  /** The pages for users and the routes that stay open during maintenance are those with these names. */
  lemma NamedPaths(rest: string)
    ensures Protected("/drive" + rest) && Protected("/admin" + rest) && Protected("/welcome" + rest)
    ensures AuthRoute("/login" + rest)
    ensures MaintenanceExempt("/api/billing/webhook") && MaintenanceExempt("/api/billing/webhook/" + rest)
    ensures MaintenanceExempt("/api/cron") && MaintenanceExempt("/api/cron/" + rest)
    ensures MaintenanceExempt("/api/admin/cleanup-stale") && MaintenanceExempt("/api/admin/cleanup-stale/" + rest)
    ensures Viewer("/viewer") && Viewer("/viewer/docx") && Viewer("/viewer/xlsx")
    ensures !Matched("/_next/static" + rest) && !Matched("/_next/image" + rest)
  {
    Starts("/drive", rest);
    Starts("/admin", rest);
    Starts("/welcome", rest);
    Starts("/login", rest);
    Starts("/_next/static", rest);
    Starts("/_next/image", rest);
    UnderExactly("/api/billing/webhook/" + rest, "/api/billing/webhook");
    UnderExactly("/api/cron/" + rest, "/api/cron");
    UnderExactly("/api/admin/cleanup-stale/" + rest, "/api/admin/cleanup-stale");
    assert "/api/billing/webhook/" == "/api/billing/webhook" + "/";
    assert "/api/cron/" == "/api/cron" + "/";
    assert "/api/admin/cleanup-stale/" == "/api/admin/cleanup-stale" + "/";
  }

  /** The middleware runs on no path that ends in an extension and on every other outside the build output. */
  lemma MatchedExactly(path: string)
    ensures Matched(path) <==>
            && !StartsWith(path, "/_next/static") && !StartsWith(path, "/_next/image")
            && !exists name, ext :: |name| > 0 && path == name + "." + ext && ext != ""
                                    && forall c :: c in ext ==> Alphanumeric(c)
  {
    if path != "" {
      EndsInExtensionExactly(path[1..]);
      if name, ext :| path[1..] == name + "." + ext && ext != "" && forall c :: c in ext ==> Alphanumeric(c) {
        assert path == [path[0]] + name + "." + ext;
      }
      if name, ext :| |name| > 0 && path == name + "." + ext && ext != "" && forall c :: c in ext ==> Alphanumeric(c) {
        assert path[1..] == name[1..] + "." + ext;
      }
    }
  }

  // -------------------------------------------------------------------
  // Following redirects
  // -------------------------------------------------------------------

  /** The chain ends after at most `n` redirects. */
  predicate StopsWithin(g: Setting, r: Request, n: nat)
    decreases n
  {
    var response := Respond(g, r);
    !response.Redirect? || (n > 0 && StopsWithin(g, response.to, n - 1))
  }

  ghost predicate Stops(g: Setting, r: Request) {
    exists n: nat :: StopsWithin(g, r, n)
  }

  /** Redirected for its host: one that serves no such path, and an address the URL parser accepts. */
  predicate SentElsewhere(g: Setting, r: Request) {
    && Matched(r.path)
    && ((r.host == WWW && !StartsWith(r.path, "/api/billing/webhook"))
        || (r.host == PDF && !ClosedFor(g, r) && !Viewer(r.path)))
    && (NetworkPath(r.path) ==> g.hostOf(Authority(r.path)).Some?)
  }

  /** Where it is sent: the bare host, or the host that a path with two slashes names; only www keeps the query. */
  function Hop(g: Setting, r: Request): Request
    requires SentElsewhere(g, r)
  {
    var search := if r.host == WWW then r.search else "";
    if NetworkPath(r.path) then Request(g.hostOf(Authority(r.path)).value, PathBehind(r.path), search)
    else Request(BARE, r.path, search)
  }

  /** Redirected for its session, by a server with a usable secret: signed out on a page for users, or in on /login. */
  predicate SentForSession(g: Setting, r: Request) {
    && Matched(r.path) && r.host != WWW && r.host != PDF && !ClosedFor(g, r)
    && if g.cookies(r.host) == Token(true) then AuthRoute(r.path) else Protected(r.path)
  }

  /** The middleware redirects in these two cases only. */
  lemma RedirectsExactly(g: Setting, r: Request)
    ensures SentElsewhere(g, r) <==> Respond(g, r).Redirect? && (r.host == WWW || r.host == PDF)
    ensures SentElsewhere(g, r) ==> Respond(g, r) == Redirect(Hop(g, r))
    ensures SentElsewhere(g, r) && r.path != "" ==> Hop(g, r).path != ""
    ensures SecretUsable(g) ==> (Respond(g, r).Redirect? <==> SentElsewhere(g, r) || SentForSession(g, r))
  {
    PathsDiffer(r.path);
    HostsDiffer();
  }

  /** How many more redirects there can be: path lengths while the host is wrong, then at most one. */
  function Measure(g: Setting, r: Request): nat {
    if SentElsewhere(g, r) then if NetworkPath(r.path) then 2 + |r.path| else 2
    else if Respond(g, r).Redirect? then 1 else 0
  }

  /** A request for a session route that carries a token while the server has no usable secret. */
  predicate Stuck(g: Setting, r: Request) {
    && Matched(r.path) && (Protected(r.path) || AuthRoute(r.path))
    && r.host != WWW && r.host != PDF
    && !ClosedFor(g, r)
    && g.cookies(r.host).Token? && !SecretUsable(g)
  }

  lemma KnownPaths()
    ensures Matched("/login") && AuthRoute("/login") && !Protected("/login") && !MaintenanceExempt("/login")
    ensures Matched("/drive") && Protected("/drive") && !AuthRoute("/drive") && !MaintenanceExempt("/drive")
    ensures !NetworkPath("/login") && !NetworkPath("/drive")
  {
    assert "/login"[..2] == "/l" && "/drive"[..2] == "/d";
    assert "/login"[..6] == "/login" && "/drive"[..6] == "/drive";
    assert "/login"[1..] == "login" && "/drive"[1..] == "drive";
    assert "/login"[..6][1] == 'l' && "/drive"[1] == 'd' && "/admin"[1] == 'a';
    assert !EndsInExtension("login") && !EndsInExtension("drive");
  }

  // What the first letters of a path say.

  lemma ProtectedLetters(path: string)
    requires Protected(path)
    ensures |path| > 5 && (path[1] == 'd' || path[1] == 'w' || (path[1] == 'a' && path[2] == 'd'))
  {
    assert StartsWith(path, "/drive") ==> path[1] == "/drive"[1];
    assert StartsWith(path, "/admin") ==> path[1] == "/admin"[1] && path[2] == "/admin"[2];
    assert StartsWith(path, "/welcome") ==> path[1] == "/welcome"[1];
  }

  lemma AuthLetters(path: string)
    requires AuthRoute(path)
    ensures |path| > 5 && path[1] == 'l'
  {
    assert path[1] == "/login"[1];
  }

  lemma ApiLetters(path: string, prefix: string)
    requires StartsWith(path, prefix) && StartsWith(prefix, "/api/")
    ensures |path| > 4 && path[1] == 'a' && path[2] == 'p'
  {
    assert prefix[..5][1] == "/api/"[1] && prefix[..5][2] == "/api/"[2];
    assert path[1] == path[..|prefix|][1] && path[2] == path[..|prefix|][2];
  }

  lemma ExemptLetters(path: string)
    requires MaintenanceExempt(path) || StartsWith(path, "/api/billing/webhook")
    ensures |path| > 4 && path[1] == 'a' && path[2] == 'p'
  {
    var a, b, c := "/api/billing/webhook", "/api/cron", "/api/admin/cleanup-stale";
    assert a[..5] == "/api/" && b[..5] == "/api/" && c[..5] == "/api/";
    if StartsWith(path, a) { ApiLetters(path, a); }
    if StartsWith(path, b) { ApiLetters(path, b); }
    if StartsWith(path, c) { ApiLetters(path, c); }
    assert Under(path, a) ==> StartsWith(path, a) by { SlashOrNot(path, a); }
    assert Under(path, b) ==> StartsWith(path, b) by { SlashOrNot(path, b); }
    assert Under(path, c) ==> StartsWith(path, c) by { SlashOrNot(path, c); }
  }

  lemma SlashOrNot(path: string, prefix: string)
    ensures Under(path, prefix) ==> StartsWith(path, prefix)
  {
    if StartsWith(path, prefix + "/") {
      assert path[..|prefix|] == path[..|prefix| + 1][..|prefix|];
    }
  }

  lemma PathsDiffer(path: string)
    ensures !(Protected(path) && AuthRoute(path))
    ensures Protected(path) || AuthRoute(path) ==>
              !StartsWith(path, "/api/billing/webhook") && !NetworkPath(path) && !MaintenanceExempt(path)
  {
    if Protected(path) { ProtectedLetters(path); }
    if AuthRoute(path) { AuthLetters(path); }
    if MaintenanceExempt(path) || StartsWith(path, "/api/billing/webhook") { ExemptLetters(path); }
    assert NetworkPath(path) ==> path[1] == "//"[1];
  }

  /** One redirect for the session leads to a page that is not redirected again, unless the request is stuck. */
  lemma SessionRedirectSettles(g: Setting, r: Request)
    requires Respond(g, r).Redirect? && !SentElsewhere(g, r)
    ensures Stuck(g, r) ==> Respond(g, r).to == Request(r.host, "/login", "") && Stuck(g, Respond(g, r).to)
    ensures !Stuck(g, r) ==> !Respond(g, Respond(g, r).to).Redirect?
  {
    KnownPaths();
    PathsDiffer(r.path);
  }

  lemma HostsDiffer()
    ensures BARE != WWW && BARE != PDF && WWW != PDF
  {
    assert BARE[0] == 's' && WWW[0] == 'w' && PDF[0] == 'p';
  }

  lemma HostRedirectSettles(g: Setting, r: Request)
    requires SentElsewhere(g, r)
    ensures Measure(g, Respond(g, r).to) < Measure(g, r)
  {
    var to := Respond(g, r).to;
    PathsDiffer(r.path);
    HostsDiffer();
    if NetworkPath(r.path) {
      assert |to.path| < |r.path|;
    } else {
      assert to.host == BARE;
    }
  }

  /** Where host redirects end: the first request of the chain that is not redirected for its host. */
  function Settled(g: Setting, r: Request): Request
    decreases Measure(g, r)
  {
    if SentElsewhere(g, r) then HostRedirectSettles(g, r); Settled(g, Respond(g, r).to) else r
  }

  lemma {:induction false} StuckNeverStops(g: Setting, r: Request, n: nat)
    requires Stuck(g, r)
    ensures !StopsWithin(g, r, n)
    decreases n
  {
    PathsDiffer(r.path);
    if n > 0 {
      SessionRedirectSettles(g, r);
      StuckNeverStops(g, Respond(g, r).to, n - 1);
    }
  }

  lemma {:induction false} StopsLater(g: Setting, r: Request, n: nat, m: nat)
    requires StopsWithin(g, r, n) && n <= m
    ensures StopsWithin(g, r, m)
    decreases n
  {
    if Respond(g, r).Redirect? {
      StopsLater(g, Respond(g, r).to, n - 1, m - 1);
    }
  }

  lemma SessionStopsUnlessStuck(g: Setting, r: Request)
    requires !Stuck(g, r) && !SentElsewhere(g, r)
    ensures StopsWithin(g, r, Measure(g, r))
  {
    if Respond(g, r).Redirect? {
      SessionRedirectSettles(g, r);
      assert StopsWithin(g, Respond(g, r).to, 0);
    }
  }

  lemma OneHopMore(g: Setting, r: Request, n: nat)
    requires Respond(g, r).Redirect? && StopsWithin(g, Respond(g, r).to, n)
    ensures StopsWithin(g, r, n + 1)
  {
  }

  lemma {:induction false} StopsUnlessStuck(g: Setting, r: Request)
    requires !Stuck(g, Settled(g, r))
    ensures StopsWithin(g, r, Measure(g, r))
    decreases Measure(g, r)
  {
    if SentElsewhere(g, r) {
      var to := Respond(g, r).to;
      HostRedirectSettles(g, r);
      StopsUnlessStuck(g, to);
      OneHopMore(g, r, Measure(g, to));
      StopsLater(g, r, Measure(g, to) + 1, Measure(g, r));
    } else {
      SessionStopsUnlessStuck(g, r);
    }
  }

  lemma {:induction false} NeverStopsIfStuck(g: Setting, r: Request, n: nat)
    requires Stuck(g, Settled(g, r))
    ensures !StopsWithin(g, r, n)
    decreases n
  {
    if !SentElsewhere(g, r) {
      StuckNeverStops(g, r, n);
    } else if n > 0 {
      NeverStopsIfStuck(g, Respond(g, r).to, n - 1);
    }
  }

  /**
   Following the redirects from any host and path ends, except exactly where it leads
   to a session route with a token while the secret is missing or too short: then
   /login redirects to itself for ever.
   */
  lemma ChainsStopExactly(g: Setting, r: Request)
    ensures Stops(g, r) <==> !Stuck(g, Settled(g, r))
    ensures SecretUsable(g) ==> !Stuck(g, Settled(g, r)) && StopsWithin(g, r, Measure(g, r))
  {
    if Stuck(g, Settled(g, r)) {
      forall n: nat
        ensures !StopsWithin(g, r, n)
      {
        NeverStopsIfStuck(g, r, n);
      }
    } else {
      StopsUnlessStuck(g, r);
    }
  }

  /** With a usable secret two redirects are enough for every path that does not begin with two slashes. */
  lemma TwoHopsAreEnough(g: Setting, r: Request)
    requires SecretUsable(g) && !NetworkPath(r.path)
    ensures StopsWithin(g, r, 2)
  {
    ChainsStopExactly(g, r);
    StopsLater(g, r, Measure(g, r), 2);
  }

  /**
   The path begins with two slashes and names a host that redirects once more for its
   host, to a request that is to be redirected yet again.
   */
  predicate RedirectsThrice(g: Setting, r: Request) {
    && NetworkPath(r.path) && SentElsewhere(g, r) && SentElsewhere(g, Hop(g, r))
    && var third := Hop(g, Hop(g, r));
    SentElsewhere(g, third) || SentForSession(g, third)
  }

  /** Two redirects are too few for such paths only. */
  lemma TwoHopsExactly(g: Setting, r: Request)
    requires SecretUsable(g)
    ensures StopsWithin(g, r, 2) <==> !RedirectsThrice(g, r)
  {
    RedirectsExactly(g, r);
    if !NetworkPath(r.path) {
      TwoHopsAreEnough(g, r);
    } else if SentElsewhere(g, r) {
      var to := Hop(g, r);
      RedirectsExactly(g, to);
      OneHopLeft(g, to);
      if SentElsewhere(g, to) {
        RedirectsExactly(g, Hop(g, to));
      } else if SentForSession(g, to) {
        SessionRedirectSettles(g, to);
      }
    } else if SentForSession(g, r) {
      PathsDiffer(r.path);
    }
  }

  lemma OneHopLeft(g: Setting, r: Request)
    ensures StopsWithin(g, r, 1) <==> !Respond(g, r).Redirect? || !Respond(g, Respond(g, r).to).Redirect?
  {
    if Respond(g, r).Redirect? {
      assert StopsWithin(g, Respond(g, r).to, 0) <==> !Respond(g, Respond(g, r).to).Redirect?;
    }
  }

  // -------------------------------------------------------------------
  // Where the chain ends
  // -------------------------------------------------------------------

  /** The request reached after following at most `n` redirects. */
  function Reached(g: Setting, r: Request, n: nat): Request
    decreases n
  {
    if n > 0 && Respond(g, r).Redirect? then Reached(g, Respond(g, r).to, n - 1) else r
  }

  /** A www address ends where the bare address with the same path and query ends. */
  lemma CanonicalHostIsTransparent(g: Setting, r: Request)
    requires SecretUsable(g) && r.host == WWW
    requires Matched(r.path) && !NetworkPath(r.path) && !StartsWith(r.path, "/api/billing/webhook")
    ensures Reached(g, r, 2) == Reached(g, r.(host := BARE), 1)
    ensures !Respond(g, Reached(g, r, 2)).Redirect?
  {
    assert Respond(g, r) == Redirect(r.(host := BARE));
    assert Reached(g, r, 2) == Reached(g, r.(host := BARE), 1);
    EndIsReached(g, r, 2);
    TwoHopsAreEnough(g, r);
  }

  lemma {:induction false} EndIsReached(g: Setting, r: Request, n: nat)
    ensures StopsWithin(g, r, n) <==> !Respond(g, Reached(g, r, n)).Redirect?
    decreases n
  {
    if n > 0 && Respond(g, r).Redirect? {
      EndIsReached(g, Respond(g, r).to, n - 1);
    }
  }

  // -------------------------------------------------------------------
  // Paths that begin with two slashes
  // -------------------------------------------------------------------

  /** The www host named in the path again and again. */
  function Nested(k: nat): string {
    if k == 0 then "/x" else "//" + WWW + Nested(k - 1)
  }

  lemma NoSlashInWww(rest: string)
    requires rest != "" && rest[0] == '/'
    ensures FirstSlash(WWW + rest) == |WWW|
  {
    var k := FirstSlash(WWW + rest);
    assert (WWW + rest)[|WWW|] == '/';
    forall i | 0 <= i < |WWW|
      ensures (WWW + rest)[i] != '/'
    {
      WwwChars(i);
    }
  }

  lemma WwwChars(i: nat)
    requires i < |WWW|
    ensures WWW[i] != '/'
  {
    assert '/' !in WWW;
  }

  lemma {:induction false} NestedEndsPlainly(k: nat)
    ensures |Nested(k)| >= 2 && Nested(k)[0] == '/' && Nested(k)[|Nested(k)| - 2..] == "/x"
    decreases k
  {
    if k > 0 {
      NestedEndsPlainly(k - 1);
      var s, t := Nested(k), Nested(k - 1);
      assert s == ("//" + WWW) + t;
      assert s[|s| - 2..] == t[|t| - 2..];
    }
  }

  lemma NestedIsMatched(k: nat)
    ensures Matched(Nested(k)) && !StartsWith(Nested(k), "/api/billing/webhook")
  {
    NestedEndsPlainly(k);
    var s := Nested(k);
    assert s[1..][|s[1..]| - 1] == s[|s| - 2..][1];
    assert s[|s| - 2..][0] == '/' && s[|s| - 2] == '/';
    forall i | 0 <= i < |s[1..]| - 1 && s[1..][i] == '.'
      ensures exists j :: i < j < |s[1..]| && !Alphanumeric(s[1..][j])
    {
      assert s[1..][|s[1..]| - 2] == s[|s| - 2];
      assert !Alphanumeric(s[1..][|s[1..]| - 2]);
    }
    assert s[1] == if k == 0 then 'x' else '/';
    assert "/_next/static"[1] == '_' && "/_next/image"[1] == '_' && "/api/billing/webhook"[1] == 'a';
  }

  lemma NestedParts(k: nat)
    requires k > 0
    ensures NetworkPath(Nested(k)) && |Nested(k - 1)| >= 2
    ensures FirstSlash(Nested(k)[2..]) == |WWW|
    ensures Nested(k)[2..][..|WWW|] == WWW && Nested(k)[2..][|WWW|..] == Nested(k - 1)
  {
    var s, t := Nested(k), Nested(k - 1);
    NestedEndsPlainly(k - 1);
    assert s == "//" + (WWW + t);
    Split("//", WWW + t);
    Split(WWW, t);
    NoSlashInWww(t);
  }

  lemma Split(a: string, b: string)
    ensures (a + b)[..|a|] == a && (a + b)[|a|..] == b
  {
  }

  lemma NestedHop(g: Setting, k: nat)
    requires g.hostOf(WWW) == Some(WWW)
    ensures Respond(g, Request(WWW, Nested(k), "")) ==
            Redirect(if k == 0 then Request(BARE, "/x", "") else Request(WWW, Nested(k - 1), ""))
  {
    NestedIsMatched(k);
    if k == 0 {
      assert Nested(0)[1] == 'x' && "//"[1] == '/';
    } else {
      NestedParts(k);
    }
  }

  /** For those the bound of two fails, and so does any other: the chain is as long as the nesting. */
  lemma {:induction false} NestedHostsTakeMoreHops(g: Setting, k: nat)
    requires g.hostOf(WWW) == Some(WWW)
    ensures !StopsWithin(g, Request(WWW, Nested(k), ""), k)
    decreases k
  {
    NestedHop(g, k);
    if k > 0 {
      NestedHostsTakeMoreHops(g, k - 1);
    }
  }
}
