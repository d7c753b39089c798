/** The route guards of the application shell and its route table. A URL
    is matched to a route the way the router compares paths without
    parameters: the query and fragment are cut off, leading and trailing
    slashes are trimmed, and the rest must equal the route's path trimmed
    alike. A guard decides, from whether a session token is present, to
    render its page or to render nothing and replace the location with
    another path. */
module App {
  import opened Wrappers
  import Auth

  datatype Guard = Protected | GuestOnly | Public

  /** What a guarded route does: render its component or not, and where the
      mount effect redirects (with history replacement), if anywhere. */
  datatype Outcome = Outcome(renders: bool, redirect: Option<string>)

  const LoginPath := "/login"
  const DashboardPath := "/dashboard"

  /** `ProtectedRoute`, `GuestRoute` and `PublicRoute`. */
  function Decide(guard: Guard, token: string): (o: Outcome)
    ensures guard == Protected ==>
      (if Auth.IsAuthenticated(token) then o == Outcome(true, None) else o == Outcome(false, Some(LoginPath)))
    ensures guard == GuestOnly ==>
      (if Auth.IsAuthenticated(token) then o == Outcome(false, Some(DashboardPath)) else o == Outcome(true, None))
    ensures guard == Public ==> o == Outcome(true, None)
    ensures o.renders <==> o.redirect.None?
  {
    match guard
    case Protected => if Auth.IsAuthenticated(token) then Outcome(true, None) else Outcome(false, Some(LoginPath))
    case GuestOnly => if Auth.IsAuthenticated(token) then Outcome(false, Some(DashboardPath)) else Outcome(true, None)
    case Public => Outcome(true, None)
  }

  /** The routes of `App`, in order, each by its key: its path without the
      leading slash (`login` for `/login`, the empty key for `/`). Any other
      key shows the not-found page. */
  const Routes: seq<(string, Guard)> := [
    ("login", GuestOnly), ("register", GuestOnly), ("forgot-password", GuestOnly), ("reset-password", GuestOnly),
    ("terms", Public), ("privacy", Public),
    ("", Protected), ("dashboard", Protected), ("users", Protected), ("messages", Protected),
    ("files", Protected), ("calendar", Protected), ("analytics", Protected), ("security", Protected),
    ("settings", Protected)]

  // ------------------------------------------------------------ matching

  predicate IsQueryStart(c: char) { c == '?' || c == '#' }

  /** The URL without its query and fragment: everything before the first
      `?` or `#`. */
  function StripQuery(url: string): (r: string)
    ensures |r| <= |url| && r == url[..|r|]
    ensures forall i :: 0 <= i < |r| ==> !IsQueryStart(r[i])
    ensures |r| < |url| ==> IsQueryStart(url[|r|])
  {
    if url == [] || IsQueryStart(url[0]) then [] else [url[0]] + StripQuery(url[1..])
  }

  /** `s` without the run of `/` it starts with. */
  function TrimLeadingSlashes(s: string): (r: string)
    ensures r == [] || r[0] != '/'
  {
    if s != [] && s[0] == '/' then TrimLeadingSlashes(s[1..]) else s
  }

  /** `s` without the run of `/` it ends with. */
  function TrimTrailingSlashes(s: string): (r: string)
    ensures r == [] || r[|r| - 1] != '/'
  {
    if s != [] && s[|s| - 1] == '/' then TrimTrailingSlashes(s[..|s| - 1]) else s
  }

  /** The router's key of a URL: the query and fragment cut off, then the
      leading and trailing slashes trimmed. A path without parameters
      matches a URL exactly when their keys are equal (their `/`-separated
      segments are then equal too). */
  function RouteKey(url: string): string {
    TrimTrailingSlashes(TrimLeadingSlashes(StripQuery(url)))
  }

  /** A route's path, `/` and a name free of `/`, `?` and `#`, has the name
      as its key. */
  lemma KeyOfRoutePath(name: string)
    requires forall i :: 0 <= i < |name| ==> name[i] != '/' && !IsQueryStart(name[i])
    ensures RouteKey("/" + name) == name
  {
    var path := "/" + name;
    assert forall i :: 1 <= i < |path| ==> path[i] == name[i - 1];
    StripQueryKeeps(path);
    assert path[1..] == name;
    assert TrimLeadingSlashes(path) == TrimLeadingSlashes(name) == name;
    assert TrimTrailingSlashes(name) == name;
  }

  /** A query or a fragment never changes the key. */
  lemma QueryIgnored(path: string, c: char, rest: string)
    requires forall i :: 0 <= i < |path| ==> !IsQueryStart(path[i])
    requires IsQueryStart(c)
    ensures RouteKey(path + [c] + rest) == RouteKey(path)
  {
    StripsBeforeQuery(path, c, rest);
    StripQueryKeeps(path);
  }

  lemma {:induction false} StripsBeforeQuery(path: string, c: char, rest: string)
    requires forall i :: 0 <= i < |path| ==> !IsQueryStart(path[i])
    requires IsQueryStart(c)
    ensures StripQuery(path + [c] + rest) == path
    decreases |path|
  {
    if path != [] {
      assert (path + [c] + rest)[1..] == path[1..] + [c] + rest;
      StripsBeforeQuery(path[1..], c, rest);
    }
  }

  lemma {:induction false} StripQueryKeeps(path: string)
    requires forall i :: 0 <= i < |path| ==> !IsQueryStart(path[i])
    ensures StripQuery(path) == path
    decreases |path|
  {
    if path != [] {
      StripQueryKeeps(path[1..]);
    }
  }

  /** A trailing slash never changes the key. */
  lemma TrailingSlashIgnored(path: string)
    requires forall i :: 0 <= i < |path| ==> !IsQueryStart(path[i])
    ensures RouteKey(path + "/") == RouteKey(path)
  {
    StripQueryKeeps(path);
    StripQueryKeeps(path + "/");
    var t := TrimLeadingSlashes(path);
    LeadingThenSlash(path);
    if t != [] {
      TrailingSlashDropped(t);
    }
  }

  lemma TrailingSlashDropped(t: string)
    ensures TrimTrailingSlashes(t + "/") == TrimTrailingSlashes(t)
  {
    assert (t + "/")[..|t|] == t;
  }

  /** Trimming the leading slashes of `s + "/"` gives the trimmed `s` with the
      slash, or nothing when `s` is all slashes. */
  lemma {:induction false} LeadingThenSlash(s: string)
    ensures TrimLeadingSlashes(s + "/") == if TrimLeadingSlashes(s) == [] then [] else TrimLeadingSlashes(s) + "/"
    decreases |s|
  {
    if s != [] && s[0] == '/' {
      assert (s + "/")[1..] == s[1..] + "/";
      LeadingThenSlash(s[1..]);
    } else if s == [] {
      assert TrimLeadingSlashes("/"[1..]) == [];
    }
  }

  /** The guard of the first route whose key is the URL's key; `None` is the
      not-found page, which always renders. */
  function GuardOf(url: string): (r: Option<Guard>)
    ensures r.Some? <==> exists k :: 0 <= k < |Routes| && Routes[k].0 == RouteKey(url)
    ensures r.Some? ==> exists k :: 0 <= k < |Routes| && Routes[k] == (RouteKey(url), r.value)
  {
    GuardFrom(Routes, RouteKey(url))
  }

  function GuardFrom(routes: seq<(string, Guard)>, key: string): (r: Option<Guard>)
    ensures r.Some? <==> exists k :: 0 <= k < |routes| && routes[k].0 == key
    ensures r.Some? ==> exists k :: 0 <= k < |routes| && routes[k] == (key, r.value)
  {
    if routes == [] then None
    else if routes[0].0 == key then Some(routes[0].1)
    else
      var r := GuardFrom(routes[1..], key);
      assert forall k :: 0 <= k < |routes[1..]| ==> routes[1..][k] == routes[k + 1];
      r
  }

  /** A route's path, the same path with a trailing slash, and the path
      followed by a query or a fragment all have the route's name as their
      key, so they are guarded alike (`/users`, `/users/` and `/users?tab=1`
      all reach the users page). */
  lemma PathFormsMatchAlike(name: string, c: char, rest: string)
    requires forall i :: 0 <= i < |name| ==> name[i] != '/' && !IsQueryStart(name[i])
    requires IsQueryStart(c)
    ensures RouteKey("/" + name) == name
    ensures RouteKey("/" + name + "/") == name
    ensures RouteKey("/" + name + [c] + rest) == name
    ensures GuardOf("/" + name + "/") == GuardOf("/" + name) == GuardOf("/" + name + [c] + rest)
  {
    var path := "/" + name;
    KeyOfRoutePath(name);
    assert forall i :: 1 <= i < |path| ==> path[i] == name[i - 1];
    TrailingSlashIgnored(path);
    QueryIgnored(path, c, rest);
  }

  /** The outcome of visiting a path. */
  function Visit(path: string, token: string): (o: Outcome)
    ensures GuardOf(path).None? ==> o == Outcome(true, None)
  {
    match GuardOf(path)
    case None => Outcome(true, None)
    case Some(g) => Decide(g, token)
  }

  /** The lookup finds the first route with the key. */
  lemma {:induction false} FirstMatch(routes: seq<(string, Guard)>, key: string, k: nat)
    requires k < |routes| && routes[k].0 == key
    requires forall j :: 0 <= j < k ==> routes[j].0 != key
    ensures GuardFrom(routes, key) == Some(routes[k].1)
    decreases k
  {
    if k > 0 {
      assert routes[1..][k - 1] == routes[k];
      FirstMatch(routes[1..], key, k - 1);
    }
  }

  lemma LoginIsGuestOnly()
    ensures GuardOf(LoginPath) == Some(GuestOnly)
  {
    LoginKey();
    LoginRoute();
  }

  lemma LoginKey()
    ensures RouteKey(LoginPath) == "login"
  {
    KeyOfRoutePath("login");
    assert "/" + "login" == LoginPath;
  }

  lemma LoginRoute()
    ensures GuardFrom(Routes, "login") == Some(GuestOnly)
  {
    FirstMatch(Routes, "login", 0);
  }

  lemma DashboardIsProtected()
    ensures GuardOf(DashboardPath) == Some(Protected)
  {
    DashboardKey();
    DashboardRoute();
  }

  lemma DashboardKey()
    ensures RouteKey(DashboardPath) == "dashboard"
  {
    KeyOfRoutePath("dashboard");
    assert "/" + "dashboard" == DashboardPath;
  }

  lemma DashboardRoute()
    ensures GuardFrom(Routes, "dashboard") == Some(Protected)
  {
    FirstMatch(Routes, "dashboard", 7);
  }

  /** A guard only ever redirects a signed-in session to the dashboard and a
      signed-out one to the sign-in page. */
  lemma RedirectTarget(path: string, token: string)
    ensures Visit(path, token).redirect.Some? ==>
      Visit(path, token).redirect.value == (if Auth.IsAuthenticated(token) then DashboardPath else LoginPath)
  {
  }

  /** No redirect loop: wherever a guard sends the browser, the page there
      renders for the same session. */
  lemma RedirectsLandOnRenderedPages(path: string, token: string)
    ensures Visit(path, token).redirect.Some? ==> Visit(Visit(path, token).redirect.value, token).renders
  {
    RedirectTarget(path, token);
    if Auth.IsAuthenticated(token) {
      DashboardIsProtected();
      assert Visit(DashboardPath, token).renders;
    } else {
      LoginIsGuestOnly();
      assert Visit(LoginPath, token).renders;
    }
  }

  /** Exactly one of the sign-in page and the dashboard renders for a given
      session. */
  lemma SignInAndDashboardExclusive(token: string)
    ensures Visit(LoginPath, token).renders <==> !Visit(DashboardPath, token).renders
    ensures Visit(LoginPath, token).renders <==> !Auth.IsAuthenticated(token)
  {
    LoginIsGuestOnly();
    DashboardIsProtected();
  }
}
