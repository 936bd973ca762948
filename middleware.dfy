/** The request gate in front of every page: static assets pass, public paths
    are open, everything else needs a session. */
module Middleware {
  import opened Strings

  const PublicPaths: seq<string> := ["/login", "/api/auth"]

  /** A path is public when it starts with one of the public prefixes, or
      when it contains `/api/auth` anywhere. */
  predicate IsPublic(path: string) {
    exists i :: 0 <= i < |PublicPaths| && (StartsWith(path, PublicPaths[i]) || Contains(path, "/api/auth"))
  }

  /** The asset test that returns before the session is looked at. */
  predicate IsStatic(path: string) {
    StartsWith(path, "/_next") || Contains(path, "/images/") || Contains(path, "/icons/") ||
    EndsWith(path, ".png") || EndsWith(path, ".jpg") || EndsWith(path, ".svg") || EndsWith(path, ".ico")
  }

  datatype Decision = Next | Redirect(target: string)

  /** The decision for a path, given whether the request carries a token. */
  function Decide(path: string, authenticated: bool): (d: Decision)
    ensures IsStatic(path) ==> d == Next
    ensures d == Redirect("/") <==> !IsStatic(path) && authenticated && path == "/login"
    ensures d == Redirect("/login") <==> !IsStatic(path) && !IsPublic(path) && !authenticated
    ensures d == Next || d == Redirect("/") || d == Redirect("/login")
  {
    var isPublicPath := IsPublic(path);
    assert path == "/login" ==> StartsWith(path, PublicPaths[0]);
    if IsStatic(path) then Next
    else if isPublicPath && authenticated && path == "/login" then Redirect("/")
    else if !isPublicPath && !authenticated then Redirect("/login")
    else Next
  }

  /** The public test, stated without the list: a path starting with
      `/api/auth` also contains it, so the test is a `/login` prefix or an
      `/api/auth` anywhere. */
  lemma PublicIff(path: string)
    ensures IsPublic(path) <==> StartsWith(path, "/login") || StartsWith(path, "/api/auth") || Contains(path, "/api/auth")
    ensures IsPublic(path) <==> StartsWith(path, "/login") || Contains(path, "/api/auth")
  {
    if StartsWith(path, "/login") || Contains(path, "/api/auth") {
      assert StartsWith(path, PublicPaths[0]) || Contains(path, "/api/auth");
    }
  }

  /** A public path is never sent to the login page. */
  lemma PublicNeverToLogin(path: string, authenticated: bool)
    requires StartsWith(path, "/login") || StartsWith(path, "/api/auth") || Contains(path, "/api/auth")
    ensures Decide(path, authenticated) != Redirect("/login")
  {
    PublicIff(path);
  }

  /** A signed-in visit to the login page goes home; any deeper path under it
      passes through. */
  lemma LoginExactly(rest: string)
    requires rest != [] && !IsStatic("/login" + rest)
    ensures Decide("/login", true) == Redirect("/")
    ensures Decide("/login" + rest, true) == Next
  {
    assert !StartsWith("/login", "/_next");
    assert !Contains("/login", "/images/") && !Contains("/login", "/icons/") by {
      NotContains("/login", "/images/");
      NotContains("/login", "/icons/");
    }
    assert StartsWith("/login" + rest, PublicPaths[0]);
    assert "/login" + rest != "/login" by {
      assert |"/login" + rest| > |"/login"|;
    }
  }

  /** `s.includes(t)` fails when `t` is longer than `s`. */
  lemma {:induction false} NotContains(s: string, t: string)
    requires |t| > |s|
    ensures !Contains(s, t)
    decreases |s|
  {
    if |s| > 0 {
      NotContains(s[1..], t);
    }
  }

  /** A signed-out request for a page that is neither an asset nor public goes
      to the login page, for example the dashboard. */
  lemma ProtectedToLogin()
    ensures Decide("/", false) == Redirect("/login")
    ensures Decide("/images/x.png", false) == Next
  {
    NotContains("/", "/images/");
    NotContains("/", "/icons/");
    NotContains("/", "/api/auth");
    assert !IsPublic("/") by {
      forall i | 0 <= i < |PublicPaths| ensures !(StartsWith("/", PublicPaths[i]) || Contains("/", "/api/auth")) {
      }
    }
    assert EndsWith("/images/x.png", ".png");
  }
}
