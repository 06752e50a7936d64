/** The request gate of src/middleware.ts: for a request path, the resolved
    session (or none) and the onboarding-row lookup, it decides whether the
    request continues or is redirected. The session resolver and the database
    lookup are inputs; the lookup is a function so that the model can say
    when it is consulted. */
module Middleware {
  import opened Common
  import Text

  datatype Decision = Continue | Redirect(target: string)

  /** `protectedPrefixes`, in source order. */
  const ProtectedPrefixes: seq<string> := [
    "/profile-settings",
    "/admin/control-room",
    "/admin/post-approval",
    "/community/lessonNote",
    "/community/schemeOfWork",
    "/community/profile",
    "/notifications",
    "/onboarding"
  ]

  /** `protectedPrefixes.some(p => pathname.startsWith(p))`. */
  predicate IsProtected(path: string) {
    exists k :: 0 <= k < |ProtectedPrefixes| && ProtectedPrefixes[k] <= path
  }

  /** `pathname.startsWith("/onboarding")`. */
  predicate IsOnboardingPath(path: string) {
    "/onboarding" <= path
  }

  /** The decision procedure of `middleware`, rule by rule: the auth wall, the
      login bounce for signed-in users, then the onboarding wall for
      non-admins. `hasRow(id)` answers whether an onboarding row exists for
      the user id; it is consulted only on the last rule. */
  function Gate(path: string, session: Option<User>, hasRow: string -> bool): (d: Decision)
    ensures d == Continue || d == Redirect("/login") || d == Redirect("/") || d == Redirect("/onboarding")
    ensures d == Redirect("/login") <==> session.None? && IsProtected(path)
    ensures d == Redirect("/") <==> session.Some? && path == "/login"
    ensures d == Redirect("/onboarding") <==>
              session.Some? && path != "/login" && !session.value.IsAdmin()
              && !hasRow(session.value.id) && !IsOnboardingPath(path)
  {
    if IsProtected(path) && session.None? then Redirect("/login")
    else if path == "/login" && session.Some? then Redirect("/")
    else if session.Some? && !session.value.IsAdmin() then
      var onboarded := hasRow(session.value.id);
      if !onboarded && !IsOnboardingPath(path) then Redirect("/onboarding") else Continue
    else Continue
  }

  /** A matcher entry `/x/:path*` matches `/x` itself and every path below
      it; `/login` matches only itself. */
  predicate MatchesEntry(path: string, base: string) {
    path == base || base + "/" <= path
  }

  /** `config.matcher`: which requests reach the gate at all. */
  const MatcherBases: seq<string> := [
    "/profile-settings",
    "/admin/settings",
    "/community/lessonNote",
    "/community/schemeOfWork",
    "/community/profile",
    "/admin/control-room",
    "/admin/post-approval",
    "/notifications",
    "/onboarding"
  ]

  predicate Matched(path: string) {
    path == "/login" || exists k :: 0 <= k < |MatcherBases| && MatchesEntry(path, MatcherBases[k])
  }

  /** What the framework does with a request: a path outside the matcher
      never runs the gate and continues. */
  function Route(path: string, session: Option<User>, hasRow: string -> bool): (d: Decision)
    ensures !Matched(path) ==> d == Continue
    ensures Matched(path) ==> d == Gate(path, session, hasRow)
  {
    if Matched(path) then Gate(path, session, hasRow) else Continue
  }

  /** The admin check of src/app/notifications/page.tsx, which runs after the
      gate has let the request through: an admin session is sent to `/`. */
  function NotificationsPage(session: Option<User>): (d: Decision)
    ensures d == Redirect("/") <==> session.Some? && session.value.IsAdmin()
    ensures d != Redirect("/") ==> d == Continue
  {
    if session.Some? && session.value.IsAdmin() then Redirect("/") else Continue
  }

  // ---------------------------------------------------------------------
  // Properties of the gate

  /** Without a session, a path under a protected prefix goes to `/login`. */
  lemma AnonymousProtectedGoesToLogin(path: string, p: string, hasRow: string -> bool)
    requires p in ProtectedPrefixes && p <= path
    ensures Gate(path, None, hasRow) == Redirect("/login")
  {
  }

  /** Without a session, any other path continues, `/login` included;
      an anonymous request is never sent to `/onboarding` or `/`. */
  lemma AnonymousUnprotectedContinues(path: string, hasRow: string -> bool)
    requires forall k :: 0 <= k < |ProtectedPrefixes| ==> !(ProtectedPrefixes[k] <= path)
    ensures Gate(path, None, hasRow) == Continue
  {
  }

  lemma LoginPageIsOpen(hasRow: string -> bool)
    ensures Gate("/login", None, hasRow) == Continue
  {
    assert !IsProtected("/login") by {
      forall k | 0 <= k < |ProtectedPrefixes| ensures !(ProtectedPrefixes[k] <= "/login") {
        assert ProtectedPrefixes[k][1] != 'l' || ProtectedPrefixes[k][2] != 'o';
      }
    }
  }

  /** A signed-in user asking for `/login` goes to `/`, whatever the
      onboarding store says: the lookup is not consulted. */
  lemma SignedInLoginGoesHome(u: User, hasRow1: string -> bool, hasRow2: string -> bool)
    ensures Gate("/login", Some(u), hasRow1) == Redirect("/")
    ensures Gate("/login", Some(u), hasRow1) == Gate("/login", Some(u), hasRow2)
  {
  }

  /** An admin is never sent to `/onboarding`, and the onboarding store makes
      no difference to an admin's decision. */
  lemma AdminSkipsOnboardingWall(path: string, u: User, hasRow1: string -> bool, hasRow2: string -> bool)
    requires u.IsAdmin()
    ensures Gate(path, Some(u), hasRow1) != Redirect("/onboarding")
    ensures Gate(path, Some(u), hasRow1) == Gate(path, Some(u), hasRow2)
  {
  }

  /** A non-admin without an onboarding row is walled off from every path
      outside `/onboarding` except `/login`, and may use `/onboarding` and
      everything under it: the wall cannot loop. */
  lemma OnboardingWall(path: string, u: User, hasRow: string -> bool)
    requires !u.IsAdmin() && !hasRow(u.id)
    ensures path != "/login" && !IsOnboardingPath(path) ==> Gate(path, Some(u), hasRow) == Redirect("/onboarding")
    ensures IsOnboardingPath(path) ==> Gate(path, Some(u), hasRow) == Continue
  {
    if IsOnboardingPath(path) {
      assert path != "/login" by { assert path[1] == 'o'; }
    }
  }

  /** Once a row exists for the user (a successful onboarding save), a
      signed-in user always continues, except on `/login`. */
  lemma OnboardedUserContinues(path: string, u: User, hasRow: string -> bool)
    requires hasRow(u.id) && path != "/login"
    ensures Gate(path, Some(u), hasRow) == Continue
  {
  }

  /** `/admin/settings` is in the matcher but under no protected prefix, so
      an anonymous request to it runs the gate and continues. */
  lemma AdminSettingsUnprotected(hasRow: string -> bool)
    ensures Matched("/admin/settings")
    ensures !IsProtected("/admin/settings")
    ensures Route("/admin/settings", None, hasRow) == Continue
  {
    assert MatchesEntry("/admin/settings", MatcherBases[1]);
    assert !IsProtected("/admin/settings") by {
      forall k | 0 <= k < |ProtectedPrefixes| ensures !(ProtectedPrefixes[k] <= "/admin/settings") {
        var p := ProtectedPrefixes[k];
        assert p[1] != 'a' || p[7] != 's' || p[8] != 'e' || |p| > 15;
      }
    }
  }

  /** The root path is outside the matcher: a signed-in non-admin without an
      onboarding row reaches `/` although the gate itself would wall it. */
  lemma RootIsNotGated(u: User, hasRow: string -> bool)
    requires !u.IsAdmin() && !hasRow(u.id)
    ensures !Matched("/")
    ensures Gate("/", Some(u), hasRow) == Redirect("/onboarding")
    ensures Route("/", Some(u), hasRow) == Continue
  {
    assert !Matched("/") by {
      forall k | 0 <= k < |MatcherBases| ensures !MatchesEntry("/", MatcherBases[k]) {
        assert |MatcherBases[k]| > 1;
      }
    }
    assert !IsOnboardingPath("/");
  }

  /** The prefix test and the matcher disagree on paths that merely share a
      prefix: `/notificationsX` is protected by the prefix list but never
      reaches the gate. */
  lemma PrefixWiderThanMatcher(hasRow: string -> bool)
    ensures IsProtected("/notificationsX") && !Matched("/notificationsX")
    ensures Route("/notificationsX", None, hasRow) == Continue
    ensures Gate("/notificationsX", None, hasRow) == Redirect("/login")
  {
    assert ProtectedPrefixes[6] <= "/notificationsX";
    var path := "/notificationsX";
    assert forall i :: 1 <= i < |path| ==> path[i] != '/';
    assert !Matched(path) by {
      forall k | 0 <= k < |MatcherBases| ensures !MatchesEntry(path, MatcherBases[k]) {
        var b := MatcherBases[k];
        assert |b| >= 1 && b != path && (b + "/")[|b|] == '/';
      }
    }
  }

  /** Every matched path other than `/login` is protected, except the
      `/admin/settings` subtree. */
  lemma MatchedIsProtectedOrAdminSettings(path: string)
    requires Matched(path) && path != "/login"
    ensures IsProtected(path) || MatchesEntry(path, "/admin/settings")
  {
    var k :| 0 <= k < |MatcherBases| && MatchesEntry(path, MatcherBases[k]);
    var b := MatcherBases[k];
    if k != 1 {
      assert b in ProtectedPrefixes;
      var j :| 0 <= j < |ProtectedPrefixes| && ProtectedPrefixes[j] == b;
      assert b <= path by {
        if path != b { assert b <= b + "/"; }
      }
    }
  }

  /** The decision depends only on its inputs: the same request with the
      same session and onboarding state is decided the same way twice. */
  lemma GateDeterministic(path: string, session: Option<User>, hasRow1: string -> bool, hasRow2: string -> bool)
    requires session.Some? ==> hasRow1(session.value.id) == hasRow2(session.value.id)
    ensures Gate(path, session, hasRow1) == Gate(path, session, hasRow2)
  {
  }
}
