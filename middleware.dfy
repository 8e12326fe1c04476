/**
 * middleware.ts: the gate every request passes before its route. It skips
 * static files, Next.js internals and the sign-in endpoints; answers 401 or
 * redirects to the login page on a protected route without a valid token;
 * redirects a signed-in visitor away from the public auth pages.
 */
module Middleware {
  import opened Wrappers
  import opened Strings
  import opened Http

  const ProtectedRoutes: seq<string> := [
    "/dashboard",
    "/api/transactions",
    "/api/categories",
    "/api/assets",
    "/api/liabilities",
    "/api/receivables",
    "/api/payables",
    "/api/reports",
    "/api/settings",
    "/api/auth/me",
    "/api/auth/profile",
    "/api/auth/change-password",
    "/api/auth/delete-account"
  ]

  /** The auth pages a signed-in visitor is sent away from. */
  const PublicRoutes: seq<string> := [
    "/auth/login",
    "/auth/register",
    "/auth/forgot-password",
    "/auth/reset-password"
  ]

  /** The prefixes the middleware lets through without looking at a token. */
  const SkippedPrefixes: seq<string> := [
    "/_next",
    "/api/auth/login",
    "/api/auth/register",
    "/api/auth/forgot-password",
    "/api/auth/reset-password",
    "/api/auth/verify-otp",
    "/api/test-email"
  ]

  const LoginPage: string := "/auth/login"
  const DashboardPage: string := "/dashboard"
  const ApiPrefix: string := "/api/"
  const MissingToken: string := "Unauthorized"
  const InvalidToken: string := "Invalid token"

  /** `NextResponse.next()`, a 401 `{ error }`, or a redirect. */
  datatype Decision = Next | Unauthorized(error: string) | Redirect(location: string)

  /** `routes.some(route => path.startsWith(route))`. */
  predicate AnyPrefix(path: string, routes: seq<string>)
  {
    exists i :: 0 <= i < |routes| && StartsWith(path, routes[i])
  }

  /** The request is skipped: an internal or sign-in path, or a path with a dot (a static file). */
  predicate Skipped(path: string)
  {
    AnyPrefix(path, SkippedPrefixes) || Contains(path, ".")
  }

  predicate IsProtected(path: string) { AnyPrefix(path, ProtectedRoutes) }

  predicate IsPublic(path: string) { AnyPrefix(path, PublicRoutes) }

  /** `authorization?.replace('Bearer ', '')`: the header with its first "Bearer " removed. */
  function HeaderToken(authorization: Option<string>): Option<string>
  {
    match authorization
    case None => None
    case Some(h) => Some(ReplaceFirst(h, "Bearer ", ""))
  }

  /**
   * The token: the header's, unless that is missing or empty, then the
   * cookie's. The empty string stands for every falsy result.
   */
  function ExtractToken(authorization: Option<string>, cookie: Option<string>): (t: string)
    ensures t != "" ==> HeaderToken(authorization) == Some(t) || cookie == Some(t)
    ensures t == "" <==> HeaderToken(authorization).GetOr("") == "" && cookie.GetOr("") == ""
    ensures HeaderToken(authorization).GetOr("") != "" ==> t == HeaderToken(authorization).value
  {
    match HeaderToken(authorization)
    case Some(t) => if t != "" then t else cookie.GetOr("")
    case None => cookie.GetOr("")
  }

  /** The answer for a request that fails the token gate: 401 on the API, the login page elsewhere. */
  function Refuse(path: string, error: string): (d: Decision)
    ensures d.Unauthorized? <==> StartsWith(path, ApiPrefix)
    ensures d.Unauthorized? ==> d.error == error
    ensures d.Redirect? ==> d.location == LoginPage
  {
    if StartsWith(path, ApiPrefix) then Unauthorized(error) else Redirect(LoginPage)
  }

  /** `middleware(request)`, with `verifyToken` given as `verify`. */
  function Decide(path: string, authorization: Option<string>, cookie: Option<string>,
                  verify: string -> Option<Claims>): (d: Decision)
    ensures Skipped(path) ==> d == Next
    ensures d.Unauthorized? ==> !Skipped(path) && IsProtected(path) && StartsWith(path, ApiPrefix)
    ensures d == Redirect(LoginPage) ==> !Skipped(path) && IsProtected(path) && !StartsWith(path, ApiPrefix)
    ensures d == Redirect(DashboardPage) ==>
      !Skipped(path) && IsPublic(path) && verify(ExtractToken(authorization, cookie)).Some?
    ensures !Skipped(path) && IsProtected(path) ==>
      (d == Next <==> ExtractToken(authorization, cookie) != "" && verify(ExtractToken(authorization, cookie)).Some?)
  {
    if Skipped(path) then Next
    else
      ProtectedNotPublic(path);
      var token := ExtractToken(authorization, cookie);
      if IsProtected(path) && token == "" then Refuse(path, MissingToken)
      else if IsProtected(path) && verify(token).None? then Refuse(path, InvalidToken)
      else if IsPublic(path) && token != "" && verify(token).Some? then Redirect(DashboardPage)
      else Next
  }

  /** A skipped path passes whatever the token. */
  lemma SkippedPasses(path: string, authorization: Option<string>, cookie: Option<string>,
                      verify: string -> Option<Claims>)
    requires Skipped(path)
    ensures Decide(path, authorization, cookie, verify) == Next
  {
  }

  /** Every listed sign-in prefix, and every file name with a dot, is skipped. */
  lemma {:induction false} SkippedPaths(path: string)
    ensures StartsWith(path, "/_next") ==> Skipped(path)
    ensures StartsWith(path, "/api/auth/verify-otp") ==> Skipped(path)
    ensures StartsWith(path, "/api/auth/login") ==> Skipped(path)
    ensures (exists j: nat :: j < |path| && path[j] == '.') ==> Skipped(path)
  {
    if StartsWith(path, "/_next") { assert StartsWith(path, SkippedPrefixes[0]); }
    if StartsWith(path, "/api/auth/verify-otp") { assert StartsWith(path, SkippedPrefixes[5]); }
    if StartsWith(path, "/api/auth/login") { assert StartsWith(path, SkippedPrefixes[1]); }
    if j: nat :| j < |path| && path[j] == '.' {
      assert path[j..j + 1] == ".";
      ContainsAt(path, ".", j);
    }
  }

  /** A protected path without a token: 401 "Unauthorized" on the API, the login page elsewhere. */
  lemma ProtectedWithoutToken(path: string, authorization: Option<string>, cookie: Option<string>,
                              verify: string -> Option<Claims>)
    requires !Skipped(path) && IsProtected(path)
    requires ExtractToken(authorization, cookie) == ""
    ensures StartsWith(path, ApiPrefix) ==> Decide(path, authorization, cookie, verify) == Unauthorized(MissingToken)
    ensures !StartsWith(path, ApiPrefix) ==> Decide(path, authorization, cookie, verify) == Redirect(LoginPage)
  {
  }

  /** A protected path whose token does not verify: 401 "Invalid token" on the API, the login page elsewhere. */
  lemma ProtectedWithInvalidToken(path: string, authorization: Option<string>, cookie: Option<string>,
                                  verify: string -> Option<Claims>)
    requires !Skipped(path) && IsProtected(path)
    requires ExtractToken(authorization, cookie) != "" && verify(ExtractToken(authorization, cookie)).None?
    ensures StartsWith(path, ApiPrefix) ==> Decide(path, authorization, cookie, verify) == Unauthorized(InvalidToken)
    ensures !StartsWith(path, ApiPrefix) ==> Decide(path, authorization, cookie, verify) == Redirect(LoginPage)
  {
  }

  /** The third character tells the lists apart: `u` on every public route, never on a protected one. */
  lemma {:induction false} ThirdCharacter(path: string)
    ensures IsProtected(path) ==> |path| >= 3 && path[2] != 'u'
    ensures IsPublic(path) ==> |path| >= 3 && path[2] == 'u'
  {
    if IsProtected(path) {
      var i :| 0 <= i < |ProtectedRoutes| && StartsWith(path, ProtectedRoutes[i]);
      assert path[2] == ProtectedRoutes[i][2];
    }
    if IsPublic(path) {
      var j :| 0 <= j < |PublicRoutes| && StartsWith(path, PublicRoutes[j]);
      assert path[2] == PublicRoutes[j][2];
    }
  }

  /** No path is both protected and public. */
  lemma ProtectedNotPublic(path: string)
    ensures !(IsProtected(path) && IsPublic(path))
  {
    ThirdCharacter(path);
  }

  /** A protected path with a token that verifies passes. */
  lemma ProtectedWithValidToken(path: string, authorization: Option<string>, cookie: Option<string>,
                                verify: string -> Option<Claims>)
    requires IsProtected(path)
    requires ExtractToken(authorization, cookie) != "" && verify(ExtractToken(authorization, cookie)).Some?
    ensures Decide(path, authorization, cookie, verify) == Next
  {
    ProtectedNotPublic(path);
  }

  /**
   * A public auth page that is not skipped redirects to the dashboard
   * exactly when there is a token and it verifies; otherwise it passes.
   */
  lemma PublicPage(path: string, authorization: Option<string>, cookie: Option<string>,
                   verify: string -> Option<Claims>)
    requires !Skipped(path) && IsPublic(path)
    ensures var token := ExtractToken(authorization, cookie);
      Decide(path, authorization, cookie, verify) ==
        if token != "" && verify(token).Some? then Redirect(DashboardPage) else Next
  {
    ProtectedNotPublic(path);
  }

  /** A path that is neither protected nor public passes. */
  lemma OtherPathPasses(path: string, authorization: Option<string>, cookie: Option<string>,
                        verify: string -> Option<Claims>)
    requires !IsProtected(path) && !IsPublic(path)
    ensures Decide(path, authorization, cookie, verify) == Next
  {
  }

  /** Membership is by prefix: anything that extends a protected route is protected, `/dashboardX` included. */
  lemma {:induction false} ProtectedByPrefix(i: nat, rest: string)
    requires i < |ProtectedRoutes|
    ensures IsProtected(ProtectedRoutes[i] + rest)
    ensures IsProtected("/dashboardX")
  {
    var path := ProtectedRoutes[i] + rest;
    assert path[..|ProtectedRoutes[i]|] == ProtectedRoutes[i];
    assert StartsWith(path, ProtectedRoutes[i]);
    assert StartsWith("/dashboardX", ProtectedRoutes[0]);
  }

  /** `Authorization: Bearer <t>` gives `t`, when `t` is not empty. */
  lemma BearerHeader(t: string, cookie: Option<string>)
    requires t != ""
    ensures ExtractToken(Some("Bearer " + t), cookie) == t
  {
    ReplaceLeading("Bearer ", t);
  }

  /** A header without "Bearer " is taken as it is. */
  lemma BareHeader(h: string, cookie: Option<string>)
    requires h != "" && !Contains(h, "Bearer ")
    ensures ExtractToken(Some(h), cookie) == h
  {
    ReplaceAbsent(h, "Bearer ", "");
  }

  /** The cookie is used when the header is missing, or is nothing but "Bearer ". */
  lemma CookieFallback(c: string)
    ensures ExtractToken(None, Some(c)) == c
    ensures ExtractToken(Some("Bearer "), Some(c)) == c
  {
    ReplaceLeading("Bearer ", "");
    assert "Bearer " + "" == "Bearer ";
  }
}
