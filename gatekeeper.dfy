/**
 * The request gatekeeper of `middleware.ts`: a decision, for each request,
 * to let it through (with or without the caller's identity attached), to
 * deny it with a status and an error message, or to redirect it to the
 * sign-in page. API paths are guarded by a token in the `Authorization`
 * header and by the caller's type; panel pages, `/<username>/panel...`, by
 * a token in the `token` cookie whose username must be the page's. Token
 * verification is a parameter returning the payload of a valid token.
 */
module Gatekeeper {
  import opened Wrappers
  import opened JsText

  const ExcludedApiPaths: seq<string> := ["/api/auth/onboard", "/api/auth/signin", "/api/common"]
  const AdminOnlyPaths: seq<string> := ["/api/admin"]
  const OwnerOnlyPaths: seq<string> := ["/api/owner"]

  /** The claims the gatekeeper reads from a verified token; `exp` in seconds since the epoch. */
  datatype Payload = Payload(userId: string, username: string, userType: string, exp: Option<int>)

  /** The identity passed on in the `x-user-id`, `x-user-type` and `x-username` headers. */
  datatype Identity = Identity(userId: string, userType: string, username: string)

  function IdentityOf(p: Payload): Identity {
    Identity(p.userId, p.userType, p.username)
  }

  datatype Decision =
    /** `NextResponse.next()`, untouched. */
    | Continue
    /** An API request passed on with the identity headers set on the request. */
    | ContinueWithRequestIdentity(identity: Identity)
    /** A panel request passed on with the identity headers set on the response. */
    | ContinueWithResponseIdentity(identity: Identity)
    /** `createErrorResponse(error, status)` */
    | Deny(status: nat, error: string)
    /** A redirect to `/signin`, with the `redirect` query parameter when present. */
    | RedirectToSignin(redirect: Option<string>)

  // ----- path classifiers -----

  /** One excluded entry: a trailing `*` makes it a plain prefix; otherwise the path itself or anything below it. */
  predicate MatchesExcluded(path: string, entry: string) {
    if EndsWith(entry, "*") then StartsWith(path, entry[..|entry| - 1])
    else path == entry || StartsWith(path, entry + "/")
  }

  predicate IsExcludedPath(path: string) {
    exists i :: 0 <= i < |ExcludedApiPaths| && MatchesExcluded(path, ExcludedApiPaths[i])
  }

  predicate RequiresAdminRole(path: string) {
    exists i :: 0 <= i < |AdminOnlyPaths| && StartsWith(path, AdminOnlyPaths[i])
  }

  predicate RequiresOwnerRole(path: string) {
    exists i :: 0 <= i < |OwnerOnlyPaths| && StartsWith(path, OwnerOnlyPaths[i])
  }

  /** The longest prefix of `s` without a `/`: what `[^\/]+` consumes. */
  function UpToSlash(s: string): (r: string)
    ensures |r| <= |s| && r == s[..|r|]
    ensures '/' !in r
    ensures |r| < |s| ==> s[|r|] == '/'
  {
    if s == [] || s[0] == '/' then [] else [s[0]] + UpToSlash(s[1..])
  }

  /** What may follow `/panel`: nothing, or a `/` and then characters `.` matches, i.e. no line terminator. */
  predicate PanelTail(t: string) {
    t == [] || (t[0] == '/' && forall i :: 0 <= i < |t| ==> !IsLineTerminator(t[i]))
  }

  /** The route segment: the characters after the leading `/` up to the next `/`. */
  function Segment(path: string): string
    requires |path| > 0
  {
    UpToSlash(path[1..])
  }

  /** `/^\/([^\/]+)\/panel/.exec(path)[1]`: the unanchored match, which only needs `/panel` right after the segment. */
  function ExtractUsername(path: string): (r: Option<string>)
    ensures r.Some? ==> r.value != "" && '/' !in r.value
  {
    if |path| > 0 && path[0] == '/' && Segment(path) != "" && StartsWith(path[1 + |Segment(path)|..], "/panel")
    then Some(Segment(path))
    else None
  }

  /** `/^\/[^\/]+\/panel(?:\/.*)?$/.test(path)`, as a check on the segment and on what follows `/panel`. */
  predicate IsPanelRoute(path: string) {
    ExtractUsername(path).Some? && PanelTail(path[|Segment(path)| + 7..])
  }

  // ----- tokens -----

  /** A `Bearer ` prefix, matched case-sensitively, is dropped; any other header value is taken whole as the token. */
  function BearerToken(header: string): string {
    if StartsWith(header, "Bearer ") then header[7..] else header
  }

  /** `payload.exp && payload.exp < Math.floor(now / 1000)`, with `now` in milliseconds. */
  predicate Expired(p: Payload, nowMs: int) {
    p.exp.Some? && p.exp.value != 0 && p.exp.value < nowMs / 1000
  }

  // ----- the decision -----

  /** An `/api/` request. Header values and the cookie are `None` when absent; an empty one is falsy too. */
  function ApiDecision(path: string, authorization: Option<string>, verify: string -> Option<Payload>, nowMs: int): Decision {
    if IsExcludedPath(path) then Continue
    else if authorization.None? || authorization.value == "" then Deny(401, "Authorization header is required")
    else
      var token := BearerToken(authorization.value);
      if token == "" then Deny(401, "Token is required")
      else match verify(token)
        case None => Deny(401, "Invalid or expired token")
        case Some(p) =>
          if Expired(p, nowMs) then Deny(401, "Token has expired")
          else if RequiresAdminRole(path) && p.userType != "admin" then Deny(403, "Admin access required")
          else if RequiresOwnerRole(path) && p.userType != "owner" then Deny(403, "Owner access required")
          else ContinueWithRequestIdentity(IdentityOf(p))
  }

  /** A panel page request. */
  function PanelDecision(path: string, cookie: Option<string>, verify: string -> Option<Payload>, nowMs: int): Decision {
    if cookie.None? || cookie.value == "" then RedirectToSignin(Some(path))
    else match verify(cookie.value)
      case None => RedirectToSignin(Some(path))
      case Some(p) =>
        if Expired(p, nowMs) then RedirectToSignin(Some(path))
        else match ExtractUsername(path)
          case None => RedirectToSignin(None)
          case Some(routeUsername) =>
            if p.username != routeUsername then RedirectToSignin(None)
            else ContinueWithResponseIdentity(IdentityOf(p))
  }

  /** `middleware(request)`: API paths first, then panel pages; everything else continues. */
  function Decide(path: string, authorization: Option<string>, cookie: Option<string>, verify: string -> Option<Payload>, nowMs: int): (d: Decision)
    ensures d.Deny? || d.ContinueWithRequestIdentity? ==> StartsWith(path, "/api/") && !IsExcludedPath(path)
    ensures d.Deny? ==> d.status == 401 || d.status == 403
    ensures d.ContinueWithRequestIdentity? ==>
              authorization.Some? && verify(BearerToken(authorization.value)).Some?
              && d.identity == IdentityOf(verify(BearerToken(authorization.value)).value)
    ensures d.RedirectToSignin? || d.ContinueWithResponseIdentity? ==> !StartsWith(path, "/api/") && IsPanelRoute(path)
    ensures d.ContinueWithResponseIdentity? ==>
              cookie.Some? && verify(cookie.value).Some? && !Expired(verify(cookie.value).value, nowMs)
              && Some(verify(cookie.value).value.username) == ExtractUsername(path)
              && d.identity == IdentityOf(verify(cookie.value).value)
  {
    if StartsWith(path, "/api/") then ApiDecision(path, authorization, verify, nowMs)
    else if IsPanelRoute(path) then PanelDecision(path, cookie, verify, nowMs)
    else Continue
  }

  // ----- properties of the classifiers -----

  /** None of the excluded entries ends in `*`, so the wildcard branch is never taken. */
  lemma NoWildcardEntries()
    ensures forall i :: 0 <= i < |ExcludedApiPaths| ==> !EndsWith(ExcludedApiPaths[i], "*")
  {
    forall i | 0 <= i < |ExcludedApiPaths|
      ensures !EndsWith(ExcludedApiPaths[i], "*")
    {
      var e := ExcludedApiPaths[i];
      assert e[|e| - 1] != '*';
      assert e[|e| - 1..] != "*" by {
        assert e[|e| - 1..][0] == e[|e| - 1];
      }
    }
  }

  /** A path is excluded exactly when it is one of the entries or lies below one. */
  lemma ExcludedPathIff(path: string)
    ensures IsExcludedPath(path) <==>
            exists i :: 0 <= i < |ExcludedApiPaths| && (path == ExcludedApiPaths[i] || StartsWith(path, ExcludedApiPaths[i] + "/"))
  {
    NoWildcardEntries();
  }

  /** The matching is by whole segments: `/api/commonx` is not excluded, `/api/common/stores` is. */
  lemma ExcludedBySegment()
    ensures !IsExcludedPath("/api/commonx")
    ensures IsExcludedPath("/api/common/stores")
  {
    NoWildcardEntries();
    var p := "/api/commonx";
    assert p[5] == 'c' && p[11] == 'x';
    forall i | 0 <= i < |ExcludedApiPaths|
      ensures p != ExcludedApiPaths[i] && !StartsWith(p, ExcludedApiPaths[i] + "/")
    {
      var e := ExcludedApiPaths[i];
      if i < 2 {
        assert e[5] == 'a';
      } else {
        assert |e| == 11 && (e + "/")[11] == '/';
      }
    }
    var q := "/api/common/stores";
    assert q[..12] == ExcludedApiPaths[2] + "/";
  }

  /** The role checks are plain prefixes: `/api/administrator` is an admin path. */
  lemma RolePathsArePrefixes(path: string)
    ensures RequiresAdminRole(path) <==> StartsWith(path, "/api/admin")
    ensures RequiresOwnerRole(path) <==> StartsWith(path, "/api/owner")
    ensures RequiresAdminRole("/api/administrator")
  {
    assert RequiresAdminRole(path) <==> StartsWith(path, AdminOnlyPaths[0]);
    assert RequiresOwnerRole(path) <==> StartsWith(path, OwnerOnlyPaths[0]);
    var a := "/api/administrator";
    assert a[..10] == AdminOnlyPaths[0];
  }

  /** `[^\/]+` stops at the first `/`. */
  lemma {:induction false} UpToSlashConcat(seg: string, rest: string)
    requires '/' !in seg && (rest == [] || rest[0] == '/')
    ensures UpToSlash(seg + rest) == seg
  {
    if seg != [] {
      assert (seg + rest)[1..] == seg[1..] + rest;
      UpToSlashConcat(seg[1..], rest);
    } else {
      assert seg + rest == rest;
    }
  }

  /** Every panel route is `/`, a segment without `/`, `/panel`, and a tail `.` can match. */
  lemma PanelRouteShape(path: string)
    requires IsPanelRoute(path)
    ensures var seg := ExtractUsername(path).value;
            var tail := path[|seg| + 7..];
            && seg != "" && '/' !in seg && PanelTail(tail)
            && path == "/" + seg + "/panel" + tail
  {
    var seg := Segment(path);
    var n := |seg|;
    var tail := path[n + 7..];
    assert path[1..][..n] == seg;
    assert path[1..1 + n] == seg;
    assert path[1 + n..][..6] == "/panel";
    assert path[1 + n..n + 7] == "/panel";
    assert path[..1] == "/";
    assert path == path[..1] + path[1..1 + n] + path[1 + n..n + 7] + path[n + 7..];
  }

  /** Conversely, every such path is a panel route, and its segment is the username extracted from it. */
  lemma PanelRouteFromParts(seg: string, tail: string)
    requires seg != "" && '/' !in seg && PanelTail(tail)
    ensures IsPanelRoute("/" + seg + "/panel" + tail)
    ensures ExtractUsername("/" + seg + "/panel" + tail) == Some(seg)
  {
    var path := "/" + seg + "/panel" + tail;
    var rest := "/panel" + tail;
    assert path[1..] == seg + rest;
    UpToSlashConcat(seg, rest);
    assert path[1 + |seg|..] == rest;
    assert rest[..6] == "/panel";
    assert rest[6..] == tail;
  }

  /** On a panel route the extraction always succeeds, so its failure branch cannot be reached. */
  lemma PanelRouteHasUsername(path: string)
    requires IsPanelRoute(path)
    ensures ExtractUsername(path).Some? && ExtractUsername(path).value != ""
  {
  }

  // ----- properties of the decision -----

  /** An excluded API path passes without any header, cookie or token being looked at. */
  lemma ExcludedNeedsNoToken(path: string, authorization: Option<string>, cookie: Option<string>, verify: string -> Option<Payload>, nowMs: int)
    requires StartsWith(path, "/api/") && IsExcludedPath(path)
    ensures Decide(path, authorization, cookie, verify, nowMs) == Continue
  {
  }

  /** The `Authorization` header: required and non-empty; `Bearer ` is stripped; nothing left is a missing token. */
  lemma HeaderChecks(path: string, authorization: Option<string>, cookie: Option<string>, verify: string -> Option<Payload>, nowMs: int)
    requires StartsWith(path, "/api/") && !IsExcludedPath(path)
    ensures authorization.None? || authorization == Some("") ==>
              Decide(path, authorization, cookie, verify, nowMs) == Deny(401, "Authorization header is required")
    ensures authorization == Some("Bearer ") ==>
              Decide(path, authorization, cookie, verify, nowMs) == Deny(401, "Token is required")
    ensures authorization.Some? && authorization.value != "" && BearerToken(authorization.value) != "" && verify(BearerToken(authorization.value)).None? ==>
              Decide(path, authorization, cookie, verify, nowMs) == Deny(401, "Invalid or expired token")
  {
  }

  /** The scheme is matched case-sensitively: a `Bearer ` prefix is removed, and a header without one is the token itself. */
  lemma BearerTokenCases(header: string, token: string)
    ensures BearerToken("Bearer " + token) == token
    ensures !StartsWith(header, "Bearer ") ==> BearerToken(header) == header
    ensures |header| > 0 && header[0] == 'b' ==> BearerToken(header) == header
  {
    assert ("Bearer " + token)[..7] == "Bearer ";
    if |header| > 0 && header[0] == 'b' && |header| >= 7 {
      assert header[..7][0] == 'b';
    }
  }

  /** Expiry is strict and in whole seconds: a token expiring this second still passes; an `exp` of 0, or none, never expires. */
  lemma ExpiryBoundary(p: Payload, nowMs: int)
    ensures p.exp == Some(nowMs / 1000) ==> !Expired(p, nowMs)
    ensures p.exp == Some(nowMs / 1000 - 1) && nowMs / 1000 != 1 ==> Expired(p, nowMs)
    ensures p.exp.None? || p.exp == Some(0) ==> !Expired(p, nowMs)
    ensures p.exp.Some? && p.exp.value != 0 && p.exp.value * 1000 + 999 < nowMs ==> Expired(p, nowMs)
  {
  }

  /**
   * A protected API request passes exactly when the header carries a token
   * that verifies, has not expired, and belongs to the type the path needs;
   * it then carries the token's identity.
   */
  lemma ApiPassIff(path: string, authorization: Option<string>, cookie: Option<string>, verify: string -> Option<Payload>, nowMs: int)
    requires StartsWith(path, "/api/") && !IsExcludedPath(path)
    ensures var d := Decide(path, authorization, cookie, verify, nowMs);
            d.ContinueWithRequestIdentity? <==>
              && authorization.Some? && authorization.value != ""
              && BearerToken(authorization.value) != ""
              && verify(BearerToken(authorization.value)).Some?
              && var p := verify(BearerToken(authorization.value)).value;
              && !Expired(p, nowMs)
              && (StartsWith(path, "/api/admin") ==> p.userType == "admin")
              && (StartsWith(path, "/api/owner") ==> p.userType == "owner")
    ensures var d := Decide(path, authorization, cookie, verify, nowMs);
            d.ContinueWithRequestIdentity? ==> d.identity == IdentityOf(verify(BearerToken(authorization.value)).value)
  {
    RolePathsArePrefixes(path);
  }

  /** A verified caller of another type is refused on an admin path, `/api/administrator` included. */
  lemma AdminPathNeedsAdmin(path: string, token: string, cookie: Option<string>, verify: string -> Option<Payload>, nowMs: int)
    requires StartsWith(path, "/api/admin")
    requires token != "" && verify(token).Some? && !Expired(verify(token).value, nowMs)
    requires verify(token).value.userType != "admin"
    ensures Decide(path, Some("Bearer " + token), cookie, verify, nowMs) == Deny(403, "Admin access required")
  {
    RolePathsArePrefixes(path);
    BearerTokenCases("", token);
    AdminPathNotExcluded(path);
    var h := "Bearer " + token;
    assert h != "";
    assert ApiDecision(path, Some(h), verify, nowMs) == Deny(403, "Admin access required");
  }

  /** A verified caller of another type is refused on an owner path, once the admin check has passed. */
  lemma OwnerPathNeedsOwner(path: string, token: string, cookie: Option<string>, verify: string -> Option<Payload>, nowMs: int)
    requires StartsWith(path, "/api/owner")
    requires token != "" && verify(token).Some? && !Expired(verify(token).value, nowMs)
    requires verify(token).value.userType != "owner"
    ensures Decide(path, Some("Bearer " + token), cookie, verify, nowMs) == Deny(403, "Owner access required")
  {
    RolePathsArePrefixes(path);
    BearerTokenCases("", token);
    OwnerPathNotExcluded(path);
    assert !StartsWith(path, "/api/admin") by {
      assert path[..10][6] == 'w';
    }
    var h := "Bearer " + token;
    assert h != "";
    assert ApiDecision(path, Some(h), verify, nowMs) == Deny(403, "Owner access required");
  }

  /**
   * Expiry is checked before the caller's type: on every guarded API path a
   * verified but expired token is refused with a 401, whatever its type.
   */
  lemma ExpiredTokenDenied(path: string, token: string, cookie: Option<string>, verify: string -> Option<Payload>, nowMs: int)
    requires StartsWith(path, "/api/") && !IsExcludedPath(path)
    requires token != "" && verify(token).Some? && Expired(verify(token).value, nowMs)
    ensures Decide(path, Some("Bearer " + token), cookie, verify, nowMs) == Deny(401, "Token has expired")
  {
    BearerTokenCases("", token);
    var h := "Bearer " + token;
    assert h != "";
    assert ApiDecision(path, Some(h), verify, nowMs) == Deny(401, "Token has expired");
  }

  /**
   * A verifier that, like `jwtVerify`, refuses every token whose `exp` is not
   * after the current second leaves the expiry checks nothing to catch: no
   * request is then refused with "Token has expired".
   */
  lemma StrictVerifierNeverExpired(path: string, authorization: Option<string>, cookie: Option<string>,
                                   verify: string -> Option<Payload>, nowMs: int)
    requires forall t :: verify(t).Some? ==> verify(t).value.exp.None? || verify(t).value.exp.value > nowMs / 1000
    ensures Decide(path, authorization, cookie, verify, nowMs) != Deny(401, "Token has expired")
  {
    if StartsWith(path, "/api/") && !IsExcludedPath(path) && authorization.Some? && authorization.value != "" {
      var token := BearerToken(authorization.value);
      if token != "" && verify(token).Some? {
        assert !Expired(verify(token).value, nowMs);
      }
    }
  }

  /**
   * A header value that arrives trimmed, as `Headers` delivers it, is never
   * `Bearer ` alone, so "Token is required" is never the answer.
   */
  lemma TrimmedHeaderNeverTokenless(path: string, authorization: Option<string>, cookie: Option<string>,
                                    verify: string -> Option<Payload>, nowMs: int)
    requires authorization.Some? ==> Trim(authorization.value) == authorization.value
    ensures Decide(path, authorization, cookie, verify, nowMs) != Deny(401, "Token is required")
  {
  }

  /** No excluded path lies under `/api/owner`. */
  lemma OwnerPathNotExcluded(path: string)
    requires StartsWith(path, "/api/owner")
    ensures StartsWith(path, "/api/") && !IsExcludedPath(path)
  {
    assert path[..5] == path[..10][..5];
    forall i | 0 <= i < |ExcludedApiPaths|
      ensures !MatchesExcluded(path, ExcludedApiPaths[i])
    {
      var e := ExcludedApiPaths[i];
      NoWildcardEntries();
      assert path[5] == 'o' && e[5] != 'o';
      assert e[..6] != path[..6];
    }
  }

  /** No excluded path lies under `/api/admin`. */
  lemma AdminPathNotExcluded(path: string)
    requires StartsWith(path, "/api/admin")
    ensures StartsWith(path, "/api/") && !IsExcludedPath(path)
  {
    assert path[..5] == path[..10][..5];
    forall i | 0 <= i < |ExcludedApiPaths|
      ensures !MatchesExcluded(path, ExcludedApiPaths[i])
    {
      var e := ExcludedApiPaths[i];
      NoWildcardEntries();
      if i < 2 {
        assert path[5] == 'a' && e[6] == 'u' && path[6] == 'd';
        assert e[..7] != path[..7];
      } else {
        assert path[5] == 'a' && e[5] == 'c';
        assert e[..6] != path[..6];
      }
    }
  }

  /** The API check comes first: an `/api/` path is never redirected nor handled as a panel page, even `/api/panel`. */
  lemma ApiPathsNeverPanel(path: string, authorization: Option<string>, cookie: Option<string>, verify: string -> Option<Payload>, nowMs: int)
    requires StartsWith(path, "/api/")
    ensures !Decide(path, authorization, cookie, verify, nowMs).RedirectToSignin?
    ensures !Decide(path, authorization, cookie, verify, nowMs).ContinueWithResponseIdentity?
  {
  }

  /**
   * Panel pages: without a usable token the caller is sent to sign in and
   * brought back; a token for another user sends the caller to sign in
   * without the way back, whatever the caller's type; otherwise the page
   * opens with the token's identity.
   */
  lemma PanelOutcomes(path: string, authorization: Option<string>, cookie: Option<string>, verify: string -> Option<Payload>, nowMs: int)
    requires !StartsWith(path, "/api/") && IsPanelRoute(path)
    ensures cookie.None? || cookie == Some("") ==>
              Decide(path, authorization, cookie, verify, nowMs) == RedirectToSignin(Some(path))
    ensures cookie.Some? && cookie.value != "" && (verify(cookie.value).None? || Expired(verify(cookie.value).value, nowMs)) ==>
              Decide(path, authorization, cookie, verify, nowMs) == RedirectToSignin(Some(path))
    ensures cookie.Some? && cookie.value != "" && verify(cookie.value).Some? && !Expired(verify(cookie.value).value, nowMs) ==>
              var p := verify(cookie.value).value;
              Decide(path, authorization, cookie, verify, nowMs) ==
                if p.username == ExtractUsername(path).value then ContinueWithResponseIdentity(IdentityOf(p)) else RedirectToSignin(None)
  {
  }

  /** Paths that are neither API paths nor panel pages continue untouched. */
  lemma OtherPathsContinue(path: string, authorization: Option<string>, cookie: Option<string>, verify: string -> Option<Payload>, nowMs: int)
    requires !StartsWith(path, "/api/") && !IsPanelRoute(path)
    ensures Decide(path, authorization, cookie, verify, nowMs) == Continue
  {
  }
}
