/** The endpoint gate of core/middleware.py: which paths are public, and the
    decision taken for each request before it reaches a view. URL resolution,
    token validation and the downstream view are inputs. */
module Middleware {
  import opened Wrappers
  import opened Text
  import opened Store

  /** `PUBLIC_PATH_PREFIXES` */
  const PUBLIC_PATH_PREFIXES: seq<string> := [
    "api/auth/login",
    "api/auth/register",
    "api/auth/send-otp",
    "api/auth/verify-otp",
    "api/auth/firebase/login",
    "api/auth/register-with-firebase",
    "api/auth/register-with-otp",
    "api/categories",
    "api/users",
    "api/workers"
  ]

  /** The substrings that make an `auth/` path public even outside the prefixes. */
  const AUTH_MARKERS: seq<string> := [
    "send-otp", "verify-otp", "register-with-otp", "register-with-firebase",
    "firebase/login", "auth/login", "auth/register"
  ]

  /** Django's `META` key for the `Authorization` header. */
  const AUTHORIZATION_KEY := "HTTP_AUTHORIZATION"

  /** The authentication scheme of section 2.1 of RFC 6750, matched case-sensitively. */
  const BEARER := "Bearer "

  /** `"/".join(p for p in path_info.strip("/").split("/") if p)`: no slash at
      either end and never two slashes in a row (`NormalizeSegments` says which
      segments it keeps). */
  function Normalize(pathInfo: string): (path: string)
    ensures path != [] ==> path[0] != '/' && path[|path| - 1] != '/'
    ensures forall i | 0 <= i < |path| - 1 :: path[i] == '/' ==> path[i + 1] != '/'
  {
    var parts := NonEmpty(Split(Strip(pathInfo, {'/'}), '/'));
    JoinClean(parts, '/');
    Join(parts, '/')
  }

  /** The normalised path is made of exactly the non-empty segments of the raw
      path, in order: it is empty when there are none, and otherwise splits
      back into them. */
  lemma {:induction false} NormalizeSegments(pathInfo: string)
    ensures var path, segments := Normalize(pathInfo), NonEmpty(Split(pathInfo, '/'));
      && (path == [] <==> segments == [])
      && (path != [] ==> Split(path, '/') == segments)
  {
    var pieces := Split(Strip(pathInfo, {'/'}), '/');
    var parts := NonEmpty(pieces);
    StripKeepsPieces(pathInfo, '/');
    forall i | 0 <= i < |parts|
      ensures '/' !in parts[i]
    {
      var j :| 0 <= j < |pieces| && pieces[j] == parts[i];
    }
    JoinClean(parts, '/');
    if parts != [] {
      SplitJoin(parts, '/');
    }
  }

  /** Normalising a normalised path changes nothing. */
  lemma {:induction false} NormalizeIdempotent(pathInfo: string)
    ensures Normalize(Normalize(pathInfo)) == Normalize(pathInfo)
  {
    var n := Normalize(pathInfo);
    var m := Normalize(n);
    NormalizeSegments(pathInfo);
    NormalizeSegments(n);
    if n == [] {
      assert Split(n, '/') == [[]];
      assert NonEmpty(Split(n, '/')) == [];
    } else {
      var segments := Split(n, '/');
      NonEmptyKeepsClean(segments);
      assert m != [] && Split(m, '/') == segments;
      JoinSplit(m, '/');
      JoinSplit(n, '/');
    }
  }

  /** Normalising `raw`, the join of separator-free pieces, gives `path`, the
      join of the non-empty ones. */
  lemma {:induction false} NormalizeOfJoin(raw: string, pieces: seq<string>, path: string)
    requires |pieces| >= 1 && SepFree(pieces, '/')
    requires raw == Join(pieces, '/') && path == Join(NonEmpty(pieces), '/')
    ensures Normalize(raw) == path
  {
    var n := Normalize(raw);
    SplitJoin(pieces, '/');
    NormalizeSegments(raw);
    if n != [] {
      JoinSplit(n, '/');
    }
  }

  lemma WorkersPathJoin()
    ensures Join(["", "api", "", "workers", ""], '/') == "/api//workers/"
  {
    var pieces: seq<string> := ["", "api", "", "workers", ""];
    assert Join(pieces[3..], '/') == "workers/";
    assert Join(pieces[1..], '/') == "api//workers/";
  }

  lemma WorkersPathSegments()
    ensures NonEmpty(["", "api", "", "workers", ""]) == ["api", "workers"]
  {
    assert ["", "api", "", "workers", ""] == [""] + ["api"] + [""] + ["workers"] + [""];
    NonEmptyAppend([""] + ["api"] + [""] + ["workers"], [""]);
    NonEmptyAppend([""] + ["api"] + [""], ["workers"]);
    NonEmptyAppend([""] + ["api"], [""]);
    NonEmptyAppend([""], ["api"]);
  }

  /** "/api//workers/" normalises to "api/workers": the doubled and the
      trailing slash are dropped, so the path is public. */
  lemma WorkersPathIsPublic()
    ensures Normalize("/api//workers/") == "api/workers"
    ensures IsPublicPath("/api//workers/")
  {
    WorkersPathNormalizes();
    assert "api/workers" == PUBLIC_PATH_PREFIXES[9];
    ListedPathsArePublic("/api//workers/", 9);
  }

  lemma WorkersPathNormalizes()
    ensures Normalize("/api//workers/") == "api/workers"
  {
    WorkersPathJoin();
    WorkersPathSegments();
    assert Join(["api", "workers"], '/') == "api/workers";
    NormalizeOfJoin("/api//workers/", ["", "api", "", "workers", ""], "api/workers");
  }

  lemma ReviewsPathJoin()
    ensures Join(["", "api", "reviews", ""], '/') == "/api/reviews/"
  {
    var pieces: seq<string> := ["", "api", "reviews", ""];
    assert Join(pieces[3..], '/') == "";
    assert Join(pieces[2..], '/') == "reviews/";
    assert Join(pieces[1..], '/') == "api/reviews/";
  }

  lemma ReviewsPathSegments()
    ensures NonEmpty(["", "api", "reviews", ""]) == ["api", "reviews"]
  {
    assert ["", "api", "reviews", ""] == [""] + ["api"] + ["reviews"] + [""];
    NonEmptyAppend([""] + ["api"] + ["reviews"], [""]);
    NonEmptyAppend([""] + ["api"], ["reviews"]);
    NonEmptyAppend([""], ["api"]);
  }

  /** "api/reviews" is under no listed prefix: every prefix has another
      character where the path has 'r'. */
  lemma ReviewsPathUnlisted()
    ensures !UnderPrefix("api/reviews", PUBLIC_PATH_PREFIXES)
  {
    var path, ps := "api/reviews", PUBLIC_PATH_PREFIXES;
    assert path[4] == 'r';
    assert forall i | 0 <= i < |ps| :: |ps[i]| > 4 && ps[i][4] != 'r';
    forall i | 0 <= i < |ps|
      ensures path != ps[i] && !StartsWith(path, ps[i] + "/")
    {
      assert (ps[i] + "/")[4] == ps[i][4];
      DiffersAt(path, ps[i] + "/", 4);
    }
  }

  lemma ReviewsPathHasNoAuth()
    ensures !Contains("api/reviews", "auth/")
  {
    MissingCharNotContained("api/reviews", "auth/", 2);
  }

  /** A path under no listed prefix that does not mention "auth/" needs a token. */
  lemma UnlistedWithoutAuthNeedsToken(pathInfo: string)
    requires !UnderPrefix(Normalize(pathInfo), PUBLIC_PATH_PREFIXES)
    requires !Contains(Normalize(pathInfo), "auth/")
    ensures !IsPublicPath(pathInfo)
  {
  }

  /** A raw path that normalises to "api/reviews" is not public. */
  lemma ReviewsNotPublic(pathInfo: string)
    requires Normalize(pathInfo) == "api/reviews"
    ensures !IsPublicPath(pathInfo)
  {
    ReviewsPathUnlisted();
    ReviewsPathHasNoAuth();
    UnlistedWithoutAuthNeedsToken(pathInfo);
  }

  /** "/api/reviews/" normalises to "api/reviews", so a token is required. */
  lemma ReviewsPathNeedsToken()
    ensures Normalize("/api/reviews/") == "api/reviews"
    ensures !IsPublicPath("/api/reviews/")
  {
    ReviewsPathJoin();
    ReviewsPathSegments();
    assert Join(["api", "reviews"], '/') == "api/reviews";
    NormalizeOfJoin("/api/reviews/", ["", "api", "reviews", ""], "api/reviews");
    ReviewsNotPublic("/api/reviews/");
  }

  /** The prefix loop of `_is_public_path`: `path` equals a listed prefix or
      extends it at a segment boundary. */
  function UnderPrefix(path: string, prefixes: seq<string>): (r: bool)
    ensures r <==> exists i | 0 <= i < |prefixes| :: path == prefixes[i] || StartsWith(path, prefixes[i] + "/")
  {
    if prefixes == [] then false
    else if path == prefixes[0] || StartsWith(path, prefixes[0] + "/") then true
    else UnderPrefix(path, prefixes[1..])
  }

  /** `any(x in path for x in markers)` */
  function MentionsAny(path: string, markers: seq<string>): (r: bool)
    ensures r <==> exists i | 0 <= i < |markers| :: Contains(path, markers[i])
  {
    if markers == [] then false
    else Contains(path, markers[0]) || MentionsAny(path, markers[1..])
  }

  /** `_is_public_path(path_info)`: only `api/` paths can be public. */
  function IsPublicPath(pathInfo: string): (r: bool)
    ensures r ==> StartsWith(Normalize(pathInfo), "api/")
  {
    var path := Normalize(pathInfo);
    if !StartsWith(path, "api/") then false
    else if UnderPrefix(path, PUBLIC_PATH_PREFIXES) then true
    else Contains(path, "auth/") && MentionsAny(path, AUTH_MARKERS)
  }

  lemma {:induction false} StartsWithTrans(s: string, p: string, q: string)
    requires StartsWith(s, p) && StartsWith(p, q)
    ensures StartsWith(s, q)
  {
    assert s[..|q|] == s[..|p|][..|q|];
  }

  lemma PrefixesAreApiPaths(i: nat)
    requires i < |PUBLIC_PATH_PREFIXES|
    ensures StartsWith(PUBLIC_PATH_PREFIXES[i], "api/")
  {
  }

  /** A path equal to a listed prefix, or extending one with "/", is public. */
  lemma ListedPathsArePublic(pathInfo: string, i: nat)
    requires i < |PUBLIC_PATH_PREFIXES|
    requires var path := Normalize(pathInfo);
      path == PUBLIC_PATH_PREFIXES[i] || StartsWith(path, PUBLIC_PATH_PREFIXES[i] + "/")
    ensures IsPublicPath(pathInfo)
  {
    var path, prefix := Normalize(pathInfo), PUBLIC_PATH_PREFIXES[i];
    PrefixesAreApiPaths(i);
    if path != prefix {
      StartsWithTrans(prefix + "/", prefix, "api/");
      StartsWithTrans(path, prefix + "/", "api/");
    }
  }

  /** An `api/` path that mentions "auth/" and one of the markers is public,
      wherever the markers stand. */
  lemma AuthMarkersArePublic(pathInfo: string, j: nat)
    requires j < |AUTH_MARKERS|
    requires var path := Normalize(pathInfo);
      StartsWith(path, "api/") && Contains(path, "auth/") && Contains(path, AUTH_MARKERS[j])
    ensures IsPublicPath(pathInfo)
  {
  }

  /** The prefix rule matches whole segments: "api/categoriesX" is under no
      listed prefix, although it begins with "api/categories". */
  lemma PrefixStopsAtSegment(pathInfo: string)
    requires Normalize(pathInfo) == "api/categoriesX"
    ensures !UnderPrefix(Normalize(pathInfo), PUBLIC_PATH_PREFIXES)
  {
    var path, ps := "api/categoriesX", PUBLIC_PATH_PREFIXES;
    assert StartsWith(path, ps[7]);
    forall i | 0 <= i < |ps|
      ensures path != ps[i] && !StartsWith(path, ps[i] + "/")
    {
      if i == 7 {
        DiffersAt(path, ps[i] + "/", 14);
      } else if i == 0 || i == 8 || i == 9 {
        DiffersAt(path, ps[i] + "/", 4);
      }
    }
  }

  lemma LoginLegacyNotUnderPrefix()
    ensures !UnderPrefix("api/auth/login-legacy", PUBLIC_PATH_PREFIXES)
  {
    var path, ps := "api/auth/login-legacy", PUBLIC_PATH_PREFIXES;
    forall i | 0 <= i < |ps|
      ensures path != ps[i] && !StartsWith(path, ps[i] + "/")
    {
      if i == 0 {
        DiffersAt(path, ps[i] + "/", 14);
      } else if 1 <= i <= 6 {
        DiffersAt(path, ps[i] + "/", 9);
      } else {
        DiffersAt(path, ps[i] + "/", 4);
      }
    }
  }

  lemma LoginLegacyMentionsAuth()
    ensures StartsWith("api/auth/login-legacy", "api/")
    ensures Contains("api/auth/login-legacy", "auth/")
    ensures Contains("api/auth/login-legacy", AUTH_MARKERS[5])
  {
    var path := "api/auth/login-legacy";
    assert path[4..9] == "auth/";
    ContainsAt(path, "auth/", 4);
    assert path[4..14] == AUTH_MARKERS[5];
    ContainsAt(path, AUTH_MARKERS[5], 4);
  }

  /** The substring rule is looser than the prefix rule: "api/auth/login-legacy"
      is under no listed prefix, yet it is public. */
  lemma SubstringRuleIsLoose(pathInfo: string)
    requires Normalize(pathInfo) == "api/auth/login-legacy"
    ensures !UnderPrefix(Normalize(pathInfo), PUBLIC_PATH_PREFIXES)
    ensures IsPublicPath(pathInfo)
  {
    LoginLegacyNotUnderPrefix();
    LoginLegacyMentionsAuth();
    AuthMarkersArePublic(pathInfo, 5);
  }

  /** What the validator (`get_validated_token`) says about a raw token. */
  datatype TokenCheck = Validated(userId: Option<int>) | InvalidToken | AuthenticationFailed(reason: string)

  /** The middleware's decision on one request. */
  datatype Decision =
    | PassThrough                            // handed to the view untouched
    | ForwardPublic                          // Authorization removed, then handed to the view
    | ForwardAuthenticated(user: Principal)  // `request.user` set, then handed to the view
    | Respond(status: Status, attribute: string, errorType: string, message: string)

  /** `auth_header.split(" ")[1]`: the text after "Bearer " up to the next space. */
  function RawToken(header: string): (token: string)
    requires StartsWith(header, BEARER)
    ensures token == Split(header[|BEARER|..], ' ')[0]
    ensures ' ' !in token
  {
    var rest := header[|BEARER|..];
    assert header == "Bearer" + ([' '] + rest);
    SplitAfterPiece("Bearer", [' '] + rest, ' ');
    assert ([' '] + rest)[1..] == rest;
    Split(header, ' ')[1]
  }

  /** `request.headers.get("Authorization")` */
  function Authorization(meta: map<string, string>): Option<string> {
    if AUTHORIZATION_KEY in meta then Some(meta[AUTHORIZATION_KEY]) else None
  }

  /** The decision sequence of `__call__`, given whether the path resolves to a
      route, the token validator and the user table. */
  function Decide(pathInfo: string, authorization: Option<string>, resolves: bool,
                  validate: string -> TokenCheck, users: map<Id, UserRow>): (d: Decision)
    ensures !StartsWith(pathInfo, "/api/") <==> d == PassThrough
    ensures d.Respond? && d.status == NOT_FOUND <==> StartsWith(pathInfo, "/api/") && !resolves
    ensures d == ForwardPublic <==> StartsWith(pathInfo, "/api/") && resolves && IsPublicPath(pathInfo)
    ensures d.Respond? ==> d.status == NOT_FOUND || d.status == UNAUTHORIZED
    ensures StartsWith(pathInfo, "/api/") && resolves && !IsPublicPath(pathInfo)
            && (authorization.None? || !StartsWith(authorization.value, BEARER))
            ==> d.Respond? && d.status == UNAUTHORIZED
    ensures d.ForwardAuthenticated? ==>
              && StartsWith(pathInfo, "/api/") && resolves && !IsPublicPath(pathInfo)
              && authorization.Some? && StartsWith(authorization.value, BEARER)
              && d.user.Registered? && d.user.id in users && d.user.id != 0
              && validate(RawToken(authorization.value)) == Validated(Some(d.user.id))
              && d.user == PrincipalOf(d.user.id, users[d.user.id])
  {
    if !StartsWith(pathInfo, "/api/") then PassThrough
    else if !resolves then Respond(NOT_FOUND, "endpoint", "not_found", "Endpoint does not exist.")
    else if IsPublicPath(pathInfo) then ForwardPublic
    else if authorization.None? || authorization.value == [] || !StartsWith(authorization.value, BEARER) then
      Respond(UNAUTHORIZED, "token", "required", "Invalid authentication credentials.")
    else
      match validate(RawToken(authorization.value))
      case InvalidToken => Respond(UNAUTHORIZED, "token", "invalid", "Token is invalid or expired.")
      case AuthenticationFailed(reason) => Respond(UNAUTHORIZED, "token", "authentication_failed", reason)
      case Validated(userId) =>
        if userId.None? || userId.value == 0 then
          Respond(UNAUTHORIZED, "token", "invalid", "Invalid authentication credentials.")
        else if userId.value < 0 || userId.value !in users then
          Respond(UNAUTHORIZED, "user", "not_found", "Invalid authentication credentials.")
        else ForwardAuthenticated(PrincipalOf(userId.value, users[userId.value]))
  }

  /** Once a protected path carries a Bearer header, the validator decides:
      a token naming a stored, positive user id lets the request through as
      that user, and every other answer is refused with UNAUTHORIZED. */
  lemma TokenOutcomes(pathInfo: string, authorization: Option<string>, resolves: bool,
                      validate: string -> TokenCheck, users: map<Id, UserRow>)
    requires StartsWith(pathInfo, "/api/") && resolves && !IsPublicPath(pathInfo)
    requires authorization.Some? && StartsWith(authorization.value, BEARER)
    ensures var d, check := Decide(pathInfo, authorization, resolves, validate, users), validate(RawToken(authorization.value));
      && (check.Validated? && check.userId.Some? && check.userId.value > 0 && check.userId.value in users ==>
            d == ForwardAuthenticated(PrincipalOf(check.userId.value, users[check.userId.value])))
      && (check.Validated? && (check.userId.None? || check.userId.value <= 0 || check.userId.value !in users) ==>
            d.Respond? && d.status == UNAUTHORIZED)
      && (!check.Validated? ==> d.Respond? && d.status == UNAUTHORIZED)
  {
  }

  /** The part of a Django request the middleware reads and writes. */
  class HttpRequest {
    var pathInfo: string
    var meta: map<string, string>
    var user: Principal
    var dontEnforceCsrfChecks: bool

    constructor (pathInfo: string, meta: map<string, string>)
      ensures this.pathInfo == pathInfo && this.meta == meta
      ensures user == Anonymous && !dontEnforceCsrfChecks
    {
      this.pathInfo, this.meta := pathInfo, meta;
      user, dontEnforceCsrfChecks := Anonymous, false;
    }
  }

  /** `EndpointPermissionMiddleware.__call__`: the request is changed as the
      decision says (the header is dropped only on public paths, the user is set
      only after a successful token check) and CSRF checks are always switched off. */
  method Call(request: HttpRequest, resolve: string -> bool, validate: string -> TokenCheck,
              users: map<Id, UserRow>) returns (d: Decision)
    modifies request
    ensures d == Decide(old(request.pathInfo), Authorization(old(request.meta)),
                        resolve(old(request.pathInfo)), validate, users)
    ensures request.dontEnforceCsrfChecks && request.pathInfo == old(request.pathInfo)
    ensures request.meta == if d == ForwardPublic then old(request.meta) - {AUTHORIZATION_KEY}
                            else old(request.meta)
    ensures request.user == if d.ForwardAuthenticated? then d.user else old(request.user)
  {
    var path, header := request.pathInfo, Authorization(request.meta);
    d := Decide(path, header, resolve(path), validate, users);
    request.dontEnforceCsrfChecks := true;
    if d == ForwardPublic {
      request.meta := request.meta - {AUTHORIZATION_KEY};
    } else if d.ForwardAuthenticated? {
      request.user := d.user;
    }
  }
}
