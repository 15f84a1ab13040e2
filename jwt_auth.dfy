/** `ZAOBank_JWT_Auth`: the REST bearer-authentication adapter. It finds the
    Authorization header, extracts the token with `/Bearer\s+(.*)$/i` (or falls
    back to the `jwt_token` query parameter), validates it, and remembers the
    last failure in its `auth_error` field, always with an HTTP status. */
module JwtAuth {

  import opened Common
  import opened JwtTokens
  import Base64Url

  /** What the adapter reads of the current request. */
  datatype Request = Request(
    server: map<string, string>,                   // $_SERVER
    apacheHeaders: Option<seq<(string, string)>>,  // apache_request_headers(), when that function exists
    query: map<string, string>,                    // $_GET
    isRest: bool)                                  // is_rest_request()

  const AuthFailed := ErrorWithStatus("auth_failed", 401)
  const MissingUserId := WpError("missing_user_id", None)
  const UserNotFound := WpError("user_not_found", None)

  // ---------------------------------------------------------------------------
  // sanitize_text_field, as far as whitespace goes

  /** The characters `sanitize_text_field` folds into one space: `[\r\n\t ]`. */
  predicate IsFoldedSpace(c: char)
  {
    c == ' ' || c == '\t' || c == '\n' || c == '\r'
  }

  /** The characters PHP's `trim` strips: space, tab, line feed, carriage
      return, NUL and vertical tab. */
  predicate IsTrimmed(c: char)
  {
    IsFoldedSpace(c) || c as int == 0 || c as int == 11
  }

  /** `s` without its leading run of folded spaces. */
  function DropFolded(s: string): (r: string)
    ensures |r| <= |s|
    ensures |r| > 0 ==> !IsFoldedSpace(r[0])
  {
    if |s| > 0 && IsFoldedSpace(s[0]) then DropFolded(s[1..]) else s
  }

  /** A string of folded spaces only is dropped entirely. */
  lemma {:induction false} DropFoldedAll(s: string)
    requires forall i :: 0 <= i < |s| ==> IsFoldedSpace(s[i])
    ensures DropFolded(s) == ""
    decreases |s|
  {
    if |s| > 0 {
      DropFoldedAll(s[1..]);
    }
  }

  /** `preg_replace('/[\r\n\t ]+/', ' ', $s)`: each run becomes one space. */
  function FoldSpaces(s: string): (r: string)
    ensures forall i :: 0 <= i < |r| && IsFoldedSpace(r[i]) ==> r[i] == ' '
    ensures |s| > 0 && !IsFoldedSpace(s[0]) ==> |r| > 0 && r[0] == s[0]
    ensures |s| > 0 && IsFoldedSpace(s[0]) ==> |r| > 0 && r[0] == ' '
    decreases |s|
  {
    if |s| == 0 then ""
    else if IsFoldedSpace(s[0]) then " " + FoldSpaces(DropFolded(s[1..]))
    else [s[0]] + FoldSpaces(s[1..])
  }

  /** PHP `ltrim`. */
  function TrimStart(s: string): (r: string)
    ensures |r| > 0 ==> !IsTrimmed(r[0])
  {
    if |s| > 0 && IsTrimmed(s[0]) then TrimStart(s[1..]) else s
  }

  /** PHP `rtrim`. */
  function TrimEnd(s: string): (r: string)
    ensures |r| > 0 ==> !IsTrimmed(r[|r| - 1])
  {
    if |s| > 0 && IsTrimmed(s[|s| - 1]) then TrimEnd(s[..|s| - 1]) else s
  }

  /** The whitespace handling of `sanitize_text_field`: runs of spaces, tabs and
      line breaks become one space, and the ends are trimmed. */
  function SanitizeText(s: string): string
  {
    TrimEnd(TrimStart(FoldSpaces(s)))
  }

  lemma {:induction false} TrimStartIsSuffix(s: string)
    ensures |TrimStart(s)| <= |s| && TrimStart(s) == s[|s| - |TrimStart(s)|..]
  {
    if |s| > 0 && IsTrimmed(s[0]) {
      TrimStartIsSuffix(s[1..]);
    }
  }

  lemma {:induction false} TrimEndIsPrefix(s: string)
    ensures |TrimEnd(s)| <= |s| && TrimEnd(s) == s[..|TrimEnd(s)|]
  {
    if |s| > 0 && IsTrimmed(s[|s| - 1]) {
      TrimEndIsPrefix(s[..|s| - 1]);
    }
  }

  /** No tab, line feed or carriage return. */
  predicate NoBreaks(s: string)
  {
    forall i :: 0 <= i < |s| ==> s[i] != '\t' && s[i] != '\n' && s[i] != '\r'
  }

  lemma {:induction false} TrimStartNoBreaks(s: string)
    requires NoBreaks(s)
    ensures NoBreaks(TrimStart(s))
  {
    if |s| > 0 && IsTrimmed(s[0]) {
      assert forall i :: 0 <= i < |s| - 1 ==> s[1..][i] == s[i + 1];
      TrimStartNoBreaks(s[1..]);
    }
  }

  lemma {:induction false} TrimEndNoBreaks(s: string)
    requires NoBreaks(s)
    ensures NoBreaks(TrimEnd(s))
  {
    if |s| > 0 && IsTrimmed(s[|s| - 1]) {
      assert forall i :: 0 <= i < |s| - 1 ==> s[..|s| - 1][i] == s[i];
      TrimEndNoBreaks(s[..|s| - 1]);
    }
  }

  /** Sanitised text holds no tab or line break, and neither end is a character
      `trim` strips. */
  lemma SanitizeTextShape(s: string)
    ensures var r := SanitizeText(s);
      && NoBreaks(r)
      && (|r| > 0 ==> !IsTrimmed(r[0]) && !IsTrimmed(r[|r| - 1]))
  {
    var f := FoldSpaces(s);
    var t := TrimStart(f);
    TrimStartNoBreaks(f);
    var r := TrimEnd(t);
    TrimEndNoBreaks(t);
    TrimEndIsPrefix(t);
    if |r| > 0 {
      assert r[0] == t[0];
    }
  }

  /** Text without folded spaces passes through the folding unchanged after any prefix without them. */
  lemma {:induction false} FoldSpacesKeepsPlain(a: string, b: string)
    requires forall i :: 0 <= i < |a| ==> !IsFoldedSpace(a[i])
    ensures FoldSpaces(a + b) == a + FoldSpaces(b)
    decreases |a|
  {
    if |a| > 0 {
      assert (a + b)[1..] == a[1..] + b;
      FoldSpacesKeepsPlain(a[1..], b);
    } else {
      assert a + b == b;
    }
  }

  /** Text that folding leaves alone and whose ends `trim` keeps is not changed
      by sanitisation. */
  lemma {:induction false} SanitizeKeepsClean(s: string)
    requires |s| > 0 && !IsTrimmed(s[0]) && !IsTrimmed(s[|s| - 1])
    requires FoldSpaces(s) == s
    ensures SanitizeText(s) == s
  {
    assert TrimStart(s) == s;
    assert TrimEnd(s) == s;
  }

  /** A space before text without whitespace is folded to itself. */
  lemma {:induction false} FoldSpaceBefore(t: string)
    requires |t| > 0 && forall i :: 0 <= i < |t| ==> !IsFoldedSpace(t[i])
    ensures FoldSpaces(" " + t) == " " + t
  {
    assert (" " + t)[1..] == t;
    assert DropFolded(t) == t;
    FoldSpacesKeepsPlain(t, "");
    assert t + "" == t;
  }

  /** `<scheme> <token>` comes through sanitisation unchanged when neither
      part is empty, holds whitespace or has a character `trim` strips. */
  lemma {:induction false} SanitizeSchemeToken(scheme: string, t: string)
    requires |scheme| > 0 && forall i :: 0 <= i < |scheme| ==> !IsTrimmed(scheme[i])
    requires |t| > 0 && forall i :: 0 <= i < |t| ==> !IsTrimmed(t[i])
    ensures SanitizeText(scheme + " " + t) == scheme + " " + t
  {
    var s := scheme + " " + t;
    assert FoldSpaces(s) == s by {
      FoldSpaceBefore(t);
      FoldSpacesKeepsPlain(scheme, " " + t);
      assert s == scheme + (" " + t);
    }
    assert s[0] == scheme[0];
    assert s[|s| - 1] == t[|t| - 1];
    SanitizeKeepsClean(s);
  }

  /** `<scheme> ` loses its trailing space. */
  lemma {:induction false} SanitizeSchemeBlank(scheme: string)
    requires |scheme| > 0 && forall i :: 0 <= i < |scheme| ==> !IsTrimmed(scheme[i])
    ensures SanitizeText(scheme + " ") == scheme
  {
    var s := scheme + " ";
    assert FoldSpaces(s) == s by {
      FoldSpacesKeepsPlain(scheme, " ");
      assert DropFolded("") == "";
    }
    assert s[0] == scheme[0];
    assert TrimStart(s) == s;
    assert s[..|s| - 1] == scheme;
    assert TrimEnd(s) == TrimEnd(scheme);
  }

  // ---------------------------------------------------------------------------
  // get_authorization_header

  /** `strtolower` on one character (ASCII letters only). */
  function LowerChar(c: char): char
  {
    if 'A' <= c <= 'Z' then (c as int + 32) as char else c
  }

  function Lower(s: string): (r: string)
    ensures |r| == |s|
  {
    seq(|s|, i requires 0 <= i < |s| => LowerChar(s[i]))
  }

  function ExactAuthorization(): ((string, string)) -> bool
  {
    (kv: (string, string)) => kv.0 == "Authorization"
  }

  function AnyCaseAuthorization(): ((string, string)) -> bool
  {
    (kv: (string, string)) => Lower(kv.0) == "authorization"
  }

  /** The header value, looked up in the order the adapter uses: the server
      variables first (sanitised), then the request headers by exact key, then
      by any case (both as sent). */
  function AuthorizationHeader(req: Request): (h: Option<string>)
    ensures "HTTP_AUTHORIZATION" in req.server ==> h == Some(SanitizeText(req.server["HTTP_AUTHORIZATION"]))
    ensures "HTTP_AUTHORIZATION" !in req.server && "REDIRECT_HTTP_AUTHORIZATION" in req.server ==>
      h == Some(SanitizeText(req.server["REDIRECT_HTTP_AUTHORIZATION"]))
    ensures "HTTP_AUTHORIZATION" !in req.server && "REDIRECT_HTTP_AUTHORIZATION" !in req.server ==>
      match req.apacheHeaders
      case None => h.None?
      case Some(hs) =>
        && (h.Some? <==> exists i :: 0 <= i < |hs| && Lower(hs[i].0) == "authorization")
        && (h.Some? ==> exists i :: 0 <= i < |hs| && Lower(hs[i].0) == "authorization" && h.value == hs[i].1)
        && (forall i :: 0 <= i < |hs| && hs[i].0 == "Authorization" ==>
              exists j :: 0 <= j < |hs| && hs[j].0 == "Authorization" && h == Some(hs[j].1)
                          && forall k :: 0 <= k < j ==> hs[k].0 != "Authorization")
        && ((forall i :: 0 <= i < |hs| ==> hs[i].0 != "Authorization") && h.Some? ==>
              exists j :: 0 <= j < |hs| && Lower(hs[j].0) == "authorization" && h.value == hs[j].1
                          && forall k :: 0 <= k < j ==> Lower(hs[k].0) != "authorization")
  {
    if "HTTP_AUTHORIZATION" in req.server then Some(SanitizeText(req.server["HTTP_AUTHORIZATION"]))
    else if "REDIRECT_HTTP_AUTHORIZATION" in req.server then Some(SanitizeText(req.server["REDIRECT_HTTP_AUTHORIZATION"]))
    else match req.apacheHeaders
      case None => None
      case Some(hs) =>
        match FirstIndex(hs, ExactAuthorization())
        case Some(k) => Some(hs[k].1)
        case None =>
          match FirstIndex(hs, AnyCaseAuthorization())
          case Some(k) => Some(hs[k].1)
          case None => None
  }

  /** `get_authorization_header`, with its case-insensitive `foreach` over the headers. */
  method GetAuthorizationHeader(req: Request) returns (h: Option<string>)
    ensures h == AuthorizationHeader(req)
  {
    if "HTTP_AUTHORIZATION" in req.server {
      return Some(SanitizeText(req.server["HTTP_AUTHORIZATION"]));
    }
    if "REDIRECT_HTTP_AUTHORIZATION" in req.server {
      return Some(SanitizeText(req.server["REDIRECT_HTTP_AUTHORIZATION"]));
    }
    if req.apacheHeaders.None? {
      return None;
    }
    var hs := req.apacheHeaders.value;
    var exact := FirstIndex(hs, ExactAuthorization());
    if exact.Some? {
      return Some(hs[exact.value].1);
    }
    var i := 0;
    while i < |hs|
      invariant 0 <= i <= |hs|
      invariant forall j :: 0 <= j < i ==> !AnyCaseAuthorization()(hs[j])
    {
      if Lower(hs[i].0) == "authorization" {
        return Some(hs[i].1);
      }
      i := i + 1;
    }
    return None;
  }

  // ---------------------------------------------------------------------------
  // The bearer pattern /Bearer\s+(.*)$/i

  /** PCRE `\s`: space, tab, line feed, vertical tab, form feed, carriage return. */
  predicate IsSpace(c: char)
  {
    c == ' ' || 9 <= c as int <= 13
  }

  /** The length of the run of `\s` characters starting at `i` (what greedy `\s+` takes). */
  function SpaceRun(s: string, i: nat): (n: nat)
    requires i <= |s|
    ensures i + n <= |s|
    ensures forall j :: i <= j < i + n ==> IsSpace(s[j])
    ensures i + n < |s| ==> !IsSpace(s[i + n])
    decreases |s| - i
  {
    if i < |s| && IsSpace(s[i]) then 1 + SpaceRun(s, i + 1) else 0
  }

  /** What `(.*)$` captures from `i`: `.` stops at a line feed and `$` matches at
      the end or before a final line feed, so the rest must hold no other one. */
  function CaptureFrom(s: string, i: nat): (r: Option<string>)
    requires i <= |s|
    ensures r.Some? ==> '\n' !in r.value
    ensures r.Some? ==> s[i..] == r.value || s[i..] == r.value + "\n"
  {
    var rest := s[i..];
    var body := if |rest| > 0 && rest[|rest| - 1] == '\n' then rest[..|rest| - 1] else rest;
    if '\n' in body then None else Some(body)
  }

  /** The match attempt starting at `p`. Backtracking `\s+` cannot help: a
      shorter run leaves whitespace in the capture, and a line feed there fails. */
  function BearerAt(s: string, p: nat): (r: Option<string>)
    requires p <= |s|
    ensures r.Some? ==> p + 6 < |s| && Lower(s[p..p + 6]) == "bearer" && IsSpace(s[p + 6])
  {
    if p + 6 <= |s| && Lower(s[p..p + 6]) == "bearer" then
      var n := SpaceRun(s, p + 6);
      if n == 0 then None else CaptureFrom(s, p + 6 + n)
    else None
  }

  /** The first position in `lo..hi - 1` that `f` accepts, if any. */
  function FirstAt(lo: nat, hi: nat, f: nat -> bool): (q: Option<nat>)
    requires lo <= hi
    ensures q.Some? ==> lo <= q.value < hi && f(q.value)
    ensures q.Some? ==> forall q' :: lo <= q' < q.value ==> !f(q')
    ensures q.None? ==> forall q' :: lo <= q' < hi ==> !f(q')
    decreases hi - lo
  {
    if lo == hi then None
    else if f(lo) then Some(lo)
    else FirstAt(lo + 1, hi, f)
  }

  /** The positions of `s` where the pattern matches. */
  function MatchesAt(s: string): nat -> bool
  {
    (q: nat) => q <= |s| && BearerAt(s, q).Some?
  }

  /** Where the leftmost match at or after `p` starts, if any. */
  function BearerPosition(s: string, p: nat): (q: Option<nat>)
    requires p <= |s|
    ensures q.Some? ==> p <= q.value < |s| && BearerAt(s, q.value).Some?
    ensures q.Some? ==> forall q' :: p <= q' < q.value ==> BearerAt(s, q').None?
    ensures q.None? ==> forall q' :: p <= q' <= |s| ==> BearerAt(s, q').None?
  {
    FirstMatchIsLeftmost(s, p);
    FirstAt(p, |s| + 1, MatchesAt(s))
  }

  lemma FirstMatchIsLeftmost(s: string, p: nat)
    requires p <= |s|
    ensures var q := FirstAt(p, |s| + 1, MatchesAt(s));
      && (q.Some? ==> BearerAt(s, q.value).Some?)
      && (q.Some? ==> forall q' :: p <= q' < q.value ==> BearerAt(s, q').None?)
      && (q.None? ==> forall q' :: p <= q' <= |s| ==> BearerAt(s, q').None?)
  {
    var q := FirstAt(p, |s| + 1, MatchesAt(s));
    if q.Some? {
      assert MatchesAt(s)(q.value);
    }
    forall q' | p <= q' <= |s| && (q.None? || q' < q.value)
      ensures BearerAt(s, q').None?
    {
      assert !MatchesAt(s)(q');
    }
  }

  /** The leftmost match at or after `p`: `preg_match` reports the first
      position where the pattern matches. */
  function BearerFrom(s: string, p: nat): (r: Option<string>)
    requires p <= |s|
    ensures r.Some? ==> '\n' !in r.value
    ensures r.Some? <==> BearerPosition(s, p).Some?
    ensures r.Some? ==> r == BearerAt(s, BearerPosition(s, p).value)
    ensures r.Some? ==> forall q :: p <= q < BearerPosition(s, p).value ==> BearerAt(s, q).None?
    ensures r.None? ==> forall q :: p <= q <= |s| ==> BearerAt(s, q).None?
  {
    match BearerPosition(s, p)
    case Some(q) => BearerAt(s, q)
    case None => None
  }

  /** `preg_match('/Bearer\s+(.*)$/i', $header, $m) ? $m[1] : no match`. */
  function BearerToken(header: string): Option<string>
  {
    BearerFrom(header, 0)
  }

  /** `Bearer <token>` in any letter case yields the token, whenever the token
      neither starts with whitespace nor contains a line feed. */
  lemma BearerOfScheme(scheme: string, token: string)
    requires |scheme| == 6 && Lower(scheme) == "bearer"
    requires |token| == 0 || !IsSpace(token[0])
    requires '\n' !in token
    ensures BearerToken(scheme + " " + token) == Some(token)
  {
    var s := scheme + " " + token;
    assert s[0..6] == scheme;
    assert SpaceRun(s, 7) == 0;
    assert SpaceRun(s, 6) == 1;
    assert s[7..] == token;
    assert BearerAt(s, 0) == Some(token);
  }

  // ---------------------------------------------------------------------------
  // get_token_from_request

  /** The token from a header value and the query: a truthy header matching the
      pattern wins; only otherwise is `jwt_token` read. */
  function TokenFromHeader(header: Option<string>, query: map<string, string>): Option<string>
  {
    if header.Some? && !EmptyStr(header.value) && BearerToken(header.value).Some? then BearerToken(header.value)
    else if "jwt_token" in query then Some(SanitizeText(query["jwt_token"]))
    else None
  }

  /** `get_token_from_request`. */
  function TokenFromRequest(req: Request): Option<string>
  {
    TokenFromHeader(AuthorizationHeader(req), req.query)
  }

  /** `if (!$token)`: no token, or one PHP reads as false. */
  predicate TokenPresent(t: Option<string>)
  {
    t.Some? && !EmptyStr(t.value)
  }

  /** A `Bearer` header decides the token whatever the query holds. */
  lemma HeaderTokenWins(query: map<string, string>, scheme: string, token: string)
    requires |scheme| == 6 && Lower(scheme) == "bearer"
    requires |token| == 0 || !IsSpace(token[0])
    requires '\n' !in token
    ensures TokenFromHeader(Some(scheme + " " + token), query) == Some(token)
  {
    BearerOfScheme(scheme, token);
    assert (scheme + " " + token)[6] == ' ';
  }

  /** Without any Authorization header the sanitised `jwt_token` query parameter is used. */
  lemma QueryFallback(req: Request)
    requires "HTTP_AUTHORIZATION" !in req.server && "REDIRECT_HTTP_AUTHORIZATION" !in req.server
    requires req.apacheHeaders.None?
    ensures TokenFromRequest(req) ==
      (if "jwt_token" in req.query then Some(SanitizeText(req.query["jwt_token"])) else None)
  {
  }

  /** A bare `Bearer ` header captures the empty string, so the query token is
      never consulted and the request carries no usable token. Only a header
      read through `apache_request_headers` can arrive like this: the server
      variables are sanitised, which trims the space. */
  lemma BlankBearerHidesQueryToken(req: Request)
    requires AuthorizationHeader(req) == Some("Bearer ")
    ensures "HTTP_AUTHORIZATION" !in req.server && "REDIRECT_HTTP_AUTHORIZATION" !in req.server
    ensures TokenFromRequest(req) == Some("")
    ensures !TokenPresent(TokenFromRequest(req))
  {
    var s := "Bearer ";
    assert s[0..6] == "Bearer";
    assert SpaceRun(s, 7) == 0;
    assert SpaceRun(s, 6) == 1;
    assert BearerAt(s, 0) == Some("");
  }

  /** A bare `Bearer ` in a server variable is trimmed to `Bearer`, which the
      pattern does not match, so the query parameter is used after all. */
  lemma ServerBlankBearerFallsBack(req: Request)
    requires "HTTP_AUTHORIZATION" in req.server && req.server["HTTP_AUTHORIZATION"] == "Bearer "
    ensures AuthorizationHeader(req) == Some("Bearer")
    ensures TokenFromRequest(req) ==
      (if "jwt_token" in req.query then Some(SanitizeText(req.query["jwt_token"])) else None)
  {
    var scheme := "Bearer";
    SanitizeSchemeBlank(scheme);
    assert scheme + " " == "Bearer ";
    assert BearerToken(scheme).None?;
  }

  // ---------------------------------------------------------------------------
  // From a token to a user, and the error normalisation

  /** The id `get_user_by('ID', $sub)` looks up: `is_numeric` then `intval`,
      for an integer claim or a string of decimal digits. */
  function SubjectId(sub: Json): (id: Option<int>)
    ensures sub.JNum? ==> id == Some(sub.n)
    ensures sub.JStr? ==> (id.Some? <==> IsDecimal(sub.s))
    ensures !sub.JNum? && !sub.JStr? ==> id.None?
  {
    match sub
    case JNum(n) => Some(n)
    case JStr(s) => if IsDecimal(s) then Some(DecimalValue(s)) else None
    case _ => None
  }

  /** `get_user_by('ID', $sub)`: the claim's id, when it names a user. */
  function SubjectUser(sub: Json, users: map<int, UserProfile>): (id: Option<int>)
    ensures id.Some? <==> SubjectId(sub).Some? && FindUser(users, SubjectId(sub).value).Some?
    ensures id.Some? ==> id == SubjectId(sub)
  {
    match SubjectId(sub)
    case Some(n) => if FindUser(users, n).Some? then Some(n) else None
    case None => None
  }

  /** A user's id names that user whether the claim carries it as a number or
      as its decimal string. */
  lemma NumericSubjectResolves(n: nat, users: map<int, UserProfile>)
    requires FindUser(users, n).Some?
    ensures SubjectUser(JNum(n), users) == Some(n)
    ensures SubjectUser(JStr(Digits(n)), users) == Some(n)
  {
    DecimalOfDigits(n);
  }

  /** The user a token names, as `authenticate` and `get_current_user` resolve it:
      token validation, then the `sub` claim, then the user lookup. */
  function TokenUser(token: string, cfg: TokenConfig, users: map<int, UserProfile>, now: int): (r: Result<int>)
    ensures ValidateToken(token, cfg, now).Err? ==> r == Err(ValidateToken(token, cfg, now).error)
    ensures ValidateToken(token, cfg, now).Ok? ==>
      var sub := Get(ValidateToken(token, cfg, now).value, "sub");
      && (sub.None? ==> r == Err(MissingUserId))
      && (sub.Some? && r.Err? ==> r == Err(UserNotFound))
      && (sub.Some? ==> (r.Ok? <==> SubjectUser(sub.value, users).Some?))
      && (sub.Some? && SubjectUser(sub.value, users).Some? ==> r == Ok(SubjectUser(sub.value, users).value))
    ensures r.Ok? ==>
      && r.value >= 1 && r.value in users
      && ValidateToken(token, cfg, now).Ok?
      && Get(ValidateToken(token, cfg, now).value, "sub").Some?
      && SubjectId(Get(ValidateToken(token, cfg, now).value, "sub").value) == Some(r.value)
  {
    match ValidateToken(token, cfg, now)
    case Err(e) => Err(e)
    case Ok(payload) =>
      match Get(payload, "sub")
      case None => Err(MissingUserId)
      case Some(sub) =>
        match SubjectUser(sub, users)
        case None => Err(UserNotFound)
        case Some(id) => Ok(id)
  }

  /** `normalize_auth_error`; `None` stands for any value that is not a `WP_Error`. */
  function NormalizeAuthError(e: Option<WpError>): (r: WpError)
    ensures r.status.Some?
    ensures e.None? ==> r == AuthFailed
    ensures e.Some? ==> r.code == e.value.code
    ensures e.Some? && e.value.status.Some? ==> r == e.value
    ensures e.Some? && e.value.status.None? ==> r.status == Some(401)
  {
    match e
    case None => AuthFailed
    case Some(err) => if err.status.None? then err.(status := Some(401)) else err
  }

  /** `get_current_user`: the user the request's token names (by id), or null;
      no error is kept. */
  function CurrentUser(req: Request, cfg: TokenConfig, users: map<int, UserProfile>, now: int): (u: Option<int>)
    ensures u.Some? <==> TokenPresent(TokenFromRequest(req))
                          && TokenUser(TokenFromRequest(req).value, cfg, users, now).Ok?
    ensures u.Some? ==> u == Some(TokenUser(TokenFromRequest(req).value, cfg, users, now).value)
    ensures u.Some? ==> FindUser(users, u.value).Some?
  {
    var t := TokenFromRequest(req);
    if !TokenPresent(t) then None
    else match TokenUser(t.value, cfg, users, now)
      case Ok(id) => Some(id)
      case Err(_) => None
  }

  /** Every character of a token is a base64url character or a segment dot. */
  lemma TokenCharacters(payload: Json, secret: string, p: Primitives)
    ensures var t := Encode(payload, secret, p);
            forall i :: 0 <= i < |t| ==> Base64Url.UrlChar(t[i]) || t[i] == '.'
  {
    var h := Base64Url.Encode(p.jsonEncode(Header));
    var b := Base64Url.Encode(p.jsonEncode(payload));
    var s := Base64Url.Encode(Sign(h + "." + b, secret, p));
    Base64Url.EncodeIsUrlChars(p.jsonEncode(Header));
    Base64Url.EncodeIsUrlChars(p.jsonEncode(payload));
    Base64Url.EncodeIsUrlChars(Sign(h + "." + b, secret, p));
    var t := Encode(payload, secret, p);
    assert t == h + "." + b + "." + s;
    forall i | 0 <= i < |t|
      ensures Base64Url.UrlChar(t[i]) || t[i] == '.'
    {
      if i < |h| { assert t[i] == h[i]; }
      else if i == |h| { }
      else if i < |h| + 1 + |b| { assert t[i] == b[i - |h| - 1]; }
      else if i == |h| + 1 + |b| { }
      else { assert t[i] == s[i - |h| - 2 - |b|]; }
    }
  }

  /** A token can follow `Bearer ` unchanged: no line feed, no leading whitespace. */
  lemma TokenIsBearerSafe(payload: Json, secret: string, p: Primitives)
    ensures var t := Encode(payload, secret, p);
            '\n' !in t && (|t| == 0 || !IsSpace(t[0]))
  {
    var t := Encode(payload, secret, p);
    TokenCharacters(payload, secret, p);
    forall i | 0 <= i < |t| ensures t[i] != '\n' && !IsSpace(t[i]) {
      assert Base64Url.UrlChar(t[i]) || t[i] == '.';
    }
  }

  /** A `Bearer` header carrying a token that is safe to follow `Bearer ` and
      that PHP reads as true delivers that token. */
  lemma {:induction false} BearerTokenArrives(req: Request, t: string)
    requires '\n' !in t && !EmptyStr(t) && !IsSpace(t[0])
    requires AuthorizationHeader(req) == Some("Bearer " + t)
    ensures TokenFromRequest(req) == Some(t) && TokenPresent(TokenFromRequest(req))
  {
    assert "Bearer " + t == "Bearer" + " " + t;
    HeaderTokenWins(req.query, "Bearer", t);
  }

  /** A token is not empty and holds no character that sanitisation folds or trims. */
  lemma TokenIsUntrimmed(payload: Json, secret: string, p: Primitives)
    ensures var t := Encode(payload, secret, p);
            |t| > 0 && forall i :: 0 <= i < |t| ==> !IsTrimmed(t[i])
  {
    var t := Encode(payload, secret, p);
    TokenCharacters(payload, secret, p);
    forall i | 0 <= i < |t| ensures !IsTrimmed(t[i]) {
      assert Base64Url.UrlChar(t[i]) || t[i] == '.';
    }
    EncodedNotEmpty(payload, secret, p);
  }

  /** `Bearer <token>` sent in a server variable survives sanitisation when the
      token has no character `trim` strips, as every issued token does
      (`TokenIsUntrimmed`). */
  lemma {:induction false} ServerBearerArrives(req: Request, t: string)
    requires |t| > 0 && forall i :: 0 <= i < |t| ==> !IsTrimmed(t[i])
    requires "HTTP_AUTHORIZATION" in req.server && req.server["HTTP_AUTHORIZATION"] == "Bearer " + t
    ensures AuthorizationHeader(req) == Some("Bearer " + t)
  {
    SanitizeBearerToken(t);
  }

  lemma {:induction false} SanitizeBearerToken(t: string)
    requires |t| > 0 && forall i :: 0 <= i < |t| ==> !IsTrimmed(t[i])
    ensures SanitizeText("Bearer " + t) == "Bearer " + t
  {
    var scheme := "Bearer";
    SanitizeSchemeToken(scheme, t);
    assert scheme + " " + t == "Bearer " + t;
  }

  /** Every encoded token sent as `Bearer <token>` is the request's token. */
  lemma {:induction false} EncodedTokenArrives(req: Request, payload: Json, secret: string, p: Primitives)
    requires AuthorizationHeader(req) == Some("Bearer " + Encode(payload, secret, p))
    ensures TokenFromRequest(req) == Some(Encode(payload, secret, p)) && TokenPresent(TokenFromRequest(req))
  {
    TokenIsBearerSafe(payload, secret, p);
    EncodedNotEmpty(payload, secret, p);
    BearerTokenArrives(req, Encode(payload, secret, p));
  }

  /** End to end: a token `generate_token` issued without extra claims, sent as
      `Bearer <token>`, names its user until it expires. */
  lemma {:induction false} IssuedTokenIdentifiesUser(req: Request, userId: int, users: map<int, UserProfile>,
                                                     cfg: TokenConfig, issuedAt: int, now: int)
    requires FindUser(users, userId).Some?
    requires now <= Expiry(cfg, issuedAt)
    requires var c := Claims(userId, users[userId], map[], cfg, issuedAt);
             JsonRoundTrips(cfg.prims, Header) && JsonRoundTrips(cfg.prims, c)
    requires var t := GenerateToken(userId, map[], users, cfg, issuedAt);
             t.Ok? && AuthorizationHeader(req) == Some("Bearer " + t.value)
    ensures var t := GenerateToken(userId, map[], users, cfg, issuedAt).value;
            && TokenFromRequest(req) == Some(t)
            && TokenUser(t, cfg, users, now) == Ok(userId)
            && CurrentUser(req, cfg, users, now) == Some(userId)
  {
    var c := Claims(userId, users[userId], map[], cfg, issuedAt);
    var t := GenerateToken(userId, map[], users, cfg, issuedAt).value;
    EncodedTokenArrives(req, c, cfg.secret, cfg.prims);
    FreshTokenValidates(userId, users, cfg, issuedAt, now);
    ValidTokenNamesUser(t, cfg, users, now, userId);
  }

  /** A valid token whose `sub` is an existing user's id resolves to that user. */
  lemma {:induction false} ValidTokenNamesUser(t: string, cfg: TokenConfig, users: map<int, UserProfile>, now: int, userId: int)
    requires FindUser(users, userId).Some?
    requires ValidateToken(t, cfg, now).Ok? && Get(ValidateToken(t, cfg, now).value, "sub") == Some(JNum(userId))
    ensures TokenUser(t, cfg, users, now) == Ok(userId)
  {
    assert SubjectUser(JNum(userId), users) == Some(userId);
  }

  /** A valid token whose `sub` is an existing user's id written as a decimal
      string resolves to that user as well. */
  lemma {:induction false} ValidStringTokenNamesUser(t: string, cfg: TokenConfig, users: map<int, UserProfile>, now: int, userId: nat)
    requires FindUser(users, userId).Some?
    requires ValidateToken(t, cfg, now).Ok? && Get(ValidateToken(t, cfg, now).value, "sub") == Some(JStr(Digits(userId)))
    ensures TokenUser(t, cfg, users, now) == Ok(userId)
  {
    NumericSubjectResolves(userId, users);
  }

  // ---------------------------------------------------------------------------
  // The adapter object

  /** The values `rest_authentication_errors` passes through the filter. */
  datatype AuthResult = ANull | ABool(b: bool) | AError(e: WpError)

  /** PHP `empty()` of the filter's incoming value. */
  predicate EmptyAuth(a: AuthResult)
  {
    a.ANull? || a == ABool(false)
  }

  class Adapter {
    /** `$auth_error`: null, or the last normalised failure. */
    var authError: Option<WpError>

    /** Every stored error carries an HTTP status. */
    ghost predicate Valid()
      reads this
    {
      authError.Some? ==> authError.value.status.Some?
    }

    constructor ()
      ensures Valid() && authError.None?
    {
      authError := None;
    }

    /** `authenticate` (the `determine_current_user` filter); `userId == 0` is PHP `false`. */
    method Authenticate(userId: int, req: Request, cfg: TokenConfig, users: map<int, UserProfile>, now: int)
      returns (r: int)
      requires Valid()
      modifies this
      ensures Valid()
      ensures userId != 0 || !req.isRest || !TokenPresent(TokenFromRequest(req)) ==>
        r == userId && authError == old(authError)
      ensures userId == 0 && req.isRest && TokenPresent(TokenFromRequest(req)) ==>
        match TokenUser(TokenFromRequest(req).value, cfg, users, now)
        case Ok(id) => r == id && authError == old(authError)
        case Err(e) => r == userId && authError == Some(NormalizeAuthError(Some(e)))
      ensures userId == 0 && req.isRest ==>
        (r != 0 <==> CurrentUser(req, cfg, users, now).Some?) && (r != 0 ==> CurrentUser(req, cfg, users, now) == Some(r))
    {
      if userId != 0 {
        return userId;
      }
      if !req.isRest {
        return userId;
      }
      var header := GetAuthorizationHeader(req);
      var token := TokenFromHeader(header, req.query);
      if !TokenPresent(token) {
        return userId;
      }
      var validated := ValidateToken(token.value, cfg, now);
      if validated.Err? {
        authError := Some(NormalizeAuthError(Some(validated.error)));
        return userId;
      }
      var sub := Get(validated.value, "sub");
      if sub.None? {
        authError := Some(NormalizeAuthError(Some(MissingUserId)));
        return userId;
      }
      var user := SubjectUser(sub.value, users);
      if user.None? {
        authError := Some(NormalizeAuthError(Some(UserNotFound)));
        return userId;
      }
      r := user.value;
    }

    /** `check_authentication_error` (the `rest_authentication_errors` filter). */
    function CheckAuthenticationError(incoming: AuthResult): (r: AuthResult)
      requires Valid()
      reads this
      ensures !EmptyAuth(incoming) ==> r == incoming
      ensures EmptyAuth(incoming) && authError.Some? ==> r == AError(authError.value)
      ensures EmptyAuth(incoming) && authError.None? ==> r == ANull
      ensures r.AError? && r != incoming ==> r.e.status.Some?
    {
      if !EmptyAuth(incoming) then incoming
      else match authError
        case Some(e) => AError(NormalizeAuthError(Some(e)))
        case None => ANull
    }
  }
}
