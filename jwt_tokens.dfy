/** `ZAOBank_JWT_Tokens`, access-token half: an HS256-signed JSON Web Token
    (RFC 7519) in JWS compact serialisation (section 7.1 of RFC 7515).
    HMAC-SHA256 and the JSON encoder/decoder are foreign library calls and enter
    the model as the functions of a `Primitives` value. */
module JwtTokens {

  import opened Common
  import Base64Url

  type byte = Base64Url.byte

  /** A value as `json_decode($s, true)` returns it (numbers are integers here). */
  datatype Json =
    | JNull
    | JBool(b: bool)
    | JNum(n: int)
    | JStr(s: string)
    | JArr(items: seq<Json>)
    | JObj(fields: map<string, Json>)

  /** PHP truthiness of a decoded value; `None` is a failed decode (PHP `null`). */
  predicate Truthy(j: Option<Json>)
  {
    match j
    case None => false
    case Some(JNull) => false
    case Some(JBool(b)) => b
    case Some(JNum(n)) => n != 0
    case Some(JStr(s)) => !EmptyStr(s)
    case Some(JArr(items)) => |items| > 0
    case Some(JObj(m)) => |m| > 0
  }

  /** `isset($j[$key]) ? $j[$key] : ...`: only an object member that is not null is set. */
  function Get(j: Json, key: string): (v: Option<Json>)
    ensures v.Some? ==> j.JObj? && key in j.fields && v.value == j.fields[key] && v.value != JNull
    ensures j.JObj? && key in j.fields && j.fields[key] != JNull ==> v.Some?
  {
    match j
    case JObj(m) => if key in m && m[key] != JNull then Some(m[key]) else None
    case _ => None
  }

  /** The foreign functions the codec calls: `hash_hmac('sha256', ..., true)`,
      `wp_json_encode` and `json_decode(..., true)` (`None` when it yields null). */
  datatype Primitives = Primitives(
    hmac: (string, string) -> seq<byte>,
    jsonEncode: Json -> seq<byte>,
    jsonDecode: seq<byte> -> Option<Json>)

  /** The decoder reads back what the encoder wrote, for one value. */
  predicate JsonRoundTrips(p: Primitives, v: Json)
  {
    p.jsonDecode(p.jsonEncode(v)) == Some(v)
  }

  /** Settings the token functions read from the site. */
  datatype TokenConfig = TokenConfig(
    secret: string,     // zaobank_mobile_jwt_secret
    siteUrl: string,    // get_bloginfo('url'), the issuer
    accessDays: int,    // (int) zaobank_mobile_jwt_expiration, default 30
    prims: Primitives)

  const Algorithm: string := "HS256"
  const DaySeconds: int := 86400

  /** The fixed header `{"typ":"JWT","alg":"HS256"}`. */
  const Header: Json := JObj(map["typ" := JStr("JWT"), "alg" := JStr(Algorithm)])

  const FormatError := WpError("invalid_token_format", None)
  const DataError := WpError("invalid_token_data", None)
  const AlgorithmError := WpError("invalid_algorithm", None)
  const SignatureError := WpError("invalid_signature", None)
  const EmptyTokenError := WpError("empty_token", None)
  const ExpiredError := WpError("token_expired", None)
  const IssuerError := WpError("invalid_issuer", None)
  const UnknownUserError := WpError("invalid_user", None)

  // ---------------------------------------------------------------------------
  // explode('.', $token)

  function Split(s: string): (parts: seq<string>)
    ensures |parts| >= 1
    decreases |s|
  {
    if |s| == 0 then [""]
    else
      var rest := Split(s[1..]);
      if s[0] == '.' then [""] + rest
      else [[s[0]] + rest[0]] + rest[1..]
  }

  lemma {:induction false} SplitNoDot(a: string)
    requires '.' !in a
    ensures Split(a) == [a]
    decreases |a|
  {
    if |a| > 0 {
      SplitNoDot(a[1..]);
      assert [a[0]] + a[1..] == a;
    }
  }

  lemma {:induction false} SplitJoin(a: string, r: string)
    requires '.' !in a
    ensures Split(a + "." + r) == [a] + Split(r)
    decreases |a|
  {
    if |a| == 0 {
      assert a + "." + r == "." + r;
      assert ("." + r)[1..] == r;
    } else {
      assert (a + "." + r)[1..] == a[1..] + "." + r;
      SplitJoin(a[1..], r);
      assert [a[0]] + a[1..] == a;
    }
  }

  /** `explode` on three dot-free segments gives them back. */
  lemma SplitThree(a: string, b: string, c: string)
    requires '.' !in a && '.' !in b && '.' !in c
    ensures Split(a + "." + b + "." + c) == [a, b, c]
  {
    assert a + "." + b + "." + c == a + "." + (b + "." + c);
    SplitJoin(a, b + "." + c);
    SplitJoin(b, c);
    SplitNoDot(c);
  }

  lemma EncodedHasNoDot(b: seq<byte>)
    ensures '.' !in Base64Url.Encode(b)
  {
    Base64Url.EncodeAlphabet(b);
  }

  // ---------------------------------------------------------------------------
  // sign, encode, decode

  function Sign(data: string, secret: string, p: Primitives): seq<byte>
  {
    p.hmac(data, secret)
  }

  /** `encode`: `base64url(header) . base64url(payload) . base64url(sign(first two))`. */
  function Encode(payload: Json, secret: string, p: Primitives): string
  {
    var h := Base64Url.Encode(p.jsonEncode(Header));
    var b := Base64Url.Encode(p.jsonEncode(payload));
    h + "." + b + "." + Base64Url.Encode(Sign(h + "." + b, secret, p))
  }

  /** The header declares HS256 (`isset($header['alg']) && $header['alg'] === 'HS256'`). */
  predicate DeclaresHs256(header: Json)
  {
    Get(header, "alg") == Some(JStr(Algorithm))
  }

  /** `decode`: segment count, then decodability, then algorithm, then signature. */
  function Decode(token: string, secret: string, p: Primitives): (r: Result<Json>)
    ensures r == Err(FormatError) <==> |Split(token)| != 3
    ensures |Split(token)| == 3 ==>
      var parts := Split(token);
      var header := p.jsonDecode(Base64Url.Decode(parts[0]));
      var payload := p.jsonDecode(Base64Url.Decode(parts[1]));
      && (r == Err(DataError) <==> !Truthy(header) || !Truthy(payload))
      && (r == Err(AlgorithmError) <==> Truthy(header) && Truthy(payload) && !DeclaresHs256(header.value))
      && (r.Ok? <==> Truthy(header) && Truthy(payload) && DeclaresHs256(header.value)
                      && Sign(parts[0] + "." + parts[1], secret, p) == Base64Url.Decode(parts[2]))
      && (r.Ok? ==> r.value == payload.value)
    ensures r.Ok? || r.error in {FormatError, DataError, AlgorithmError, SignatureError}
  {
    var parts := Split(token);
    if |parts| != 3 then Err(FormatError)
    else
      var header := p.jsonDecode(Base64Url.Decode(parts[0]));
      var payload := p.jsonDecode(Base64Url.Decode(parts[1]));
      var signature := Base64Url.Decode(parts[2]);
      if !Truthy(header) || !Truthy(payload) then Err(DataError)
      else if !DeclaresHs256(header.value) then Err(AlgorithmError)
      else if Sign(parts[0] + "." + parts[1], secret, p) != signature then Err(SignatureError)
      else Ok(payload.value)
  }

  /** `encode` builds three segments: the encoded header, the encoded payload,
      and the encoded signature of the first two joined by a dot. */
  lemma EncodeShape(payload: Json, secret: string, p: Primitives)
    ensures var parts := Split(Encode(payload, secret, p));
      && |parts| == 3
      && parts[0] == Base64Url.Encode(p.jsonEncode(Header))
      && parts[1] == Base64Url.Encode(p.jsonEncode(payload))
      && parts[2] == Base64Url.Encode(Sign(parts[0] + "." + parts[1], secret, p))
  {
    var h := Base64Url.Encode(p.jsonEncode(Header));
    var b := Base64Url.Encode(p.jsonEncode(payload));
    var sg := Base64Url.Encode(Sign(h + "." + b, secret, p));
    EncodedHasNoDot(p.jsonEncode(Header));
    EncodedHasNoDot(p.jsonEncode(payload));
    EncodedHasNoDot(Sign(h + "." + b, secret, p));
    SplitThree(h, b, sg);
  }

  /** What `decode` reads back from the segments of a minted token: the header,
      the payload and the signature of the first two segments. */
  lemma MintedSegments(payload: Json, secret: string, p: Primitives)
    requires JsonRoundTrips(p, Header) && JsonRoundTrips(p, payload)
    ensures var parts := Split(Encode(payload, secret, p));
      && |parts| == 3
      && p.jsonDecode(Base64Url.Decode(parts[0])) == Some(Header)
      && p.jsonDecode(Base64Url.Decode(parts[1])) == Some(payload)
      && Base64Url.Decode(parts[2]) == Sign(parts[0] + "." + parts[1], secret, p)
      && Truthy(Some(Header)) && DeclaresHs256(Header)
  {
    EncodeShape(payload, secret, p);
    var parts := Split(Encode(payload, secret, p));
    Base64Url.DecodeEncode(p.jsonEncode(Header));
    Base64Url.DecodeEncode(p.jsonEncode(payload));
    Base64Url.DecodeEncode(Sign(parts[0] + "." + parts[1], secret, p));
    assert |map["typ" := JStr("JWT"), "alg" := JStr(Algorithm)]| == 2 by {
      assert map["typ" := JStr("JWT"), "alg" := JStr(Algorithm)].Keys == {"typ", "alg"};
    }
  }

  /** Round trip: a token encoded under a secret decodes under the same secret to
      the payload, for every truthy payload the JSON functions carry unchanged. */
  lemma DecodeEncode(payload: Json, secret: string, p: Primitives)
    requires Truthy(Some(payload))
    requires JsonRoundTrips(p, Header) && JsonRoundTrips(p, payload)
    ensures Decode(Encode(payload, secret, p), secret, p) == Ok(payload)
  {
    MintedSegments(payload, secret, p);
  }

  /** A token decoded under another secret is refused as `invalid_signature`
      whenever the two secrets sign its header and payload differently. */
  lemma WrongSecretRejected(payload: Json, secret: string, other: string, p: Primitives)
    requires Truthy(Some(payload))
    requires JsonRoundTrips(p, Header) && JsonRoundTrips(p, payload)
    requires var h := Base64Url.Encode(p.jsonEncode(Header));
             var b := Base64Url.Encode(p.jsonEncode(payload));
             Sign(h + "." + b, other, p) != Sign(h + "." + b, secret, p)
    ensures Decode(Encode(payload, secret, p), other, p) == Err(SignatureError)
  {
    EncodeShape(payload, secret, p);
    MintedSegments(payload, secret, p);
  }

  /** Replacing the payload segment of a token, keeping its signature, is never
      accepted when HMAC signs the two signing inputs differently. */
  lemma ForgedPayloadRejected(payload: Json, forged: string, secret: string, p: Primitives)
    requires '.' !in forged
    requires var h := Base64Url.Encode(p.jsonEncode(Header));
             var b := Base64Url.Encode(p.jsonEncode(payload));
             Sign(h + "." + forged, secret, p) != Sign(h + "." + b, secret, p)
    ensures var h := Base64Url.Encode(p.jsonEncode(Header));
            var b := Base64Url.Encode(p.jsonEncode(payload));
            var sg := Base64Url.Encode(Sign(h + "." + b, secret, p));
            Decode(h + "." + forged + "." + sg, secret, p).Err?
  {
    var h := Base64Url.Encode(p.jsonEncode(Header));
    var b := Base64Url.Encode(p.jsonEncode(payload));
    var sg := Base64Url.Encode(Sign(h + "." + b, secret, p));
    EncodedHasNoDot(p.jsonEncode(Header));
    EncodedHasNoDot(Sign(h + "." + b, secret, p));
    SplitThree(h, forged, sg);
    Base64Url.DecodeEncode(Sign(h + "." + b, secret, p));
  }

  // ---------------------------------------------------------------------------
  // validate_token, generate_token

  /** `$exp < time()` under PHP comparison: a number compares numerically, a
      boolean compares as a boolean, arrays are greater than every integer. */
  predicate ExpiredAt(exp: Json, now: int)
  {
    match exp
    case JNum(n) => n < now
    case JBool(b) => !b && now != 0
    case _ => false
  }

  /** `validate_token`: empty token, then the decode checks, then expiry, then issuer. */
  function ValidateToken(token: string, cfg: TokenConfig, now: int): (r: Result<Json>)
    ensures EmptyStr(token) ==> r == Err(EmptyTokenError)
    ensures !EmptyStr(token) && Decode(token, cfg.secret, cfg.prims).Err? ==>
      r == Decode(token, cfg.secret, cfg.prims)
    ensures !EmptyStr(token) && Decode(token, cfg.secret, cfg.prims).Ok? ==>
      var d := Decode(token, cfg.secret, cfg.prims).value;
      && (r == Err(ExpiredError) <==> Get(d, "exp").Some? && ExpiredAt(Get(d, "exp").value, now))
      && (r == Err(IssuerError) <==> !(Get(d, "exp").Some? && ExpiredAt(Get(d, "exp").value, now))
                                      && Get(d, "iss").Some? && Get(d, "iss").value != JStr(cfg.siteUrl))
      && (r == Ok(d) <==> !(Get(d, "exp").Some? && ExpiredAt(Get(d, "exp").value, now))
                           && !(Get(d, "iss").Some? && Get(d, "iss").value != JStr(cfg.siteUrl)))
    ensures r.Ok? ==> Decode(token, cfg.secret, cfg.prims) == r
  {
    if EmptyStr(token) then Err(EmptyTokenError)
    else match Decode(token, cfg.secret, cfg.prims)
      case Err(e) => Err(e)
      case Ok(d) =>
        if Get(d, "exp").Some? && ExpiredAt(Get(d, "exp").value, now) then Err(ExpiredError)
        else if Get(d, "iss").Some? && Get(d, "iss").value != JStr(cfg.siteUrl) then Err(IssuerError)
        else Ok(d)
  }

  /** The `exp` claim of a token issued at `issuedAt`: `accessDays` days later. */
  function Expiry(cfg: TokenConfig, issuedAt: int): int
  {
    issuedAt + cfg.accessDays * DaySeconds
  }

  /** The claims `generate_token` writes before merging the caller's extra claims. */
  function StandardClaims(userId: int, user: UserProfile, cfg: TokenConfig, now: int): map<string, Json>
  {
    map["iss" := JStr(cfg.siteUrl), "iat" := JNum(now), "exp" := JNum(Expiry(cfg, now)),
        "sub" := JNum(userId), "email" := JStr(user.email), "name" := JStr(user.displayName)]
  }

  /** `array_merge($standard, $extra)`: an extra claim replaces a standard one of the same name. */
  function Claims(userId: int, user: UserProfile, extra: map<string, Json>, cfg: TokenConfig, now: int): (c: Json)
    ensures c.JObj?
    ensures forall k :: k in extra ==> k in c.fields && c.fields[k] == extra[k]
    ensures forall k :: k in StandardClaims(userId, user, cfg, now) && k !in extra ==>
      k in c.fields && c.fields[k] == StandardClaims(userId, user, cfg, now)[k]
    ensures forall k :: k in c.fields ==> k in extra || k in StandardClaims(userId, user, cfg, now)
  {
    JObj(StandardClaims(userId, user, cfg, now) + extra)
  }

  /** `generate_token`. */
  function GenerateToken(userId: int, extra: map<string, Json>, users: map<int, UserProfile>,
                         cfg: TokenConfig, now: int): (r: Result<string>)
    ensures r.Err? <==> FindUser(users, userId).None?
    ensures r.Err? ==> r.error == UnknownUserError
    ensures r.Ok? ==> r.value == Encode(Claims(userId, users[userId], extra, cfg, now), cfg.secret, cfg.prims)
  {
    match FindUser(users, userId)
    case None => Err(UnknownUserError)
    case Some(u) => Ok(Encode(Claims(userId, u, extra, cfg, now), cfg.secret, cfg.prims))
  }

  /** What the claims of a token minted without extra claims say. */
  lemma PlainClaimsFacts(userId: int, user: UserProfile, cfg: TokenConfig, issuedAt: int)
    ensures var c := Claims(userId, user, map[], cfg, issuedAt);
      && Truthy(Some(c))
      && Get(c, "sub") == Some(JNum(userId))
      && Get(c, "exp") == Some(JNum(Expiry(cfg, issuedAt)))
      && Get(c, "iss") == Some(JStr(cfg.siteUrl))
  {
    var m := StandardClaims(userId, user, cfg, issuedAt);
    assert m + map[] == m;
    var c := Claims(userId, user, map[], cfg, issuedAt);
    assert c.fields == m;
    assert m["sub"] == JNum(userId);
    assert m["exp"] == JNum(Expiry(cfg, issuedAt));
    assert m["iss"] == JStr(cfg.siteUrl);
    assert m != map[];
  }

  /** A token over claims that round-trip and name this site as issuer
      validates to those claims until its `exp` second, and is expired after. */
  lemma {:induction false} MintedTokenValidation(c: Json, cfg: TokenConfig, now: int, exp: int)
    requires Truthy(Some(c))
    requires JsonRoundTrips(cfg.prims, Header) && JsonRoundTrips(cfg.prims, c)
    requires Get(c, "exp") == Some(JNum(exp)) && Get(c, "iss") == Some(JStr(cfg.siteUrl))
    ensures ValidateToken(Encode(c, cfg.secret, cfg.prims), cfg, now) == if exp < now then Err(ExpiredError) else Ok(c)
  {
    DecodeEncode(c, cfg.secret, cfg.prims);
    EncodedNotEmpty(c, cfg.secret, cfg.prims);
  }

  /** A token minted without extra claims validates, until its expiry second
      included, to claims naming the user as `sub` and expiring `accessDays`
      days after issue. */
  lemma FreshTokenValidates(userId: int, users: map<int, UserProfile>, cfg: TokenConfig, issuedAt: int, now: int)
    requires FindUser(users, userId).Some?
    requires now <= Expiry(cfg, issuedAt)
    requires var c := Claims(userId, users[userId], map[], cfg, issuedAt);
             JsonRoundTrips(cfg.prims, Header) && JsonRoundTrips(cfg.prims, c)
    ensures var t := GenerateToken(userId, map[], users, cfg, issuedAt);
            && t.Ok?
            && ValidateToken(t.value, cfg, now).Ok?
            && Get(ValidateToken(t.value, cfg, now).value, "sub") == Some(JNum(userId))
            && Get(ValidateToken(t.value, cfg, now).value, "exp") == Some(JNum(Expiry(cfg, issuedAt)))
  {
    var c := Claims(userId, users[userId], map[], cfg, issuedAt);
    var exp := Expiry(cfg, issuedAt);
    PlainClaimsFacts(userId, users[userId], cfg, issuedAt);
    MintedTokenValidation(c, cfg, now, exp);
    assert FindUser(users, userId) == Some(users[userId]);
  }

  /** Once its expiry second has passed, a token that still verifies is refused
      as `token_expired`. */
  lemma StaleTokenExpires(userId: int, users: map<int, UserProfile>, cfg: TokenConfig, issuedAt: int, now: int)
    requires FindUser(users, userId).Some?
    requires now > Expiry(cfg, issuedAt)
    requires var c := Claims(userId, users[userId], map[], cfg, issuedAt);
             JsonRoundTrips(cfg.prims, Header) && JsonRoundTrips(cfg.prims, c)
    ensures var t := GenerateToken(userId, map[], users, cfg, issuedAt);
            t.Ok? && ValidateToken(t.value, cfg, now) == Err(ExpiredError)
  {
    var c := Claims(userId, users[userId], map[], cfg, issuedAt);
    var exp := Expiry(cfg, issuedAt);
    PlainClaimsFacts(userId, users[userId], cfg, issuedAt);
    MintedTokenValidation(c, cfg, now, exp);
    assert FindUser(users, userId) == Some(users[userId]);
  }

  lemma EncodedNotEmpty(payload: Json, secret: string, p: Primitives)
    ensures !EmptyStr(Encode(payload, secret, p))
  {
    var h := Base64Url.Encode(p.jsonEncode(Header));
    var b := Base64Url.Encode(p.jsonEncode(payload));
    var sg := Base64Url.Encode(Sign(h + "." + b, secret, p));
    assert Encode(payload, secret, p) == h + "." + b + "." + sg;
    assert |h + "." + b + "." + sg| >= 2;
  }
}
