/** `ZAOBank_Mobile_REST_Auth`: the login, register, refresh and logout
    endpoints. They drive the refresh-token table and the user directory; the
    password check of `wp_authenticate`, the extra failures of `wp_create_user`,
    the clock and the random refresh token with its hash are arguments. */
module RestAuth {

  import opened Common
  import opened JwtTokens
  import JwtAuth
  import RefreshTokens

  /** The body of a successful login or registration. */
  datatype AuthResponse = AuthResponse(
    token: string,
    refreshToken: string,
    refreshExpiresAt: int,
    user: UserProfile,
    status: int)

  /** The body of a successful refresh: a new access token only. */
  datatype RefreshResponse = RefreshResponse(token: string, user: UserProfile, status: int)

  /** The two messages `logout` can answer with (always status 200). */
  datatype LogoutResponse = LoggedOutEverywhere | LoggedOut

  const InvalidCredentials := ErrorWithStatus("invalid_credentials", 401)
  const InvalidPassword := ErrorWithStatus("rest_invalid_param", 400)
  const RegistrationDisabled := ErrorWithStatus("registration_disabled", 403)
  const UsernameExists := ErrorWithStatus("username_exists", 400)
  const EmailExists := ErrorWithStatus("email_exists", 400)
  const RegistrationFailed := ErrorWithStatus("registration_failed", 400)
  const InvalidRefresh := ErrorWithStatus("invalid_refresh_token", 401)
  const RefreshUserNotFound := ErrorWithStatus("user_not_found", 404)

  /** The number of bytes the UTF-8 encoding of `c` takes. */
  function Utf8Width(c: char): (n: nat)
    ensures 1 <= n <= 4
    ensures n == 1 <==> c as int < 0x80
  {
    if c as int < 0x80 then 1
    else if c as int < 0x800 then 2
    else if c as int < 0x1_0000 then 3
    else 4
  }

  /** PHP's `strlen` of the UTF-8 encoding of `s`: its length in bytes. */
  function Utf8Length(s: string): (n: nat)
    ensures |s| <= n <= 4 * |s|
  {
    if |s| == 0 then 0 else Utf8Length(s[..|s| - 1]) + Utf8Width(s[|s| - 1])
  }

  /** The `password` argument's validator: `strlen` of at least eight, in bytes. */
  predicate PasswordAcceptable(password: string)
  {
    Utf8Length(password) >= 8
  }

  /** The byte count agrees with the character count exactly on ASCII text, and
      every password of eight characters or more is accepted. */
  lemma {:induction false} PasswordLength(password: string)
    ensures (forall i :: 0 <= i < |password| ==> password[i] as int < 0x80) ==> Utf8Length(password) == |password|
    ensures |password| >= 8 ==> PasswordAcceptable(password)
    ensures |password| * 4 < 8 ==> !PasswordAcceptable(password)
  {
    if |password| > 0 {
      PasswordLength(password[..|password| - 1]);
    }
  }

  /** Four two-byte letters make an eight-byte password that the validator
      accepts, while three do not. */
  lemma TwoByteLetters()
    ensures PasswordAcceptable("\U{e9}\U{e9}\U{e9}\U{e9}")
    ensures !PasswordAcceptable("\U{e9}\U{e9}\U{e9}")
  {
    assert "\U{e9}\U{e9}\U{e9}\U{e9}"[..3] == "\U{e9}\U{e9}\U{e9}";
    assert "\U{e9}\U{e9}\U{e9}"[..2] == "\U{e9}\U{e9}";
    assert "\U{e9}\U{e9}"[..1] == "\U{e9}";
    assert "\U{e9}"[..0] == "";
  }

  predicate LoginTaken(users: map<int, UserProfile>, login: string)
  {
    exists id :: id in users && users[id].login == login
  }

  predicate EmailTaken(users: map<int, UserProfile>, email: string)
  {
    exists id :: id in users && users[id].email == email
  }

  /** The checks `register` makes before creating the user, in their order: the
      argument validator, then the site setting, then the login, then the email. */
  function RegistrationCheck(password: string, canRegister: bool, users: map<int, UserProfile>,
                             login: string, email: string): (e: Option<WpError>)
    ensures e.None? <==> PasswordAcceptable(password) && canRegister
                         && !LoginTaken(users, login) && !EmailTaken(users, email)
    ensures e.Some? ==> e.value.status.Some?
    ensures !PasswordAcceptable(password) ==> e == Some(InvalidPassword)
    ensures e == Some(RegistrationDisabled) <==> PasswordAcceptable(password) && !canRegister
    ensures e == Some(UsernameExists) <==> PasswordAcceptable(password) && canRegister && LoginTaken(users, login)
    ensures e == Some(EmailExists) <==>
      PasswordAcceptable(password) && canRegister && !LoginTaken(users, login) && EmailTaken(users, email)
  {
    if !PasswordAcceptable(password) then Some(InvalidPassword)
    else if !canRegister then Some(RegistrationDisabled)
    else if LoginTaken(users, login) then Some(UsernameExists)
    else if EmailTaken(users, email) then Some(EmailExists)
    else None
  }

  /** The profile `wp_create_user` stores, after the optional display-name update:
      WordPress shows the login until a truthy display name is given. */
  function NewProfile(login: string, email: string, displayName: string): (u: UserProfile)
    ensures u.login == login && u.email == email
    ensures EmptyStr(displayName) ==> u.displayName == login
    ensures !EmptyStr(displayName) ==> u.displayName == displayName
  {
    UserProfile(login, email, if EmptyStr(displayName) then login else displayName)
  }

  /** A display name made only of spaces, tabs and line breaks is sanitised
      to the empty string, so the new user keeps the login as display name. */
  lemma {:induction false} BlankDisplayNameKeepsLogin(login: string, email: string, displayName: string)
    requires forall i :: 0 <= i < |displayName| ==> JwtAuth.IsFoldedSpace(displayName[i])
    ensures JwtAuth.SanitizeText(displayName) == ""
    ensures NewProfile(login, email, JwtAuth.SanitizeText(displayName)).displayName == login
  {
    if |displayName| > 0 {
      JwtAuth.DropFoldedAll(displayName[1..]);
      assert JwtAuth.FoldSpaces(displayName) == " ";
      assert " "[1..] == "";
      assert JwtAuth.TrimStart(" ") == "";
    }
  }

  /** What `refresh_token` answers once the table has been consulted: every
      validation failure collapses into one 401, a vanished user is a 404, and
      success carries a fresh access token for the same user. */
  function RefreshOutcome(validated: Result<int>, users: map<int, UserProfile>, cfg: TokenConfig, now: int)
    : (r: Result<RefreshResponse>)
    ensures validated.Err? ==> r == Err(InvalidRefresh)
    ensures validated.Ok? && FindUser(users, validated.value).None? ==> r == Err(RefreshUserNotFound)
    ensures r.Ok? <==> validated.Ok? && FindUser(users, validated.value).Some?
    ensures r.Ok? ==>
      && r.value.status == 200
      && r.value.user == users[validated.value]
      && GenerateToken(validated.value, map[], users, cfg, now) == Ok(r.value.token)
    ensures r.Err? ==> r.error.status.Some?
  {
    match validated
    case Err(_) => Err(InvalidRefresh)
    case Ok(userId) =>
      match FindUser(users, userId)
      case None => Err(RefreshUserNotFound)
      case Some(user) =>
        match GenerateToken(userId, map[], users, cfg, now)
        case Err(e) => Err(e)
        case Ok(jwt) => Ok(RefreshResponse(jwt, user, 200))
  }

  /** The access token a refresh hands out validates, until its own expiry, to
      the user the refresh token belonged to. */
  lemma RefreshedTokenNamesUser(userId: int, users: map<int, UserProfile>, cfg: TokenConfig, issuedAt: int, now: int)
    requires FindUser(users, userId).Some?
    requires now <= Expiry(cfg, issuedAt)
    requires var c := Claims(userId, users[userId], map[], cfg, issuedAt);
             JsonRoundTrips(cfg.prims, Header) && JsonRoundTrips(cfg.prims, c)
    ensures var r := RefreshOutcome(Ok(userId), users, cfg, issuedAt);
            && r.Ok?
            && ValidateToken(r.value.token, cfg, now).Ok?
            && Get(ValidateToken(r.value.token, cfg, now).value, "sub") == Some(JNum(userId))
  {
    FreshTokenValidates(userId, users, cfg, issuedAt, now);
  }

  // ---------------------------------------------------------------------------
  // The endpoints over the site's state

  class AuthService {
    /** The refresh-token table. */
    const store: RefreshTokens.Store
    /** The access-token settings (`zaobank_mobile_jwt_secret`, `..._jwt_expiration`, the site URL). */
    const cfg: TokenConfig
    /** `zaobank_mobile_refresh_expiration`. */
    const refreshDays: int
    /** `users_can_register`. */
    const canRegister: bool
    /** The user directory, by id. */
    var users: map<int, UserProfile>
    /** The next user id `wp_create_user` assigns. */
    var nextUserId: int

    /** Ids are positive and below the next one; logins and emails are unique. */
    ghost predicate Valid()
      reads this, store
    {
      && store.Valid()
      && nextUserId >= 1
      && (forall id :: id in users ==> 1 <= id < nextUserId)
      && (forall a, b :: a in users && b in users && a != b ==>
            users[a].login != users[b].login && users[a].email != users[b].email)
    }

    constructor (store: RefreshTokens.Store, cfg: TokenConfig, refreshDays: int, canRegister: bool)
      requires store.Valid()
      ensures Valid()
      ensures this.store == store && this.cfg == cfg && this.refreshDays == refreshDays
      ensures this.canRegister == canRegister && users == map[] && nextUserId == 1
    {
      this.store := store;
      this.cfg := cfg;
      this.refreshDays := refreshDays;
      this.canRegister := canRegister;
      users := map[];
      nextUserId := 1;
    }

    /** `generate_auth_response`: an access-token failure is returned before any
        refresh row is written; otherwise one row is added and both tokens go out. */
    method GenerateAuthResponse(userId: int, deviceInfo: string, status: int, now: int,
                                refreshToken: string, refreshHash: string)
      returns (r: Result<AuthResponse>)
      requires Valid()
      modifies store
      ensures Valid()
      ensures var jwt := GenerateToken(userId, map[], users, cfg, now);
        && (jwt.Err? ==> r == Err(jwt.error) && unchanged(store))
        && (jwt.Ok? ==>
              && r == Ok(AuthResponse(jwt.value, refreshToken, now + refreshDays * RefreshTokens.DaySeconds,
                                      users[userId], status))
              && store.rows == old(store.rows)
                 + [RefreshTokens.NewRow(old(store.nextId), userId, refreshHash, deviceInfo, now, refreshDays)]
              && store.nextId == old(store.nextId) + 1)
    {
      var jwt := GenerateToken(userId, map[], users, cfg, now);
      if jwt.Err? {
        return Err(jwt.error);
      }
      var refresh := store.GenerateRefreshToken(userId, deviceInfo, refreshToken, refreshHash, now, refreshDays);
      r := Ok(AuthResponse(jwt.value, refresh.token, refresh.expiresAt, users[userId], status));
    }

    /** `login`; `authenticated` is what `wp_authenticate` found for the credentials.
        `deviceInfo` is the raw request text: the route's `sanitize_text_field`
        runs before the handler (and the table insert runs it once more). */
    method Login(authenticated: Option<int>, deviceInfo: string, now: int, refreshToken: string, refreshHash: string)
      returns (r: Result<AuthResponse>)
      requires Valid()
      modifies store
      ensures Valid()
      ensures authenticated.None? ==> r == Err(InvalidCredentials) && unchanged(store)
      ensures authenticated.Some? ==>
        var jwt := GenerateToken(authenticated.value, map[], users, cfg, now);
        && (jwt.Err? ==> r == Err(jwt.error) && unchanged(store))
        && (jwt.Ok? ==>
              && r == Ok(AuthResponse(jwt.value, refreshToken, now + refreshDays * RefreshTokens.DaySeconds,
                                      users[authenticated.value], 200))
              && store.rows == old(store.rows)
                 + [RefreshTokens.NewRow(old(store.nextId), authenticated.value, refreshHash,
                                         JwtAuth.SanitizeText(deviceInfo), now, refreshDays)]
              && store.nextId == old(store.nextId) + 1)
    {
      if authenticated.None? {
        return Err(InvalidCredentials);
      }
      r := GenerateAuthResponse(authenticated.value, JwtAuth.SanitizeText(deviceInfo), 200, now, refreshToken, refreshHash);
    }

    /** `register`: the checks in order, then creation (which may still fail for
        reasons outside the model, `createOk`), then tokens with status 201.
        `displayName` and `deviceInfo` are the raw request texts, which the
        route passes through `sanitize_text_field` before the handler sees them. */
    method Register(login: string, email: string, password: string, displayName: string, deviceInfo: string,
                    createOk: bool, now: int, refreshToken: string, refreshHash: string)
      returns (r: Result<AuthResponse>)
      requires Valid()
      modifies this, store
      ensures Valid()
      ensures var check := RegistrationCheck(password, canRegister, old(users), login, email);
        && (check.Some? ==>
              r == Err(check.value) && users == old(users) && nextUserId == old(nextUserId) && unchanged(store))
        && (check.None? && !createOk ==>
              r == Err(RegistrationFailed) && users == old(users) && nextUserId == old(nextUserId) && unchanged(store))
        && (check.None? && createOk ==>
              var jwt := GenerateToken(old(nextUserId), map[], users, cfg, now);
              var profile := NewProfile(login, email, JwtAuth.SanitizeText(displayName));
              && users == old(users)[old(nextUserId) := profile]
              && nextUserId == old(nextUserId) + 1
              && jwt.Ok?
              && r == Ok(AuthResponse(jwt.value, refreshToken, now + refreshDays * RefreshTokens.DaySeconds,
                                      profile, 201))
              && store.rows == old(store.rows)
                 + [RefreshTokens.NewRow(old(store.nextId), old(nextUserId), refreshHash,
                                         JwtAuth.SanitizeText(deviceInfo), now, refreshDays)]
              && store.nextId == old(store.nextId) + 1)
    {
      var check := RegistrationCheck(password, canRegister, users, login, email);
      if check.Some? {
        return Err(check.value);
      }
      if !createOk {
        return Err(RegistrationFailed);
      }
      var id := nextUserId;
      users := users[id := NewProfile(login, email, JwtAuth.SanitizeText(displayName))];
      nextUserId := nextUserId + 1;
      r := GenerateAuthResponse(id, JwtAuth.SanitizeText(deviceInfo), 201, now, refreshToken, refreshHash);
    }

    /** `refresh_token`: consults (and stamps) the table, issues no refresh token
        and revokes none. */
    method RefreshToken(refreshToken: string, now: int) returns (r: Result<RefreshResponse>)
      requires Valid()
      modifies store
      ensures Valid()
      ensures store.nextId == old(store.nextId)
      ensures match FirstIndex(old(store.rows), RefreshTokens.LiveMatch(refreshToken, now, store.check))
        case None =>
          && r == RefreshOutcome(Err(RefreshTokens.InvalidRefreshToken), users, cfg, now)
          && store.rows == old(store.rows)
        case Some(k) =>
          && r == RefreshOutcome(Ok(old(store.rows)[k].userId), users, cfg, now)
          && store.rows == RefreshTokens.Touch(old(store.rows), k, now)
      ensures RefreshTokens.RevocationsKept(old(store.rows), store.rows)
    {
      var validated := store.ValidateRefreshToken(refreshToken, now);
      r := RefreshOutcome(validated, users, cfg, now);
    }

    /** `logout`: with `all_devices` and a user named by the request's access
        token, every refresh token of that user is revoked; otherwise a given
        refresh token is revoked, whoever owns it. Always a 200. */
    method Logout(refreshToken: string, allDevices: bool, req: JwtAuth.Request, now: int)
      returns (r: LogoutResponse)
      requires Valid()
      modifies store
      ensures Valid()
      ensures var u := JwtAuth.CurrentUser(req, cfg, users, now);
        && (allDevices && u.Some? ==>
              r == LoggedOutEverywhere && store.rows == RefreshTokens.RevokeAllOf(old(store.rows), u.value, now))
        && (!(allDevices && u.Some?) && !EmptyStr(refreshToken) ==>
              r == LoggedOut &&
              match FirstIndex(old(store.rows), RefreshTokens.UnrevokedMatch(refreshToken, store.check))
              case None => store.rows == old(store.rows)
              case Some(k) => store.rows == RefreshTokens.RevokeAt(old(store.rows), k, now))
        && (!(allDevices && u.Some?) && EmptyStr(refreshToken) ==> r == LoggedOut && unchanged(store))
      ensures RefreshTokens.RevocationsKept(old(store.rows), store.rows)
    {
      var user := JwtAuth.CurrentUser(req, cfg, users, now);
      if allDevices && user.Some? {
        var _ := store.RevokeAllUserTokens(user.value, now);
        return LoggedOutEverywhere;
      }
      if !EmptyStr(refreshToken) {
        var _ := store.RevokeRefreshToken(refreshToken, now);
      }
      r := LoggedOut;
    }
  }
}
