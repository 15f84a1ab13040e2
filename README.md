# zaobank-mobile: a verified model of the plugin's core

zaobank-mobile is a WordPress plugin that serves a mobile app over REST. This project models its core in Dafny:

- the HS256 JSON Web Token codec and the refresh-token table (`ZAOBank_JWT_Tokens`);
- the bearer-authentication adapter (`ZAOBank_JWT_Auth`);
- the login, register, refresh and logout endpoints (`ZAOBank_Mobile_REST_Auth`);
- the per-user location-privacy state and its endpoints (`ZAOBank_Location_Privacy`, `ZAOBank_Mobile_REST_Location`);
- the location table and the geocoding decisions (`ZAOBank_Geocoder`);
- the job-listing rules (`ZAOBank_Mobile_REST_Jobs`);
- the app version check (`ZAOBank_Mobile_REST_Config`);
- the activation defaults (`ZAOBank_Mobile_Activator`).

There is one module per PHP class, plus `Common` (optional values, `WP_Error`, PHP `empty()` on strings, options and users) and `Base64Url` (the URL-safe base64 of RFC 4648 section 5, with PHP's lenient `base64_decode`).

Foreign library calls are function-valued parameters:

- `hash_hmac`, `wp_json_encode` and `json_decode` are the fields of `JwtTokens.Primitives`;
- `wp_check_password` is the refresh store's `check`;
- `version_compare(a, b, '>=')` is `atLeast`;
- the geocoding HTTP call is `fetch`;
- the core plugin's `is_content_visible` is `Site.visible`.

Time is an integer number of seconds passed in by the caller. Random values (tokens, hashes, the JWT secret, the fuzzing offset) are arguments.

State that the PHP code updates in place is held by classes:

- `RefreshTokens.Store`: the refresh-token rows;
- `Geocoder.LocationTable`: the location rows;
- `LocationPrivacy.PrivacyStore`: user meta;
- `JwtAuth.Adapter`: the `auth_error` field;
- `RestAuth.AuthService`: users and tokens;
- `Activator.SiteOptions`: the options table.

Each method is specified by a pure function of the old state, and the source's promises are lemmas about those functions.

Behaviours of the code that the model makes explicit:

- **Expiry is inclusive.** `validate_token` accepts a token at its `exp` second (`exp < now` is the test).
- **A blank bearer can hide the query token.** An `Authorization` header read through `apache_request_headers` that is just `Bearer ` captures the empty string, so the `jwt_token` query parameter is never consulted. The same header in `HTTP_AUTHORIZATION` or `REDIRECT_HTTP_AUTHORIZATION` is trimmed to `Bearer` by `sanitize_text_field`; the pattern then fails and the query parameter is used.
- **An empty secret survives activation.** A stored but empty JWT secret is kept, because `add_option` never replaces a stored value.
- **Radius searches skip moderation.** Requests with coordinates are handed to the distance search without the hidden-job exclusion and the visibility check that the plain listing applies.

## Model

| member | source | states |
|---|---|---|
| Common.FirstIndex | includes/auth/class-zaobank-jwt-tokens.php:133-145 | a `foreach` scan that stops at the first row accepted: the index is a match and no earlier row matches, or no row matches at all |
| Common.GetOption | includes/class-zaobank-mobile-activator.php:105 | `get_option($key)` is `false` exactly when the key is absent, otherwise the stored value |
| Common.GetOptionOr | includes/rest-api/class-zaobank-mobile-rest-config.php:119 | `get_option($key, $default)` yields the stored value, or the default when absent |
| Common.FindUser | includes/auth/class-zaobank-jwt-tokens.php:27-30 | `get_user_by('ID', …)` finds a user exactly for an existing id of at least 1 |
| Common.DecimalOfDigits | includes/auth/class-zaobank-jwt-auth.php:202 | the decimal string of a number is a numeral that `intval` reads back as that number |
| Base64Url.Sextets | includes/auth/class-zaobank-jwt-tokens.php:286-287 | `base64_encode` splits the bytes into four sextets per three bytes and two or three for a short tail |
| Base64Url.SextetsRoundTrip | includes/auth/class-zaobank-jwt-tokens.php:296-301 | the decoder's regrouping of the encoder's sextets gives back the original bytes |
| Base64Url.StdSextetOfStdChar | includes/auth/class-zaobank-jwt-tokens.php:296-301 | the decoder's table maps every character of the standard alphabet back to its sextet |
| Base64Url.StrtrUndo | includes/auth/class-zaobank-jwt-tokens.php:287-301 | the decoder's `strtr('-_', '+/')` undoes the encoder's `strtr('+/', '-_')` on any text holding neither `-` nor `_` |
| Base64Url.TrimPadDropsPadding | includes/auth/class-zaobank-jwt-tokens.php:287 | `rtrim(…, '=')` removes exactly the padding after URL-alphabet characters |
| Base64Url.EncodeIsUrlChars | includes/auth/class-zaobank-jwt-tokens.php:286-287 | `base64url_encode` emits exactly the URL-alphabet characters of the sextets, with no padding |
| Base64Url.EncodeAlphabet | includes/auth/class-zaobank-jwt-tokens.php:286-287 | `base64url_encode` never emits `+`, `/`, `=` or `.` |
| Base64Url.KeptSextetsOfStd | includes/auth/class-zaobank-jwt-tokens.php:296-301 | the lenient decoder keeps one sextet per standard-alphabet character, in order |
| Base64Url.KeptSextetsOfPadding | includes/auth/class-zaobank-jwt-tokens.php:296-301 | the re-padding `=` characters contribute no sextets |
| Base64Url.KeptSextetsAppend | includes/auth/class-zaobank-jwt-tokens.php:296-301 | the decoder reads a concatenation part by part |
| Base64Url.DecodeEncode | includes/auth/class-zaobank-jwt-tokens.php:286-301 | `base64url_decode` inverts `base64url_encode` on every byte string |
| JwtTokens.Get | includes/auth/class-zaobank-jwt-tokens.php:64-69 | `isset($j[$k])` holds exactly for an object member that is not null, and yields that member |
| JwtTokens.Split | includes/auth/class-zaobank-jwt-tokens.php:237 | `explode('.', …)` always yields at least one part |
| JwtTokens.SplitNoDot | includes/auth/class-zaobank-jwt-tokens.php:237 | a string without a dot explodes to itself |
| JwtTokens.SplitJoin | includes/auth/class-zaobank-jwt-tokens.php:237 | exploding `a.r` for a dot-free `a` yields `a` followed by the parts of `r` |
| JwtTokens.SplitThree | includes/auth/class-zaobank-jwt-tokens.php:237-243 | three dot-free segments joined by dots explode back into those three |
| JwtTokens.EncodedHasNoDot | includes/auth/class-zaobank-jwt-tokens.php:286-287 | a base64url segment never contains the separator `.` |
| JwtTokens.Decode | includes/auth/class-zaobank-jwt-tokens.php:236-267 | `invalid_token_format` iff there are not three parts; then `invalid_token_data` iff the header or payload is falsy; then `invalid_algorithm` iff `alg` is not HS256; the payload is returned iff the signature of the first two segments matches, and no other error occurs |
| JwtTokens.EncodeShape | includes/auth/class-zaobank-jwt-tokens.php:211-227 | an encoded token has three segments: the encoded header, the encoded payload, and the encoded signature of the first two joined by a dot |
| JwtTokens.MintedSegments | includes/auth/class-zaobank-jwt-tokens.php:211-264 | `decode` splits a minted token into three segments and reads back the HS256 header, the payload and the signature of the first two |
| JwtTokens.DecodeEncode | includes/auth/class-zaobank-jwt-tokens.php:211-267 | decoding a token with the secret it was encoded with returns the payload, for every truthy payload the JSON functions round-trip |
| JwtTokens.WrongSecretRejected | includes/auth/class-zaobank-jwt-tokens.php:258-264 | a token checked under a secret whose HMAC differs is refused as `invalid_signature` |
| JwtTokens.ForgedPayloadRejected | includes/auth/class-zaobank-jwt-tokens.php:258-264 | swapping the payload segment while keeping the signature is refused |
| JwtTokens.ValidateToken | includes/auth/class-zaobank-jwt-tokens.php:50-74 | an empty token fails first as `empty_token`; decode errors pass through unchanged; then `token_expired` iff `exp` is set and lies before now; then `invalid_issuer` iff `iss` is set and differs from the site URL; the decoded payload is returned exactly when neither holds |
| JwtTokens.Claims | includes/auth/class-zaobank-jwt-tokens.php:32-39 | `array_merge`: every extra claim is kept, overriding a standard claim of the same name; no other keys appear |
| JwtTokens.GenerateToken | includes/auth/class-zaobank-jwt-tokens.php:21-42 | `invalid_user` exactly for an unknown user, otherwise the encoding of the merged claims under the site secret |
| JwtTokens.PlainClaimsFacts | includes/auth/class-zaobank-jwt-tokens.php:22-39 | without extra claims the payload is truthy, `sub` is the user id, `exp` is `accessDays` days after issue and `iss` is the site URL |
| JwtTokens.MintedTokenValidation | includes/auth/class-zaobank-jwt-tokens.php:50-74 | a token minted with this site as issuer validates to its claims until `exp`, then fails as `token_expired` |
| JwtTokens.FreshTokenValidates | includes/auth/class-zaobank-jwt-tokens.php:21-74 | a token from `generate_token` validates up to and including its expiry second, with `sub` the user and the promised `exp` |
| JwtTokens.StaleTokenExpires | includes/auth/class-zaobank-jwt-tokens.php:64-66 | after its expiry second the same token is refused as `token_expired` |
| JwtTokens.EncodedNotEmpty | includes/auth/class-zaobank-jwt-tokens.php:53-55 | an encoded token is never PHP-empty, so `empty_token` never refuses an issued token |
| RefreshTokens.NewRow | includes/auth/class-zaobank-jwt-tokens.php:83-103 | a new row is neither revoked nor used, expires `days` days after it is created, and stores the device text sanitised: no tab or line break and nothing `trim` strips at either end |
| RefreshTokens.RevokeAllOf | includes/auth/class-zaobank-jwt-tokens.php:190-201 | the bulk revoke keeps other users' rows and already revoked rows, revokes every row of the user, and changes nothing but `revoked_at` |
| RefreshTokens.CountUnrevoked | includes/auth/class-zaobank-jwt-tokens.php:195-201 | the count is zero exactly when the user has no unrevoked row |
| RefreshTokens.Store.GenerateRefreshToken | includes/auth/class-zaobank-jwt-tokens.php:83-110 | appends exactly one row, holding the hash and not the plaintext; returns the plaintext, `now + days*86400` and the new id |
| RefreshTokens.Store.ValidateRefreshToken | includes/auth/class-zaobank-jwt-tokens.php:118-149 | the first live row the hash check accepts gets `last_used_at = now`, and its user is returned; with no such row the result is `invalid_refresh_token` and no row changes; revocations are kept |
| RefreshTokens.Store.RevokeRefreshToken | includes/auth/class-zaobank-jwt-tokens.php:157-182 | the first unrevoked row the check accepts, expired or not, is revoked and `true` returned; otherwise nothing changes and `false` is returned |
| RefreshTokens.Store.RevokeAllUserTokens | includes/auth/class-zaobank-jwt-tokens.php:190-202 | the table becomes the bulk revoke of the user; the count is the number of the user's rows that were unrevoked |
| RefreshTokens.TouchChangesOnlyLastUsed | includes/auth/class-zaobank-jwt-tokens.php:134-142 | validation changes one row, and only its `last_used_at` |
| RefreshTokens.IssueThenValidate | includes/auth/class-zaobank-jwt-tokens.php:83-149 | a freshly issued token validates to its user while it is alive, if no earlier row accepts it |
| RefreshTokens.ShortLivedRowNeverLive | includes/auth/class-zaobank-jwt-tokens.php:89 | a row issued with a lifetime of zero days or less is never live |
| RefreshTokens.RevokeIsFinal | includes/auth/class-zaobank-jwt-tokens.php:157-182 | after revocation a token that only one row accepts neither validates nor revokes again, so a second revoke returns false |
| RefreshTokens.RevokeAllBlocksUser | includes/auth/class-zaobank-jwt-tokens.php:190-202 | after a bulk revoke no token validates to that user, and other users' rows are untouched |
| RefreshTokens.RevokeAllCountsChanges | includes/auth/class-zaobank-jwt-tokens.php:195-201 | the reported count equals the number of rows the bulk revoke changes |
| JwtAuth.AuthorizationHeader | includes/auth/class-zaobank-jwt-auth.php:152-178 | `HTTP_AUTHORIZATION`, then `REDIRECT_HTTP_AUTHORIZATION`, both sanitised; then the first header whose key is exactly `Authorization`, then the first whose key is `authorization` in any case, both as sent; absent when none exists |
| JwtAuth.GetAuthorizationHeader | includes/auth/class-zaobank-jwt-auth.php:152-178 | the loop over the request headers returns exactly that header value |
| JwtAuth.FoldSpaces | includes/auth/class-zaobank-jwt-auth.php:154 | each run of spaces, tabs and line breaks becomes one space, and the first character is kept or becomes that space |
| JwtAuth.SanitizeTextShape | includes/auth/class-zaobank-jwt-auth.php:154-159 | sanitised text holds no tab or line break, and neither end is a character `trim` strips |
| JwtAuth.FoldSpacesKeepsPlain | includes/auth/class-zaobank-jwt-auth.php:154 | a prefix without whitespace passes through the folding unchanged |
| JwtAuth.SanitizeKeepsClean | includes/auth/class-zaobank-jwt-auth.php:154-159 | text that the folding leaves alone and whose ends `trim` keeps is not changed |
| JwtAuth.SanitizeSchemeToken | includes/auth/class-zaobank-jwt-auth.php:154-159 | `<scheme> <token>` passes through sanitisation unchanged when neither part holds whitespace or a trimmed character |
| JwtAuth.SanitizeSchemeBlank | includes/auth/class-zaobank-jwt-auth.php:154-159 | `<scheme> ` loses its trailing space |
| JwtAuth.SpaceRun | includes/auth/class-zaobank-jwt-auth.php:135 | greedy `\s+` takes the maximal run of whitespace |
| JwtAuth.CaptureFrom | includes/auth/class-zaobank-jwt-auth.php:135 | `(.*)$` captures a line-feed-free rest, allowing one final line feed |
| JwtAuth.BearerAt | includes/auth/class-zaobank-jwt-auth.php:135 | a match at a position needs `bearer` in any case followed by whitespace |
| JwtAuth.BearerPosition | includes/auth/class-zaobank-jwt-auth.php:135 | the first position at or after the start where the pattern matches, or none when no position matches |
| JwtAuth.BearerFrom | includes/auth/class-zaobank-jwt-auth.php:135-136 | a match exactly when some position matches, and then the capture at the leftmost matching position |
| JwtAuth.BearerOfScheme | includes/auth/class-zaobank-jwt-auth.php:135-136 | `Bearer <token>` in any letter case yields the token, when the token has no line feed and no leading whitespace |
| JwtAuth.HeaderTokenWins | includes/auth/class-zaobank-jwt-auth.php:133-137 | a bearer header decides the token whatever the query holds |
| JwtAuth.QueryFallback | includes/auth/class-zaobank-jwt-auth.php:139-144 | without any Authorization header, the sanitised `jwt_token` parameter is used, or else there is no token |
| JwtAuth.BlankBearerHidesQueryToken | includes/auth/class-zaobank-jwt-auth.php:135-141 | a header that reads `Bearer ` can only come from `apache_request_headers`; it captures the empty string, so the query token is ignored and no usable token remains |
| JwtAuth.ServerBlankBearerFallsBack | includes/auth/class-zaobank-jwt-auth.php:135-159 | a `Bearer ` server variable is trimmed to `Bearer`, which does not match, so the sanitised query token is used |
| JwtAuth.SubjectId | includes/auth/class-zaobank-jwt-auth.php:52-54 | an integer claim is the id itself; a string claim reads as an id exactly when it is a decimal numeral; nothing else reads as an id |
| JwtAuth.SubjectUser | includes/auth/class-zaobank-jwt-auth.php:52-54 | `get_user_by('ID', $sub)` resolves exactly when the claim reads as an id and a user has it, and yields that id |
| JwtAuth.NumericSubjectResolves | includes/auth/class-zaobank-jwt-auth.php:202 | a user's id resolves to that user whether `sub` carries it as a number or as its decimal string |
| JwtAuth.TokenUser | includes/auth/class-zaobank-jwt-auth.php:37-62 | validation errors come first, then `missing_user_id`; with a `sub`, the result is Ok exactly when the subject names an existing user, and then it is that user's id, otherwise `user_not_found` |
| JwtAuth.NormalizeAuthError | includes/auth/class-zaobank-jwt-auth.php:90-107 | a non-error becomes `auth_failed` with 401; an error keeps its code and gets 401 when it has no status; an existing status is kept; every result has a status |
| JwtAuth.CurrentUser | includes/auth/class-zaobank-jwt-auth.php:185-203 | a user exactly when a truthy token resolves to an existing user, and that user; `None` stands for both the `null` of a missing or invalid token and the `false` of `get_user_by` for an unknown user |
| JwtAuth.TokenCharacters | includes/auth/class-zaobank-jwt-tokens.php:211-226 | every character of an issued token is base64url or a segment dot |
| JwtAuth.TokenIsBearerSafe | includes/auth/class-zaobank-jwt-auth.php:135-136 | an issued token has no line feed and no leading whitespace, so it survives the bearer pattern unchanged |
| JwtAuth.BearerTokenArrives | includes/auth/class-zaobank-jwt-auth.php:131-137 | a bearer-safe, truthy token sent as `Bearer <token>` is the request's token |
| JwtAuth.EncodedTokenArrives | includes/auth/class-zaobank-jwt-auth.php:131-137 | every encoded token sent as `Bearer <token>` is the request's token, and is present |
| JwtAuth.TokenIsUntrimmed | includes/auth/class-zaobank-jwt-auth.php:154-159 | an issued token is non-empty and has no character that sanitisation folds or trims |
| JwtAuth.ServerBearerArrives | includes/auth/class-zaobank-jwt-auth.php:152-159 | `Bearer <token>` in `HTTP_AUTHORIZATION` survives sanitisation for every token without such characters |
| JwtAuth.SanitizeBearerToken | includes/auth/class-zaobank-jwt-auth.php:154-159 | sanitising `Bearer <token>` changes nothing for such a token |
| JwtAuth.IssuedTokenIdentifiesUser | includes/auth/class-zaobank-jwt-auth.php:185-203 | a token from `generate_token` sent as a bearer header names its user, both through the token lookup and through `get_current_user`, until it expires |
| JwtAuth.ValidTokenNamesUser | includes/auth/class-zaobank-jwt-auth.php:44-62 | a valid token whose `sub` is an existing user's id resolves to that user |
| JwtAuth.ValidStringTokenNamesUser | includes/auth/class-zaobank-jwt-auth.php:44-62 | a valid token whose `sub` is an existing user's id as a decimal string resolves to that user |
| JwtAuth.Adapter.Authenticate | includes/auth/class-zaobank-jwt-auth.php:20-63 | a truthy user id, a non-REST request or a missing token returns the argument and records nothing; a failure records the normalised error and returns the argument; success returns the `sub` user, agreeing with `get_current_user`; stored errors always have a status |
| JwtAuth.Adapter.CheckAuthenticationError | includes/auth/class-zaobank-jwt-auth.php:71-82 | a non-empty incoming value passes through; otherwise the stored error (normalised) or null |
| RestAuth.RegistrationCheck | includes/rest-api/class-zaobank-mobile-rest-auth.php:66-186 | a password of fewer than 8 bytes is refused first; then 403 iff registration is closed, then 400 `username_exists`, then 400 `email_exists`; no error iff every check passes |
| RestAuth.Utf8Width | includes/rest-api/class-zaobank-mobile-rest-auth.php:66-68 | a character takes one to four bytes, and one exactly when it is ASCII |
| RestAuth.Utf8Length | includes/rest-api/class-zaobank-mobile-rest-auth.php:66-68 | `strlen` of the UTF-8 text lies between its character count and four times that |
| RestAuth.PasswordLength | includes/rest-api/class-zaobank-mobile-rest-auth.php:66-68 | on ASCII text the byte count is the character count; eight characters always suffice and one character never does |
| RestAuth.TwoByteLetters | includes/rest-api/class-zaobank-mobile-rest-auth.php:66-68 | four two-byte letters are accepted as eight bytes, three are refused |
| RestAuth.NewProfile | includes/rest-api/class-zaobank-mobile-rest-auth.php:188-207 | the created user has the login and email given; a truthy display name replaces the default one |
| RestAuth.BlankDisplayNameKeepsLogin | includes/rest-api/class-zaobank-mobile-rest-auth.php:74-78 | a display name of whitespace only is sanitised by the route to the empty string, so the new user keeps the login as display name |
| RestAuth.RefreshOutcome | includes/rest-api/class-zaobank-mobile-rest-auth.php:221-255 | every store failure collapses into 401 `invalid_refresh_token`; a vanished user is 404; success is a 200 carrying a token `generate_token` issues for the same user |
| RestAuth.RefreshedTokenNamesUser | includes/rest-api/class-zaobank-mobile-rest-auth.php:244-254 | the refreshed access token validates to the refresh token's user until it expires |
| RestAuth.AuthService.GenerateAuthResponse | includes/rest-api/class-zaobank-mobile-rest-auth.php:326-341 | an access-token error is returned before any refresh row is written; otherwise one row is appended and both tokens, the refresh expiry and the requested status are returned |
| RestAuth.AuthService.Login | includes/rest-api/class-zaobank-mobile-rest-auth.php:129-146 | the route (lines 36-40) sanitises `device_info`; any credential failure is 401 `invalid_credentials` and writes nothing; success is a 200 carrying the user's access token, the new refresh token and its expiry, and exactly one new row is appended |
| RestAuth.AuthService.Register | includes/rest-api/class-zaobank-mobile-rest-auth.php:154-213 | the route (lines 74-83) sanitises `display_name` and `device_info`; the checks in order and a creation failure as 400, each leaving users, ids and tokens unchanged; otherwise the new user, with the sanitised display name, under the next id (`nextUserId` + 1), the full 201 response (access token for the new user, refresh token, its expiry `now + days*86400`, profile), one appended refresh row and `store.nextId` + 1; logins and emails stay unique |
| RestAuth.AuthService.RefreshToken | includes/rest-api/class-zaobank-mobile-rest-auth.php:221-255 | the answer is the outcome for the first live matching row, which alone gets `last_used_at = now`; with no such row the answer is 401 and no row changes; no row is added and no revocation changes |
| RestAuth.AuthService.Logout | includes/rest-api/class-zaobank-mobile-rest-auth.php:263-284 | with `all_devices` and a user from the access token, all of that user's tokens are revoked; otherwise a given refresh token is revoked, whoever owns it; always a 200; no revocation is undone |
| LocationPrivacy.Precision | includes/geolocation/class-zaobank-location-privacy.php:59-62 | the stored level when it is `exact`, `block` or `city`, otherwise `block` |
| LocationPrivacy.UserLocationOf | includes/geolocation/class-zaobank-location-privacy.php:125-144 | a location exactly when sharing is on and neither stored coordinate is PHP-empty, carrying them with the level in effect |
| LocationPrivacy.SettingsOf | includes/geolocation/class-zaobank-location-privacy.php:216-222 | `has_location` holds exactly when a location would be returned |
| LocationPrivacy.FuzzCoordinates | includes/geolocation/class-zaobank-location-privacy.php:184-207 | `exact` or an unknown level returns the coordinates unchanged; other levels the random offset ones |
| LocationPrivacy.UserRowData | includes/geolocation/class-zaobank-location-privacy.php:109-114 | the user's location row records the precision as accuracy and `device` as source |
| LocationPrivacy.SettingsPrecision | includes/geolocation/class-zaobank-location-privacy.php:72-80 | the flag is always written; the level changes only to a whitelisted value |
| LocationPrivacy.ClearKeepsSettings | includes/geolocation/class-zaobank-location-privacy.php:152-162 | clearing removes the location and keeps the flag and the level |
| LocationPrivacy.DisableHidesLocation | includes/geolocation/class-zaobank-location-privacy.php:170-174 | after disabling, sharing is off, no location reads back and the level is kept |
| LocationPrivacy.LocatedReadsBack | includes/geolocation/class-zaobank-location-privacy.php:92-144 | a shared non-zero position reads back as stored, with the level in effect; at `exact` it is the position sent |
| LocationPrivacy.ZeroCoordinateReadsAsEmpty | includes/geolocation/class-zaobank-location-privacy.php:134-136 | a zero latitude or longitude reads back as no location |
| LocationPrivacy.PrivacyStore.UpdateSettings | includes/geolocation/class-zaobank-location-privacy.php:72-80 | only this user's meta changes, to the flag given and the level if whitelisted |
| LocationPrivacy.PrivacyStore.UpdateLocation | includes/geolocation/class-zaobank-location-privacy.php:92-117 | a disabled user gets `location_disabled` and nothing is written; otherwise the fuzzed position is stored and upserted as the user's row; the table's next id grows by one exactly when no row for the user existed |
| LocationPrivacy.PrivacyStore.ClearLocation | includes/geolocation/class-zaobank-location-privacy.php:152-162 | the position meta is removed and the user's row deleted; the table's next id is unchanged |
| LocationPrivacy.PrivacyStore.DisableLocation | includes/geolocation/class-zaobank-location-privacy.php:170-174 | the flag is turned off and the location cleared; the table's next id is unchanged |
| RestLocation.MergeSettings | includes/rest-api/class-zaobank-mobile-rest-location.php:126-131 | an omitted `enabled` keeps the current flag; a falsy `precision` keeps the level in effect |
| RestLocation.SettingsRequestMeta | includes/rest-api/class-zaobank-mobile-rest-location.php:133-138 | turning sharing off goes through `disable_location`, which clears the location and keeps the level |
| RestLocation.EmptySettingsRequestIsNeutral | includes/rest-api/class-zaobank-mobile-rest-location.php:121-143 | a request naming neither field changes nothing a client can read back |
| RestLocation.SettingsRequestTakesEffect | includes/rest-api/class-zaobank-mobile-rest-location.php:121-143 | a request with a flag and a whitelisted level is what the settings then report |
| RestLocation.GetLocation | includes/rest-api/class-zaobank-mobile-rest-location.php:204-219 | the stored location or null, and `enabled` always equal to the user's setting |
| RestLocation.UpdateSettings | includes/rest-api/class-zaobank-mobile-rest-location.php:121-144 | the merged settings are applied through disable or update, touching only the user's meta and, when turning off, the user's row; the reply is the new settings; turning off leaves the table's next id unchanged |
| RestLocation.UpdateLocation | includes/rest-api/class-zaobank-mobile-rest-location.php:152-180 | out-of-range coordinates are 400 `rest_invalid_param`; then a disabled user is 400 `location_disabled`; neither writes anything; otherwise the fuzzed position is stored in the meta and upserted as the user's location row, and returned with the level; the table's next id grows by one exactly when no row for the user existed |
| Geocoder.RowFor | includes/geolocation/class-zaobank-geocoder.php:152-161 | accuracy defaults to `exact`, address and source to null |
| Geocoder.Lookup | includes/geolocation/class-zaobank-geocoder.php:187-200 | a row is found exactly when one with the key exists |
| Geocoder.Without | includes/geolocation/class-zaobank-geocoder.php:219-232 | the delete keeps exactly the rows of other keys |
| Geocoder.UpsertThenLookup | includes/geolocation/class-zaobank-geocoder.php:141-178 | after saving, the key reads back the saved data under its old id (or the next id when new); other keys read back as before |
| Geocoder.DeleteThenLookup | includes/geolocation/class-zaobank-geocoder.php:219-232 | after deleting, the key reads back null and other keys as before |
| Geocoder.WithoutKeepsUnique | includes/geolocation/class-zaobank-geocoder.php:219-232 | deleting keeps the table at most one row per key |
| Geocoder.GetApiKey | includes/geolocation/class-zaobank-geocoder.php:22-36 | the Formidable Geo key if non-empty, else the plugin's key if non-empty, else null |
| Geocoder.DetermineAccuracy | includes/geolocation/class-zaobank-geocoder.php:299-315 | `ROOFTOP` gives `exact`; `RANGE_INTERPOLATED` or `GEOMETRIC_CENTER` give `address`; `APPROXIMATE` gives `city`; anything else gives `unknown` |
| Geocoder.GeocodeAddress | includes/geolocation/class-zaobank-geocoder.php:44-97 | no key gives `no_api_key`; a transport error passes through; an undecodable reply or a status other than `OK` gives `geocode_failed`; an `OK` reply without results gives `no_results`; otherwise the first result's coordinates, formatted address and accuracy |
| Geocoder.NoKeyNoRequest | includes/geolocation/class-zaobank-geocoder.php:45-52 | without a key the outcome does not depend on the network |
| Geocoder.OneRequest | includes/geolocation/class-zaobank-geocoder.php:54-71 | with a key, the outcome depends on the network only through the one reply for this address and key |
| Geocoder.WithLocation | includes/geolocation/class-zaobank-geocoder.php:246-256 | exactly the posts whose `location` exists and is not empty are selected |
| Geocoder.Selected | includes/geolocation/class-zaobank-geocoder.php:242-257 | the first `limit` of the posts with a non-empty location, or all of them when there are fewer |
| Geocoder.LocationField | includes/geolocation/class-zaobank-geocoder.php:106-110 | the `location` field as read; an unset field reads as empty |
| Geocoder.VisitStep | includes/geolocation/class-zaobank-geocoder.php:268-285 | only a success changes the table; a success is only for a job without a row, and advances the id counter by one |
| Geocoder.RunBatchCounts | includes/geolocation/class-zaobank-geocoder.php:265-291 | over a batch `processed` grows by the number of jobs and stays `success + errors + skipped`; the id counter grows by the number of successes |
| Geocoder.VisitStepKeepsKeys | includes/geolocation/class-zaobank-geocoder.php:268-285 | one pass loses no row, and a pass that does not fail leaves a job with a non-empty location with a row |
| Geocoder.CountGeocodedGrows | includes/geolocation/class-zaobank-geocoder.php:268-285 | a table that keeps every row counts at least as many jobs as geocoded |
| Geocoder.RunBatchKeeps | includes/geolocation/class-zaobank-geocoder.php:265-291 | over a batch no row is lost, every job that already had a row counts as skipped, and with no new error every job with a non-empty location ends up with a row |
| Geocoder.LocationTable.GetLocation | includes/geolocation/class-zaobank-geocoder.php:187-210 | the key's row, or null |
| Geocoder.LocationTable.SaveLocation | includes/geolocation/class-zaobank-geocoder.php:141-178 | the table becomes the upsert; the id counter grows only on insert; keys stay unique |
| Geocoder.LocationTable.DeleteLocation | includes/geolocation/class-zaobank-geocoder.php:219-232 | the table becomes the delete of the key |
| Geocoder.LocationTable.GeocodeJob | includes/geolocation/class-zaobank-geocoder.php:105-131 | an empty location returns false and writes nothing; a row with the same address returns true without geocoding; otherwise a geocoding error passes through unwritten, or the result is saved with source `google`, the id counter growing only for a new row |
| Geocoder.LocationTable.VisitJob | includes/geolocation/class-zaobank-geocoder.php:266-288 | the counter and the new table are those of one pass: a job with a row, or with an empty location, is skipped without writing; a geocoding error counts as an error without writing; otherwise a success that upserts the job's row |
| Geocoder.LocationTable.BatchGeocodeJobs | includes/geolocation/class-zaobank-geocoder.php:240-291 | the counters and the final table are the pass applied to each selected job in turn; `processed` is the number of selected jobs and at most `limit`; it equals `success + errors + skipped`; already geocoded jobs count as skipped; no row is lost; with no errors every selected job ends up with a row |
| Geocoder.LocationTable.VisitJobs | includes/geolocation/class-zaobank-geocoder.php:265-288 | the `foreach` leaves the counters and the table of the pass applied to each job in turn |
| RestJobs.Page | includes/rest-api/class-zaobank-mobile-rest-jobs.php:84 | at least 1; a parameter of at least 1 is kept, anything else gives 1 |
| RestJobs.PerPage | includes/rest-api/class-zaobank-mobile-rest-jobs.php:85 | within 1..100; a missing or zero parameter gives 20; values above 100 give 100 and negatives give 1 |
| RestJobs.Radius | includes/rest-api/class-zaobank-mobile-rest-jobs.php:89-91 | the smaller of the wanted radius and the `max_radius` option (100), where a falsy radius wants the `default_radius` option (25): never above the cap, the cap for anything above it, and the wanted radius when within it |
| RestJobs.Unit | includes/rest-api/class-zaobank-mobile-rest-jobs.php:82 | a truthy `unit` is kept, else the `distance_unit` option, else `miles` |
| RestJobs.StatusFilterMeaning | includes/rest-api/class-zaobank-mobile-rest-jobs.php:392-425 | `available` selects exactly jobs without a provider, `claimed` those with a provider and no completion, `completed` those with a completion; any other value selects everything |
| RestJobs.StatusesPartition | includes/rest-api/class-zaobank-mobile-rest-jobs.php:392-425 | for a job completed only after being claimed, exactly one of the three filters selects it |
| RestJobs.HiddenJobIds | includes/rest-api/class-zaobank-mobile-rest-jobs.php:459-485 | nothing is hidden when auto-hiding is off or the core database class is missing; otherwise exactly the jobs with an open flag |
| RestJobs.FilterArgs | includes/rest-api/class-zaobank-mobile-rest-jobs.php:153-179 | the page clamps; the status filter only for a truthy status; a region only for a non-zero one |
| RestJobs.PageOf | includes/rest-api/class-zaobank-mobile-rest-jobs.php:159-160 | a page holds at most `per_page` of the found posts; page 1 is their prefix |
| RestJobs.Pages | includes/rest-api/class-zaobank-mobile-rest-jobs.php:205 | `max_num_pages` is the fewest pages of `per_page` that hold the found posts |
| RestJobs.PagesCoverFound | includes/rest-api/class-zaobank-mobile-rest-jobs.php:159-205 | every found post lies on the page its position names, and that page is within `max_num_pages` |
| RestJobs.ListingQualifies | includes/rest-api/class-zaobank-mobile-rest-jobs.php:181-198 | the listed jobs are exactly the visible jobs of the query's page, each a published job meeting the filters; a page never holds more than 100 jobs or more than were found |
| RestJobs.FlaggedJobsHidden | includes/rest-api/class-zaobank-mobile-rest-jobs.php:181-184 | while auto-hiding is on and the core database is present, no job with an open flag is listed |
| RestJobs.ListJobs | includes/rest-api/class-zaobank-mobile-rest-jobs.php:186-206 | the loop collects exactly the visible posts of the query's page, with the query's totals |
| RestJobs.GetJobs | includes/rest-api/class-zaobank-mobile-rest-jobs.php:73-144 | a missing security module is 503 before anything else; with both coordinates the radius search gets the clamped arguments without moderation; otherwise the plain listing answers |
| RestJobs.PostById | includes/rest-api/class-zaobank-mobile-rest-jobs.php:225 | a post is found exactly when one with the id exists |
| RestJobs.GetJob | includes/rest-api/class-zaobank-mobile-rest-jobs.php:220-275 | 404 for a missing or non-job post, then 503 without the security module, then 403 for a hidden job; a distance exactly when both coordinates are given and the job is geocoded |
| RestJobs.GetNearbyJobs | includes/rest-api/class-zaobank-mobile-rest-jobs.php:285-302 | without a shared location 400 `no_location`, before the 503; otherwise the radius search from the user's stored coordinates, in the requested unit or the route's default `miles` (lines 58-61) |
| RestConfig.MinVersion | includes/rest-api/class-zaobank-mobile-rest-config.php:119 | the stored minimum, or `1.0.0` when absent |
| RestConfig.UpdateUrlFor | includes/rest-api/class-zaobank-mobile-rest-config.php:136-140 | iOS gets the App Store URL, or the TestFlight URL when that is falsy; other platforms the Play Store URL |
| RestConfig.CheckVersion | includes/rest-api/class-zaobank-mobile-rest-config.php:115-149 | the route (lines 30-37) sanitises `version`; `compatible` iff app ≥ minimum; `current` iff app ≥ plugin; `update_required` with a URL iff incompatible; `update_available` without a URL iff compatible and not current; otherwise up to date; the sanitised version and the other versions are echoed |
| RestConfig.CurrentAppIsCompatible | includes/rest-api/class-zaobank-mobile-rest-config.php:121-146 | for a transitive order and a minimum the plugin meets, a current app is compatible and up to date, and "update required" never meets "current" |
| RestConfig.ShippedVersionIsUpToDate | includes/rest-api/class-zaobank-mobile-rest-config.php:122-146 | the plugin's own version is reported up to date, with neither flag and no URL |
| Activator.AddDefaults | includes/class-zaobank-mobile-activator.php:104-108 | existing options keep their values, every default key ends up present, and nothing else is added |
| Activator.AddDefaultsFillsMissing | includes/class-zaobank-mobile-activator.php:104-108 | a missing option receives its default |
| Activator.AddDefaultsIdempotent | includes/class-zaobank-mobile-activator.php:104-108 | adding the defaults twice is adding them once |
| Activator.AddDefaultsNoop | includes/class-zaobank-mobile-activator.php:104-108 | when every default key is present nothing changes |
| Activator.WithSecret | includes/class-zaobank-mobile-activator.php:114-119 | a secret is added only when the key is absent; a stored secret is never replaced |
| Activator.SiteOptions.Get | includes/class-zaobank-mobile-activator.php:105 | `get_option` on the current table |
| Activator.SiteOptions.Add | includes/class-zaobank-mobile-activator.php:106 | `add_option` writes exactly when the key is absent |
| Activator.SiteOptions.Update | includes/class-zaobank-mobile-activator.php:24-25 | `update_option` sets the key |
| Activator.SetDefaultOptions | includes/class-zaobank-mobile-activator.php:89-109 | the options become exactly the old ones with every missing default added |
| Activator.AddEach | includes/class-zaobank-mobile-activator.php:104-108 | the `foreach` leaves exactly the options with each default added when absent |
| Activator.GenerateJwtSecret | includes/class-zaobank-mobile-activator.php:114-119 | the secret is added when none is stored |
| Activator.Activate | includes/class-zaobank-mobile-activator.php:10-26 | the options become the database version, the defaults, the secret, the activation flag and the plugin version |
| Activator.DefaultKeysDistinct | includes/class-zaobank-mobile-activator.php:90-102 | the eleven default keys are distinct |
| Activator.DefaultKeysReserved | includes/class-zaobank-mobile-activator.php:90-102 | no default shares a key with the secret, the flag or the version markers |
| Activator.ActivationKeepsSettings | includes/class-zaobank-mobile-activator.php:10-26 | activation overwrites no option except the flag and the two version markers, and always leaves a secret |
| Activator.ActivationInstallsDefaults | includes/class-zaobank-mobile-activator.php:90-108 | each missing option receives its default value |
| Activator.FreshSiteGetsSecret | includes/class-zaobank-mobile-activator.php:114-119 | a site without a secret stores the generated, truthy one |
| Activator.EmptySecretSurvives | includes/class-zaobank-mobile-activator.php:115-117 | a stored empty secret is kept, since `add_option` does not replace it |
| Activator.ActivateIdempotent | includes/class-zaobank-mobile-activator.php:10-26 | activating again, with any secret, changes nothing |
| Activator.ActivatedMinimumVersion | includes/class-zaobank-mobile-activator.php:96 | after activation a site that never set a minimum version checks against `1.0.0` |

## Left out

- HMAC-SHA256, `wp_json_encode` and `json_decode` are uninterpreted functions. Properties that need JSON to round-trip take that as a precondition on the values involved.
- JSON numbers are integers. Floats in claims are not modelled.
- `hash_equals` is plain equality. Its constant-time behaviour cannot be stated.
- `wp_hash_password` and `wp_check_password` are the inputs `tokenHash` and `check`. `wp_generate_password` values are arguments.
- Timestamps are integer seconds. The `gmdate`/`current_time('mysql')` strings and their SQL comparison are not modelled.
- JwtTokens.ValidateToken: an `exp` claim that is a string is treated as not expired. PHP's string-to-number comparison is not modelled.
- `sanitize_text_field` is modelled only as far as whitespace goes: runs of spaces, tabs and line breaks fold to one space and the ends are trimmed. It is applied wherever the source applies it: the two server variables, the `jwt_token` query parameter, the device text of a refresh-token row, and the route arguments `device_info` (login and register), `display_name` (register) and `version` (version check). Tag stripping, percent-octet removal and the invalid UTF-8 check are left out.
- RestLocation.UpdateLocation: a missing `latitude` or `longitude` and a non-numeric one are both `None`, and both give `rest_invalid_param`. WordPress answers a missing required parameter with `rest_missing_callback_param` before the handler runs; the model does not tell the two apart.
- `wp_unslash`, `sanitize_email` and `__()` are treated as identity.
- RestAuth.AuthService.Register: `login` is the username after the route's `sanitize_user`, a WordPress function that is not part of this model; the handler's checks and the created user use that value as given.
- RestAuth.AuthService.Login: the login `username`, which the route sanitises, only reaches `wp_authenticate`; its outcome is the input `authenticated`, so that sanitising is not modelled.
- RestAuth.RegistrationCheck: logins and emails are compared exactly. The lookups behind `username_exists` and `email_exists` are case-insensitive under WordPress's default database collation, and that folding is not modelled.
- JwtAuth.SubjectId: only integer claims and strings of ASCII digits read as ids. Other strings that `is_numeric` accepts, with a sign, surrounding whitespace, a fraction or an exponent, are not resolved.
- `is_rest_request` is the request's `isRest` flag. The URL comparison behind it is not modelled.
- `format_user` and `format_job` are not modelled: they only build display arrays. The `coordinates` field of a job is also not modelled.
- `wp_authenticate` is the input `authenticated`.
- The extra failures of `wp_create_user` are the input `createOk`.
- `wp_update_user` is folded into the new profile.
- The `zaobank_mobile_user_registered` action is not modelled.
- The `/auth/me` endpoint and the `check_authentication` permission callbacks are not modelled. WordPress runs them before the handlers.
- Route registration and argument schemas are not modelled, apart from the password length and the coordinate validators. The `unit` and `status` enums and the page minimums are among the parts left out.
- User meta is stored as typed values. A coordinate of zero is read as PHP-empty, as the stored string "0" is.
- The random offsets of `fuzz_coordinates` are not modelled. The offset position is an argument, and the trigonometry and `round` are left out.
- The `clear_location` and `get_settings` endpoints of the REST location class are not modelled as separate members. They only call `PrivacyStore.ClearLocation` and `SettingsOf`.
- The HTTP request, JSON parsing and `usleep` of the geocoder are the function `fetch`. The Formidable Geo option is given as its key, or `None`.
- Geocoder.LocationTable.BatchGeocodeJobs: requires `limit >= 1`. The only caller passes 50, and `get_posts` treats 0 and -1 specially.
- The SQL behind `get_posts`, `WP_Query` and `get_col` is a filter over the posts in query order, followed by a page slice. Ordering by date is left out.
- The distance calculator is not modelled: Haversine, the bounding box and the display strings are floating-point geometry. RestJobs.GetJobs answers a located request with the arguments and the search echo handed to it, not with the jobs found.
- RestJobs.GetJob: the distance is the query handed to the calculator, not its value.
- Option values that the job endpoints read as numbers are reals (`default_radius`, `max_radius`). Non-numeric option strings are not modelled.
- `get_job` does not check `post_status`, and neither does the model.
- `get_config` and `get_regions` are not modelled: they only echo options and taxonomy terms.
- RestConfig.CheckVersion: `version_compare` is the abstract order `atLeast`. Properties that need transitivity assume it.
- `min_version` is echoed as the stored option value.
- `create_tables` is modelled only by its `db_version` write. `dbDelta` and `flush_rewrite_rules` are not modelled.
- Activator.GenerateJwtSecret: the generated secret is an argument of length 64 that stands for `wp_generate_password(64, true, true)`.
- The model is sequential. Races between concurrent revocation and validation are out of scope.
