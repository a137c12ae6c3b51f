/** Bearer tokens as abstract records, and the validator the application
    configures for them: expected issuer and audience both `JwtIssuer`,
    signing key `JwtKey`, and the framework's defaults for everything else
    (lifetime checked, expiry required, five minutes of clock skew).
    Serialisation and the HMAC itself are not modelled: a token carries
    the key it was signed with, and a signature is valid exactly when that
    key is the configured one. Times are whole seconds. */
module Jwt {
  import opened Errors
  import opened Claims

  const SecondsPerDay: int := 86400
  /** `TokenValidationParameters.DefaultClockSkew`: 300 seconds. */
  const DefaultClockSkew: int := 300
  /** `SecurityAlgorithms.HmacSha256`. */
  const HmacSha256: string := "HS256"

  /** `DateTime.AddDays` on a clock in seconds. */
  function AddDays(time: int, days: int): int {
    time + days * SecondsPerDay
  }

  /** `char.IsWhiteSpace`: the Unicode space separators, the line and
      paragraph separators, and U+0009–U+000D, U+0085 and U+00A0. */
  predicate IsWhiteSpace(c: char) {
    c == ' ' || '\t' <= c <= '\r' || c == '\U{85}' || c == '\U{A0}' || c == '\U{1680}'
    || '\U{2000}' <= c <= '\U{200A}' || c == '\U{2028}' || c == '\U{2029}' || c == '\U{202F}'
    || c == '\U{205F}' || c == '\U{3000}'
  }

  /** `string.IsNullOrWhiteSpace`. */
  predicate IsBlank(s: string) {
    forall i :: 0 <= i < |s| ==> IsWhiteSpace(s[i])
  }

  /** The bound "Authentication" configuration section. */
  datatype AuthenticationSettings = AuthenticationSettings(jwtKey: string, jwtExpireDays: int, jwtIssuer: string)

  datatype SigningCredentials = SigningCredentials(key: string, algorithm: string)

  datatype JwtToken = JwtToken(
    issuer: string,
    audience: string,
    claims: seq<Claim>,
    notBefore: Option<int>,
    expires: Option<int>,
    credentials: SigningCredentials)

  datatype ValidationParameters = ValidationParameters(
    validIssuer: string,
    validAudience: string,
    issuerSigningKey: string,
    clockSkew: int,
    requireExpirationTime: bool,
    ignoreTrailingSlashWhenValidatingAudience: bool)

  /** The `TokenValidationParameters` the bearer scheme is configured with. */
  function ValidationFor(settings: AuthenticationSettings): (v: ValidationParameters)
    ensures v.validIssuer == v.validAudience == settings.jwtIssuer
    ensures v.issuerSigningKey == settings.jwtKey
    ensures v.requireExpirationTime && v.clockSkew == DefaultClockSkew
    ensures v.ignoreTrailingSlashWhenValidatingAudience
  {
    ValidationParameters(settings.jwtIssuer, settings.jwtIssuer, settings.jwtKey, DefaultClockSkew, true, true)
  }

  /** The framework's lifetime check at time `now`; `None` when it passes. */
  function LifetimeError(v: ValidationParameters, token: JwtToken, now: int): Option<TokenError> {
    if token.expires.None? && v.requireExpirationTime then Some(NoExpiration)
    else if token.notBefore.Some? && token.expires.Some? && token.notBefore.value > token.expires.value then Some(InvalidLifetime)
    else if token.notBefore.Some? && token.notBefore.value > now + v.clockSkew then Some(NotYetValid)
    else if token.expires.Some? && token.expires.value < now - v.clockSkew then Some(Expired)
    else None
  }

  /** The audience comparison: ordinal equality or, when trailing slashes
      are ignored (the framework's default), equality after one '/' is
      appended to the shorter of the two. */
  predicate AudienceMatches(audience: string, validAudience: string, ignoreTrailingSlash: bool) {
    audience == validAudience
    || (ignoreTrailingSlash && (audience == validAudience + "/" || validAudience == audience + "/"))
  }

  /** Token validation as the bearer handler runs it: signature, then
      lifetime, then audience, then issuer. A blank expected value, or a
      blank value in the token (which is then not written at all), never
      matches. A token that passes yields a principal carrying its
      claims. */
  function ValidateToken(v: ValidationParameters, token: JwtToken, now: int): (r: Result<Principal>)
    ensures r.Ok? ==> r.value == token.claims
    ensures r.Ok? ==> token.credentials.key == v.issuerSigningKey
                      && AudienceMatches(token.audience, v.validAudience, v.ignoreTrailingSlashWhenValidatingAudience)
                      && token.issuer == v.validIssuer
                      && !IsBlank(token.audience) && !IsBlank(token.issuer)
    ensures r.Ok? && v.requireExpirationTime ==> token.expires.Some? && now <= token.expires.value + v.clockSkew
    ensures r.Ok? && token.notBefore.Some? ==> token.notBefore.value <= now + v.clockSkew
    ensures r.Err? ==> r.error.Unauthorized?
  {
    if token.credentials.key != v.issuerSigningKey then Err(Unauthorized(InvalidSignature))
    else if LifetimeError(v, token, now).Some? then Err(Unauthorized(LifetimeError(v, token, now).value))
    else if IsBlank(v.validAudience) || IsBlank(token.audience)
         || !AudienceMatches(token.audience, v.validAudience, v.ignoreTrailingSlashWhenValidatingAudience) then
      Err(Unauthorized(InvalidAudience))
    else if IsBlank(v.validIssuer) || IsBlank(token.issuer) || token.issuer != v.validIssuer then
      Err(Unauthorized(InvalidIssuer))
    else Ok(token.claims)
  }

  /** An audience that differs from the configured one by a trailing '/'
      is accepted, while the issuer must match exactly. */
  lemma TrailingSlashAudienceAccepted(now: int)
    ensures var settings := AuthenticationSettings("key", 1, "https://a/");
            var token := JwtToken("https://a/", "https://a", [], None, Some(now), SigningCredentials("key", HmacSha256));
            && ValidateToken(ValidationFor(settings), token, now) == Ok([])
            && ValidateToken(ValidationFor(settings), token.(issuer := "https://a"), now) == Err(Unauthorized(InvalidIssuer))
  {
    var a, b := "https://a", "https://a/";
    assert a[0] == 'h' && b[0] == 'h' && !IsWhiteSpace('h');
    assert !IsBlank(a) && !IsBlank(b);
    assert a + "/" == b && a != b;
  }

  /** With a blank `JwtIssuer` no token validates, whatever it carries. */
  lemma BlankIssuerRejectsAll(settings: AuthenticationSettings, token: JwtToken, now: int)
    requires IsBlank(settings.jwtIssuer)
    ensures ValidateToken(ValidationFor(settings), token, now).Err?
  {
  }

  /** A correctly signed token whose expiry (plus skew) has passed never
      yields a principal. */
  lemma ExpiredTokenRejected(v: ValidationParameters, token: JwtToken, now: int)
    requires token.credentials.key == v.issuerSigningKey
    requires token.expires.Some? && token.expires.value < now - v.clockSkew
    ensures ValidateToken(v, token, now).Err?
    ensures token.notBefore.None? ==> ValidateToken(v, token, now) == Err(Unauthorized(Expired))
  {
  }
}
