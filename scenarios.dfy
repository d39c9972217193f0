/** Properties of the pieces put together: a token the generator issues
    meeting the validator the registration builds, a login carried through
    authorization, the browser session a login response produces, and the
    status query beside the login gate. */
module Scenarios {
  import opened Wrappers
  import opened Text
  import opened Models
  import opened Tokens
  import opened DrUserStore
  import opened DrTokenGenerator
  import opened AuthenticationExtensions
  import Endpoints = DrAuthEndpoints
  import opened ServerProgram
  import opened SettingsEndpoints
  import opened OpenApiTransformer
  import Strategy = DrAuthStrategy

  /** The first name claim of an issued token carries the user's display name. */
  lemma IssuedTokenName(user: DrUser, jti: string)
    ensures FirstValue(TokenClaims(user, jti), NameClaimType) == Some(user.Name)
  {
    var identity := IdentityClaims(user, jti);
    var rest := identity[2..];
    assert identity == [identity[0]] + ([identity[1]] + rest);
    assert |NameIdentifierClaimType| != |NameClaimType|;
    ValuesOfTypeCons(identity[0], [identity[1]] + rest, NameClaimType);
    ValuesOfTypeCons(identity[1], rest, NameClaimType);
    ValuesOfTypeAppend(identity, RoleClaims(user.Roles), NameClaimType);
  }

  /** The principal read from an issued token: its claims, the user's
      display name and the user's roles in order. */
  lemma IssuedPrincipal(settings: DrSettings, user: DrUser, minutes: int, now: int, jti: string)
    ensures PrincipalOf(IssueToken(settings, user, minutes, now, jti), RoleClaimType)
      == Principal(TokenClaims(user, jti), Some(user.Name), user.Roles)
  {
    TokenClaimsRoles(user, jti);
    IssuedTokenName(user, jti);
  }

  /** A token issued under `settings` for `minutes` at `now` is accepted by a
      DR validator at time `t` exactly when key, issuer and audience agree
      and `t` lies in [now, now + minutes * 60]; the principal then carries
      the user's roles, in order, and display name. */
  lemma IssuedTokenAccepted(settings: DrSettings, p: DrValidationParameters, user: DrUser,
                            minutes: int, now: int, jti: string, t: int)
    requires minutes > 0 && p.clockSkew == 0 && p.roleClaimType == RoleClaimType
    ensures var r := ValidateDrToken(p, IssueToken(settings, user, minutes, now, jti), t);
      && (r.Some? <==>
           settings.SigningKey == p.signingKey && settings.Issuer == p.validIssuer
           && settings.Audience == p.validAudience && now <= t <= now + minutes * 60)
      && (r.Some? ==> r.value.roles == user.Roles && r.value.name == Some(user.Name))
  {
    var token := IssueToken(settings, user, minutes, now, jti);
    SignatureValidIffSameKey(token.payload, settings.SigningKey, p.signingKey);
    assert token.payload.notBefore == now && token.payload.expires == now + minutes * 60;
    assert LifetimeValid(token, t, 0) <==> now <= t <= now + minutes * 60;
    IssuedPrincipal(settings, user, minutes, now, jti);
  }

  /** With no signing key in the section, the settings bound for the
      generator carry the empty key, which the generator's constructor
      refuses, so no generator is built from them. The validator then checks
      against its own fallback key, and the tokens of any generator are
      accepted only if that generator signs under that very fallback. */
  lemma MissingSigningKey(config: Configuration, g: DrTokenGenerator, user: DrUser, minutes: int, now: int,
                          jti: string, t: int)
    requires "SigningKey" !in config.drSettings
    ensures BindDrSettings(config.drSettings).SigningKey == ""
    ensures DrSchemeParameters(config).signingKey == DefaultValidatorSigningKey
    ensures ValidateDrToken(DrSchemeParameters(config), IssueToken(g.settings, user, minutes, now, jti), t).Some?
      ==> g.settings.SigningKey == DefaultValidatorSigningKey
  {
    var token := IssueToken(g.settings, user, minutes, now, jti);
    SignatureValidIffSameKey(token.payload, g.settings.SigningKey, DefaultValidatorSigningKey);
  }

  /** A section that sets all three values makes the generator and the
      validator agree: its tokens are accepted throughout their lifetime. */
  lemma ConfiguredSectionAccepts(config: Configuration, user: DrUser, minutes: int, now: int, jti: string, t: int)
    requires "Issuer" in config.drSettings && "Audience" in config.drSettings && "SigningKey" in config.drSettings
    requires minutes > 0 && now <= t <= now + minutes * 60
    ensures ValidateDrToken(DrSchemeParameters(config),
                            IssueToken(BindDrSettings(config.drSettings), user, minutes, now, jti), t).Some?
  {
    IssuedTokenAccepted(BindDrSettings(config.drSettings), DrSchemeParameters(config), user, minutes, now, jti, t);
  }

  /** The DR path as the composition of the components, which the running
      server does not wire up: in DR mode, with a generator whose settings
      match the DR scheme's, the token a successful login returns
      authenticates at once, and recompute, requested in any letter case,
      is allowed exactly when the user holds "critical.operator". */
  lemma LoginAuthorizesByRole(
    config: Configuration, g: DrTokenGenerator, settings: AuthPocSettings, now: int, jti: string,
    request: DrLoginRequest, user: DrUser, httpMethod: string, path: string)
    requires EqualsIgnoreCase(httpMethod, "POST") && PathMatches(RecomputePattern, path)
    requires IsDrMode(settings.AuthMode)
    requires ValidateCredentials(request.Username, request.Password) == Some(user)
    requires g.settings == BindDrSettings(config.drSettings)
    requires "Issuer" in config.drSettings && "Audience" in config.drSettings && "SigningKey" in config.drSettings
    ensures var r := Endpoints.Login(request, g, settings, now, jti);
      && r.Ok?
      && Dispatch(httpMethod, path, ValidateDrToken(DrSchemeParameters(config), r.response.AccessToken, now))
         == Some(if CriticalOperatorRole in user.Roles then Allow else Forbid)
  {
    var ttl := Endpoints.TtlMinutes(settings);
    var token := IssueToken(g.settings, user, ttl, now, jti);
    assert Endpoints.Login(request, g, settings, now, jti).response.AccessToken == token;
    IssuedTokenAccepted(g.settings, DrSchemeParameters(config), user, ttl, now, jti, now);
    var principal := ValidateDrToken(DrSchemeParameters(config), token, now);
    RecomputeNeedsOnlyOperatorRole(httpMethod, path, principal.value);
  }

  /** "OPERATOR" signs in as the stored operator and may recompute; "tuner"
      signs in but is forbidden. */
  lemma OperatorRecomputesTunerForbidden(
    config: Configuration, g: DrTokenGenerator, settings: AuthPocSettings, now: int, jti: string)
    requires IsDrMode(settings.AuthMode)
    requires g.settings == BindDrSettings(config.drSettings)
    requires "Issuer" in config.drSettings && "Audience" in config.drSettings && "SigningKey" in config.drSettings
    ensures var r := Endpoints.Login(DrLoginRequest("OPERATOR", "Operator123!"), g, settings, now, jti);
      r.Ok? && Dispatch("POST", RecomputePattern, ValidateDrToken(DrSchemeParameters(config), r.response.AccessToken, now))
               == Some(Allow)
    ensures var r := Endpoints.Login(DrLoginRequest("tuner", "Tuner123!"), g, settings, now, jti);
      r.Ok? && Dispatch("POST", RecomputePattern, ValidateDrToken(DrSchemeParameters(config), r.response.AccessToken, now))
               == Some(Forbid)
  {
    assert FoldCase("OPERATOR") == "operator";
    ValidateCredentialsSpec("OPERATOR", "Operator123!", Operator);
    ValidateCredentialsSpec("tuner", "Tuner123!", Tuner);
    LoginAuthorizesByRole(config, g, settings, now, jti, DrLoginRequest("OPERATOR", "Operator123!"), Operator,
      "POST", RecomputePattern);
    LoginAuthorizesByRole(config, g, settings, now, jti, DrLoginRequest("tuner", "Tuner123!"), Tuner,
      "POST", RecomputePattern);
  }

  /** The running server registers only "Bearer", so the document transform
      leaves every document as it is. */
  lemma RunningServerDocumentUnsecured(config: Configuration)
    ensures !HasJwtBearerScheme([BearerScheme])
    ensures ProgramAuthentication(config).schemes.Keys == {BearerScheme}
  {
  }

  /** The status query, the login gate and the default scheme make the same
      DR decision for the same settings. */
  lemma ModeDecisionsAgree(settings: AuthPocSettings, request: DrLoginRequest, g: DrTokenGenerator, now: int, jti: string)
    ensures GetStatus(settings, now).IsDrMode <==> Endpoints.Login(request, g, settings, now, jti) != Endpoints.DrDisabled
    ensures GetStatus(settings, now).IsDrMode <==> DetermineDefaultScheme(settings) == DrBearerScheme
  {
  }

  /** A non-positive configured maximum is reported as configured, while
      login issues 15-minute tokens. */
  lemma StatusTtlDiffersFromLogin(settings: AuthPocSettings, now: int)
    requires settings.DrMaxTtlMinutes <= 0
    ensures GetStatus(settings, now).DrMaxTtlMinutes != Endpoints.TtlMinutes(settings)
    ensures Endpoints.TtlMinutes(settings) == 15
  {
  }

  /** The body the browser decodes from the endpoint's response, given the
      token's compact text. */
  function BrowserView(response: Endpoints.DrLoginResponse, tokenText: string): Strategy.DrLoginResponse {
    Strategy.DrLoginResponse(tokenText, response.TokenType, response.ExpiresIn,
                             response.Username, response.Name, response.Roles)
  }

  /** When the browser's millisecond clock agrees with the server's second
      clock, the session it records lasts `ExpiresIn` seconds: it expires
      with the token while the lifetime fits 32 bits, and before the token
      once it does not; a lifetime that wraps negative gives a session that
      has already expired. */
  lemma SessionExpiryMatchesToken(
    request: DrLoginRequest, g: DrTokenGenerator, settings: AuthPocSettings, now: int, jti: string, tokenText: string)
    requires Endpoints.Login(request, g, settings, now, jti).Ok?
    ensures var response := Endpoints.Login(request, g, settings, now, jti).response;
      var session := Strategy.SessionOf(BrowserView(response, tokenText), now * 1000);
      && session.expiresAt == now * 1000 + response.ExpiresIn * 1000
      && (Endpoints.TtlMinutes(settings) * 60 < 0x8000_0000 ==>
            session.expiresAt == response.AccessToken.payload.expires * 1000)
      && (Endpoints.TtlMinutes(settings) * 60 >= 0x8000_0000 ==>
            session.expiresAt < response.AccessToken.payload.expires * 1000)
      && (response.ExpiresIn < 0 ==> session.expiresAt < now * 1000)
  {
  }
}
