/** Registration of the two bearer schemes, Entra and DR, and the choice of
    the default one from the configured mode. */
module AuthenticationExtensions {
  import opened Wrappers
  import opened Models
  import opened Tokens

  const EntraBearerScheme := "EntraBearer"
  const DrBearerScheme := "DrBearer"

  /** The configuration the registration reads: root values (such as
      "ENTRA_TENANT_ID"), the "AuthPocSettings" section bound to a record
      (None when the section is missing) and the raw "DrSettings" section. */
  datatype Configuration = Configuration(
    values: map<string, string>,
    authPocSettings: Option<AuthPocSettings>,
    drSettings: map<string, string>)

  /** A configuration value, or null when the key is absent. */
  function Lookup(values: map<string, string>, key: string): Option<string> {
    if key in values then Some(values[key]) else None
  }

  /** `DetermineDefaultScheme`. */
  function DetermineDefaultScheme(settings: AuthPocSettings): (scheme: string)
    ensures scheme == DrBearerScheme <==> IsDrMode(settings.AuthMode)
    ensures scheme == EntraBearerScheme <==> !IsDrMode(settings.AuthMode)
  {
    if IsDrMode(settings.AuthMode) then DrBearerScheme else EntraBearerScheme
  }

  /** The validation rules of the Entra scheme: authority, audience and the
      two issuer spellings of the tenant. Signature and lifetime checks
      against the tenant's published keys are the library's. */
  datatype EntraOptions = EntraOptions(authority: string, audience: Option<string>, validIssuers: seq<string>)

  /** The validation parameters of the DR scheme. `clockSkew` is in seconds. */
  datatype DrValidationParameters = DrValidationParameters(
    validIssuer: string, validAudience: string, signingKey: string,
    clockSkew: int, roleClaimType: string)

  datatype SchemeOptions = Entra(entra: EntraOptions) | Dr(dr: DrValidationParameters)

  /** The authentication services: the default scheme and every registered scheme by name. */
  datatype AuthenticationSetup = AuthenticationSetup(defaultScheme: string, schemes: map<string, SchemeOptions>)

  const LegacyIssuerPrefix := "https://sts.windows.net/"

  /** The issuers the Entra scheme accepts for a tenant: the v2.0 authority
      and the legacy token-service form. */
  function EntraValidIssuers(tenantId: string): (issuers: seq<string>)
    ensures |issuers| == 2
    ensures issuers[0] == AuthorityOf(tenantId)
    ensures issuers[1] == LegacyIssuerPrefix + tenantId + "/"
  {
    [AuthorityOf(tenantId), LegacyIssuerPrefix + tenantId + "/"]
  }

  /** The options the Entra scheme's configuration callback sets; an unset
      tenant is interpolated as the empty string. */
  function EntraSchemeOptions(config: Configuration): (options: EntraOptions)
    ensures |options.validIssuers| == 2 && options.validIssuers[0] == options.authority
    ensures var tenant := Interpolated(Lookup(config.values, "ENTRA_TENANT_ID"));
      options.authority == AuthorityOf(tenant) && options.validIssuers == EntraValidIssuers(tenant)
    ensures options.audience == Lookup(config.values, "ENTRA_API_AUDIENCE")
  {
    var tenantId := Interpolated(Lookup(config.values, "ENTRA_TENANT_ID"));
    EntraOptions(AuthorityOf(tenantId), Lookup(config.values, "ENTRA_API_AUDIENCE"), EntraValidIssuers(tenantId))
  }

  const DefaultValidatorSigningKey := "your-256-bit-secret-key-min-32-chars!!"

  /** The DR scheme's parameters: issuer, audience and key from the DR
      section, each falling back to a fixed literal; no clock skew; roles
      read from the role claim type. */
  function DrSchemeParameters(config: Configuration): (p: DrValidationParameters)
    ensures p.clockSkew == 0 && p.roleClaimType == RoleClaimType
    ensures "Issuer" in config.drSettings ==> p.validIssuer == config.drSettings["Issuer"]
    ensures "Issuer" !in config.drSettings ==> p.validIssuer == "auth-resilience-dr"
    ensures "Audience" in config.drSettings ==> p.validAudience == config.drSettings["Audience"]
    ensures "Audience" !in config.drSettings ==> p.validAudience == "auth-resilience-api"
    ensures "SigningKey" in config.drSettings ==> p.signingKey == config.drSettings["SigningKey"]
    ensures "SigningKey" !in config.drSettings ==> p.signingKey == DefaultValidatorSigningKey
  {
    var section := config.drSettings;
    DrValidationParameters(
      Lookup(section, "Issuer").GetOr("auth-resilience-dr"),
      Lookup(section, "Audience").GetOr("auth-resilience-api"),
      Lookup(section, "SigningKey").GetOr(DefaultValidatorSigningKey),
      0,
      "http://schemas.microsoft.com/ws/2008/06/identity/claims/role")
  }

  /** The settings the registration reads: a missing section becomes the defaults. */
  function LoadAuthPocSettings(config: Configuration): (settings: AuthPocSettings)
    ensures config.authPocSettings.Some? ==> settings == config.authPocSettings.value
    ensures config.authPocSettings.None? ==> settings.AuthMode == "normal" && settings.DrMaxTtlMinutes == 15
  {
    config.authPocSettings.GetOr(DefaultAuthPocSettings)
  }

  /** `AddAuthResilienceAuthentication`. */
  function AddAuthResilienceAuthentication(config: Configuration): (setup: AuthenticationSetup)
    ensures setup.schemes.Keys == {EntraBearerScheme, DrBearerScheme}
    ensures setup.defaultScheme == DrBearerScheme <==>
      config.authPocSettings.Some? && IsDrMode(config.authPocSettings.value.AuthMode)
    ensures setup.defaultScheme != DrBearerScheme ==> setup.defaultScheme == EntraBearerScheme
    ensures setup.schemes[EntraBearerScheme] == Entra(EntraSchemeOptions(config))
    ensures setup.schemes[DrBearerScheme] == Dr(DrSchemeParameters(config))
  {
    DefaultModeIsNormal();
    AuthenticationSetup(
      DetermineDefaultScheme(LoadAuthPocSettings(config)),
      map[EntraBearerScheme := Entra(EntraSchemeOptions(config)), DrBearerScheme := Dr(DrSchemeParameters(config))])
  }

  /** The lifetime check: the token is not yet valid when nbf is later than
      now plus the skew, and has expired when exp is earlier than now minus the skew. */
  predicate LifetimeValid(token: Jwt, now: int, clockSkew: int)
    ensures clockSkew == 0 ==>
      (LifetimeValid(token, now, clockSkew) <==> token.payload.notBefore <= now <= token.payload.expires)
  {
    token.payload.notBefore <= now + clockSkew && now - clockSkew <= token.payload.expires
  }

  /** What the DR scheme makes of a bearer token at time `now`: a principal
      when signature, issuer, audience and lifetime all check out, else None,
      the same for every reason of failure. */
  function ValidateDrToken(p: DrValidationParameters, token: Jwt, now: int): (r: Option<Principal>)
    ensures r.Some? <==>
      SignatureValid(token, p.signingKey) && token.payload.issuer == p.validIssuer
      && token.payload.audience == p.validAudience && LifetimeValid(token, now, p.clockSkew)
    ensures r.Some? ==> forall role :: role in r.value.roles <==> Claim(p.roleClaimType, role) in token.payload.claims
  {
    if SignatureValid(token, p.signingKey) && token.payload.issuer == p.validIssuer
      && token.payload.audience == p.validAudience && LifetimeValid(token, now, p.clockSkew)
    then Some(PrincipalOf(token, p.roleClaimType))
    else None
  }

  /** Mode only chooses the default: both schemes are registered with the
      same options whatever the settings section says. */
  lemma SchemesIndependentOfMode(c1: Configuration, c2: Configuration)
    requires c1.values == c2.values && c1.drSettings == c2.drSettings
    ensures AddAuthResilienceAuthentication(c1).schemes == AddAuthResilienceAuthentication(c2).schemes
  {
  }

  /** Any casing of "dr" makes DR the default; "normal" makes Entra the default. */
  lemma DefaultSchemeExamples(s: AuthPocSettings)
    ensures DetermineDefaultScheme(s.(AuthMode := "DR")) == DrBearerScheme
    ensures DetermineDefaultScheme(s.(AuthMode := "Dr")) == DrBearerScheme
    ensures DetermineDefaultScheme(s.(AuthMode := "normal")) == EntraBearerScheme
  {
    IsDrModeSpellings("DR");
    IsDrModeSpellings("Dr");
    IsDrModeSpellings("normal");
  }

  /** The DR scheme reads roles from the claim type the generator writes first for each role. */
  lemma DrRoleClaimTypeIsGeneratorRoleType(config: Configuration)
    ensures DrSchemeParameters(config).roleClaimType == RoleClaimType
  {
  }

  /** Zero skew: a token is accepted up to and including its expiry second
      and rejected from the next second on, however late. */
  lemma ZeroSkewBoundary(config: Configuration, token: Jwt, late: int)
    requires var p := DrSchemeParameters(config);
      SignatureValid(token, p.signingKey) && token.payload.issuer == p.validIssuer
      && token.payload.audience == p.validAudience && token.payload.notBefore <= token.payload.expires
    requires late > token.payload.expires
    ensures ValidateDrToken(DrSchemeParameters(config), token, token.payload.expires).Some?
    ensures ValidateDrToken(DrSchemeParameters(config), token, late).None?
  {
  }
}
