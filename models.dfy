/** The server's records: the DR user, the settings sections with their
    initialiser defaults, the login request and response, the Entra
    settings with their derived authority, and the recompute request. */
module Models {
  import opened Wrappers
  import opened Text

  /** A disaster-recovery user: credentials, display name and ordered roles. */
  datatype DrUser = DrUser(Username: string, Password: string, Name: string, Roles: seq<string>)

  /** Settings the token generator signs with. */
  datatype DrSettings = DrSettings(Issuer: string, Audience: string, SigningKey: string)

  /** `new DrSettings()`: the property initialisers. The signing key defaults to the empty string. */
  const DefaultDrSettings := DrSettings("auth-resilience-dr", "auth-resilience-api", "")

  /** Binds a `DrSettings` from a configuration section: each property
      present in the section is taken from it, the others keep their initialiser. */
  function BindDrSettings(section: map<string, string>): (s: DrSettings)
    ensures "Issuer" in section ==> s.Issuer == section["Issuer"]
    ensures "Issuer" !in section ==> s.Issuer == "auth-resilience-dr"
    ensures "Audience" in section ==> s.Audience == section["Audience"]
    ensures "Audience" !in section ==> s.Audience == "auth-resilience-api"
    ensures "SigningKey" in section ==> s.SigningKey == section["SigningKey"]
    ensures "SigningKey" !in section ==> s.SigningKey == ""
  {
    DrSettings(
      if "Issuer" in section then section["Issuer"] else DefaultDrSettings.Issuer,
      if "Audience" in section then section["Audience"] else DefaultDrSettings.Audience,
      if "SigningKey" in section then section["SigningKey"] else DefaultDrSettings.SigningKey)
  }

  /** Application settings; `AuthMode` is "normal" or "dr" by convention but any string is possible. */
  datatype AuthPocSettings = AuthPocSettings(
    AuthMode: string, DrMaxTtlMinutes: int, Environment: string, MaintenanceMode: bool, ApiVersion: string)

  const DefaultAuthPocSettings := AuthPocSettings("normal", 15, "development", false, "1.0")

  /** The one test of the mode that the login gate, the default-scheme choice
      and the status report all apply: "dr", ignoring case. */
  predicate IsDrMode(authMode: string)
    ensures IsDrMode(authMode) <==>
      |authMode| == 2 && LowerAscii(authMode[0]) == 'd' && LowerAscii(authMode[1]) == 'r'
  {
    EqualsIgnoreCaseCharwise(authMode, "dr");
    EqualsIgnoreCase(authMode, "dr")
  }

  /** Exactly the four spellings of "dr" select DR mode. */
  lemma IsDrModeSpellings(authMode: string)
    ensures IsDrMode(authMode) <==> authMode in {"dr", "dR", "Dr", "DR"}
  {
    EqualsIgnoreCaseCharwise(authMode, "dr");
    if IsDrMode(authMode) {
      assert |authMode| == 2;
      assert LowerAscii(authMode[0]) == 'd' && LowerAscii(authMode[1]) == 'r';
      assert authMode[0] in {'d', 'D'} && authMode[1] in {'r', 'R'};
      assert authMode == [authMode[0], authMode[1]];
    }
  }

  /** The default mode, "normal", is not DR mode. */
  lemma DefaultModeIsNormal()
    ensures !IsDrMode(DefaultAuthPocSettings.AuthMode)
  {
    IsDrModeSpellings(DefaultAuthPocSettings.AuthMode);
  }

  datatype DrLoginRequest = DrLoginRequest(Username: string, Password: string)

  /** Entra settings bound from configuration; an unset property is null. */
  datatype EntraSettings = EntraSettings(TenantId: Option<string>, ApiAudience: Option<string>)

  /** String interpolation writes a null value as the empty string. */
  function Interpolated(value: Option<string>): string {
    value.GetOr("")
  }

  const AuthorityPrefix := "https://login.microsoftonline.com/"
  const AuthoritySuffix := "/v2.0"

  /** The v2.0 authority URL of a tenant. */
  function AuthorityOf(tenantId: string): (url: string)
    ensures |url| == |AuthorityPrefix| + |tenantId| + |AuthoritySuffix|
    ensures url[..|AuthorityPrefix|] == AuthorityPrefix
    ensures url[|url| - |AuthoritySuffix|..] == AuthoritySuffix
    ensures url[|AuthorityPrefix|..|url| - |AuthoritySuffix|] == tenantId
  {
    AuthorityPrefix + tenantId + AuthoritySuffix
  }

  /** `EntraSettings.Authority`: it reads the tenant only. */
  function Authority(settings: EntraSettings): (url: string)
    ensures |url| == |AuthorityPrefix| + |Interpolated(settings.TenantId)| + |AuthoritySuffix|
    ensures url[..|AuthorityPrefix|] == AuthorityPrefix
    ensures url[|AuthorityPrefix|..|url| - |AuthoritySuffix|] == Interpolated(settings.TenantId)
    ensures url[|url| - |AuthoritySuffix|..] == AuthoritySuffix
  {
    AuthorityOf(Interpolated(settings.TenantId))
  }

  /** Strips the fixed prefix and suffix from an authority URL, or None when
      the string does not have that shape. */
  function TenantOf(authority: string): (tenant: Option<string>)
    ensures tenant.Some? ==> AuthorityOf(tenant.value) == authority
  {
    if |authority| >= |AuthorityPrefix| + |AuthoritySuffix|
      && authority[..|AuthorityPrefix|] == AuthorityPrefix
      && authority[|authority| - |AuthoritySuffix|..] == AuthoritySuffix
    then
      var t := authority[|AuthorityPrefix|..|authority| - |AuthoritySuffix|];
      assert authority == AuthorityPrefix + t + AuthoritySuffix by {
        assert authority == authority[..|AuthorityPrefix|] + t + authority[|authority| - |AuthoritySuffix|..];
      }
      Some(t)
    else None
  }

  /** Stripping the prefix and "/v2.0" from the authority recovers the tenant. */
  lemma AuthorityRecoversTenant(settings: EntraSettings)
    ensures TenantOf(Authority(settings)) == Some(Interpolated(settings.TenantId))
  {
  }

  /** Two tenants never share an authority. */
  lemma AuthorityInjective(s1: EntraSettings, s2: EntraSettings)
    requires Authority(s1) == Authority(s2)
    ensures Interpolated(s1.TenantId) == Interpolated(s2.TenantId)
  {
    AuthorityRecoversTenant(s1);
    AuthorityRecoversTenant(s2);
  }

  /** The audience has no influence on the authority. */
  lemma AuthorityIgnoresAudience(settings: EntraSettings, audience: Option<string>)
    ensures Authority(settings.(ApiAudience := audience)) == Authority(settings)
  {
  }

  /** The body of a recompute request: three optional tuning fields. */
  datatype WeatherRecomputeRequest = WeatherRecomputeRequest(
    Days: Option<int>, Resolution: Option<string>, Model: Option<string>)

  /** `HasAdvancedOptions`: some field is present (non-null), whatever its
      value; so there are none exactly when all three fields are null. */
  predicate HasAdvancedOptions(request: WeatherRecomputeRequest)
    ensures HasAdvancedOptions(request) <==> request != WeatherRecomputeRequest(None, None, None)
  {
    request.Days.Some? || request.Resolution.Some? || request.Model.Some?
  }

  /** Presence, not value, counts: a day count of zero or below, or an
      empty resolution or model name, still makes the options advanced. */
  lemma AdvancedOptionsIgnoreValues(days: int)
    ensures HasAdvancedOptions(WeatherRecomputeRequest(Some(days), None, None))
    ensures HasAdvancedOptions(WeatherRecomputeRequest(None, Some(""), None))
    ensures HasAdvancedOptions(WeatherRecomputeRequest(None, None, Some("")))
  {
  }
}
