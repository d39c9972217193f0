/** The running server's start-up: one "Bearer" scheme configured for Entra,
    the "CriticalOperator" policy, the middleware order and the route table. */
module ServerProgram {
  import opened Wrappers
  import opened Text
  import opened Models
  import opened Tokens
  import opened AuthenticationExtensions

  const BearerScheme := "Bearer"

  /** The authentication the program registers: a single "Bearer" scheme
      whose options callback is the Entra one, line for line. */
  function ProgramAuthentication(config: Configuration): (setup: AuthenticationSetup)
    ensures setup.schemes.Keys == {BearerScheme} && setup.defaultScheme == BearerScheme
    ensures setup.schemes[BearerScheme] == Entra(EntraSchemeOptions(config))
  {
    AuthenticationSetup(BearerScheme, map[BearerScheme := Entra(EntraSchemeOptions(config))])
  }

  /** The settings object the program binds from the root of the
      configuration: keys "TenantId" and "ApiAudience". */
  function BindEntraSettings(config: Configuration): (settings: EntraSettings)
    ensures "TenantId" in config.values ==> settings.TenantId == Some(config.values["TenantId"])
    ensures "TenantId" !in config.values ==> settings.TenantId == None
    ensures "ApiAudience" in config.values ==> settings.ApiAudience == Some(config.values["ApiAudience"])
    ensures "ApiAudience" !in config.values ==> settings.ApiAudience == None
  {
    EntraSettings(Lookup(config.values, "TenantId"), Lookup(config.values, "ApiAudience"))
  }

  const CriticalOperatorPolicy := "CriticalOperator"
  const CriticalOperatorRole := "critical.operator"

  /** Policy name to the roles of its `RequireRole`; one policy is registered. */
  function Policies(): (policies: map<string, seq<string>>)
    ensures policies.Keys == {CriticalOperatorPolicy}
    ensures policies[CriticalOperatorPolicy] == [CriticalOperatorRole]
  {
    map[CriticalOperatorPolicy := [CriticalOperatorRole]]
  }

  datatype Middleware = UseAuthentication | UseAuthorization

  function Pipeline(): seq<Middleware> {
    [UseAuthentication, UseAuthorization]
  }

  /** A mapped endpoint and the policy it requires, if any. */
  datatype Endpoint = Endpoint(httpMethod: string, pattern: string, policy: Option<string>)

  const RecomputePattern := "/api/weather/operations/recompute"

  /** The mapped routes: three under "/api" and the root redirect; only
      recompute is a POST, and only it requires a policy. */
  function Endpoints(): (endpoints: seq<Endpoint>)
    ensures |endpoints| == 4
    ensures endpoints[2] == Endpoint("POST", RecomputePattern, Some(CriticalOperatorPolicy))
    ensures forall i :: 0 <= i < |endpoints| && i != 2 ==> endpoints[i].httpMethod == "GET" && endpoints[i].policy.None?
  {
    [ Endpoint("GET", "/api/health", None),
      Endpoint("GET", "/api/weather", None),
      Endpoint("POST", RecomputePattern, Some(CriticalOperatorPolicy)),
      Endpoint("GET", "/", None) ]
  }

  /** What authorization does with a request: let it through, challenge an
      unauthenticated caller (401), forbid an authenticated one (403), or
      fail for a policy name nobody registered. */
  datatype Decision = Allow | Challenge | Forbid | PolicyNotFound

  /** Evaluates a named policy for the principal the default scheme produced
      (None when authentication did not succeed). A role requirement is met
      when the principal has one of its roles, compared exactly. */
  function Authorize(principal: Option<Principal>, policyName: string): (d: Decision)
    ensures d == Allow <==>
      policyName in Policies() && principal.Some? && exists r :: r in Policies()[policyName] && r in principal.value.roles
    ensures d == PolicyNotFound <==> policyName !in Policies()
  {
    if policyName !in Policies() then PolicyNotFound
    else if principal.Some? && exists r :: r in Policies()[policyName] && r in principal.value.roles then Allow
    else if principal.Some? then Forbid
    else Challenge
  }

  /** Route matching compares the method and the path ignoring letter case,
      and a template other than "/" also matches with one trailing slash. */
  predicate RouteMatches(e: Endpoint, httpMethod: string, path: string) {
    EqualsIgnoreCase(e.httpMethod, httpMethod) && PathMatches(e.pattern, path)
  }

  predicate PathMatches(pattern: string, path: string) {
    EqualsIgnoreCase(path, pattern) || (pattern != "/" && EqualsIgnoreCase(path, pattern + "/"))
  }

  /** The first of `endpoints` that matches the request. */
  function FindEndpoint(endpoints: seq<Endpoint>, httpMethod: string, path: string): (found: Option<Endpoint>)
    ensures found.None? <==> forall e :: e in endpoints ==> !RouteMatches(e, httpMethod, path)
    ensures found.Some? ==> found.value in endpoints && RouteMatches(found.value, httpMethod, path)
  {
    if endpoints == [] then None
    else if RouteMatches(endpoints[0], httpMethod, path) then Some(endpoints[0])
    else FindEndpoint(endpoints[1..], httpMethod, path)
  }

  /** The endpoint for a method and path, and what authorization decides for it. */
  function Dispatch(httpMethod: string, path: string, principal: Option<Principal>): (d: Option<Decision>)
    ensures d.None? <==> forall e :: e in Endpoints() ==> !RouteMatches(e, httpMethod, path)
    ensures d.Some? ==> exists e :: (e in Endpoints() && RouteMatches(e, httpMethod, path) &&
      d.value == (if e.policy.Some? then Authorize(principal, e.policy.value) else Allow))
  {
    match FindEndpoint(Endpoints(), httpMethod, path)
    case None => None
    case Some(e) => Some(if e.policy.Some? then Authorize(principal, e.policy.value) else Allow)
  }

  /** No request matches two mapped endpoints, so the order of the route
      table does not decide which one serves it. */
  lemma RoutesDisjoint(httpMethod: string, path: string, i: nat, j: nat)
    requires i < j < |Endpoints()|
    ensures !(RouteMatches(Endpoints()[i], httpMethod, path) && RouteMatches(Endpoints()[j], httpMethod, path))
  {
    var e := Endpoints();
    if i == 2 || j == 2 {
      var k := if i == 2 then j else i;
      assert e[k].httpMethod == "GET" && e[2].httpMethod == "POST";
      MethodsDisjoint(httpMethod);
      assert !(RouteMatches(e[k], httpMethod, path) && RouteMatches(e[2], httpMethod, path));
    } else if j == 3 {
      RootDisjoint(e[i].pattern, path);
    } else {
      HealthWeatherDisjoint(path);
    }
  }

  lemma MethodsDisjoint(httpMethod: string)
    ensures !(EqualsIgnoreCase("GET", httpMethod) && EqualsIgnoreCase("POST", httpMethod))
  {
    CharDiffers("GET", "POST", 0);
  }

  lemma RootDisjoint(pattern: string, path: string)
    requires |pattern| > 1
    ensures !(PathMatches(pattern, path) && PathMatches("/", path))
  {
  }

  lemma HealthWeatherDisjoint(path: string)
    ensures !(PathMatches("/api/health", path) && PathMatches("/api/weather", path))
  {
    CharDiffers("/api/health" + "/", "/api/weather", 5);
    NoCommonPath("/api/health", "/api/weather", path);
  }

  /** The scan returns the first endpoint that matches. */
  lemma {:induction false} FindEndpointFirstMatch(endpoints: seq<Endpoint>, httpMethod: string, path: string, k: nat)
    requires k < |endpoints| && RouteMatches(endpoints[k], httpMethod, path)
    requires forall i :: 0 <= i < k ==> !RouteMatches(endpoints[i], httpMethod, path)
    ensures FindEndpoint(endpoints, httpMethod, path) == Some(endpoints[k])
  {
    if k > 0 {
      assert !RouteMatches(endpoints[0], httpMethod, path);
      FindEndpointFirstMatch(endpoints[1..], httpMethod, path, k - 1);
    }
  }

  /** A request that matches a mapped endpoint is decided by that endpoint's
      policy, whatever its position in the table. */
  lemma DispatchServesMatch(httpMethod: string, path: string, principal: Option<Principal>, k: nat)
    requires k < |Endpoints()| && RouteMatches(Endpoints()[k], httpMethod, path)
    ensures var e := Endpoints()[k];
      Dispatch(httpMethod, path, principal) == Some(if e.policy.Some? then Authorize(principal, e.policy.value) else Allow)
  {
    forall i | 0 <= i < k
      ensures !RouteMatches(Endpoints()[i], httpMethod, path)
    {
      RoutesDisjoint(httpMethod, path, i, k);
    }
    FindEndpointFirstMatch(Endpoints(), httpMethod, path, k);
  }

  /** Two templates that are unequal ignoring case, with or without the
      trailing slash on either side, match no common path. */
  lemma NoCommonPath(a: string, b: string, path: string)
    requires a != "/" && b != "/"
    requires !EqualsIgnoreCase(a, b) && !EqualsIgnoreCase(a + "/", b)
    requires !EqualsIgnoreCase(a, b + "/") && !EqualsIgnoreCase(a + "/", b + "/")
    ensures !(PathMatches(a, path) && PathMatches(b, path))
  {
  }

  /** Routing sees the method and the path only up to letter case. */
  lemma {:induction false} FindEndpointIgnoresCase(endpoints: seq<Endpoint>, m1: string, p1: string, m2: string, p2: string)
    requires EqualsIgnoreCase(m1, m2) && EqualsIgnoreCase(p1, p2)
    ensures FindEndpoint(endpoints, m1, p1) == FindEndpoint(endpoints, m2, p2)
  {
    if endpoints != [] {
      assert RouteMatches(endpoints[0], m1, p1) == RouteMatches(endpoints[0], m2, p2);
      FindEndpointIgnoresCase(endpoints[1..], m1, p1, m2, p2);
    }
  }

  /** Recompute requested with an upper-case method and path and a trailing
      slash reaches the same endpoint as the template spelling. */
  lemma RecomputeSpellings(principal: Principal)
    ensures Dispatch("post", "/API/Weather/Operations/Recompute/", Some(principal))
         == Dispatch("POST", RecomputePattern, Some(principal))
  {
    assert EqualsIgnoreCase("post", "POST");
    assert EqualsIgnoreCase("/API/Weather/Operations/Recompute/", RecomputePattern + "/");
    RecomputeNeedsOnlyOperatorRole("post", "/API/Weather/Operations/Recompute/", principal);
    RecomputeNeedsOnlyOperatorRole("POST", RecomputePattern, principal);
  }

  lemma DispatchIgnoresCase(m1: string, p1: string, m2: string, p2: string, principal: Option<Principal>)
    requires EqualsIgnoreCase(m1, m2) && EqualsIgnoreCase(p1, p2)
    ensures Dispatch(m1, p1, principal) == Dispatch(m2, p2, principal)
  {
    FindEndpointIgnoresCase(Endpoints(), m1, p1, m2, p2);
  }

  /** "CriticalOperator" allows exactly the principals holding "critical.operator";
      an absent principal is challenged, one without the role forbidden. */
  lemma CriticalOperatorPolicyDecision(principal: Option<Principal>)
    ensures Authorize(principal, CriticalOperatorPolicy) == Allow <==>
      principal.Some? && CriticalOperatorRole in principal.value.roles
    ensures principal.None? ==> Authorize(principal, CriticalOperatorPolicy) == Challenge
    ensures principal.Some? && CriticalOperatorRole !in principal.value.roles ==>
      Authorize(principal, CriticalOperatorPolicy) == Forbid
  {
  }

  /** Only the recompute route requires a policy, and that policy is "CriticalOperator". */
  lemma OnlyRecomputeProtected()
    ensures forall e :: e in Endpoints() ==> (e.policy.Some? <==> e.pattern == RecomputePattern)
    ensures forall e :: e in Endpoints() && e.policy.Some? ==> e.policy.value == CriticalOperatorPolicy
  {
  }

  /** Recompute is decided by the role alone: the route reads no request
      body, and no registered policy asks for "weather.tuner". */
  lemma RecomputeNeedsOnlyOperatorRole(httpMethod: string, path: string, principal: Principal)
    requires EqualsIgnoreCase(httpMethod, "POST") && PathMatches(RecomputePattern, path)
    ensures Dispatch(httpMethod, path, Some(principal)) ==
      Some(if CriticalOperatorRole in principal.roles then Allow else Forbid)
    ensures forall name :: name in Policies() ==> "weather.tuner" !in Policies()[name]
  {
    DispatchServesMatch(httpMethod, path, Some(principal), 2);
  }

  /** Authentication runs before authorization. */
  lemma AuthenticationPrecedesAuthorization()
    ensures exists i, j :: 0 <= i < j < |Pipeline()| && Pipeline()[i] == UseAuthentication && Pipeline()[j] == UseAuthorization
  {
    assert Pipeline()[0] == UseAuthentication && Pipeline()[1] == UseAuthorization;
  }

  /** The running server registers neither "EntraBearer" nor "DrBearer". */
  lemma DualSchemesNotRegistered(config: Configuration)
    ensures EntraBearerScheme !in ProgramAuthentication(config).schemes
    ensures DrBearerScheme !in ProgramAuthentication(config).schemes
  {
  }

  /** The accepted issuers are the two tenant-derived strings; the first is
      the authority the settings object derives, when both read the same tenant;
      the audience is the value of "ENTRA_API_AUDIENCE". */
  lemma BearerIssuers(config: Configuration)
    ensures var o := ProgramAuthentication(config).schemes[BearerScheme].entra;
      var tenant := Interpolated(Lookup(config.values, "ENTRA_TENANT_ID"));
      && o.validIssuers == [AuthorityPrefix + tenant + "/v2.0", "https://sts.windows.net/" + tenant + "/"]
      && o.audience == Lookup(config.values, "ENTRA_API_AUDIENCE")
      && (Lookup(config.values, "TenantId") == Lookup(config.values, "ENTRA_TENANT_ID") ==>
            o.authority == Authority(BindEntraSettings(config)))
  {
  }

  /** The settings object reads "TenantId" while the scheme reads
      "ENTRA_TENANT_ID": with only the latter configured, the authority the
      settings object reports has an empty tenant and differs from the scheme's. */
  lemma AuthorityKeysDiverge(tenant: string)
    requires tenant != ""
    ensures var config := Configuration(map["ENTRA_TENANT_ID" := tenant], None, map[]);
      Authority(BindEntraSettings(config)) != ProgramAuthentication(config).schemes[BearerScheme].entra.authority
  {
    var config := Configuration(map["ENTRA_TENANT_ID" := tenant], None, map[]);
    assert |Authority(BindEntraSettings(config))| < |AuthorityOf(tenant)|;
  }

  /** The running server's scheme never accepts the DR issuer's default name:
      every accepted issuer is an https URL. */
  lemma DefaultDrIssuerNotAccepted(config: Configuration)
    ensures "auth-resilience-dr" !in ProgramAuthentication(config).schemes[BearerScheme].entra.validIssuers
  {
    var issuers := ProgramAuthentication(config).schemes[BearerScheme].entra.validIssuers;
    assert issuers[0][0] == 'h';
    assert issuers[1][0] == LegacyIssuerPrefix[0] == 'h';
  }
}
