# DR authentication core, modelled in Dafny

AuthResilience.Poc is a proof of concept for keeping an API usable while
Microsoft Entra ID is unreachable. It adds a "disaster recovery" (DR) sign-in
path beside Entra. The DR path has these parts:

- a fixed in-memory user table;
- an HS256 JWT issuer;
- a login endpoint gated by the configured `AuthMode`;
- a second JWT bearer scheme that validates DR tokens;
- a browser-side session that keeps the DR token in local storage.

This project models that core, and proves properties about it:

- the server's credential store;
- the token claim construction;
- the login decision;
- the scheme selection and the DR validation parameters;
- the authorization policy and route table the program actually registers;
- the Entra authority string;
- the settings status projection;
- the recompute request's `HasAdvancedOptions`;
- the OpenAPI security transformer;
- the browser's `DrAuthStrategy` session class.

Files, one module each:

| file | module | models |
|---|---|---|
| wrappers.dfy | Wrappers | `Option` (C# `null` / JS `null`) and `Outcome` (a thrown error) |
| text.dfy | Text | ordinal case-insensitive comparison of strings |
| models.dfy | Models | the records `DrUser`, `DrSettings`, `AuthPocSettings`, `DrLoginRequest`, `EntraSettings`, `WeatherRecomputeRequest` |
| tokens.dfy | Tokens | claims, the JWT payload, the HS256 signature as a symbolic value, the principal a validated token yields |
| dr_user_store.dfy | DrUserStore | the user table and `ValidateCredentials` |
| dr_token_generator.dfy | DrTokenGenerator | the generator class and `GenerateToken`'s claim loop |
| dr_auth_endpoints.dfy | DrAuthEndpoints | `Login` |
| authentication_extensions.dfy | AuthenticationExtensions | `DetermineDefaultScheme`, the two scheme registrations, DR token validation |
| server_program.dfy | ServerProgram | Program.cs: the single "Bearer" scheme, the `CriticalOperator` policy, the route table, middleware order |
| settings_endpoints.dfy | SettingsEndpoints | `GetStatus` |
| openapi_transformer.dfy | OpenApiTransformer | `BearerSecuritySchemeTransformer.TransformAsync`, in place on a document object |
| user_data_codec.dfy | UserDataCodec | a text encoding of the stored session record, standing in for `JSON.stringify`/`JSON.parse` |
| dr_auth_strategy.dfy | DrAuthStrategy | the browser's `DrAuthStrategy` class over a local-storage map |
| scenarios.dfy | Scenarios | properties of the parts put together |

Modelling choices:

- Clocks are parameters. The server's `now` is in seconds and the browser's in milliseconds.
- The fresh token identifier (`Guid.NewGuid()`) is a parameter `jti`.
- A signed token is the value `Jwt(payload, Hs256(key, payload))`. A signature verifies under a key exactly when it was made with that key, as for an ideal MAC.
- `StringComparison.OrdinalIgnoreCase` is modelled as equality after folding ASCII upper case to lower case.
- C# `int` is modelled by an explicit 32-bit wrap where the source can overflow (`ExpiresIn`).
- JavaScript truthiness of a stored value is "present and non-empty".
- Route matching compares the method and the path ignoring letter case, and a template other than `/` also matches with one trailing slash.

The model follows the code at these points:

- **Expiry boundary.** A stricter rule, rejecting once `now >= exp`, is what the browser applies. The server's library rejects only when `exp < now - ClockSkew`. With `ClockSkew = TimeSpan.Zero`, a token is therefore still accepted at `now == exp` (`AuthenticationExtensions.ZeroSkewBoundary`).
- **Dual schemes are not wired in.** Program.cs registers one scheme, "Bearer", with the Entra options. It never calls `AddAuthResilienceAuthentication`, `MapDrAuth` or `MapSettings`. So the running server accepts no DR token and serves neither the login nor the status route. Each component is modelled on its own terms. `Scenarios` states the DR path as the composition of the components, which the running server does not wire up.
- **Signing-key defaults differ.** With no key configured, the generator's `SigningKey` binds to the empty string, which its constructor refuses, so no generator can be built from that section. The validator falls back to a fixed literal, and a generator's tokens validate only if it signs under that literal (`Scenarios.MissingSigningKey`).
- **Escalated authorization does not exist.** Nothing consults `HasAdvancedOptions`, and the recompute handler reads no body. Recompute is decided by the `critical.operator` role alone.
- **Two configuration keys for one tenant.** `EntraSettings` is bound from the configuration root, so its `Authority` reads `TenantId`. The scheme reads `ENTRA_TENANT_ID`. The two authorities differ when only one key is set (`ServerProgram.AuthorityKeysDiverge`).
- **`ExpiresIn` overflows.** It is `int` arithmetic `minutes * 60`. It wraps whenever the lifetime in seconds reaches 2^31, that is for a configured TTL of 35,791,395 minutes or more, and the sign of the result then varies: 35,791,395 minutes give a negative value, 71,582,789 minutes give 44 seconds. The browser's session then ends before the token does.

## Model

Source paths are relative to the repository root. Server files are under `AuthResilience.Poc.Server/`.

| member | source | states |
|---|---|---|
| Text.FoldCase | AuthResilience.Poc.Server/Services/DrUserStore.cs:16 | folding keeps the length and lower-cases each character; the comparer the user table is built with |
| Text.EqualsIgnoreCaseCharwise | AuthResilience.Poc.Server/Services/DrUserStore.cs:16 | two names are equal ignoring case iff they have the same length and agree character by character after lower-casing |
| Models.BindDrSettings | AuthResilience.Poc.Server/Models/DrSettings.cs:8-10 | each DR setting is the section's value when present; when absent, the issuer is "auth-resilience-dr", the audience "auth-resilience-api" and the signing key the empty string |
| Models.IsDrMode | AuthResilience.Poc.Server/Endpoints/DrAuthEndpoints.cs:29 | DR mode iff the mode has two characters that lower-case to "d" and "r" |
| Models.IsDrModeSpellings | AuthResilience.Poc.Server/Endpoints/DrAuthEndpoints.cs:29 | the mode test accepts exactly the four casings of "dr" |
| Models.DefaultModeIsNormal | AuthResilience.Poc.Server/Models/AuthPocSettings.cs:9 | the default mode "normal" is not DR mode |
| Models.AuthorityOf | AuthResilience.Poc.Server/Models/EntraSettings.cs:6-7 | the authority is the Microsoft login prefix, the tenant, then "/v2.0", with the tenant exactly between them |
| Models.Authority | AuthResilience.Poc.Server/Models/EntraSettings.cs:6-7 | the Microsoft login prefix, then the tenant id (null printed as empty), then "/v2.0" |
| Models.TenantOf | AuthResilience.Poc.Server/Models/EntraSettings.cs:6-7 | a tenant read back from a string is one whose authority is that string |
| Models.AuthorityRecoversTenant | AuthResilience.Poc.Server/Models/EntraSettings.cs:6-7 | stripping the prefix and "/v2.0" from `Authority` recovers the tenant id (null prints as empty) |
| Models.AuthorityInjective | AuthResilience.Poc.Server/Models/EntraSettings.cs:6-7 | equal authorities come from equal tenant ids |
| Models.AuthorityIgnoresAudience | AuthResilience.Poc.Server/Models/EntraSettings.cs:3-7 | `Authority` depends on `TenantId` only, not on `ApiAudience` |
| Models.HasAdvancedOptions | AuthResilience.Poc.Server/Models/WeatherRecomputeRequest.cs:7-8 | true iff at least one of Days, Resolution and Model is non-null |
| Models.AdvancedOptionsIgnoreValues | AuthResilience.Poc.Server/Models/WeatherRecomputeRequest.cs:8 | presence counts, not value: any Days, or an empty Resolution or Model, makes it true |
| Tokens.SignatureValidIffSameKey | AuthResilience.Poc.Server/Services/DrTokenGenerator.cs:22-24 | a token signed with a key verifies under that key and no other |
| Tokens.ValuesOfType | AuthResilience.Poc.Server/Configuration/AuthenticationExtensions.cs:102 | the values of one claim type: no more than the claims, each from a claim of that type and each such claim's value present, and empty when the type is absent |
| Tokens.ValuesOfTypeAppend | AuthResilience.Poc.Server/Services/DrTokenGenerator.cs:41-46 | selecting claims by type distributes over concatenation |
| Tokens.FirstValue | AuthResilience.Poc.Server/Services/DrTokenGenerator.cs:35 | the principal's name exists iff some claim has the name type, and it is the value of the first such claim |
| Tokens.FirstOfType | AuthResilience.Poc.Server/Services/DrTokenGenerator.cs:35 | the first value selected by type comes from a claim of that type with no claim of the type before it |
| Tokens.PrincipalOf | AuthResilience.Poc.Server/Configuration/AuthenticationExtensions.cs:102 | the principal has a role iff the token carries a claim of the role claim type with that value |
| DrUserStore.Users | AuthResilience.Poc.Server/Services/DrUserStore.cs:16-39 | three entries in insertion order, each keyed by its own user's name |
| DrUserStore.TryGetValue | AuthResilience.Poc.Server/Services/DrUserStore.cs:16-50 | the case-insensitive lookup finds nothing iff no key equals the name ignoring case, and otherwise a user stored under such a key |
| DrUserStore.ValidateCredentials | AuthResilience.Poc.Server/Services/DrUserStore.cs:45-60 | a returned user is a stored record whose name matches ignoring case and whose password is exactly the one given |
| DrUserStore.TableShape | AuthResilience.Poc.Server/Services/DrUserStore.cs:16-39 | three stored users; admin, operator and tuner carry the roles of the table |
| DrUserStore.KeysUnique | AuthResilience.Poc.Server/Services/DrUserStore.cs:16-39 | no two keys are equal ignoring case |
| DrUserStore.TryGetValueIgnoresCase | AuthResilience.Poc.Server/Services/DrUserStore.cs:16-50 | names equal ignoring case find the same entry |
| DrUserStore.ValidateCredentialsIgnoresCase | AuthResilience.Poc.Server/Services/DrUserStore.cs:45-60 | validation gives the same result for names equal ignoring case |
| DrUserStore.ValidateCredentialsSpec | AuthResilience.Poc.Server/Services/DrUserStore.cs:45-60 | for a stored user whose name matches ignoring case, the result is that stored record iff the password is exactly equal, else null |
| DrUserStore.UnknownUserRejected | AuthResilience.Poc.Server/Services/DrUserStore.cs:47-50 | a name matching no stored user gives null whatever the password |
| DrUserStore.CredentialFailuresCoincide | AuthResilience.Poc.Server/Services/DrUserStore.cs:47-57 | the password comparison is case-sensitive, and a wrong password gives the same value as an unknown name |
| DrUserStore.AdminInAnyCase | AuthResilience.Poc.Server/Services/DrUserStore.cs:16-59 | "Admin" and "ADMIN" find the stored admin record, whose user name keeps the stored spelling "admin" |
| DrTokenGenerator.PairedClaims | AuthResilience.Poc.Server/Services/DrTokenGenerator.cs:41-46 | two claims per role in role order: the first type, then the second, both with the role; the role claims use the role claim type, then "roles" |
| DrTokenGenerator.TokenClaims | AuthResilience.Poc.Server/Services/DrTokenGenerator.cs:32-46 | 4 + 2·roles claims: NameIdentifier with the user name, name with the display name, sub with the user name, jti with the fresh id, then the role pairs in role order |
| DrTokenGenerator.IssueToken | AuthResilience.Poc.Server/Services/DrTokenGenerator.cs:48-59 | expiry is issue time plus the minutes; issuer and audience are the settings'; the token verifies under the settings' key |
| DrTokenGenerator.IdentityClaimsHaveNoRoles | AuthResilience.Poc.Server/Services/DrTokenGenerator.cs:32-38 | the four identity claims carry no role under either role claim name |
| DrTokenGenerator.PairValues | AuthResilience.Poc.Server/Services/DrTokenGenerator.cs:43-45 | one role's claim pair yields that role under each of its two types |
| DrTokenGenerator.PairedClaimsRecover | AuthResilience.Poc.Server/Services/DrTokenGenerator.cs:41-46 | filtering paired claims by either of two distinct types gives back the roles in order |
| DrTokenGenerator.RoleClaimsRecoverRoles | AuthResilience.Poc.Server/Services/DrTokenGenerator.cs:41-46 | filtering the role claims by either role claim name gives back the roles in order |
| DrTokenGenerator.TokenClaimsRoles | AuthResilience.Poc.Server/Services/DrTokenGenerator.cs:32-46 | filtering a token's claims by the role claim type, or by "roles", yields exactly the user's roles in order |
| DrTokenGenerator.IssuedTokenBinding | AuthResilience.Poc.Server/Services/DrTokenGenerator.cs:52-54 | a token verifies only under the settings' key; issuer and audience are the settings' whatever the user |
| DrTokenGenerator.DrTokenGenerator.constructor | AuthResilience.Poc.Server/Services/DrTokenGenerator.cs:18-25 | the generator keeps the settings it is built with |
| DrTokenGenerator.DrTokenGenerator.GenerateToken | AuthResilience.Poc.Server/Services/DrTokenGenerator.cs:30-60 | the claim loop produces exactly the specified token, under the key fixed at construction |
| DrAuthEndpoints.WrapInt32 | AuthResilience.Poc.Server/Endpoints/DrAuthEndpoints.cs:53 | the result is in the signed 32-bit range, congruent to the input modulo 2^32, and equal to the input when that is already in range |
| DrAuthEndpoints.TtlMinutes | AuthResilience.Poc.Server/Endpoints/DrAuthEndpoints.cs:46 | the TTL is the configured maximum when positive and 15 otherwise |
| DrAuthEndpoints.Login | AuthResilience.Poc.Server/Endpoints/DrAuthEndpoints.cs:21-58 | outside DR mode, "dr_disabled"; Ok iff DR mode and the credentials validate; Unauthorized iff DR mode and they do not |
| DrAuthEndpoints.ModeGateBeforeCredentials | AuthResilience.Poc.Server/Endpoints/DrAuthEndpoints.cs:28-39 | with DR mode off, every request gets the same "dr_disabled" result |
| DrAuthEndpoints.FailuresIndistinguishable | AuthResilience.Poc.Server/Endpoints/DrAuthEndpoints.cs:39-43 | an unknown user and a wrong password give the same Unauthorized |
| DrAuthEndpoints.OkResponse | AuthResilience.Poc.Server/Endpoints/DrAuthEndpoints.cs:45-57 | a successful login returns a "Bearer" token issued for the stored user with the TTL; user name, name and roles come from the stored record; `ExpiresIn` equals the token's lifetime in seconds while that fits 32 bits |
| DrAuthEndpoints.ExpiresInWrapsForHugeTtl | AuthResilience.Poc.Server/Endpoints/DrAuthEndpoints.cs:46-53 | a configured TTL of 35,791,395 minutes gives a negative `ExpiresIn` |
| DrAuthEndpoints.ExpiresInWrapsPositive | AuthResilience.Poc.Server/Endpoints/DrAuthEndpoints.cs:46-53 | a configured TTL of 71,582,789 minutes gives an `ExpiresIn` of 44 seconds |
| DrAuthEndpoints.LoginIgnoresNameCase | AuthResilience.Poc.Server/Endpoints/DrAuthEndpoints.cs:39 | logins differing only in the case of the user name get the same result |
| AuthenticationExtensions.DetermineDefaultScheme | AuthResilience.Poc.Server/Configuration/AuthenticationExtensions.cs:41-47 | "DrBearer" iff the mode equals "dr" ignoring case, "EntraBearer" otherwise |
| AuthenticationExtensions.EntraValidIssuers | AuthResilience.Poc.Server/Configuration/AuthenticationExtensions.cs:66-70 | exactly two issuers: the tenant's v2.0 authority, then "https://sts.windows.net/" with the tenant and "/" |
| AuthenticationExtensions.EntraSchemeOptions | AuthResilience.Poc.Server/Configuration/AuthenticationExtensions.cs:56-73 | the tenant is read from `ENTRA_TENANT_ID` (null printed as empty): the authority is that tenant's v2.0 authority and the issuers are its two issuer strings, the first equal to the authority; the audience is `ENTRA_API_AUDIENCE`, null when absent |
| AuthenticationExtensions.DrSchemeParameters | AuthResilience.Poc.Server/Configuration/AuthenticationExtensions.cs:85-103 | zero clock skew and the role claim type; issuer, audience and key are the section's values when present, else "auth-resilience-dr", "auth-resilience-api" and the fixed key literal |
| AuthenticationExtensions.AddAuthResilienceAuthentication | AuthResilience.Poc.Server/Configuration/AuthenticationExtensions.cs:18-36 | both schemes are registered with their options; the default is "DrBearer" iff the settings section is present with a DR mode, else "EntraBearer" |
| AuthenticationExtensions.LoadAuthPocSettings | AuthResilience.Poc.Server/Configuration/AuthenticationExtensions.cs:23-25 | the bound section when present, else the defaults: mode "normal", maximum TTL 15 |
| AuthenticationExtensions.LifetimeValid | AuthResilience.Poc.Server/Configuration/AuthenticationExtensions.cs:100-101 | with zero skew, valid iff not-before ≤ now ≤ expiry |
| AuthenticationExtensions.ValidateDrToken | AuthResilience.Poc.Server/Configuration/AuthenticationExtensions.cs:92-102 | a principal iff the signature, issuer, audience and lifetime all check; its roles are exactly the values of the role claims |
| AuthenticationExtensions.SchemesIndependentOfMode | AuthResilience.Poc.Server/Configuration/AuthenticationExtensions.cs:28-33 | the registered schemes do not depend on the settings section; the mode picks only the default |
| AuthenticationExtensions.DefaultSchemeExamples | AuthResilience.Poc.Server/Configuration/AuthenticationExtensions.cs:44-46 | "DR" and "Dr" select "DrBearer"; "normal" selects "EntraBearer" |
| AuthenticationExtensions.DrRoleClaimTypeIsGeneratorRoleType | AuthResilience.Poc.Server/Configuration/AuthenticationExtensions.cs:102 | the DR scheme reads roles from the claim type the generator writes first for each role |
| AuthenticationExtensions.ZeroSkewBoundary | AuthResilience.Poc.Server/Configuration/AuthenticationExtensions.cs:100-101 | with zero skew, a token is accepted at its expiry second and rejected at any later time |
| ServerProgram.ProgramAuthentication | AuthResilience.Poc.Server/Program.cs:13-33 | one scheme, "Bearer", is registered and is the default; its options are the Entra options |
| ServerProgram.Policies | AuthResilience.Poc.Server/Program.cs:37-41 | one policy, "CriticalOperator", requiring the role "critical.operator" |
| ServerProgram.BindEntraSettings | AuthResilience.Poc.Server/Program.cs:10 | `TenantId` and `ApiAudience` are read from the configuration root, null when the key is absent |
| ServerProgram.Authorize | AuthResilience.Poc.Server/Program.cs:37-41 | allowed iff the policy exists and the principal holds one of its roles; an unknown policy name fails |
| ServerProgram.Endpoints | AuthResilience.Poc.Server/Program.cs:62-66 | four routes; recompute is the only POST and the only one requiring a policy, "CriticalOperator" |
| ServerProgram.Dispatch | AuthResilience.Poc.Server/Program.cs:62-66 | a request is routed iff some mapped endpoint matches its method and path ignoring case; the decision is then that endpoint's policy, or allow |
| ServerProgram.FindEndpoint | AuthResilience.Poc.Server/Program.cs:62-66 | nothing is found iff no endpoint matches; a found endpoint is mapped and matches |
| ServerProgram.RoutesDisjoint | AuthResilience.Poc.Server/Program.cs:62-66 | no request matches two mapped endpoints |
| ServerProgram.FindEndpointFirstMatch | AuthResilience.Poc.Server/Program.cs:62-66 | the scan returns the first endpoint that matches |
| ServerProgram.DispatchServesMatch | AuthResilience.Poc.Server/Program.cs:62-66 | a request matching a mapped endpoint is decided by that endpoint's policy |
| ServerProgram.NoCommonPath | AuthResilience.Poc.Server/Program.cs:62-66 | templates unequal ignoring case, with or without a trailing slash, share no path |
| ServerProgram.FindEndpointIgnoresCase | AuthResilience.Poc.Server/Program.cs:62-66 | the scan sees method and path only up to letter case |
| ServerProgram.DispatchIgnoresCase | AuthResilience.Poc.Server/Program.cs:62-66 | methods and paths equal ignoring case are dispatched alike |
| ServerProgram.RecomputeSpellings | AuthResilience.Poc.Server/Program.cs:64 | "post" to the upper-case recompute path with a trailing slash is decided as the template spelling |
| ServerProgram.CriticalOperatorPolicyDecision | AuthResilience.Poc.Server/Program.cs:39-40 | "CriticalOperator" allows iff the principal has "critical.operator"; no principal is challenged, one without the role forbidden |
| ServerProgram.OnlyRecomputeProtected | AuthResilience.Poc.Server/Program.cs:62-64 | only the recompute route requires a policy, and it is "CriticalOperator" |
| ServerProgram.RecomputeNeedsOnlyOperatorRole | AuthResilience.Poc.Server/Endpoints/WeatherPrivateEndpoints.cs:5-13 | recompute, in any letter case, is decided by the "critical.operator" role alone; no policy asks for "weather.tuner" |
| ServerProgram.AuthenticationPrecedesAuthorization | AuthResilience.Poc.Server/Program.cs:45-46 | authentication middleware comes before authorization |
| ServerProgram.DualSchemesNotRegistered | AuthResilience.Poc.Server/Program.cs:13-15 | neither "EntraBearer" nor "DrBearer" is registered |
| ServerProgram.BearerIssuers | AuthResilience.Poc.Server/Program.cs:17-31 | for every configuration, the accepted issuers are the two strings built from `ENTRA_TENANT_ID` and the audience is `ENTRA_API_AUDIENCE`; the authority equals the settings object's `Authority` when `TenantId` holds the same tenant |
| ServerProgram.AuthorityKeysDiverge | AuthResilience.Poc.Server/Program.cs:10-21 | with only `ENTRA_TENANT_ID` set, the scheme's authority and the settings object's `Authority` differ |
| ServerProgram.DefaultDrIssuerNotAccepted | AuthResilience.Poc.Server/Program.cs:27-31 | the DR issuer "auth-resilience-dr" is never an accepted issuer of the running scheme |
| SettingsEndpoints.GetStatus | AuthResilience.Poc.Server/Endpoints/SettingsEndpoints.cs:19-33 | `IsDrMode` iff the reported mode equals "dr" ignoring case; mode, TTL, environment, maintenance flag and version copied as configured |
| SettingsEndpoints.StatusKeepsModeSpelling | AuthResilience.Poc.Server/Endpoints/SettingsEndpoints.cs:25-26 | "DR" is reported as "DR" and as DR mode |
| OpenApiTransformer.WithBearerScheme | AuthResilience.Poc.Server/OpenApi/BearerSecuritySchemeTransformer.cs:24-35 | components and the scheme map are created when null, and then hold only "Bearer"; otherwise "Bearer" is set and other schemes are kept; the schemas are kept |
| OpenApiTransformer.HasJwtBearerScheme | AuthResilience.Poc.Server/OpenApi/BearerSecuritySchemeTransformer.cs:17-19 | true iff "EntraBearer" or "DrBearer" is among the registered schemes |
| OpenApiTransformer.OpenApiDocument.constructor | AuthResilience.Poc.Server/OpenApi/BearerSecuritySchemeTransformer.cs:12 | the document holds the given components and paths |
| OpenApiTransformer.TransformAsync | AuthResilience.Poc.Server/OpenApi/BearerSecuritySchemeTransformer.cs:11-48 | without a JWT bearer scheme the document is unchanged; otherwise the components gain "Bearer" and every operation of every path is secured |
| OpenApiTransformer.Secured | AuthResilience.Poc.Server/OpenApi/BearerSecuritySchemeTransformer.cs:41-45 | an operation keeps its requirements in order and gains exactly one "Bearer" requirement; a null list becomes a list of one; the operation is otherwise the same |
| OpenApiTransformer.SecuredPathsKeepShape | AuthResilience.Poc.Server/OpenApi/BearerSecuritySchemeTransformer.cs:37-47 | the sets of paths and of operations under each path are unchanged |
| OpenApiTransformer.TransformNotIdempotent | AuthResilience.Poc.Server/OpenApi/BearerSecuritySchemeTransformer.cs:42-45 | transforming twice leaves two "Bearer" requirements more than before |
| UserDataCodec.ParseStringify | frontend/src/auth/drAuthStrategy.ts:40-107 | the stored session record is read back unchanged |
| UserDataCodec.StringifyNotEmpty | frontend/src/auth/drAuthStrategy.ts:107 | the stored record is never empty text, so a reload sees it as present |
| UserDataCodec.MalformedRejected | frontend/src/auth/drAuthStrategy.ts:39-52 | text that is not a record is rejected |
| DrAuthStrategy.RestoreDecisionOf | frontend/src/auth/drAuthStrategy.ts:35-53 | nothing to restore iff a key is missing or empty; with both keys present, the session is restored iff it parses and has not expired, and is then the parsed record |
| DrAuthStrategy.ClearedStorage | frontend/src/auth/drAuthStrategy.ts:138-140 | the keys are those of the storage less the two session keys, and every kept key keeps its value |
| DrAuthStrategy.LoginThenReload | frontend/src/auth/drAuthStrategy.ts:35-107 | after a login, a reload restores the same session before its expiry and discards it from then on |
| DrAuthStrategy.ClearedStorageSettles | frontend/src/auth/drAuthStrategy.ts:113-143 | clearing twice is clearing once, and a reload after clearing finds nothing |
| DrAuthStrategy.DrAuthStrategy.constructor | frontend/src/auth/drAuthStrategy.ts:26-29 | not loading, signed out, no listeners, over the given storage |
| DrAuthStrategy.DrAuthStrategy.Initialize | frontend/src/auth/drAuthStrategy.ts:31-56 | with a key missing, fields and storage are untouched; a live session is restored; an expired or unreadable one is cleared; loading ends false |
| DrAuthStrategy.DrAuthStrategy.GetUser | frontend/src/auth/drAuthStrategy.ts:66-68 | the name when signed in with a non-empty name, else null |
| DrAuthStrategy.DrAuthStrategy.GetRoles | frontend/src/auth/drAuthStrategy.ts:70-72 | the session's roles when signed in, else none |
| DrAuthStrategy.DrAuthStrategy.IsAuthenticated | frontend/src/auth/drAuthStrategy.ts:58-60 | the signed-in flag; in a valid state, true exactly when a session is held |
| DrAuthStrategy.DrAuthStrategy.IsLoading | frontend/src/auth/drAuthStrategy.ts:62-64 | the loading flag: false after construction and after `initialize`, and no other method changes it |
| DrAuthStrategy.DrAuthStrategy.LoginWithCredentials | frontend/src/auth/drAuthStrategy.ts:88-111 | a failed response throws its text, or "Login failed", and changes nothing; success stores both keys, sets expiry to now + expiresIn·1000, signs in and notifies once |
| DrAuthStrategy.DrAuthStrategy.Logout | frontend/src/auth/drAuthStrategy.ts:113-116 | both keys removed, signed out, listeners notified once |
| DrAuthStrategy.DrAuthStrategy.GetAccessToken | frontend/src/auth/drAuthStrategy.ts:118-131 | null and no change when signed out; at or after expiry, logs out and gives null; otherwise the stored token and no change |
| DrAuthStrategy.DrAuthStrategy.OnAuthStateChanged | frontend/src/auth/drAuthStrategy.ts:133-134 | the listener is added |
| DrAuthStrategy.DrAuthStrategy.Unsubscribe | frontend/src/auth/drAuthStrategy.ts:135 | the listener is removed |
| DrAuthStrategy.DrAuthStrategy.ClearSession | frontend/src/auth/drAuthStrategy.ts:138-143 | both keys removed, signed out, nothing else changed |
| DrAuthStrategy.DrAuthStrategy.NotifyListeners | frontend/src/auth/drAuthStrategy.ts:145-147 | one notification, reaching the current listeners |
| Scenarios.IssuedTokenName | AuthResilience.Poc.Server/Services/DrTokenGenerator.cs:34-35 | the first name claim of an issued token is the user's display name |
| Scenarios.IssuedPrincipal | AuthResilience.Poc.Server/Configuration/AuthenticationExtensions.cs:102 | the principal of an issued token has the user's name and roles in order |
| Scenarios.IssuedTokenAccepted | AuthResilience.Poc.Server/Configuration/AuthenticationExtensions.cs:92-102 | an issued token validates iff key, issuer and audience agree and the time is within its lifetime; the principal then has the user's roles and name |
| Scenarios.MissingSigningKey | AuthResilience.Poc.Server/Configuration/AuthenticationExtensions.cs:88 | with no signing key configured, the generator's bound key is empty and the validator uses the fixed literal; a generator's tokens validate only if it signs under that literal |
| Scenarios.ConfiguredSectionAccepts | AuthResilience.Poc.Server/Configuration/AuthenticationExtensions.cs:85-88 | with issuer, audience and key configured, every issued token validates throughout its lifetime |
| Scenarios.LoginAuthorizesByRole | AuthResilience.Poc.Server/Endpoints/DrAuthEndpoints.cs:39-57 | in DR mode, a successful login's token authenticates, and recompute in any letter case is allowed iff the user holds "critical.operator" |
| Scenarios.OperatorRecomputesTunerForbidden | AuthResilience.Poc.Server/Services/DrUserStore.cs:25-38 | "OPERATOR" may recompute; "tuner" signs in but is forbidden |
| Scenarios.RunningServerDocumentUnsecured | AuthResilience.Poc.Server/OpenApi/BearerSecuritySchemeTransformer.cs:16-22 | the program's only scheme, "Bearer", does not trigger the transform |
| Scenarios.ModeDecisionsAgree | AuthResilience.Poc.Server/Endpoints/SettingsEndpoints.cs:26 | the status flag, the login gate and the default scheme make the same DR decision |
| Scenarios.StatusTtlDiffersFromLogin | AuthResilience.Poc.Server/Endpoints/SettingsEndpoints.cs:27 | a non-positive TTL is reported as configured while login issues 15-minute tokens |
| Scenarios.SessionExpiryMatchesToken | frontend/src/auth/drAuthStrategy.ts:96 | the browser's session lasts `ExpiresIn` seconds: it expires with the token while the lifetime fits 32 bits, before it once the lifetime wraps, and is already expired when it wraps negative |

## Left out

- Tokens.SignatureValidIffSameKey: the ideal MAC treats every two distinct key strings as distinct keys. HMAC-SHA256 pads short keys with zero bytes and hashes keys longer than 64 bytes, so distinct strings can sign alike; the model does not show that.
- The symmetric-key size minimum of the token library is not modelled. The source's constructor does not check it either; the library would refuse a short key when signing.
- AuthenticationExtensions.ValidateDrToken: the inbound claim mapping of the bearer handler maps both "role" and "roles" to the role claim type, so each role appears twice in the real principal, and it maps `sub` to the name identifier. The model reads the claims as issued and gives each role once; the role sets agree.
- DrUserStore.ValidateCredentials: a null user name is not modelled. The dictionary throws on a null key, so the source answers with a server error, not 401.
- DrAuthStrategy.DrAuthStrategy.GetAccessToken: local storage is owned by one object here. In the browser another tab shares it: after a sign-out there, this object stays signed in while its token lookup returns null.
- ServerProgram.Dispatch: paths are compared as already decoded text, folding ASCII letters only. Percent-decoding, route parameters and HEAD requests are not modelled. The development-only OpenAPI route `/api/openapi/{documentName}.json` (mapped only in the Development environment) and the Swagger UI are not in `Endpoints`.
- DrAuthEndpoints.Login: the handler's services are resolved before its body runs. With no signing key configured, building the token generator throws, so every login answers with a server error in every mode, before the `dr_disabled` gate. The model's `Login` receives a generator that was built, so its gate holds only when a generator can be built.
- Cryptography and JWT serialisation are not modelled. HMAC-SHA256, the key bytes, and the compact token text written by the token handler are replaced by the symbolic signature. Verification is "signed with this key".
- Case-insensitive comparison folds only ASCII letters. .NET's ordinal ignore-case also maps non-ASCII upper case, which no stored name uses.
- Entra token validation, metadata discovery and the Entra `Audience` check are library internals. Only the option values are modelled.
- DrTokenGenerator.DrTokenGenerator.constructor: requires a non-empty signing key, because the symmetric-key library throws on an empty key. That throw is not modelled as an error result.
- DrTokenGenerator.DrTokenGenerator.GenerateToken: requires a positive minute count, because the token handler throws when expiry is not after the not-before time. Login always passes at least 1.
- `ValidateDrToken` checks nbf and exp with the handler's default nbf = iat = issue time. The library's other checks are not modelled: token replay, algorithm confusion.
- Configuration keys are matched exactly. .NET configuration matches keys ignoring case.
- UserDataCodec: the codec stands in for JSON and rejects any text that is not a whole session record. The source is laxer: it restores any parsed value whose `expiresAt` compares greater than now, such as `{"expiresAt": 9e15}` with no name or roles (then `getUser` gives null and `getRoles` gives []), or a numeric string. Only a missing or non-numeric `expiresAt`, or JSON `null`, clears the session there. The model does not capture those partial records.
- DrAuthStrategy.DrAuthStrategy.LoginWithCredentials: `fetch` is replaced by the reply it produced. A body that fails to decode as JSON, and `localStorage.setItem` throwing (quota), are not modelled. The model shows no intermediate state: the listener callback cannot observe a half-updated object.
- `login()` on the browser strategy is a no-op and is not modelled. `isAuthenticated` and `isLoading` are plain getters.
- Listener callbacks are identified by numbers. The model records which listeners each notification reached, not what they do.
- OpenAPI: `Paths` and each path's `Operations` are taken as non-null maps. Operations shared between documents (aliasing) are not modelled. The security scheme reference is represented by the scheme name.
- The route table covers only the method and path. Route groups, the redirect's target, and Swagger UI are not modelled. The health and weather payloads are random or clock values and are left out.
- AppHost orchestration, React components, the MSAL (Entra) strategy, the API clients and token decoding in the browser are outside this core.
- The status response's `Timestamp` is the clock value passed in.
