/** The DR login endpoint: a mode gate, then the credential check, then a
    token with the configured lifetime. */
module DrAuthEndpoints {
  import opened Wrappers
  import opened Text
  import opened Models
  import opened Tokens
  import opened DrUserStore
  import opened DrTokenGenerator

  /** The response of a successful login; `ExpiresIn` is in seconds. */
  datatype DrLoginResponse = DrLoginResponse(
    AccessToken: Jwt, TokenType: string, ExpiresIn: int,
    Username: string, Name: string, Roles: seq<string>)

  /** The three results of the endpoint: 400 with an error body, 401, or 200. */
  datatype LoginResult =
    | BadRequest(error: string, errorDescription: string)
    | Unauthorized
    | Ok(response: DrLoginResponse)

  const DrDisabled := BadRequest("dr_disabled", "Disaster recovery authentication is not enabled")

  /** C# `int` arithmetic without overflow checking: the result is taken modulo 2^32
      into the signed 32-bit range. */
  function WrapInt32(x: int): (r: int)
    ensures -0x8000_0000 <= r < 0x8000_0000
    ensures (r - x) % 0x1_0000_0000 == 0
    ensures -0x8000_0000 <= x < 0x8000_0000 ==> r == x
  {
    var m := x % 0x1_0000_0000;
    if m >= 0x8000_0000 then m - 0x1_0000_0000 else m
  }

  /** The token lifetime in minutes: the configured maximum when positive, else 15. */
  function TtlMinutes(settings: AuthPocSettings): (ttl: int)
    ensures ttl > 0
    ensures settings.DrMaxTtlMinutes > 0 ==> ttl == settings.DrMaxTtlMinutes
    ensures settings.DrMaxTtlMinutes <= 0 ==> ttl == 15
  {
    if settings.DrMaxTtlMinutes > 0 then settings.DrMaxTtlMinutes else 15
  }

  /** `Login`, with the clock reading `now` and the fresh token identifier `jti`. */
  function Login(request: DrLoginRequest, tokenGenerator: DrTokenGenerator, settings: AuthPocSettings,
                 now: int, jti: string): (r: LoginResult)
    ensures !IsDrMode(settings.AuthMode) ==> r == DrDisabled
    ensures r.Ok? <==> IsDrMode(settings.AuthMode) && ValidateCredentials(request.Username, request.Password).Some?
    ensures r.Unauthorized? <==> IsDrMode(settings.AuthMode) && ValidateCredentials(request.Username, request.Password).None?
  {
    if !IsDrMode(settings.AuthMode) then DrDisabled
    else
      match ValidateCredentials(request.Username, request.Password)
      case None => Unauthorized
      case Some(user) =>
        var expiresInMinutes := TtlMinutes(settings);
        var token := IssueToken(tokenGenerator.settings, user, expiresInMinutes, now, jti);
        Ok(DrLoginResponse(token, "Bearer", WrapInt32(expiresInMinutes * 60), user.Username, user.Name, user.Roles))
  }

  /** With DR mode off, the request has no influence: any two requests give the same 400. */
  lemma ModeGateBeforeCredentials(r1: DrLoginRequest, r2: DrLoginRequest, g: DrTokenGenerator,
                                  settings: AuthPocSettings, now: int, jti: string)
    requires !IsDrMode(settings.AuthMode)
    ensures Login(r1, g, settings, now, jti) == Login(r2, g, settings, now, jti) == DrDisabled
  {
  }

  /** An unknown name and a wrong password give the same 401, with no body to tell them apart. */
  lemma FailuresIndistinguishable(g: DrTokenGenerator, settings: AuthPocSettings, now: int, jti: string)
    requires IsDrMode(settings.AuthMode)
    ensures Login(DrLoginRequest("admin", "wrong"), g, settings, now, jti)
         == Login(DrLoginRequest("nobody", "Admin123!"), g, settings, now, jti)
         == Unauthorized
  {
    CredentialFailuresCoincide();
  }

  /** A successful response: bearer type, the stored user's name, display
      name and roles (not the request's spelling), a token for that user
      with the lifetime chosen, and `ExpiresIn` the lifetime in seconds as
      the token states it, while that fits a 32-bit integer. */
  lemma OkResponse(request: DrLoginRequest, g: DrTokenGenerator, settings: AuthPocSettings, now: int, jti: string,
                   user: DrUser)
    requires IsDrMode(settings.AuthMode)
    requires user in UserRecords() && EqualsIgnoreCase(user.Username, request.Username)
    requires user.Password == request.Password
    ensures var r := Login(request, g, settings, now, jti);
      && r.Ok?
      && r.response.TokenType == "Bearer"
      && r.response.Username == user.Username
      && r.response.Name == user.Name
      && r.response.Roles == user.Roles
      && r.response.AccessToken == IssueToken(g.settings, user, TtlMinutes(settings), now, jti)
      && (TtlMinutes(settings) < 35_791_395 ==>
            r.response.ExpiresIn == r.response.AccessToken.payload.expires - r.response.AccessToken.payload.issuedAt)
  {
    ValidateCredentialsSpec(request.Username, request.Password, user);
  }

  /** Once the lifetime in seconds reaches 2^31 (a configured maximum of
      35 791 395 minutes or more) `ExpiresIn` wraps, and its sign depends on
      the value: 35 791 395 minutes give a negative number, although the
      token itself lives that long. */
  lemma ExpiresInWrapsForHugeTtl(g: DrTokenGenerator, settings: AuthPocSettings, now: int, jti: string)
    requires IsDrMode(settings.AuthMode) && settings.DrMaxTtlMinutes == 35_791_395
    ensures Login(DrLoginRequest("operator", "Operator123!"), g, settings, now, jti).response.ExpiresIn < 0
  {
    ValidateCredentialsSpec("operator", "Operator123!", Operator);
    assert TtlMinutes(settings) * 60 == 2_147_483_700;
    assert 2_147_483_700 % 0x1_0000_0000 == 2_147_483_700;
    assert WrapInt32(2_147_483_700) == -2_147_483_596;
  }

  /** 71 582 789 minutes wrap to a positive `ExpiresIn` of 44 seconds. */
  lemma ExpiresInWrapsPositive(g: DrTokenGenerator, settings: AuthPocSettings, now: int, jti: string)
    requires IsDrMode(settings.AuthMode) && settings.DrMaxTtlMinutes == 71_582_789
    ensures Login(DrLoginRequest("operator", "Operator123!"), g, settings, now, jti).response.ExpiresIn == 44
  {
    ValidateCredentialsSpec("operator", "Operator123!", Operator);
    assert TtlMinutes(settings) * 60 == 4_294_967_340;
    assert 4_294_967_340 % 0x1_0000_0000 == 44;
    assert WrapInt32(4_294_967_340) == 44;
  }

  /** Logins that differ only in the case of the user name get the same result. */
  lemma LoginIgnoresNameCase(r1: DrLoginRequest, r2: DrLoginRequest, g: DrTokenGenerator,
                             settings: AuthPocSettings, now: int, jti: string)
    requires EqualsIgnoreCase(r1.Username, r2.Username) && r1.Password == r2.Password
    ensures Login(r1, g, settings, now, jti) == Login(r2, g, settings, now, jti)
  {
    ValidateCredentialsIgnoresCase(r1.Username, r2.Username, r1.Password);
  }
}
