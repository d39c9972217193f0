/** The DR token generator: builds the claim list of a DR user, then signs a
    token with the issuer, audience and key fixed by its settings. */
module DrTokenGenerator {
  import opened Models
  import opened Tokens

  /** The four identity claims every token starts with. */
  function IdentityClaims(user: DrUser, jti: string): seq<Claim> {
    [ Claim(NameIdentifierClaimType, user.Username),
      Claim(NameClaimType, user.Name),
      Claim(SubClaimType, user.Username),
      Claim(JtiClaimType, jti) ]
  }

  /** Two claims per role, in role order: one of type `first`, then one of
      type `second`, both carrying the role. */
  function PairedClaims(roles: seq<string>, first: string, second: string): (claims: seq<Claim>)
    ensures |claims| == 2 * |roles|
    ensures forall i :: 0 <= i < |roles| ==>
      claims[2 * i] == Claim(first, roles[i]) && claims[2 * i + 1] == Claim(second, roles[i])
  {
    if roles == [] then []
    else
      var last := roles[|roles| - 1];
      PairedClaims(roles[..|roles| - 1], first, second) + [Claim(first, last), Claim(second, last)]
  }

  /** The role claims: first under the role claim type, then under Entra's "roles" name. */
  function RoleClaims(roles: seq<string>): seq<Claim> {
    PairedClaims(roles, RoleClaimType, RolesClaimType)
  }

  /** The full claim list of a token for `user`. */
  function TokenClaims(user: DrUser, jti: string): (claims: seq<Claim>)
    ensures |claims| == 4 + 2 * |user.Roles|
    ensures claims[0] == Claim(NameIdentifierClaimType, user.Username)
    ensures claims[1] == Claim(NameClaimType, user.Name)
    ensures claims[2] == Claim(SubClaimType, user.Username)
    ensures claims[3] == Claim(JtiClaimType, jti)
    ensures forall i :: 0 <= i < |user.Roles| ==>
      claims[4 + 2 * i] == Claim(RoleClaimType, user.Roles[i]) && claims[5 + 2 * i] == Claim(RolesClaimType, user.Roles[i])
  {
    IdentityClaims(user, jti) + RoleClaims(user.Roles)
  }

  /** The token `GenerateToken` returns when the clock reads `now` (seconds)
      and the fresh identifier is `jti`: nbf and iat are `now`, as the token
      handler sets them by default. */
  function IssueToken(settings: DrSettings, user: DrUser, expiresInMinutes: int, now: int, jti: string): (token: Jwt)
    ensures token.payload.expires - token.payload.issuedAt == expiresInMinutes * 60
    ensures token.payload.issuer == settings.Issuer && token.payload.audience == settings.Audience
    ensures SignatureValid(token, settings.SigningKey)
  {
    Sign(Payload(TokenClaims(user, jti), settings.Issuer, settings.Audience, now, now + expiresInMinutes * 60, now),
         settings.SigningKey)
  }

  /** The identity claims carry no role, under either name. */
  lemma IdentityClaimsHaveNoRoles(user: DrUser, jti: string)
    ensures ValuesOfType(IdentityClaims(user, jti), RoleClaimType) == []
    ensures ValuesOfType(IdentityClaims(user, jti), RolesClaimType) == []
  {
    assert |NameIdentifierClaimType| == 68 && |NameClaimType| == 58 && |RoleClaimType| == 60;
    assert |SubClaimType| == |JtiClaimType| == 3 && |RolesClaimType| == 5;
    var claims := IdentityClaims(user, jti);
    assert forall c :: c in claims ==> c.claimType != RoleClaimType && c.claimType != RolesClaimType;
  }

  /** The two claims of one role yield that role under either type. */
  lemma PairValues(role: string, first: string, second: string)
    requires first != second
    ensures ValuesOfType([Claim(first, role), Claim(second, role)], first) == [role]
    ensures ValuesOfType([Claim(first, role), Claim(second, role)], second) == [role]
  {
    var pair := [Claim(first, role), Claim(second, role)];
    assert pair[1..] == [Claim(second, role)] && pair[1..][1..] == [];
  }

  /** Selecting the claims of `PairedClaims(roles, first, second)` by either
      type gives back `roles`. */
  lemma {:induction false} PairedClaimsRecover(roles: seq<string>, first: string, second: string)
    requires first != second
    ensures ValuesOfType(PairedClaims(roles, first, second), first) == roles
    ensures ValuesOfType(PairedClaims(roles, first, second), second) == roles
  {
    if roles != [] {
      var init, last := roles[..|roles| - 1], roles[|roles| - 1];
      SplitLast(roles);
      PairedClaimsRecover(init, first, second);
      PairedClaimsStep(init, last, first, second);
    }
  }

  lemma SplitLast(roles: seq<string>)
    requires roles != []
    ensures roles[..|roles| - 1] + [roles[|roles| - 1]] == roles
  {
  }

  /** One more role appends its pair, and the selections grow by that role. */
  lemma PairedClaimsStep(init: seq<string>, last: string, first: string, second: string)
    requires first != second
    requires ValuesOfType(PairedClaims(init, first, second), first) == init
    requires ValuesOfType(PairedClaims(init, first, second), second) == init
    ensures ValuesOfType(PairedClaims(init + [last], first, second), first) == init + [last]
    ensures ValuesOfType(PairedClaims(init + [last], first, second), second) == init + [last]
  {
    var prefix := PairedClaims(init, first, second);
    var pair := [Claim(first, last), Claim(second, last)];
    assert (init + [last])[..|init|] == init;
    assert PairedClaims(init + [last], first, second) == prefix + pair;
    PairValues(last, first, second);
    ValuesOfTypeAppend(prefix, pair, first);
    ValuesOfTypeAppend(prefix, pair, second);
  }

  /** Selecting the role claims under either role claim name gives back the roles. */
  lemma RoleClaimsRecoverRoles(roles: seq<string>)
    ensures ValuesOfType(RoleClaims(roles), RoleClaimType) == roles
    ensures ValuesOfType(RoleClaims(roles), RolesClaimType) == roles
  {
    assert |RoleClaimType| != |RolesClaimType|;
    PairedClaimsRecover(roles, RoleClaimType, RolesClaimType);
  }

  /** Filtering a token's claims by the role claim type, or by "roles",
      yields exactly the user's roles in order. */
  lemma TokenClaimsRoles(user: DrUser, jti: string)
    ensures ValuesOfType(TokenClaims(user, jti), RoleClaimType) == user.Roles
    ensures ValuesOfType(TokenClaims(user, jti), RolesClaimType) == user.Roles
  {
    IdentityClaimsHaveNoRoles(user, jti);
    RoleClaimsRecoverRoles(user.Roles);
    ValuesOfTypeAppend(IdentityClaims(user, jti), RoleClaims(user.Roles), RoleClaimType);
    ValuesOfTypeAppend(IdentityClaims(user, jti), RoleClaims(user.Roles), RolesClaimType);
  }

  /** A token is signed under the generator's key only, and its issuer and
      audience are the settings' whatever the user or the call. */
  lemma IssuedTokenBinding(settings: DrSettings, user: DrUser, minutes: int, now: int, jti: string, key: string)
    ensures SignatureValid(IssueToken(settings, user, minutes, now, jti), key) <==> key == settings.SigningKey
    ensures IssueToken(settings, user, minutes, now, jti).payload.issuer == settings.Issuer
    ensures IssueToken(settings, user, minutes, now, jti).payload.audience == settings.Audience
  {
  }

  class DrTokenGenerator {
    /** Fixed at construction; every token is signed with `settings.SigningKey`. */
    const settings: DrSettings

    /** The key bytes become a symmetric key, which the library refuses when empty. */
    constructor (settings: DrSettings)
      requires settings.SigningKey != ""
      ensures this.settings == settings
    {
      this.settings := settings;
    }

    /** `GenerateToken`: the claim list is built by appending two claims per
        role. The token handler refuses a lifetime that is not positive. */
    method GenerateToken(user: DrUser, expiresInMinutes: int, now: int, jti: string) returns (token: Jwt)
      requires expiresInMinutes > 0
      ensures token == IssueToken(settings, user, expiresInMinutes, now, jti)
    {
      var claims := IdentityClaims(user, jti);
      for i := 0 to |user.Roles|
        invariant claims == IdentityClaims(user, jti) + RoleClaims(user.Roles[..i])
      {
        var role := user.Roles[i];
        assert user.Roles[..i + 1][..i] == user.Roles[..i];
        claims := claims + [Claim(RoleClaimType, role)];
        claims := claims + [Claim(RolesClaimType, role)];
      }
      assert user.Roles[..|user.Roles|] == user.Roles;
      var payload := Payload(claims, settings.Issuer, settings.Audience, now, now + expiresInMinutes * 60, now);
      token := Sign(payload, settings.SigningKey);
    }
  }
}
