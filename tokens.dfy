/** An abstract JSON Web Token (RFC 7519): its claims, its registered
    issuer, audience and time claims, and an HS256 signature (section 3.2
    of RFC 7518) modelled symbolically. The compact serialisation is not
    modelled: a token is carried as this structured value. */
module Tokens {
  import opened Wrappers

  /** Claim types of `System.Security.Claims.ClaimTypes`. */
  const NameIdentifierClaimType := "http://schemas.xmlsoap.org/ws/2005/05/identity/claims/nameidentifier"
  const NameClaimType := "http://schemas.xmlsoap.org/ws/2005/05/identity/claims/name"
  const RoleClaimType := "http://schemas.microsoft.com/ws/2008/06/identity/claims/role"
  /** Registered claim names (sections 4.1.2 and 4.1.7 of RFC 7519). */
  const SubClaimType := "sub"
  const JtiClaimType := "jti"
  /** The claim name Entra ID uses for application roles. */
  const RolesClaimType := "roles"

  datatype Claim = Claim(claimType: string, value: string)

  /** The payload: claims plus iss, aud, nbf, exp and iat (sections 4.1.1,
      4.1.3, 4.1.5, 4.1.4 and 4.1.6 of RFC 7519). Times are whole seconds. */
  datatype Payload = Payload(
    claims: seq<Claim>, issuer: string, audience: string,
    notBefore: int, expires: int, issuedAt: int)

  /** An HMAC-SHA256 tag, kept as the key and payload it was computed over:
      the ideal MAC, which nobody without the key can produce. */
  datatype Signature = Hs256(key: string, signed: Payload)

  datatype Jwt = Jwt(payload: Payload, signature: Signature)

  function Sign(payload: Payload, key: string): Jwt {
    Jwt(payload, Hs256(key, payload))
  }

  /** The signature verifies under `key`. */
  predicate SignatureValid(token: Jwt, key: string) {
    token.signature == Hs256(key, token.payload)
  }

  /** A signed token verifies under its signing key and under no other. */
  lemma SignatureValidIffSameKey(payload: Payload, key: string, other: string)
    ensures SignatureValid(Sign(payload, key), other) <==> other == key
  {
  }

  /** The values of the claims of one type, in order. */
  function ValuesOfType(claims: seq<Claim>, claimType: string): (values: seq<string>)
    ensures |values| <= |claims|
    ensures forall i :: 0 <= i < |values| ==> Claim(claimType, values[i]) in claims
    ensures forall c :: c in claims && c.claimType == claimType ==> c.value in values
    ensures (forall c :: c in claims ==> c.claimType != claimType) ==> values == []
  {
    if claims == [] then []
    else
      var rest := ValuesOfType(claims[1..], claimType);
      assert forall c :: c in claims[1..] ==> c in claims;
      if claims[0].claimType == claimType then [claims[0].value] + rest else rest
  }

  /** Selecting from a list by type looks at its first claim, then the rest. */
  lemma ValuesOfTypeCons(c: Claim, rest: seq<Claim>, claimType: string)
    ensures ValuesOfType([c] + rest, claimType) ==
      if c.claimType == claimType then [c.value] + ValuesOfType(rest, claimType) else ValuesOfType(rest, claimType)
  {
    assert ([c] + rest)[1..] == rest;
  }

  /** Selecting claims by type distributes over concatenation. */
  lemma {:induction false} ValuesOfTypeAppend(a: seq<Claim>, b: seq<Claim>, claimType: string)
    ensures ValuesOfType(a + b, claimType) == ValuesOfType(a, claimType) + ValuesOfType(b, claimType)
  {
    if a == [] {
      assert a + b == b;
    } else {
      assert (a + b)[1..] == a[1..] + b;
      ValuesOfTypeAppend(a[1..], b, claimType);
    }
  }

  /** The principal the bearer handler builds from a validated token:
      its claims, its name and the roles read from the role claim type. */
  datatype Principal = Principal(claims: seq<Claim>, name: Option<string>, roles: seq<string>)

  /** The identity's name: the first claim of the name claim type, if any. */
  function FirstValue(claims: seq<Claim>, claimType: string): (v: Option<string>)
    ensures v.Some? <==> exists c :: c in claims && c.claimType == claimType
    ensures v.Some? ==> exists i :: (0 <= i < |claims| && claims[i] == Claim(claimType, v.value)
                                    && forall j :: 0 <= j < i ==> claims[j].claimType != claimType)
  {
    var values := ValuesOfType(claims, claimType);
    if values == [] then None
    else
      FirstOfType(claims, claimType);
      Some(values[0])
  }

  /** The first value selected by type is that of the first claim of the type. */
  lemma {:induction false} FirstOfType(claims: seq<Claim>, claimType: string)
    requires ValuesOfType(claims, claimType) != []
    ensures exists i :: (0 <= i < |claims| && claims[i] == Claim(claimType, ValuesOfType(claims, claimType)[0])
                         && forall j :: 0 <= j < i ==> claims[j].claimType != claimType)
  {
    if claims[0].claimType == claimType {
      assert claims[0] == Claim(claimType, ValuesOfType(claims, claimType)[0]);
    } else {
      var rest := claims[1..];
      assert ValuesOfType(claims, claimType) == ValuesOfType(rest, claimType);
      FirstOfType(rest, claimType);
      var k :| (0 <= k < |rest| && rest[k] == Claim(claimType, ValuesOfType(rest, claimType)[0])
                && forall j :: 0 <= j < k ==> rest[j].claimType != claimType);
      assert claims[k + 1] == rest[k];
      assert forall j :: 0 <= j < k + 1 ==> claims[j].claimType != claimType by {
        forall j | 0 <= j < k + 1
          ensures claims[j].claimType != claimType
        {
          if j > 0 {
            assert claims[j] == rest[j - 1];
          }
        }
      }
    }
  }

  function PrincipalOf(token: Jwt, roleClaimType: string): (p: Principal)
    ensures forall r :: r in p.roles <==> Claim(roleClaimType, r) in token.payload.claims
  {
    var claims := token.payload.claims;
    assert forall r :: Claim(roleClaimType, r) in claims ==> r in ValuesOfType(claims, roleClaimType);
    Principal(claims, FirstValue(claims, NameClaimType), ValuesOfType(claims, roleClaimType))
  }
}
