/** Session tokens of api/auth.py: the claims record (section 4.1 of RFC 7519),
    an HS256 signature (section 3.2 of RFC 7518) reduced to a symbolic,
    injective encode/decode pair keyed by the server secret, and the two
    minting helpers. */
module Jwt {
  import opened Common

  const ALGORITHM := "HS256"
  /** Default lifetime of an access token: `timedelta(minutes=15)`. */
  const ACCESS_TTL_DEFAULT := 15 * 60
  const REFRESH_TOKEN_EXPIRE_DAYS := 7
  const REFRESH_TTL := REFRESH_TOKEN_EXPIRE_DAYS * 24 * 60 * 60

  /** The decoded payload. Each claim may be missing, as with `payload.get(..)`.
      Times are whole epoch seconds, as the JWT library serialises them. */
  datatype Claims = Claims(sub: Option<string>, iat: Option<int>, exp: Option<int>,
                           jti: Option<string>, typ: Option<string>)
  {
    /** An empty payload is falsy in Python (`if payload`, `not payload`). */
    predicate IsEmpty() {
      sub.None? && iat.None? && exp.None? && jti.None? && typ.None?
    }
  }

  /** A token as a client presents it: either what `jwt.encode` produced (under
      some algorithm and key), or any other string. No real signature is
      computed: the model records the key a token was signed with, so that
      decoding under another key fails, which is what an unforgeable MAC gives. */
  datatype Token = Signed(alg: string, key: string, claims: Claims) | Unsigned(raw: string)

  /** The library's expiry test: rejected iff `exp < now` (no leeway). */
  predicate Expired(c: Claims, now: int) {
    c.exp.Some? && c.exp.value < now
  }

  /** `jwt.decode(token, key, algorithms=[HS256])`; `None` stands for `JWTError`. */
  function Decode(t: Token, key: string, now: int): (r: Option<Claims>)
    ensures r.Some? <==> t.Signed? && t.alg == ALGORITHM && t.key == key && !Expired(t.claims, now)
    ensures r.Some? ==> r.value == t.claims
  {
    match t
    case Signed(alg, k, c) => if alg == ALGORITHM && k == key && !Expired(c, now) then Some(c) else None
    case Unsigned(_) => None
  }

  /** `jwt.encode(claims, key, algorithm=HS256)`. The round trip is its contract:
      the token decodes to exactly these claims under this key until they expire,
      and under no other key. */
  function Encode(claims: Claims, key: string): (t: Token)
    ensures forall k, now :: Decode(t, k, now) == if k == key && !Expired(claims, now) then Some(claims) else None
  {
    Signed(ALGORITHM, key, claims)
  }

  lemma EncodeInjective(c1: Claims, c2: Claims, key: string)
    requires Encode(c1, key) == Encode(c2, key)
    ensures c1 == c2
  {
  }

  /** The claims `create_access_token` signs: the caller's claims with `exp`,
      `iat`, `jti` and `type` overwritten. A zero delta is falsy in Python, so it
      too selects the 15-minute default. */
  function AccessClaims(data: Claims, expiresDelta: Option<int>, now: int, jti: string): Claims {
    var delta := if expiresDelta.None? || expiresDelta.value == 0 then ACCESS_TTL_DEFAULT else expiresDelta.value;
    data.(exp := Some(now + delta), iat := Some(now), jti := Some(jti), typ := Some("access"))
  }

  /** The claims `create_refresh_token` signs. */
  function RefreshClaims(data: Claims, now: int, jti: string): Claims {
    data.(exp := Some(now + REFRESH_TTL), iat := Some(now), jti := Some(jti), typ := Some("refresh"))
  }

  /** `create_access_token(data, expires_delta)` at instant `now` with the
      random identifier `jti` (a `uuid4` string). */
  function CreateAccessToken(data: Claims, expiresDelta: Option<int>, now: int, jti: string, key: string): (t: Token)
    ensures t.Signed? && t.key == key
    ensures t.claims.sub == data.sub && t.claims.iat == Some(now) && t.claims.jti == Some(jti)
    ensures t.claims.typ == Some("access")
    ensures expiresDelta.None? || expiresDelta == Some(0) ==> t.claims.exp == Some(now + 15 * 60)
    ensures expiresDelta.Some? && expiresDelta.value != 0 ==> t.claims.exp == Some(now + expiresDelta.value)
    ensures forall at :: Decode(t, key, at).Some? <==> at <= t.claims.exp.value
  {
    Encode(AccessClaims(data, expiresDelta, now, jti), key)
  }

  /** `create_refresh_token(data)`: seven days of validity. */
  function CreateRefreshToken(data: Claims, now: int, jti: string, key: string): (t: Token)
    ensures t.Signed? && t.key == key
    ensures t.claims.sub == data.sub && t.claims.iat == Some(now) && t.claims.jti == Some(jti)
    ensures t.claims == data.(exp := Some(now + 604800), iat := Some(now), jti := Some(jti), typ := Some("refresh"))
    ensures forall at :: Decode(t, key, at).Some? <==> at <= now + 7 * 24 * 60 * 60
  {
    Encode(RefreshClaims(data, now, jti), key)
  }

  /** The two minting helpers never produce the same token, whatever their
      arguments: the type claims differ. */
  lemma AccessNeverRefresh(d1: Claims, delta: Option<int>, n1: int, j1: string,
                           d2: Claims, n2: int, j2: string, key: string)
    ensures CreateAccessToken(d1, delta, n1, j1, key) != CreateRefreshToken(d2, n2, j2, key)
  {
  }
}
