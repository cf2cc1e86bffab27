/** The Redis denylist of api/auth.py and `verify_token`, which consults it.
    The store is a map from Redis key to the last instant at which the key
    still exists; keys whose instant has passed are gone, as Redis's own TTL
    expiry would make them. Whether the store can be reached is an input. */
module Revocation {
  import opened Common
  import opened Jwt

  const REDIS_DENYLIST_PREFIX := "jwt:revoked:"

  /** Redis key -> last instant (inclusive) at which the key exists. */
  type Denylist = map<string, int>

  /** Why a call that talks to the store raised instead of returning. */
  datatype Fault =
    | RegistryUnavailable   // the connection failed: redis-py raises
    | ZeroTtl               // `setex` with a TTL of 0, which Redis refuses

  function DenyKey(jti: string): (k: string)
    ensures |k| == |REDIS_DENYLIST_PREFIX| + |jti| && k[|REDIS_DENYLIST_PREFIX|..] == jti
  {
    REDIS_DENYLIST_PREFIX + jti
  }

  /** Distinct identifiers get distinct Redis keys. */
  lemma DenyKeyInjective(j1: string, j2: string)
    ensures DenyKey(j1) == DenyKey(j2) ==> j1 == j2
  {
    if DenyKey(j1) == DenyKey(j2) {
      assert j1 == DenyKey(j1)[|REDIS_DENYLIST_PREFIX|..];
    }
  }

  /** `redis_client.exists(key)` at instant `now`. */
  predicate Live(d: Denylist, key: string, now: int) {
    key in d && now <= d[key]
  }

  /** `is_jti_revoked(jti)`: an empty identifier is never revoked and is not
      looked up; otherwise the key's existence decides, and an unreachable
      store raises. */
  function IsRevoked(d: Denylist, jti: string, now: int, reachable: bool): (r: Result<bool, Fault>)
    ensures jti == "" ==> r == Ok(false)
    ensures jti != "" && !reachable ==> r == Err(RegistryUnavailable)
    ensures jti != "" && reachable ==> r == Ok(Live(d, DenyKey(jti), now))
  {
    if jti == "" then Ok(false)
    else if !reachable then Err(RegistryUnavailable)
    else Ok(Live(d, DenyKey(jti), now))
  }

  /** `revoke_jti(jti, exp)`: writes the key with TTL `max(0, exp - now)`. */
  function Revoke(d: Denylist, jti: string, exp: int, now: int, reachable: bool): (r: Result<Denylist, Fault>)
    // an empty identifier changes nothing and contacts nobody
    ensures jti == "" ==> r == Ok(d)
    // a write happens only for a non-empty identifier and a positive TTL
    ensures r.Ok? && jti != "" ==> reachable && exp > now && r.value == d[DenyKey(jti) := exp]
    ensures jti != "" && reachable && exp > now ==> r.Ok?
    // the entry lives exactly as long as the token: until `exp` and no longer
    ensures r.Ok? && jti != "" ==> forall t :: Live(r.value, DenyKey(jti), t) <==> t <= exp
    // no other key changes
    ensures r.Ok? ==> forall k :: k != DenyKey(jti) ==> (k in r.value <==> k in d) && (k in d ==> r.value[k] == d[k])
    ensures r.Err? ==> jti != "" && (r.error == RegistryUnavailable <==> !reachable)
  {
    if jti == "" then Ok(d)
    else
      var ttl := if exp - now > 0 then exp - now else 0;
      if !reachable then Err(RegistryUnavailable)
      else if ttl == 0 then Err(ZeroTtl)
      else Ok(d[DenyKey(jti) := now + ttl])
  }

  /** `verify_token(token)` at instant `now`: `Ok(None)` is the library's
      `JWTError` or a denylisted identifier, `Err` is an exception that
      escapes (only `JWTError` is caught). The `type` claim is not looked at. */
  function VerifyToken(t: Token, key: string, now: int, d: Denylist, reachable: bool): (r: Result<Option<Claims>, Fault>)
    // accepted claims are genuine, unexpired and not denylisted
    ensures r.Ok? && r.value.Some? ==>
              Decode(t, key, now) == r.value && (Truthy(r.value.value.jti) ==> !Live(d, DenyKey(r.value.value.jti.value), now))
    // and every genuine, unexpired, non-denylisted token is accepted
    ensures Decode(t, key, now).Some? && (!Truthy(Decode(t, key, now).value.jti) ||
              (reachable && !Live(d, DenyKey(Decode(t, key, now).value.jti.value), now)))
            ==> r == Ok(Decode(t, key, now))
    // a store failure is never read as "not revoked": fail closed
    ensures r.Err? <==> Decode(t, key, now).Some? && Truthy(Decode(t, key, now).value.jti) && !reachable
    ensures r.Err? ==> r.error == RegistryUnavailable
  {
    match Decode(t, key, now)
    case None => Ok(None)
    case Some(c) =>
      if Truthy(c.jti) then
        match IsRevoked(d, c.jti.value, now, reachable)
        case Err(f) => Err(f)
        case Ok(revoked) => if revoked then Ok(None) else Ok(Some(c))
      else Ok(Some(c))
  }

  /** The result of verification does not depend on the `type` claim. */
  lemma {:induction false} VerifyIgnoresType(c: Claims, other: Option<string>, key: string, now: int, d: Denylist, reachable: bool)
    ensures var r1 := VerifyToken(Encode(c, key), key, now, d, reachable);
            var r2 := VerifyToken(Encode(c.(typ := other), key), key, now, d, reachable);
            r1.Ok? == r2.Ok? && (r1.Ok? ==> r1.value.Some? == r2.value.Some?)
  {
    assert Decode(Encode(c, key), key, now) == if !Expired(c, now) then Some(c) else None;
    assert Decode(Encode(c.(typ := other), key), key, now) == if !Expired(c, now) then Some(c.(typ := other)) else None;
  }

  /** A denylist entry that covers a token until its expiry. */
  predicate Covers(d: Denylist, c: Claims) {
    Truthy(c.jti) && c.exp.Some? && DenyKey(c.jti.value) in d && d[DenyKey(c.jti.value)] >= c.exp.value
  }

  /** Once an entry covers a token, the token never verifies again from any
      instant on: before its expiry the denylist rejects it, after it the
      library does. */
  lemma CoveredIsDead(t: Token, key: string, d: Denylist, at: int, reachable: bool)
    requires t.Signed? && Covers(d, t.claims)
    ensures !(VerifyToken(t, key, at, d, reachable).Ok? && VerifyToken(t, key, at, d, reachable).value.Some?)
  {
  }

  /** What `logout` does with one cookie: verify it; if it carries a truthy
      `jti` and a non-zero `exp`, revoke that identifier. */
  function LogoutStep(d: Denylist, tok: Option<Token>, key: string, now: int, reachable: bool): (r: Result<Denylist, Fault>)
    ensures tok.None? ==> r == Ok(d)
    ensures tok.Some? && VerifyToken(tok.value, key, now, d, reachable).Err? ==>
              r == Err(VerifyToken(tok.value, key, now, d, reachable).error)
    ensures tok.Some? && VerifyToken(tok.value, key, now, d, reachable) == Ok(None) ==> r == Ok(d)
    // a verified token with an identifier and a non-zero expiry is revoked; one without is left alone
    ensures tok.Some? && VerifyToken(tok.value, key, now, d, reachable).Ok? &&
            VerifyToken(tok.value, key, now, d, reachable).value.Some? ==>
              var c := VerifyToken(tok.value, key, now, d, reachable).value.value;
              r == if Truthy(c.jti) && c.exp.Some? && c.exp.value != 0 then Revoke(d, c.jti.value, c.exp.value, now, reachable)
                   else Ok(d)
  {
    match tok
    case None => Ok(d)
    case Some(t) =>
      match VerifyToken(t, key, now, d, reachable)
      case Err(f) => Err(f)
      case Ok(None) => Ok(d)
      case Ok(Some(c)) =>
        var jti := if c.jti.Some? then c.jti.value else "";
        var exp := if c.exp.Some? then c.exp.value else 0;
        if jti != "" && exp != 0 then Revoke(d, jti, exp, now, reachable) else Ok(d)
  }

  /** The `for token in (access_token, refresh_token)` loop of `logout`: the
      denylist afterwards, and the fault that stopped the loop, if any. A
      revocation written before the fault stays written. */
  function LogoutAll(d: Denylist, toks: seq<Option<Token>>, key: string, now: int, reachable: bool): (Denylist, Option<Fault>)
    decreases |toks|
  {
    if toks == [] then (d, None)
    else
      match LogoutStep(d, toks[0], key, now, reachable)
      case Err(f) => (d, Some(f))
      case Ok(d1) => LogoutAll(d1, toks[1..], key, now, reachable)
  }

  /** A token that verified when `logout` looked at it, and that carried a `jti`
      and a non-zero `exp`. */
  predicate Revocable(tok: Option<Token>, key: string, now: int, d: Denylist) {
    tok.Some? &&
    var v := VerifyToken(tok.value, key, now, d, true);
    v.Ok? && v.value.Some? && Truthy(v.value.value.jti) && v.value.value.exp.Some? && v.value.value.exp.value != 0
  }

  /** A step never removes or shortens an entry that is live at `now`. */
  lemma {:induction false} StepKeepsLive(d: Denylist, tok: Option<Token>, key: string, now: int, k: string)
    requires LogoutStep(d, tok, key, now, true).Ok? && Live(d, k, now)
    ensures var d1 := LogoutStep(d, tok, key, now, true).value; k in d1 && d1[k] >= d[k]
  {
    var d1 := LogoutStep(d, tok, key, now, true).value;
    if tok.Some? {
      var v := VerifyToken(tok.value, key, now, d, true);
      if v.Ok? && v.value.Some? {
        var c := v.value.value;
        if Truthy(c.jti) && c.exp.Some? && c.exp.value != 0 {
          // the token verified, so its own key is not live: it is not k
          assert !Live(d, DenyKey(c.jti.value), now);
          assert k != DenyKey(c.jti.value);
        }
      }
    }
  }

  /** If the whole loop ran without a fault, every cookie that was revocable
      when its turn came is covered by the final denylist, so it never
      verifies again. */
  lemma {:induction false} LogoutCovers(d: Denylist, toks: seq<Option<Token>>, key: string, now: int, i: nat)
    requires i < |toks| && LogoutAll(d, toks, key, now, true).1.None?
    requires Revocable(toks[i], key, now, LogoutAll(d, toks[..i], key, now, true).0)
    ensures Covers(LogoutAll(d, toks, key, now, true).0, toks[i].value.claims)
    decreases |toks|
  {
    var d1 := LogoutStep(d, toks[0], key, now, true);
    assert d1.Ok?;
    if i == 0 {
      assert toks[..0] == [];
      var c := toks[0].value.claims;
      assert Decode(toks[0].value, key, now) == Some(c);
      assert d1.value == d[DenyKey(c.jti.value) := c.exp.value];
      KeepCovered(d1.value, toks[1..], key, now, c);
    } else {
      assert toks[1..][..i - 1] == toks[..i][1..];
      assert LogoutAll(d, toks[..i], key, now, true) == LogoutAll(d1.value, toks[..i][1..], key, now, true);
      LogoutCovers(d1.value, toks[1..], key, now, i - 1);
    }
  }

  /** Later steps keep a covering entry that is live at `now`. */
  lemma {:induction false} KeepCovered(d: Denylist, toks: seq<Option<Token>>, key: string, now: int, c: Claims)
    requires Covers(d, c) && c.exp.value >= now && LogoutAll(d, toks, key, now, true).1.None?
    ensures Covers(LogoutAll(d, toks, key, now, true).0, c)
    decreases |toks|
  {
    if toks != [] {
      var k := DenyKey(c.jti.value);
      StepKeepsLive(d, toks[0], key, now, k);
      KeepCovered(LogoutStep(d, toks[0], key, now, true).value, toks[1..], key, now, c);
    }
  }
}
