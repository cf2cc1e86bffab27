/** The endpoints and the request authenticator of api/auth.py, over a class
    that holds the account store (users keyed by email) and the revocation
    denylist. Clocks, random draws and the store's reachability are inputs. */
module Auth {
  import opened Common
  import opened Jwt
  import opened Revocation
  import opened TwoFactor
  import Csrf

  /** Used only for the cookie that `/refresh-token` sets. */
  const ACCESS_TOKEN_EXPIRE_MINUTES := 30
  const ACCESS_COOKIE_MAX_AGE := 15 * 60
  const REFRESH_COOKIE_MAX_AGE := 7 * 24 * 60 * 60
  const MIN_PASSWORD_LENGTH := 8

  /** A bcrypt digest, symbolically: the salt and what was hashed. Only
      `CheckPassword` looks inside it. */
  datatype Digest = Bcrypt(salt: string, password: string)

  /** `bcrypt.checkpw(password, digest)`. */
  predicate CheckPassword(password: string, d: Digest) {
    d.password == password
  }

  /** `bcrypt.hashpw(password, salt)`: the digest accepts that password and no other. */
  function HashPassword(password: string, salt: string): (d: Digest)
    ensures forall p :: CheckPassword(p, d) <==> p == password
  {
    Bcrypt(salt, password)
  }

  /** A row of the `users` table, reduced to what this core reads or writes. */
  datatype User = User(email: string, name: string, passwordHash: Digest, picture: Option<string>,
                       tier: string, twofa: TwoFactorState)

  /** A `Set-Cookie` instruction on the response, or `delete_cookie`. */
  datatype CookieOp =
    | SetCookie(name: string, value: Token, maxAge: int, httpOnly: bool, secure: bool, sameSite: string)
    | DeleteCookie(name: string)

  /** The JSON body an endpoint returns, or the exception it raises. */
  datatype Body =
    | Done                                                     // {"ok": True}
    | LoggedIn(email: string, name: string, picture: Option<string>, tier: string)
    | ChallengeRequired(kind: Option<string>, email: string)   // {"ok": False, "2fa_required": True, ...}
    | TotpEnrolled(secret: string)                             // {"ok": True, "type": "totp", ...}
    | EmailEnrolled                                            // {"ok": True, "type": "email"}
    | Refused(status: int, detail: string)                     // an HTTPException
    | Crashed(fault: Fault)                                    // an exception from the store

  datatype Reply = Reply(body: Body, cookies: seq<CookieOp>)

  /** The claims dictionary `{"sub": email}` the endpoints mint from. */
  function SubjectOnly(email: string): Claims {
    Claims(Some(email), None, None, None, None)
  }

  /** The two `set_cookie` calls of `login` and `login-verify`. */
  function IssueTokens(email: string, now: int, jtiAccess: string, jtiRefresh: string, key: string): (r: seq<CookieOp>)
    ensures |r| == 2 && r[0].SetCookie? && r[1].SetCookie?
    ensures r[0].name == "access_token" && r[0].maxAge == 15 * 60
    ensures r[1].name == "refresh_token" && r[1].maxAge == 7 * 24 * 60 * 60
    ensures forall i :: 0 <= i < 2 ==> r[i].httpOnly && r[i].secure && r[i].sameSite == "lax"
    ensures forall at :: at <= now + 15 * 60 ==>
              Decode(r[0].value, key, at) == Some(Claims(Some(email), Some(now), Some(now + 900), Some(jtiAccess), Some("access")))
    ensures forall at :: at <= now + 7 * 24 * 60 * 60 ==>
              Decode(r[1].value, key, at) == Some(Claims(Some(email), Some(now), Some(now + 604800), Some(jtiRefresh), Some("refresh")))
    ensures forall at, i :: 0 <= i < 2 && at > now + r[i].maxAge ==> Decode(r[i].value, key, at).None?
  {
    [SetCookie("access_token", CreateAccessToken(SubjectOnly(email), None, now, jtiAccess, key),
               ACCESS_COOKIE_MAX_AGE, true, true, "lax"),
     SetCookie("refresh_token", CreateRefreshToken(SubjectOnly(email), now, jtiRefresh, key),
               REFRESH_COOKIE_MAX_AGE, true, true, "lax")]
  }

  class AuthService {
    const secretKey: string
    const fernetKey: string
    var users: map<string, User>
    var revoked: Denylist

    /** The table is keyed by the (unique) email column. */
    ghost predicate Valid()
      reads this
    {
      forall e :: e in users ==> users[e].email == e
    }

    constructor (secretKey: string, fernetKey: string)
      ensures Valid() && this.secretKey == secretKey && this.fernetKey == fernetKey
      ensures users == map[] && revoked == map[]
    {
      this.secretKey := secretKey;
      this.fernetKey := fernetKey;
      users := map[];
      revoked := map[];
    }

    /** `get_current_user`: the email of the user the `access_token` cookie
        names, or the 401 (or the store's exception) it raises instead. The
        token's type is not checked. */
    function CurrentUser(access: Option<Token>, now: int, reachable: bool): (r: Result<string, Body>)
      reads this
      ensures r.Ok? ==> r.value in users && access.Some? && Decode(access.value, secretKey, now).Some? &&
                        VerifyToken(access.value, secretKey, now, revoked, reachable) == Ok(Decode(access.value, secretKey, now)) &&
                        Decode(access.value, secretKey, now).value.sub == Some(r.value)
      ensures access.None? ==> r == Err(Refused(401, "Not authenticated"))
      ensures access.Some? && VerifyToken(access.value, secretKey, now, revoked, reachable) == Ok(None) ==>
                r == Err(Refused(401, "Not authenticated"))
      // a verified token naming a stored user authenticates it; one naming nobody is refused
      ensures access.Some? && VerifyToken(access.value, secretKey, now, revoked, reachable).Ok? &&
              VerifyToken(access.value, secretKey, now, revoked, reachable).value.Some? ==>
                var sub := VerifyToken(access.value, secretKey, now, revoked, reachable).value.value.sub;
                r == if !Truthy(sub) then Err(Refused(401, "Not authenticated"))
                     else if sub.value in users then Ok(sub.value)
                     else Err(Refused(401, "User not found"))
      ensures r.Err? && r.error.Crashed? <==> access.Some? && VerifyToken(access.value, secretKey, now, revoked, reachable).Err?
      ensures r.Err? ==> r.error.Crashed? || r.error == Refused(401, "Not authenticated") || r.error == Refused(401, "User not found")
    {
      match access
      case None => Err(Refused(401, "Not authenticated"))
      case Some(t) =>
        match VerifyToken(t, secretKey, now, revoked, reachable)
        case Err(f) => Err(Crashed(f))
        case Ok(None) => Err(Refused(401, "Not authenticated"))
        case Ok(Some(c)) =>
          if !Truthy(c.sub) then Err(Refused(401, "Not authenticated"))
          else if c.sub.value !in users then Err(Refused(401, "User not found"))
          else Ok(c.sub.value)
    }

    /** `JWTAuthMiddleware.dispatch`: the value it stores in `request.state.user`.
        A missing, invalid or revoked token gives `None` and nothing is raised;
        only the store's exception escapes. */
    function Extract(access: Option<Token>, now: int, reachable: bool): (r: Result<Option<Claims>, Fault>)
      reads this
      ensures r.Ok? && r.value.Some? ==>
                access.Some? && VerifyToken(access.value, secretKey, now, revoked, reachable) == Ok(r.value) &&
                Decode(access.value, secretKey, now) == r.value && !r.value.value.IsEmpty()
      ensures access.Some? && VerifyToken(access.value, secretKey, now, revoked, reachable) == Ok(None) ==> r == Ok(None)
      ensures access.Some? && reachable && Decode(access.value, secretKey, now).Some? &&
              !Decode(access.value, secretKey, now).value.IsEmpty() &&
              !(Truthy(access.value.claims.jti) && Live(revoked, DenyKey(access.value.claims.jti.value), now))
              ==> r == Ok(Decode(access.value, secretKey, now))
      ensures access.None? ==> r == Ok(None)
      ensures access.Some? && Decode(access.value, secretKey, now).None? ==> r == Ok(None)
      ensures r.Err? <==> access.Some? && VerifyToken(access.value, secretKey, now, revoked, reachable).Err?
      ensures r.Err? ==> !reachable
    {
      match access
      case None => Ok(None)
      case Some(t) =>
        match VerifyToken(t, secretKey, now, revoked, reachable)
        case Err(f) => Err(f)
        case Ok(None) => Ok(None)
        case Ok(Some(c)) => if c.IsEmpty() then Ok(None) else Ok(Some(c))
    }

    /** `/signup`: the CSRF pair, then a fresh email, then the password length. */
    method Signup(email: string, name: string, password: string, picture: Option<string>, tier: string,
                  csrfCookie: Option<string>, csrfHeader: Option<string>, salt: string) returns (r: Reply)
      requires Valid()
      modifies this`users
      ensures Valid()
      ensures !Csrf.TokensMatch(csrfCookie, csrfHeader) ==>
                r == Reply(Refused(400, "CSRF token missing or invalid"), []) && users == old(users)
      ensures Csrf.TokensMatch(csrfCookie, csrfHeader) && email in old(users) ==>
                r == Reply(Refused(400, "Email already registered"), []) && users == old(users)
      ensures Csrf.TokensMatch(csrfCookie, csrfHeader) && email !in old(users) && |password| < 8 ==>
                r == Reply(Refused(400, "Password too short"), []) && users == old(users)
      ensures Csrf.TokensMatch(csrfCookie, csrfHeader) && email !in old(users) && |password| >= 8 ==>
                r == Reply(Done, []) &&
                users == old(users)[email := User(email, name, HashPassword(password, salt), picture, tier, Off)]
    {
      if !Csrf.TokensMatch(csrfCookie, csrfHeader) {
        return Reply(Refused(400, "CSRF token missing or invalid"), []);
      }
      if email in users {
        return Reply(Refused(400, "Email already registered"), []);
      }
      if |password| < MIN_PASSWORD_LENGTH {
        return Reply(Refused(400, "Password too short"), []);
      }
      users := users[email := User(email, name, HashPassword(password, salt), picture, tier, Off)];
      r := Reply(Done, []);
    }

    /** `/login`. Reads the store and changes nothing: in particular it mints
        no email code and sets no cookie when 2FA is enabled. */
    function Login(email: string, password: string, now: int, jtiAccess: string, jtiRefresh: string): (r: Reply)
      reads this
      requires Valid()
      // unknown email and wrong password are indistinguishable
      ensures (email !in users || !CheckPassword(password, users[email].passwordHash)) ==>
                r == Reply(Refused(401, "Invalid credentials"), [])
      ensures r.cookies != [] <==>
                email in users && CheckPassword(password, users[email].passwordHash) && !users[email].twofa.enabled
      ensures r.body.ChallengeRequired? <==>
                email in users && CheckPassword(password, users[email].passwordHash) && users[email].twofa.enabled
      ensures r.body.ChallengeRequired? ==> r.body == ChallengeRequired(users[email].twofa.kind, email)
      ensures r.cookies != [] ==> r.cookies == IssueTokens(email, now, jtiAccess, jtiRefresh, secretKey) &&
                                  r.body == LoggedIn(email, users[email].name, users[email].picture, users[email].tier)
    {
      if email !in users || !CheckPassword(password, users[email].passwordHash) then
        Reply(Refused(401, "Invalid credentials"), [])
      else
        var u := users[email];
        if u.twofa.enabled then Reply(ChallengeRequired(u.twofa.kind, u.email), [])
        else Reply(LoggedIn(u.email, u.name, u.picture, u.tier), IssueTokens(u.email, now, jtiAccess, jtiRefresh, secretKey))
    }

    /** `/logout`: the loop over the two cookies, then both cookies deleted. An
        exception from the store ends the request before the deletions, keeping
        any revocation already written. */
    method Logout(access: Option<Token>, refresh: Option<Token>, now: int, reachable: bool) returns (r: Reply)
      modifies this`revoked
      ensures (revoked, if r.body.Crashed? then Some(r.body.fault) else None)
              == LogoutAll(old(revoked), [access, refresh], secretKey, now, reachable)
      ensures !r.body.Crashed? ==> r == Reply(Done, [DeleteCookie("access_token"), DeleteCookie("refresh_token")])
      ensures r.body.Crashed? ==> r.cookies == []
    {
      var toks := [access, refresh];
      var i := 0;
      while i < |toks|
        invariant 0 <= i <= |toks|
        invariant LogoutAll(old(revoked), toks, secretKey, now, reachable) == LogoutAll(revoked, toks[i..], secretKey, now, reachable)
      {
        var step := LogoutStep(revoked, toks[i], secretKey, now, reachable);
        if step.Err? {
          return Reply(Crashed(step.error), []);
        }
        revoked := step.value;
        i := i + 1;
      }
      r := Reply(Done, [DeleteCookie("access_token"), DeleteCookie("refresh_token")]);
    }

    /** `/refresh-token`: only a verified token of type "refresh" is accepted;
        it yields a new access token for the same subject and sets only the
        access cookie, whose 30-minute max-age outlasts the 15-minute token. */
    function RefreshToken(refresh: Option<Token>, now: int, reachable: bool, jti: string): (r: Reply)
      reads this
      // a cookie is set only for a verified, unrevoked token of type "refresh"
      ensures r.cookies != [] ==>
                refresh.Some? && Decode(refresh.value, secretKey, now).Some? &&
                VerifyToken(refresh.value, secretKey, now, revoked, reachable) == Ok(Decode(refresh.value, secretKey, now)) &&
                Decode(refresh.value, secretKey, now).value.typ == Some("refresh")
      // and every such token gets one
      ensures refresh.Some? && Decode(refresh.value, secretKey, now).Some? &&
              VerifyToken(refresh.value, secretKey, now, revoked, reachable) == Ok(Decode(refresh.value, secretKey, now)) &&
              Decode(refresh.value, secretKey, now).value.typ == Some("refresh")
              ==> r.body == Done && |r.cookies| == 1
      ensures r.cookies != [] ==>
                |r.cookies| == 1 && r.cookies[0].SetCookie? && r.cookies[0].name == "access_token" &&
                r.cookies[0].maxAge == 30 * 60 && r.cookies[0].value.Signed? && r.cookies[0].value.claims.typ == Some("access") &&
                r.cookies[0].value.claims.sub == refresh.value.claims.sub && r.cookies[0].value.claims.jti == Some(jti) &&
                forall at :: Decode(r.cookies[0].value, secretKey, at).Some? <==> at <= now + 15 * 60
      // a missing, invalid, revoked or wrongly typed token is refused; a store failure crashes
      ensures refresh.None? || VerifyToken(refresh.value, secretKey, now, revoked, reachable) == Ok(None) ==>
                r == Reply(Refused(401, "Invalid refresh token"), [])
      ensures refresh.Some? && VerifyToken(refresh.value, secretKey, now, revoked, reachable).Ok? &&
              Decode(refresh.value, secretKey, now).Some? && Decode(refresh.value, secretKey, now).value.typ != Some("refresh")
              ==> r == Reply(Refused(401, "Invalid refresh token"), [])
      ensures refresh.Some? && VerifyToken(refresh.value, secretKey, now, revoked, reachable).Err? ==>
                r == Reply(Crashed(VerifyToken(refresh.value, secretKey, now, revoked, reachable).error), [])
      ensures r.cookies == [] ==> r.body.Refused? || r.body.Crashed?
    {
      match refresh
      case None => Reply(Refused(401, "Invalid refresh token"), [])
      case Some(t) =>
        match VerifyToken(t, secretKey, now, revoked, reachable)
        case Err(f) => Reply(Crashed(f), [])
        case Ok(None) => Reply(Refused(401, "Invalid refresh token"), [])
        case Ok(Some(c)) =>
          if c.typ != Some("refresh") then Reply(Refused(401, "Invalid refresh token"), [])
          else
            var newToken := CreateAccessToken(Claims(c.sub, None, None, None, None), None, now, jti, secretKey);
            Reply(Done, [SetCookie("access_token", newToken, ACCESS_TOKEN_EXPIRE_MINUTES * 60, true, true, "lax")])
    }

    /** `/2fa/enable`: 2FA is switched on at once, before any code has been
        verified; an unknown type changes nothing. */
    method Enable2fa(access: Option<Token>, kind: string, now: int, reachable: bool,
                     totpSecret: string, draw: SixDigit) returns (r: Reply)
      requires Valid()
      modifies this`users
      ensures Valid()
      ensures old(CurrentUser(access, now, reachable)).Err? ==>
                r == Reply(old(CurrentUser(access, now, reachable)).error, []) && users == old(users)
      ensures old(CurrentUser(access, now, reachable)).Ok? ==>
                var e := old(CurrentUser(access, now, reachable)).value;
                var u := old(users)[e];
                (kind == "totp" ==> r == Reply(TotpEnrolled(totpSecret), []) &&
                                    users == old(users)[e := u.(twofa := EnableTotp(u.twofa, fernetKey, totpSecret))]) &&
                (kind == "email" ==> r == Reply(EmailEnrolled, []) &&
                                     users == old(users)[e := u.(twofa := EnableEmail(u.twofa, draw, now))]) &&
                (kind != "totp" && kind != "email" ==> r == Reply(Refused(400, "Invalid 2FA type"), []) &&
                                                       users == old(users))
    {
      var who := CurrentUser(access, now, reachable);
      if who.Err? {
        return Reply(who.error, []);
      }
      var u := users[who.value];
      if kind == "totp" {
        users := users[who.value := u.(twofa := EnableTotp(u.twofa, fernetKey, totpSecret))];
        r := Reply(TotpEnrolled(totpSecret), []);
      } else if kind == "email" {
        users := users[who.value := u.(twofa := EnableEmail(u.twofa, draw, now))];
        r := Reply(EmailEnrolled, []);
      } else {
        r := Reply(Refused(400, "Invalid 2FA type"), []);
      }
    }

    /** `/2fa/verify`: only checks a code (it does not switch anything on); a
        passing email code is consumed. */
    method Verify2fa(access: Option<Token>, code: string, now: int, reachable: bool,
                     otp: (string, int) -> string) returns (r: Reply)
      requires Valid()
      modifies this`users
      ensures Valid()
      ensures old(CurrentUser(access, now, reachable)).Err? ==>
                r == Reply(old(CurrentUser(access, now, reachable)).error, []) && users == old(users)
      ensures old(CurrentUser(access, now, reachable)).Ok? ==>
                var e := old(CurrentUser(access, now, reachable)).value;
                var u := old(users)[e];
                var verdict := CheckSecondFactor(u.twofa, fernetKey, code, now, otp);
                users == old(users)[e := u.(twofa := AfterCheck(u.twofa, verdict))] &&
                r == (if verdict.Accepted? then Reply(Done, []) else Reply(Refused(verdict.status, verdict.detail), []))
    {
      var who := CurrentUser(access, now, reachable);
      if who.Err? {
        return Reply(who.error, []);
      }
      var u := users[who.value];
      var verdict := CheckSecondFactor(u.twofa, fernetKey, code, now, otp);
      users := users[who.value := u.(twofa := AfterCheck(u.twofa, verdict))];
      r := if verdict.Accepted? then Reply(Done, []) else Reply(Refused(verdict.status, verdict.detail), []);
    }

    /** `/2fa/disable`: all five 2FA columns back to their defaults. */
    method Disable2fa(access: Option<Token>, now: int, reachable: bool) returns (r: Reply)
      requires Valid()
      modifies this`users
      ensures Valid()
      ensures old(CurrentUser(access, now, reachable)).Err? ==>
                r == Reply(old(CurrentUser(access, now, reachable)).error, []) && users == old(users)
      ensures old(CurrentUser(access, now, reachable)).Ok? ==>
                var e := old(CurrentUser(access, now, reachable)).value;
                r == Reply(Done, []) && users == old(users)[e := old(users)[e].(twofa := Off)]
    {
      var who := CurrentUser(access, now, reachable);
      if who.Err? {
        return Reply(who.error, []);
      }
      var u := users[who.value];
      users := users[who.value := u.(twofa := Off)];
      r := Reply(Done, []);
    }

    /** `/2fa/login-verify`: an email and a second-factor code, no password.
        Tokens are issued exactly when the check passes. */
    method LoginVerify2fa(email: string, code: string, now: int, otp: (string, int) -> string,
                          jtiAccess: string, jtiRefresh: string) returns (r: Reply)
      requires Valid()
      modifies this`users
      ensures Valid()
      ensures email !in old(users) || !old(users)[email].twofa.enabled ==>
                r == Reply(Refused(401, "2FA not enabled for this user"), []) && users == old(users)
      ensures email in old(users) && old(users)[email].twofa.enabled ==>
                var u := old(users)[email];
                var verdict := CheckSecondFactor(u.twofa, fernetKey, code, now, otp);
                users == old(users)[email := u.(twofa := AfterCheck(u.twofa, verdict))] &&
                (verdict.Rejected? ==> r == Reply(Refused(verdict.status, verdict.detail), [])) &&
                (verdict.Accepted? ==> r == Reply(LoggedIn(email, u.name, u.picture, u.tier),
                                                  IssueTokens(email, now, jtiAccess, jtiRefresh, secretKey)))
      ensures r.cookies != [] <==>
                email in old(users) && old(users)[email].twofa.enabled &&
                CheckSecondFactor(old(users)[email].twofa, fernetKey, code, now, otp).Accepted?
    {
      if email !in users || !users[email].twofa.enabled {
        return Reply(Refused(401, "2FA not enabled for this user"), []);
      }
      var u := users[email];
      var verdict := CheckSecondFactor(u.twofa, fernetKey, code, now, otp);
      users := users[email := u.(twofa := AfterCheck(u.twofa, verdict))];
      if verdict.Rejected? {
        return Reply(Refused(verdict.status, verdict.detail), []);
      }
      r := Reply(LoggedIn(u.email, u.name, u.picture, u.tier), IssueTokens(u.email, now, jtiAccess, jtiRefresh, secretKey));
    }
  }

  /** The token type is not checked on the authenticated endpoints: a refresh
      token presented in the `access_token` cookie, unrevoked and unexpired,
      authenticates its subject through `get_current_user`. */
  lemma RefreshTokenAuthenticates(s: AuthService, email: string, minted: int, jti: string, at: int, reachable: bool)
    requires email in s.users && email != "" && minted <= at <= minted + REFRESH_TTL
    requires jti == "" || (reachable && !Live(s.revoked, DenyKey(jti), at))
    ensures s.CurrentUser(Some(CreateRefreshToken(SubjectOnly(email), minted, jti, s.secretKey)), at, reachable) == Ok(email)
  {
    var t := CreateRefreshToken(SubjectOnly(email), minted, jti, s.secretKey);
    assert Decode(t, s.secretKey, at) == Some(t.claims);
  }

  /** After a logout that ran to completion, an access token that was live at
      the logout is refused by `get_current_user` at every later instant, and a
      refresh token that was live is refused by `/refresh-token`, although
      their nominal expiry may lie days ahead. */
  lemma ReplayAfterLogout(s: AuthService, before: Denylist, access: Option<Token>, refresh: Option<Token>,
                          now: int, at: int, reachable: bool, jti: string)
    requires LogoutAll(before, [access, refresh], s.secretKey, now, true) == (s.revoked, None)
    ensures Revocable(access, s.secretKey, now, before) ==> s.CurrentUser(access, at, reachable).Err?
    ensures Revocable(refresh, s.secretKey, now, LogoutAll(before, [access], s.secretKey, now, true).0) ==>
              s.RefreshToken(refresh, at, reachable, jti).cookies == []
  {
    var toks := [access, refresh];
    assert toks[..0] == [] && toks[..1] == [access];
    if Revocable(access, s.secretKey, now, before) {
      LogoutCovers(before, toks, s.secretKey, now, 0);
      CoveredIsDead(access.value, s.secretKey, s.revoked, at, reachable);
    }
    if Revocable(refresh, s.secretKey, now, LogoutAll(before, [access], s.secretKey, now, true).0) {
      LogoutCovers(before, toks, s.secretKey, now, 1);
      CoveredIsDead(refresh.value, s.secretKey, s.revoked, at, reachable);
    }
  }

  /** The middleware and `get_current_user` agree: whoever the dependency
      authenticates, the middleware attaches the same subject; a token the
      middleware drops is refused; and they fail on the same store errors. */
  lemma ExtractAgreesWithCurrentUser(s: AuthService, access: Option<Token>, now: int, reachable: bool)
    ensures s.CurrentUser(access, now, reachable).Ok? ==>
              var x := s.Extract(access, now, reachable);
              x.Ok? && x.value.Some? && x.value.value.sub == Some(s.CurrentUser(access, now, reachable).value)
    ensures s.Extract(access, now, reachable) == Ok(None) ==>
              s.CurrentUser(access, now, reachable) == Err(Refused(401, "Not authenticated"))
    ensures s.Extract(access, now, reachable).Err? <==>
              s.CurrentUser(access, now, reachable).Err? && s.CurrentUser(access, now, reachable).error.Crashed?
  {
    if access.Some? {
      var v := VerifyToken(access.value, s.secretKey, now, s.revoked, reachable);
      if v.Ok? && v.value.Some? && v.value.value.IsEmpty() {
        assert !Truthy(v.value.value.sub);
      }
    }
  }

  /** The access cookie that a successful login sets authenticates the user
      through `get_current_user` for its whole fifteen minutes, as long as its
      identifier is not revoked. */
  lemma LoginAccessAuthenticates(s: AuthService, email: string, password: string, now: int,
                                 jtiAccess: string, jtiRefresh: string, at: int, reachable: bool)
    requires s.Valid() && email != "" && email in s.users
    requires CheckPassword(password, s.users[email].passwordHash) && !s.users[email].twofa.enabled
    requires now <= at <= now + ACCESS_COOKIE_MAX_AGE
    requires jtiAccess == "" || (reachable && !Live(s.revoked, DenyKey(jtiAccess), at))
    ensures var cookies := s.Login(email, password, now, jtiAccess, jtiRefresh).cookies;
            cookies != [] && s.CurrentUser(Some(cookies[0].value), at, reachable) == Ok(email)
  {
    var cookies := s.Login(email, password, now, jtiAccess, jtiRefresh).cookies;
    assert cookies == IssueTokens(email, now, jtiAccess, jtiRefresh, s.secretKey);
    assert Decode(cookies[0].value, s.secretKey, at) ==
           Some(Claims(Some(email), Some(now), Some(now + 900), Some(jtiAccess), Some("access")));
  }

  /** The refresh cookie that login sets, presented to `/refresh-token` within
      its seven days and unrevoked, yields an access cookie; that new token
      authenticates the same user for fifteen minutes while unrevoked. */
  lemma RefreshAfterLogin(s: AuthService, email: string, now: int, jtiAccess: string, jtiRefresh: string,
                          at: int, jti: string, later: int, reachable: bool)
    requires email != "" && email in s.users && now <= at <= now + REFRESH_COOKIE_MAX_AGE
    requires jtiRefresh == "" || (reachable && !Live(s.revoked, DenyKey(jtiRefresh), at))
    requires at <= later <= at + ACCESS_TTL_DEFAULT && (jti == "" || (reachable && !Live(s.revoked, DenyKey(jti), later)))
    ensures var r := s.RefreshToken(Some(IssueTokens(email, now, jtiAccess, jtiRefresh, s.secretKey)[1].value), at, reachable, jti);
            r.body == Done && |r.cookies| == 1 &&
            s.CurrentUser(Some(r.cookies[0].value), later, reachable) == Ok(email)
  {
    var t := IssueTokens(email, now, jtiAccess, jtiRefresh, s.secretKey)[1].value;
    assert Decode(t, s.secretKey, at) ==
           Some(Claims(Some(email), Some(now), Some(now + 604800), Some(jtiRefresh), Some("refresh")));
    var r := s.RefreshToken(Some(t), at, reachable, jti);
    var minted := r.cookies[0].value;
    assert minted == CreateAccessToken(Claims(Some(email), None, None, None, None), None, at, jti, s.secretKey);
    assert Decode(minted, s.secretKey, later) == Some(minted.claims);
  }
}
