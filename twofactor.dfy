/** The per-user two-factor fields of model/db.py and the checks that
    api/auth.py runs on them. Fernet encryption is a symbolic cipher keyed by
    the server's key; the TOTP code generator of RFC 6238 is a function
    parameter `otp(secret, counter)`, left uninterpreted. */
module TwoFactor {
  import opened Common

  /** `timedelta(minutes=10)`. */
  const EMAIL_CODE_TTL := 10 * 60
  /** The RFC 6238 time step used by pyotp. */
  const TOTP_INTERVAL := 30
  const EMAIL_CODE_MIN := 100000
  const EMAIL_CODE_MAX := 999999

  /** What `random.randint(100000, 999999)` can return. */
  type SixDigit = n: int | EMAIL_CODE_MIN <= n <= EMAIL_CODE_MAX witness EMAIL_CODE_MIN

  /** A stored `twofa_secret_enc`: what `fernet.encrypt` produced, or any other
      text (which `fernet.decrypt` rejects). */
  datatype Cipher = Sealed(key: string, plain: string) | Damaged(raw: string)

  function Encrypt(key: string, plain: string): (c: Cipher)
    ensures c.Sealed? && c.key == key
  {
    Sealed(key, plain)
  }

  /** `decrypt_2fa_secret`: `None` for a missing value, a damaged one, or one
      sealed under another key (every exception becomes `None`). */
  function Decrypt(key: string, enc: Option<Cipher>): (r: Option<string>)
    ensures forall p :: enc == Some(Encrypt(key, p)) ==> r == Some(p)
    ensures r.Some? ==> enc.Some? && enc.value.Sealed? && enc.value.key == key
  {
    match enc
    case Some(Sealed(k, p)) => if k == key then Some(p) else None
    case _ => None
  }

  /** The five columns `twofa_enabled`, `twofa_type`, `twofa_secret_enc`,
      `twofa_email_code`, `twofa_email_code_expiry`. */
  datatype TwoFactorState = TwoFactorState(enabled: bool, kind: Option<string>, secretEnc: Option<Cipher>,
                                           emailCode: Option<string>, emailCodeExpiry: Option<int>)

  /** The column defaults of a new user, and what `disable_2fa` writes. */
  const Off := TwoFactorState(false, None, None, None, None)

  // ----- email codes ------------------------------------------------------

  function DigitChar(d: nat): char
    requires d < 10
  {
    ('0' as int + d) as char
  }

  /** `f"{n}"` for a non-negative integer. */
  function DecimalString(n: nat): (s: string)
    ensures |s| >= 1
    ensures forall i :: 0 <= i < |s| ==> '0' <= s[i] <= '9'
  {
    if n < 10 then [DigitChar(n)] else DecimalString(n / 10) + [DigitChar(n % 10)]
  }

  /** The value a string of decimal digits denotes (its inverse). */
  function DecimalValue(s: string): nat
    requires forall i :: 0 <= i < |s| ==> '0' <= s[i] <= '9'
  {
    if s == [] then 0 else DecimalValue(s[..|s| - 1]) * 10 + (s[|s| - 1] as int - '0' as int)
  }

  lemma {:induction false} DecimalRoundTrip(n: nat)
    ensures DecimalValue(DecimalString(n)) == n
  {
    if n >= 10 {
      var s := DecimalString(n);
      assert s[..|s| - 1] == DecimalString(n / 10);
      DecimalRoundTrip(n / 10);
    }
  }

  /** Distinct draws give distinct codes. */
  lemma DecimalStringInjective(m: nat, n: nat)
    requires DecimalString(m) == DecimalString(n)
    ensures m == n
  {
    DecimalRoundTrip(m);
    DecimalRoundTrip(n);
  }

  lemma {:induction false} DecimalLength(n: nat, k: nat, lo: nat)
    requires k >= 1 && lo == Pow10(k - 1) && lo <= n < lo * 10
    ensures |DecimalString(n)| == k
    decreases k
  {
    if k > 1 {
      assert Pow10(k - 1) == 10 * Pow10(k - 2);
      DecimalLength(n / 10, k - 1, Pow10(k - 2));
    }
  }

  function Pow10(k: nat): nat {
    if k == 0 then 1 else 10 * Pow10(k - 1)
  }

  /** Every email code is six decimal digits. */
  lemma SixDigitCode(n: SixDigit)
    ensures |DecimalString(n)| == 6
  {
    assert Pow10(5) == 100000;
    DecimalLength(n, 6, 100000);
  }

  /** The email branch's acceptance test: the stored code equals the submitted
      one, an expiry is stored, and the deadline has not passed. */
  predicate EmailAccepts(tf: TwoFactorState, code: string, now: int) {
    tf.emailCode == Some(code) && tf.emailCodeExpiry.Some? && now <= tf.emailCodeExpiry.value
  }

  /** Setting both code fields to `None` after a successful email check. */
  function ConsumeEmailCode(tf: TwoFactorState): (r: TwoFactorState)
    ensures forall code, at :: !EmailAccepts(r, code, at)
    ensures r.enabled == tf.enabled && r.kind == tf.kind && r.secretEnc == tf.secretEnc
  {
    tf.(emailCode := None, emailCodeExpiry := None)
  }

  /** The email branch of `enable_2fa`: enabled at once, the new code and a
      deadline ten minutes ahead; the TOTP secret column is left as it was. */
  function EnableEmail(tf: TwoFactorState, draw: SixDigit, now: int): (r: TwoFactorState)
    ensures r.enabled && r.kind == Some("email") && r.secretEnc == tf.secretEnc
    ensures forall code, at :: EmailAccepts(r, code, at) <==> code == DecimalString(draw) && at <= now + 600
  {
    tf.(enabled := true, kind := Some("email"), emailCode := Some(DecimalString(draw)),
        emailCodeExpiry := Some(now + EMAIL_CODE_TTL))
  }

  /** The TOTP branch of `enable_2fa`: enabled at once with the encrypted
      secret; the email code columns are left as they were. */
  function EnableTotp(tf: TwoFactorState, fernetKey: string, secret: string): (r: TwoFactorState)
    ensures r.enabled && r.kind == Some("totp") && Decrypt(fernetKey, r.secretEnc) == Some(secret)
    ensures r.emailCode == tf.emailCode && r.emailCodeExpiry == tf.emailCodeExpiry
  {
    tf.(enabled := true, kind := Some("totp"), secretEnc := Some(Encrypt(fernetKey, secret)))
  }

  // ----- TOTP -------------------------------------------------------------

  /** pyotp's counter `int(now / 30)`, which truncates toward zero. */
  function TimeStep(now: int): int {
    if now >= 0 then now / TOTP_INTERVAL else -((-now) / TOTP_INTERVAL)
  }

  /** `TOTP(secret).verify(code, valid_window=1)`: the code of the current
      step or of either neighbouring step. */
  predicate TotpAccepts(otp: (string, int) -> string, secret: string, code: string, now: int) {
    var c := TimeStep(now);
    code == otp(secret, c - 1) || code == otp(secret, c) || code == otp(secret, c + 1)
  }

  /** A code an authenticator shows at instant `shown` is accepted by a check
      made at any instant at most 30 seconds earlier or later. */
  lemma TotpSkew(otp: (string, int) -> string, secret: string, shown: int, at: int)
    requires 0 <= shown && 0 <= at && shown - 30 <= at <= shown + 30
    ensures TotpAccepts(otp, secret, otp(secret, TimeStep(shown)), at)
  {
    var c, c' := TimeStep(shown), TimeStep(at);
    assert shown == 30 * c + shown % 30 && at == 30 * c' + at % 30;
    assert c - 1 <= c' <= c + 1;
    if c' == c + 1 {
      assert otp(secret, TimeStep(shown)) == otp(secret, c' - 1);
    } else if c' == c - 1 {
      assert otp(secret, TimeStep(shown)) == otp(secret, c' + 1);
    }
  }

  /** A code from two steps away is refused, unless it happens to equal one of
      the three codes of the window. */
  lemma TotpTwoStepsRejected(otp: (string, int) -> string, secret: string, at: int)
    requires var c := TimeStep(at); var far := otp(secret, c + 2);
             far != otp(secret, c - 1) && far != otp(secret, c) && far != otp(secret, c + 1)
    ensures !TotpAccepts(otp, secret, otp(secret, TimeStep(at) + 2), at)
  {
  }

  // ----- the second-factor check ------------------------------------------

  /** The outcome of the second-factor branch shared by `/2fa/verify` and
      `/2fa/login-verify`. */
  datatype Check = Accepted | Rejected(status: int, detail: string)

  /** The second-factor check on the stored state. */
  function CheckSecondFactor(tf: TwoFactorState, fernetKey: string, code: string, now: int,
                             otp: (string, int) -> string): (r: Check)
    ensures r.Accepted? <==>
              (tf.kind == Some("totp") && Truthy(Decrypt(fernetKey, tf.secretEnc)) &&
               TotpAccepts(otp, Decrypt(fernetKey, tf.secretEnc).value, code, now)) ||
              (tf.kind == Some("email") && EmailAccepts(tf, code, now))
    ensures tf.kind != Some("totp") && tf.kind != Some("email") ==> r == Rejected(400, "2FA not enabled")
    ensures tf.kind == Some("totp") && !Truthy(Decrypt(fernetKey, tf.secretEnc)) ==> r == Rejected(400, "2FA secret error")
    ensures r.Rejected? ==> r.status in {400, 401}
  {
    if tf.kind == Some("totp") then
      var secret := Decrypt(fernetKey, tf.secretEnc);
      if !Truthy(secret) then Rejected(400, "2FA secret error")
      else if !TotpAccepts(otp, secret.value, code, now) then Rejected(401, "Invalid 2FA code")
      else Accepted
    else if tf.kind == Some("email") then
      if !EmailAccepts(tf, code, now) then Rejected(401, "Invalid or expired 2FA code")
      else Accepted
    else Rejected(400, "2FA not enabled")
  }

  /** The state after a check: a passed email check consumes the code, nothing
      else changes anything. */
  function AfterCheck(tf: TwoFactorState, verdict: Check): (r: TwoFactorState)
    ensures verdict.Accepted? && tf.kind == Some("email") ==> r == ConsumeEmailCode(tf)
    ensures !(verdict.Accepted? && tf.kind == Some("email")) ==> r == tf
  {
    if verdict.Accepted? && tf.kind == Some("email") then ConsumeEmailCode(tf) else tf
  }

  /** An email code passes at most once: after a passing check, every later
      email check fails, whatever code and instant, until the code is reissued. */
  lemma EmailCodeSingleUse(tf: TwoFactorState, fernetKey: string, code: string, now: int,
                           otp: (string, int) -> string, code2: string, later: int)
    requires tf.kind == Some("email") && CheckSecondFactor(tf, fernetKey, code, now, otp).Accepted?
    ensures CheckSecondFactor(AfterCheck(tf, Accepted), fernetKey, code2, later, otp)
            == Rejected(401, "Invalid or expired 2FA code")
  {
  }

  /** Enrolling by email and then presenting the emailed code within ten
      minutes passes; after the deadline it fails. */
  lemma EmailEnrolThenCheck(tf: TwoFactorState, fernetKey: string, draw: SixDigit, now: int,
                            otp: (string, int) -> string, at: int)
    ensures CheckSecondFactor(EnableEmail(tf, draw, now), fernetKey, DecimalString(draw), at, otp).Accepted?
            <==> at <= now + EMAIL_CODE_TTL
  {
  }

  // ----- the email branch as the code runs it ------------------------------

  /** The email branch's outcome when the expiry column comes back from the
      store: the column is a `DateTime` without a time zone, so the value
      read back is naive, and comparing it with the aware
      `datetime.now(timezone.utc)` raises `TypeError`. */
  datatype StoredCheck = Checked(verdict: Check) | TypeErrorRaised

  /** The email test `code != req.code or not expiry or now > expiry`, with
      Python's short-circuit `or`, on a naive stored expiry: a wrong code and
      a missing expiry are refused before the comparison is reached, and
      every other case reaches it and raises. */
  function EmailCheckAsWritten(tf: TwoFactorState, code: string): (r: StoredCheck)
    ensures r.TypeErrorRaised? <==> tf.emailCode == Some(code) && tf.emailCodeExpiry.Some?
    ensures r.Checked? ==> r.verdict == Rejected(401, "Invalid or expired 2FA code")
  {
    if tf.emailCode != Some(code) then Checked(Rejected(401, "Invalid or expired 2FA code"))
    else if tf.emailCodeExpiry.None? then Checked(Rejected(401, "Invalid or expired 2FA code"))
    else TypeErrorRaised
  }

  /** As written, no email code is ever accepted: the code `enable_2fa` just
      sent raises at the expiry comparison at once, where the intended check
      (`EmailEnrolThenCheck`) accepts it for ten minutes. */
  lemma EnrolledCodeRaises(tf: TwoFactorState, fernetKey: string, draw: SixDigit, now: int,
                           otp: (string, int) -> string)
    ensures EmailCheckAsWritten(EnableEmail(tf, draw, now), DecimalString(draw)) == TypeErrorRaised
    ensures CheckSecondFactor(EnableEmail(tf, draw, now), fernetKey, DecimalString(draw), now, otp).Accepted?
    ensures forall t, code :: EmailCheckAsWritten(t, code) != Checked(Accepted)
  {
    EmailEnrolThenCheck(tf, fernetKey, draw, now, otp, now);
  }
}
