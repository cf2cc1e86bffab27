# MazGPT authentication, CSRF guard, chat memory, skill router and CLI state

This project models, in Dafny, the core of the MazGPT backend and command line:

- **Session tokens** (`Jwt`): the claims record (`sub`, `iat`, `exp`, `jti`, `type`)
  of section 4.1 of RFC 7519, signed with HS256 (section 3.2 of RFC 7518). Signing is a
  symbolic, injective encode/decode pair keyed by the server secret. The JWT
  library rejects a token exactly when `exp < now`. Access tokens live 15 minutes
  by default. Refresh tokens live 7 days.
- **Revocation** (`Revocation`): the Redis denylist is a map from
  `jwt:revoked:<jti>` to the last instant the key still exists. `verify_token`
  consults it. Whether the store can be reached is an input. An unreachable store
  raises, and that exception is never read as "not revoked".
- **Two-factor state** (`TwoFactor`): the five per-user 2FA columns, Fernet as a
  symbolic cipher, the six-digit email code, and the TOTP window of RFC 6238.
  Section 4 of RFC 6238 defines the time-step counter and section 5.2 allows the
  adjacent steps. The code generator `otp(secret, counter)` is left uninterpreted.
- **Endpoints** (`Auth`): `AuthService` is a class holding the user table (keyed by
  email) and the denylist. It models signup, login, logout, refresh, the
  `get_current_user` dependency, the JWT middleware and the four 2FA endpoints.
- **CSRF guard** (`Csrf`): the double-submit check of `CSRFMiddleware.dispatch`. It is a
  function of the request and of the downstream handler.
- **Chat memory** (`Memory`): `ChatMemory` is a class over its `history` sequence,
  with `add`, `get_recent`, `clear` and the greedy newest-first context window.
- **Skill router** (`Router`): `SkillRouter` is a class. It covers keyword
  classification, the skill map built by nested loops, and the choice between an
  ensemble strategy and a single model. `generate(path, query)` is a function
  parameter.
- **CLI** (`Cli`): the `/project` and `/prefs` branches of `main()`, in two parts:
  - `Parse` turns a line into a command, following Python's `lower`, `strip`,
    `split` and `join`.
  - `Session.Step` carries the command out on the four mutable variables. It is
    specified by the pure `Transition`.
  - `Session.Run` is the loop, specified by `RunFrom`.

The model keeps behaviours of the code that may not be what was intended:

- A refresh token placed in the `access_token` cookie authenticates, because the
  type is not checked (`Auth.RefreshTokenAuthenticates`).
- `/refresh-token` sets a 30-minute cookie on a 15-minute token.
- `enable_2fa` switches 2FA on before any code has been verified.
- `login` never mints an email code.
- `login-verify` takes no password.
- `get_recent(0)` returns every entry of the project.
- Under ensembling, a strategy whose method is neither "best" nor "first" still runs
  its models. An unloaded name among them raises.
- The token type is never checked by `verify_token` or `get_current_user`
  (api/auth.py:109-117, 62-70), so any live token authenticates.
- A store error raised inside `verify_token` escapes `JWTAuthMiddleware.dispatch`
  (api/auth.py:120-132) instead of leaving the request unauthenticated.
- `/refresh-token` sets `max_age=ACCESS_TOKEN_EXPIRE_MINUTES*60`, which is 30 minutes
  (api/auth.py:222), while `login` sets `15*60` (api/auth.py:171); the token inside
  lives 15 minutes in both.
- The email code check compares an aware `now` with the naive expiry read back
  from SQLite, which raises (see "## Findings"). The rest of the model uses the
  intended comparison.

## Model

| member | source | states |
|---|---|---|
| Common.Lower | model/router.py:23 | same length; each character is its ASCII lower-case form |
| Common.Get | api/csrf.py:18-19 | `dict.get`: `Some` of the stored value for a present key, `None` otherwise |
| Jwt.Decode | api/auth.py:111 | decodes exactly a token signed with HS256 under this key whose `exp` has not passed, giving its claims |
| Jwt.Encode | api/auth.py:99 | round trip: the token decodes to these claims under this key until they expire, and under no other key |
| Jwt.EncodeInjective | api/auth.py:99 | different claims never encode to the same token |
| Jwt.CreateAccessToken | api/auth.py:94-99 | caller's `sub`, `iat` = now, the fresh `jti`, type "access"; `exp` = now + delta, with 15 minutes for a missing or zero delta; decodes exactly until `exp` |
| Jwt.CreateRefreshToken | api/auth.py:101-106 | caller's claims with `iat` = now, the fresh `jti`, type "refresh", `exp` = now + 7 days; decodes exactly until then |
| Jwt.AccessNeverRefresh | api/auth.py:94-106 | an access token and a refresh token are never the same token |
| Revocation.DenyKey | api/auth.py:88 | the key is the prefix followed by the `jti` |
| Revocation.DenyKeyInjective | api/auth.py:88-91 | distinct identifiers get distinct Redis keys |
| Revocation.IsRevoked | api/auth.py:90-91 | false for an empty `jti` (no lookup); otherwise the key's existence, or the store's exception |
| Revocation.Revoke | api/auth.py:85-88 | an empty `jti` changes nothing; otherwise the TTL is max(0, exp - now); on the model's whole-second clock the entry lives exactly until `exp`; no other key changes; the failure cases are named |
| Revocation.VerifyToken | api/auth.py:109-117 | sound (accepted claims are genuine, unexpired and not denylisted) and complete (every such token is accepted); a store failure is an error, never an acceptance |
| Revocation.VerifyIgnoresType | api/auth.py:109-117 | the verdict does not depend on the `type` claim |
| Revocation.CoveredIsDead | api/auth.py:113-114 | on the model's whole-second clock, a token whose `jti` is denylisted until its `exp` never verifies again, at any instant |
| Revocation.LogoutStep | api/auth.py:181-185 | a missing, invalid or revoked cookie revokes nothing; a verified one with a `jti` and a non-zero `exp` is revoked until `exp`; one lacking either is left alone; a store failure is passed on |
| Revocation.StepKeepsLive | api/auth.py:180-185 | a logout step never removes or shortens a live entry |
| Revocation.KeepCovered | api/auth.py:180-185 | later logout steps keep a covering entry |
| Revocation.LogoutCovers | api/auth.py:176-188 | after a logout loop without a fault, every cookie that verified and carried `jti` and `exp` is covered by the denylist |
| TwoFactor.Encrypt | api/auth.py:226-227 | the ciphertext is sealed under the server's key |
| TwoFactor.Decrypt | api/auth.py:229-233 | round trip with `Encrypt` under the same key; `None` for a missing, damaged or foreign ciphertext |
| TwoFactor.DecimalString | api/auth.py:257 | `f"{n}"` is a non-empty string of decimal digits |
| TwoFactor.DecimalRoundTrip | api/auth.py:257 | the digits denote the number drawn |
| TwoFactor.DecimalStringInjective | api/auth.py:257 | distinct draws give distinct codes |
| TwoFactor.SixDigitCode | api/auth.py:257 | every draw in [100000, 999999] gives a six-character code |
| TwoFactor.ConsumeEmailCode | api/auth.py:285-286 | clearing the code fields makes every later email check fail, and keeps the other columns |
| TwoFactor.EnableEmail | api/auth.py:255-262 | enabled at once with type "email"; accepts exactly the drawn code until now + 10 minutes; the TOTP secret column is untouched |
| TwoFactor.EnableTotp | api/auth.py:245-251 | enabled at once with type "totp"; the stored secret decrypts to the generated one; the email columns are untouched |
| TwoFactor.TotpSkew | api/auth.py:275-276 | a code shown at one instant is accepted by a check up to 30 seconds earlier or later |
| TwoFactor.TotpTwoStepsRejected | api/auth.py:276 | a code from two steps ahead is refused unless it equals a code of the window |
| TwoFactor.CheckSecondFactor | api/auth.py:271-290 | accepted iff a TOTP user's secret decrypts and the code is in the window, or an email user's code matches and has not expired; the 400 refusals for a missing type and an undecryptable secret; every refusal is 400 or 401 |
| TwoFactor.AfterCheck | api/auth.py:284-287 | only a passed email check changes the state, and it consumes the code |
| TwoFactor.EmailCodeSingleUse | api/auth.py:280-287 | after a passing email check, every later email check fails, whatever code and instant |
| TwoFactor.EmailEnrolThenCheck | api/auth.py:255-288 | after email enrolment, the emailed code passes exactly until the ten-minute deadline |
| TwoFactor.EmailCheckAsWritten | api/auth.py:280-283 | as written: a wrong code or a missing expiry gives 401; a matching code with a stored expiry always raises at the naive/aware comparison |
| TwoFactor.EnrolledCodeRaises | api/auth.py:255-283 | as written, the freshly sent code raises where the intended check accepts it, and no email code is ever accepted |
| Csrf.BootstrapCookie | api/csrf.py:26-29 | the `mazgpt-csrf` cookie: readable by script, max-age 8 hours, same-site Lax, secure unless `TESTING` is set |
| Csrf.Dispatch | api/csrf.py:14-31 | a state-changing method without a matching non-empty pair gets 403; with one, it is forwarded untouched; a safe method without the cookie gains exactly the bootstrap cookie; every other request passes through |
| Csrf.BootstrapOnce | api/csrf.py:24-30 | a safe request gains one CSRF cookie when it has none and none when it has one |
| Csrf.RefusalIgnoresHandler | api/csrf.py:17-21 | a refused request never reaches the handler: the 403 is the same whatever the handler does |
| Csrf.TokenReusable | api/csrf.py:14-31 | the guard keeps no state: an accepted pair is accepted on every checked request that carries it |
| Auth.HashPassword | api/auth.py:82-83 | the symbolic digest accepts that password and no other |
| Auth.IssueTokens | api/auth.py:169-172 | the access and refresh cookies with their flags and max-ages; each decodes to the subject's claims while the cookie lives, and not after |
| Auth.AuthService.CurrentUser | api/auth.py:62-70 | a verified token whose truthy `sub` is a stored email authenticates that user, and one naming nobody gives 401 "User not found"; no token, an invalid or revoked one, or a falsy `sub` gives 401 "Not authenticated"; a crash exactly when verification hits a store failure |
| Auth.AuthService.Extract | api/auth.py:120-132 | attaches exactly the claims `verify_token` accepts when they are non-empty (sound: never a revoked token; complete: every unrevoked decodable one); no token or an invalid one gives no user and no error; an error exactly when verification hits a store failure |
| Auth.ExtractAgreesWithCurrentUser | api/auth.py:62-70 | whoever `get_current_user` authenticates, the middleware attaches the same subject; a token the middleware drops is refused with 401; both fail on the same store errors |
| Auth.LoginAccessAuthenticates | api/auth.py:161-173 | the access cookie of a successful login authenticates its user for fifteen minutes while unrevoked |
| Auth.RefreshAfterLogin | api/auth.py:214-223 | the refresh cookie of a login, used within seven days and unrevoked, yields an access cookie that authenticates the same user for fifteen minutes while unrevoked |
| Auth.AuthService.Signup | api/auth.py:143-159 | refusals in order: CSRF pair, existing email, password under 8 characters; otherwise exactly the new user is added, with 2FA off |
| Auth.AuthService.Login | api/auth.py:161-173 | the same 401 for an unknown email and a wrong password; cookies iff the password is right and 2FA is off, and then the body is the user's email, name, picture and tier; a challenge iff 2FA is on |
| Auth.AuthService.Logout | api/auth.py:176-188 | the new denylist is the logout fold over the two cookies; both cookies are deleted unless the store failed |
| Auth.AuthService.RefreshToken | api/auth.py:214-223 | a cookie is set exactly for a verified, unrevoked token of type "refresh"; it is a 15-minute access token for the same subject in a 30-minute cookie; a missing, invalid, revoked or wrongly typed token gives 401 "Invalid refresh token"; a store failure crashes |
| Auth.AuthService.Enable2fa | api/auth.py:243-267 | for the current user, "totp" and "email" switch 2FA on at once with their state; an unknown type gives 400 and no change; an unauthenticated call changes nothing |
| Auth.AuthService.Verify2fa | api/auth.py:269-290 | the reply is the second-factor verdict; only a passed email check changes the stored state |
| Auth.AuthService.Disable2fa | api/auth.py:292-300 | all five 2FA columns of the current user back to their defaults |
| Auth.AuthService.LoginVerify2fa | api/auth.py:312-340 | 401 for an unknown user or 2FA off; tokens are issued iff the second-factor check passes; no password is asked |
| Auth.RefreshTokenAuthenticates | api/auth.py:62-70 | a live, unrevoked refresh token in the access cookie authenticates its subject |
| Auth.ReplayAfterLogout | api/auth.py:176-188 | after a completed logout, the revoked access token fails `get_current_user` and the revoked refresh token mints nothing, at every later instant |
| Memory.Filter | model/memory.py:33 | no longer than the history, and only entries of that project (a missing project counts as "default") |
| Memory.Without | model/memory.py:40 | no longer than the history, and only entries of other projects |
| Memory.FilterMembers | model/memory.py:33 | every entry of the project is kept |
| Memory.WithoutMembers | model/memory.py:40 | every entry of another project is kept |
| Memory.FilterAppend | model/memory.py:24-29 | filtering distributes over concatenation |
| Memory.WithoutAppend | model/memory.py:40 | removing a project distributes over concatenation |
| Memory.FilterAt | model/memory.py:33 | the history's order is kept: what is kept before an entry precedes it, what is kept after follows it |
| Memory.WithoutAt | model/memory.py:40 | the same order property for the entries `clear` keeps |
| Memory.FilterWithoutSplit | model/memory.py:33-40 | every entry is in exactly one of the two lists: their lengths add up to the history's |
| Memory.WithoutKeepsOthers | model/memory.py:36-41 | removing a project keeps every other project's entries in order and leaves none of its own |
| Memory.PySliceFrom | model/memory.py:34 | Python's `s[start:]` is a suffix: `len(s) - start` items for 0 <= start <= len(s), the last `-start` for -len(s) <= start < 0, none past the end, all before the start |
| Memory.ChatMemory.constructor | model/memory.py:15-17 | the history is the loaded one |
| Memory.ChatMemory.Add | model/memory.py:23-30 | exactly one entry appended at the end; only that project's filtered list grows, by that entry |
| Memory.ChatMemory.GetRecent | model/memory.py:32-34 | for n >= 1 the last min(n, count) entries of the project in order; n = 0 gives all; a negative n drops the first -n |
| Memory.ChatMemory.Clear | model/memory.py:36-41 | `None` empties the history; a project removes exactly its entries and keeps every other project's |
| Memory.Window | model/memory.py:48-55 | the loop: a suffix of the entries it walks, within both bounds, ending only where the next older entry would break a bound |
| Memory.ChatMemory.GetContextWindow | model/memory.py:43-56 | a suffix of the project's entries within both bounds, stopping at the first older entry that would break a bound |
| Router.DeclarersMembership | model/router.py:15-20 | a name is listed under a skill iff some model of that name declares it |
| Router.PathsDomain | model/router.py:9-12 | every configured name has a model, nothing else has one, and the last declaration's path wins |
| Router.LongestIndex | model/router.py:43 | `max(outputs, key=len)`: an output of greatest length, the first such |
| Router.LongestIndexUnique | model/router.py:43 | the first index of greatest length is unique, so it is the one `max` picks |
| Router.Outputs | model/router.py:41 | every name has a model iff the outputs are produced, each its model's output in order; otherwise the first unknown name raises |
| Router.Single | model/router.py:46 | the first listed model answers; no model gives the fixed message; an unloaded name raises |
| Router.SkillRouter.constructor | model/router.py:6-13 | the paths and the skill map are the ones the configuration determines |
| Router.SkillRouter.BuildSkillMap | model/router.py:15-20 | every skill some model declares maps to its declarers in configuration order; no other key; no empty list |
| Router.SkillRouter.Classify | model/router.py:22-32 | one of the five skills, by case-insensitive substring match with the fixed precedence |
| Router.SkillRouter.Candidates | model/router.py:36 | the skill's list, else the "general" list, else none |
| Router.SkillRouter.Route | model/router.py:34-46 | the answer or exception of `route`, through the strategy loop with its early returns |
| Router.ClassifyIgnoresCase | model/router.py:23 | lowering the query first does not change its class |
| Router.ClassifyCodeAbsorbs | model/router.py:22-25 | a query classed as code stays code whatever text surrounds it |
| Router.EnsembleNone | model/router.py:38-40 | with no strategy for the skill, the ensemble gives no answer |
| Router.EnsembleSkip | model/router.py:39-40 | strategies for other skills are passed over |
| Router.RouteFallback | model/router.py:35-46 | without a strategy for the skill, the skill's list or the "general" list answers through the single-model branch |
| Router.SingleNeverRaises | model/router.py:46 | every name in the skill map has a model, so the single-model branch never raises |
| Router.EnsembleBest | model/router.py:37-43 | "best" returns an output at least as long as every other and longer than every earlier one |
| Router.EnsembleFirst | model/router.py:37-45 | "first" returns the first model's output |
| Router.EnsembleOtherMethod | model/router.py:39-45 | a strategy with another method is passed over after its models run; an unloaded name among them raises |
| Cli.Split | cli_entrypoint.py:77 | every piece of `split()` is non-empty and has no white space |
| Cli.StripLeft | cli_entrypoint.py:95 | `lstrip()` removes exactly the leading white space |
| Cli.StripRight | cli_entrypoint.py:95 | `rstrip()` removes exactly the trailing white space |
| Cli.SplitJoin | cli_entrypoint.py:95 | `split()` undoes `' '.join` of pieces `split()` could return |
| Cli.Normalize | cli_entrypoint.py:96 | same length; each character lowered, with ' ' and '/' turned into '-'; the result is normal |
| Cli.NormalizeIdempotent | cli_entrypoint.py:103 | a normal identifier is its own normalisation, so normalising twice is normalising once |
| Cli.ParsePrefs | cli_entrypoint.py:77-90 | a `/prefs` line is show, set or the usage message |
| Cli.PrefsBranches | cli_entrypoint.py:78-90 | show iff exactly `show` follows; set iff exactly `set`, a key and a value follow, carrying those two; usage otherwise |
| Cli.ParseProject | cli_entrypoint.py:93-141 | a `/project` line is one of its six branches; create keeps the stripped name beside its normalised id; every looked-up id is normalised |
| Cli.ProjectBranches | cli_entrypoint.py:93-141 | create and select iff at least one word follows them, with the stripped join of the words; delete and archive iff exactly one word follows, with its normalised form; list iff nothing follows; usage otherwise |
| Cli.Parse | cli_entrypoint.py:72-92 | quit iff the lowered line is an exit word; unhandled iff no branch's prefix matches; every project id normalised; `/prefs set` carries two words |
| Cli.ProjectLine | cli_entrypoint.py:92-93 | a line starting with `/project` takes the `/project` branch |
| Cli.ProjectCommand | cli_entrypoint.py:92-93 | `/project <sub> <words>` is read as those pieces |
| Cli.ParseCreate | cli_entrypoint.py:94-96 | `/project create <words>` creates the joined name under its normalised id |
| Cli.ParseSelect | cli_entrypoint.py:102-103 | `/project select <words>` selects the normalised join of the words |
| Cli.ParseDelete | cli_entrypoint.py:109-110 | `/project delete <id>` deletes the normalised id |
| Cli.ParseArchive | cli_entrypoint.py:120-121 | `/project archive <id>` archives the normalised id |
| Cli.PrefsLine | cli_entrypoint.py:76-77 | a line starting with `/prefs` takes the `/prefs` branch |
| Cli.PrefsCommand | cli_entrypoint.py:76-77 | `/prefs <sub> <words>` is read as those pieces |
| Cli.ParsePrefsSet | cli_entrypoint.py:82-86 | `/prefs set <key> <value>` sets that key to that value |
| Cli.TransitionConsistent | cli_entrypoint.py:102-131 | every command keeps the default project and a current project that exists |
| Cli.CreateAddsOnly | cli_entrypoint.py:94-101 | create adds exactly the new id with its name, leaves a taken id alone, and never switches project |
| Cli.CurrentMovesOnlyToProjects | cli_entrypoint.py:102-131 | the current project changes only to an existing project, and only select moves it off the default |
| Cli.RemoveCurrent | cli_entrypoint.py:109-131 | deleting or archiving the current project falls back to the default; archive moves the id into the archived set |
| Cli.DefaultNeverRemoved | cli_entrypoint.py:111-124 | no command removes the default project |
| Cli.PreferencesKeepKeys | cli_entrypoint.py:76-91 | the preference keys never change; only `/prefs set` changes a value, and only its own key's |
| Cli.PrefsRefusalsChangeNothing | cli_entrypoint.py:82-90 | an unknown key or a malformed `/prefs` line changes no state |
| Cli.RunConsistent | cli_entrypoint.py:70-75 | over any run of lines the state stays consistent, and only the last reply can be the goodbye |
| Cli.Session.constructor | cli_entrypoint.py:66-69 | the initial projects, current project, archived set and preferences, which are consistent |
| Cli.Session.Step | cli_entrypoint.py:72-142 | the new variables and the printed reply are `Transition` of the old ones on the parsed line |
| Cli.Session.Run | cli_entrypoint.py:70-75 | the loop's final state and replies are `RunFrom` over the parsed lines, stopping after the quit |

## Findings

| source | as written | input that shows it | evidently intended | confidence | as-written member | corrected member |
|---|---|---|---|---|---|---|
| api/auth.py:280-283, 325-328 with model/db.py:27, 89 | `datetime.now(timezone.utc) > user.twofa_email_code_expiry` compares an aware instant with the naive value SQLite returns for a `DateTime` column, which raises `TypeError` | enable email 2FA, then send the emailed code to `/2fa/verify` or `/2fa/login-verify` within ten minutes | the code is accepted until the ten-minute deadline and then consumed | not executed; the naive read-back follows from the column type and the SQLite dialect | TwoFactor.EnrolledCodeRaises | TwoFactor.EmailEnrolThenCheck |

## Left out

- I/O: the JSON load and save of `ChatMemory`, the YAML parse and model loading of `SkillRouter`, and the `input`/`print` of the CLI. Each is replaced by the values it would read or the reply it would print.
- Clocks and random draws are parameters: `now`, `uuid4`, `secrets.token_urlsafe`, `random.randint` (as a `SixDigit` draw) and `pyotp.random_base32`. The timestamp text of a memory entry is a parameter too.
- Cryptography is symbolic: HMAC signing, bcrypt, Fernet and the TOTP code function (`otp` is an uninterpreted parameter).
- Auth.HashPassword: the symbolic digest compares the whole password. bcrypt uses only the first 72 bytes of the UTF-8 encoding, so a longer password also passes `login` when it shares those bytes with the stored one; bcrypt 5 instead raises `ValueError` on such input. Neither behaviour is modelled.
- Claims other than the five are not modelled. The caller's dictionary is a value, so it cannot be mutated.
- Revocation.Revoke: time is one whole-second clock shared by the token library, the TTL computation and the store. In the code, `revoke_jti` truncates the current time to a second, Redis expires keys on its own clock, and the JWT library compares `exp` with its own reading. A revoked token may therefore verify again for part of a second before `exp`, or longer under clock drift. The model has no such window, so `CoveredIsDead` and `ReplayAfterLogout` hold only on the shared clock.
- Revocation.Revoke: a zero TTL (`exp == now`) is modelled as a store fault (`ZeroTtl`), because Redis refuses a non-positive `SETEX` expiry. What the client library then does is outside the code.
- The store's reachability is one boolean per request. A store that fails between two calls of one request is not modelled.
- Concurrency: the email-code compare-then-clear is not atomic in the code. Single use is proved for sequential requests only.
- TwoFactor.CheckSecondFactor, TwoFactor.EmailEnrolThenCheck, Auth.AuthService.Verify2fa and Auth.AuthService.LoginVerify2fa: the email expiry is read as an integer comparison with `now`. In the code, `twofa_email_code_expiry` is a naive `DateTime` column (model/db.py:27) on SQLite (model/db.py:89). Comparing it with `datetime.now(timezone.utc)` (api/auth.py:282, 327) raises `TypeError`, so as written no email code is ever accepted. The email acceptance these members prove is the intended behaviour; `TwoFactor.EmailCheckAsWritten` and `TwoFactor.EnrolledCodeRaises` model the code as written.
- Pydantic's `EmailStr` normalisation and validation are not modelled. Emails are compared as given.
- The otpauth URL that `/2fa/enable` returns for TOTP is not modelled, nor the console message with the email code.
- The `/reset-password`, `/profile`, `/change-password` and `/2fa/status` endpoints, the exception handlers and the middleware ordering are not part of this model. The CSRF middleware runs outside the JWT middleware.
- Common.Lower: ASCII case mapping only. Python's `str.lower` also lowers other Unicode letters.
- A malformed router configuration (missing keys, which raise `KeyError`) is not modelled. The `method` key of a strategy is the field `combine`.
- `generate` is a deterministic function of the model path and the query.
- The other CLI commands (`/newchat`, `/search`, the plugins, export and import) and `semantic_memory.persist()` are not part of this model. Such a line is `Other` and leaves the state alone.
- Cli.Session.Run: the Python loop reads lines until one quits. The model also stops when the given lines run out, where Python's `input` would raise.
