# Two-factor login and account lockout of RMS_SYSTEM, in Dafny

RMS_SYSTEM is a municipal rates and permits application. Its login has two
layers, and this project models both, together with a few small string
rules around them.

The server layer (an Express API over a MongoDB user collection) does these
things:

- It checks the password.
- It locks an account for 30 minutes after five failed attempts.
- If the account has two-factor authentication (2FA) on, it issues a
  five-minute challenge token. The user then completes login with a TOTP
  code or a single-use recovery code. Otherwise it issues a seven-day
  session token straight away.
- It keeps a per-user list of live session tokens. Two guards check that
  list: `auth` admits any such token, and `require2FA` also demands the
  "second factor passed" claim.

The client layer is a React demo that re-implements sign-in, the second
factor and enrolment over an in-memory user list.

The small string rules are the normalisation and validation of Ghanaian
phone numbers (the SMS service and its API route), and the year-scoped
serial numbers (`PROP/2025/007`, `BOP/2025/012`) of the two "add defaulter"
dialogs.

Each source file that updates state in place is modelled as a Dafny
`class`:

- the mongoose document becomes `UserModel.User`;
- the auth provider and its demo store become `AuthContext.AuthProvider`
  and `AuthContext.Store`;
- the enrolment panel becomes `TwoFactorSettings.Settings`.

Each route handler is a method over the collection (`seq<User>`) that
changes at most one document. The pure parts are functions. Each
operation is tied to an independent statement of what it should do:

- a reference predicate (`Totp.Accepts`);
- a value-level state machine (`UserModel.AfterFailure`);
- an inverse (`Text.DecimalValue` of `Text.NatToDecimal`);
- a preserved invariant (`AuthRoutes.AllConsistent`,
  `AuthMiddleware.NoChallengeTokens`).

Some inputs come from outside the code, and they are parameters:

- The TOTP code of a secret at a time step (`hotp`). This is HMAC-SHA-1
  with the dynamic truncation of section 5.3 of RFC 4226. The model fixes
  the 30-second counter of section 4 of RFC 6238. Section 5.2 of RFC 6238
  allows a validation window of nearby time steps. The width of ±2 steps
  is the code's own choice (`window: 2`).
- The clock, in milliseconds.
- Each `Math.random()` rendering.
- The secret generator.
- The QR renderer.
- The outcome of the bcrypt password comparison.
- The SMS transport.

A JSON Web Token (RFC 7519) is its claims plus a flag saying whether its
signature holds. It is expired from second `exp` on (section 4.1.4 of
RFC 7519).

Some behaviours of the code are easy to misread; the model follows the
code:

- `/enable-2fa` stores the new secret and codes on the account at once
  (with 2FA off). It does not wait for the confirming code.
- A recovery code is at most six characters, not exactly six. No batch is
  checked for duplicates.
- The server matches a recovery code exactly, so letter case counts. Only
  the submitted code is trimmed.
- `/verify-2fa` and `/verify-recovery-code` accept any valid, unexpired
  token as the temporary token, not only a challenge token.
- `require2FA` demands the `twoFactorVerified` claim whether or not the
  account has 2FA on.
- `/register` stores a `{userId}` token on the new account. That token
  passes `auth` for seven days but never `require2FA`.

## Model

| member | source | states |
|---|---|---|
| Text.StripNonDigits | src/lib/sms-service.ts:125 | `replace(/\D/g,'')` gives only digits, no longer than the input, and leaves a digit string as it is. |
| Text.StripNonDigitsConcat | src/lib/sms-service.ts:125 | Stripping goes character by character: a digit is kept, any other character is dropped, and the parts of a string are stripped on their own. So the result is exactly the digits of the input, each once, in order. |
| Text.StripNonDigitsChar | src/lib/sms-service.ts:125 | A single digit is kept and any other single character is dropped. |
| Text.TrimShape | src/lib/twoFactorAuth.ts:79-82 | `trim()` keeps one contiguous piece of the string. Everything dropped before and after it is white space, and the piece neither starts nor ends with white space. |
| Text.TrimIgnoresPadding | src/lib/twoFactorAuth.ts:79-82 | `trim()` removes any ECMAScript white space padding on either side: `Trim(p + s + q) == Trim(s)`. |
| Text.ToUpperForgetsCase | src/lib/twoFactorAuth.ts:79-82 | Upper-casing erases earlier lower-casing and is idempotent, so the comparison ignores letter case. |
| Text.DecimalRoundTrip | src/components/add-property-defaulter-dialog.tsx:72-76 | `parseInt(String(n), 10) == n` for every non-negative integer. |
| Text.LeadingZeros | src/components/add-property-defaulter-dialog.tsx:76 | Zero padding does not change the value `parseInt` reads. |
| Text.PadStart | src/components/add-property-defaulter-dialog.tsx:76 | `padStart(w, c)` only prepends filler. The result has length `max(|s|, w)`, so it never truncates. |
| Totp.Counter | src/lib/twoFactorAuth.ts:39-44 | The time step contains the current instant: `c*30000 <= now < (c+1)*30000`. |
| Totp.MatchesFrom | src/lib/twoFactorAuth.ts:39-44 | Scanning counters `from..last` succeeds iff one of them yields the submitted code. |
| Totp.Verify | src/lib/twoFactorAuth.ts:39-44 | `totp.verify` with a window accepts iff some counter within ±window of the current one yields the code (`Accepts`). |
| Totp.WindowTolerance | src/lib/twoFactorAuth.ts:39-44 | The codes of counters C-2 … C+2 are all accepted with window 2. |
| Totp.OutsideWindow | src/lib/twoFactorAuth.ts:39-44 | The code of counter C-3 is refused unless it equals a code inside the window. |
| Totp.DriftTolerance | src/lib/twoFactorAuth.ts:39-44 | A code made on a clock at most 60 s away from the server's is accepted. |
| TwoFactorAuth.JsSubstring | src/lib/twoFactorAuth.ts:24 | `substring` clamps its bounds, so the result is never longer than the string or than `end - start`. |
| TwoFactorAuth.RecoveryCodeFrom | src/lib/twoFactorAuth.ts:23-25 | One recovery code has at most 6 characters and no lower-case letter. |
| TwoFactorAuth.GenerateRecoveryCodes | src/lib/twoFactorAuth.ts:21-26 | The loop yields exactly 10 codes. The i-th comes from the i-th random draw, and each is upper-case with at most 6 characters. |
| TwoFactorAuth.GenerateTwoFactorSecret | src/lib/twoFactorAuth.ts:15-33 | The setup carries the library's Base32 secret and URI for the label `RateEase (email)`, plus a batch of 10 codes. |
| TwoFactorAuth.VerifyTwoFactorCode | src/lib/twoFactorAuth.ts:35-57 | Success iff the window-2 check accepts. The message depends only on the outcome. |
| TwoFactorAuth.FindCode | src/lib/twoFactorAuth.ts:80-82 | `findIndex` returns the first index whose normalised code matches, or -1 when none does. |
| TwoFactorAuth.VerifyRecoveryCode | src/lib/twoFactorAuth.ts:68-98 | An undefined or empty list fails with `[]`. Success iff some entry matches after trim and upper-casing. A miss returns the list unchanged. A hit removes exactly the first matching entry. |
| TwoFactorAuth.ConsumeRemovesOne | src/lib/twoFactorAuth.ts:91-92 | A hit leaves one code fewer. The remaining multiset plus the first match is the original multiset. |
| TwoFactorAuth.MissKeepsList | src/lib/twoFactorAuth.ts:84-89 | A miss on a defined list gives `success=false` and the same list element for element. |
| TwoFactorAuth.MatchIgnoresCaseAndPadding | src/lib/twoFactorAuth.ts:79-82 | Surrounding white space and lower-casing of the submitted code do not change the result. |
| TwoFactorAuth.NormalizeCodeIdempotent | src/lib/twoFactorAuth.ts:79-82 | Trimming and upper-casing a code twice gives what doing it once gives. |
| TwoFactorAuth.SingleUse | src/lib/twoFactorAuth.ts:80-97 | In a duplicate-free list a code succeeds once. The second use fails and leaves the shortened list as it is. |
| Jwt.Verify | routes/auth.js:163-170 | `jwt.verify` yields the claims iff the signature holds and the current second is before `exp`. |
| Jwt.ChallengeLifetime | routes/auth.js:105-113 | A challenge token is valid for exactly 300 s and never carries `twoFactorVerified`. |
| Jwt.SessionLifetime | routes/auth.js:122-129 | A session token is valid for exactly 7 days and carries `twoFactorVerified`. |
| UserModel.IsLocked | models/User.js:76-78 | Locked exactly while a lock time is set and still ahead. With no lock time, the account is never locked. A lock ends by itself once the clock reaches it, with no write. |
| UserModel.AfterFailure | models/User.js:80-87 | One failure adds exactly one attempt. From the 5th on, the account is locked for exactly 30 minutes from now. Below 5, the lock time and the locked state are untouched. |
| UserModel.RemainingAttempts | routes/auth.js:93-98 | `Math.max(0, 5 - loginAttempts)` is at most 5. It is 0 exactly from the 5th attempt on, and before that it is the number of failures left before the lock. |
| UserModel.RemainingZeroIffLocked | routes/auth.js:93-98 | The `remainingAttempts` hint `max(0, 5-n)` reaches 0 exactly when the failure locks the account. |
| UserModel.ResetUnlocks | models/User.js:90-94 | After a reset the account is not locked and has all 5 attempts again. |
| UserModel.FailureRun | models/User.js:80-85 | After k failures the counter grew by k. Once it is at least 5 the lock is renewed from the last failure, because expiry never resets the counter. |
| UserModel.FiveFailuresLock | models/User.js:80-85 | Five failures on a fresh account lock it for the 30 minutes after the fifth. |
| UserModel.User.constructor | models/User.js:4-57 | A new document has the schema defaults: 2FA off, no secret, no codes, no last login, 0 attempts, no lock, no tokens. The e-mail is trimmed and lower-cased. |
| UserModel.User.IsAccountLocked | models/User.js:76-78 | The document's check agrees with `IsLocked` on its own counter and lock time. |
| UserModel.User.IncrementLoginAttempts | models/User.js:80-88 | The lock state becomes `AfterFailure(old, now)`. No other field changes. |
| UserModel.User.ResetLoginAttempts | models/User.js:90-94 | The counter becomes 0 and the lock is cleared. No other field changes. |
| UserModel.FindById | routes/auth.js:172 | Returns a user with that id, or null when none has it. |
| UserModel.FindByEmail | routes/auth.js:77 | Returns a user whose stored e-mail equals the trimmed, lower-cased query, or null when none does. |
| AuthMiddleware.FindWithToken | middleware/auth.js:15-18 | Returns a user with that id whose token list holds the token, or null. |
| AuthMiddleware.Auth | middleware/auth.js:4-32 | No token gives 401 "No token provided". A request passes iff the token verifies and its user still holds it, and then `req.token` and `req.user` are that token and user. Otherwise the answer is 401. |
| AuthMiddleware.Require2FA | middleware/auth.js:34-70 | As `Auth`, and a verifying token without `twoFactorVerified` gets 401 with `requires2FA`. It passes iff it verifies, carries the claim and is held. |
| AuthMiddleware.Require2FAStricter | middleware/auth.js:34-70 | Whatever `require2FA` admits, `auth` admits with the same token and user. |
| AuthMiddleware.ChallengeNeverPassesRequire2FA | middleware/auth.js:44-51 | A challenge token never passes `require2FA`, however fresh. |
| AuthMiddleware.ChallengeNeverPassesAuth | middleware/auth.js:14-22 | While no challenge token is stored (`NoChallengeTokens`, which holds with session and `/register` tokens on the lists), a challenge token does not pass `auth` either. |
| AuthMiddleware.RegisterTokenPassesAuthOnly | routes/auth.js:38-46 | The `{userId}` token `/register` stores passes `auth` while it lasts, and `require2FA` answers it with 401 "Two-factor authentication required". Storing it keeps `NoChallengeTokens`. |
| AuthMiddleware.RevokedTokenRefused | middleware/auth.js:15-22 | A token off its owner's list passes neither guard, even while its signature and lifetime hold. |
| AuthRoutes.RemoveToken | routes/auth.js:428 | `filter` keeps exactly the other tokens and never adds one. |
| AuthRoutes.RemoveTokenConcat | routes/auth.js:428 | Filtering a joined list is filtering each part and joining: kept tokens stay in order, duplicates included. |
| AuthRoutes.Login | routes/auth.js:67-151 | Missing fields give 400. An unknown e-mail gives 400. A locked account gives 429 with nothing changed. A wrong password applies `AfterFailure` and reports `max(0,5-n)`. A right one resets the lock and sets `lastLoginAt`, then either returns a challenge token with no token stored, or stores and returns a session token. It touches no other document. It keeps both collection invariants: 2FA on only with a secret (`AllConsistent`), and no challenge token stored (`NoChallengeTokens`); the other handlers keep them too. |
| AuthRoutes.TokenUser | routes/auth.js:163-172 | A user is found only when the token verifies, and then it is the user the token names; a verifying token naming a stored user always finds one. |
| AuthRoutes.Verify2FA | routes/auth.js:153-222 | The error for each guard, including 400 "Invalid verification code" when the window-2 check refuses the code. A session token is issued iff the user has 2FA on with a secret and the window-2 check accepts. Only that token is appended, and it then passes `require2FA`. |
| AuthRoutes.FindExact | routes/auth.js:251-253 | `findIndex` with `===`: the first equal entry, or -1. |
| AuthRoutes.Redeem | routes/auth.js:251-262 | It succeeds iff the trimmed code is in the list, and then it splices out exactly the first equal entry. |
| AuthRoutes.RedeemSingleUse | routes/auth.js:251-262 | In a duplicate-free list a redeemed code leaves one entry fewer and is refused afterwards. |
| AuthRoutes.ServerIsCaseSensitive | routes/auth.js:251-253 | For every code list: a submitted code whose normalised form is stored but whose trimmed form is not is refused by the server and accepted by the client helper. |
| AuthRoutes.LowerCaseCodeRefused | routes/auth.js:251-253 | One such code: "ab12cd" against a stored "AB12CD". |
| AuthRoutes.VerifyRecoveryCode | routes/auth.js:224-294 | The error for each guard. On a hit the list becomes `Redeem(old)`, a session token is appended and returned with the count of codes left. On a miss nothing changes. |
| AuthRoutes.Enable2FA | routes/auth.js:296-331 | Behind `auth`. It stores the secret generated for `RMS System (email)` and a fresh batch of 10 codes, and always sets 2FA off. The response carries the QR image, the secret and the codes. |
| AuthRoutes.Confirm2FA | routes/auth.js:333-380 | Behind `auth`. A missing code gives 400 and a missing secret gives 400. 2FA turns on iff the window-2 check accepts the code for the stored secret; otherwise the answer is 400 "Invalid verification code". Nothing else changes. |
| AuthRoutes.Disable2FA | routes/auth.js:382-404 | Behind `auth`. It clears enabled, secret and codes together. |
| AuthRoutes.Logout | routes/auth.js:426-437 | Behind `auth`. It removes the presented token from the list. With unique ids, the token no longer passes `auth`. |
| AuthRoutes.LogoutAll | routes/auth.js:439-450 | Behind `auth`. It empties the list, and no token of that user passes `auth` afterwards. |
| AuthRoutes.Profile | routes/auth.js:406-424 | Profile data is returned iff `require2FA` admits. It is the admitted user's data. |
| AuthRoutes.LockoutScenario | routes/auth.js:85-98 | Five wrong passwords on a fresh account, then the right password a moment later: 429, and the counter stays at 5. |
| AuthContext.IndexOfId | src/context/AuthContext.tsx:119 | `findIndex` by id: the first entry with that id, or -1. |
| AuthContext.ReplaceById | src/context/AuthContext.tsx:119-122 | Only the first entry with that id is replaced. The length and ids are kept. With no such entry the store is unchanged. |
| AuthContext.FindLogin | src/context/AuthContext.tsx:52-54 | `find` returns a user whose e-mail matches ignoring case and whose password matches exactly, and returns one iff such a user exists; it is the first such user in the list. |
| AuthContext.AuthProvider.constructor | src/context/AuthContext.tsx:27 | No user is signed in at first. |
| AuthContext.AuthProvider.Login | src/context/AuthContext.tsx:45-78 | Success iff a user matches. A user with 2FA on and a secret gets `requires2FA` and is not signed in. Any other match is signed in. No match changes nothing. |
| AuthContext.AuthProvider.Verify2FA | src/context/AuthContext.tsx:80-99 | Success iff 2FA is on with a secret and the window-2 check accepts. Only then is the user signed in. |
| AuthContext.AuthProvider.VerifyRecoveryCode | src/context/AuthContext.tsx:101-130 | Success iff 2FA is on, the list is defined and the helper matches. Then that user's entry (only) is replaced with the list one shorter, and the user is signed in. On failure nothing changes. |
| AuthContext.AuthProvider.Logout | src/context/AuthContext.tsx:132-135 | Nobody is signed in afterwards. |
| AuthContext.AuthProvider.UpdateAuthUser | src/context/AuthContext.tsx:137-140 | The given record becomes the signed-in user. |
| AuthContext.LoginIgnoresEmailCase | src/context/AuthContext.tsx:52-54 | Upper- or lower-casing the e-mail does not change which user is found. |
| TwoFactorSettings.Settings.constructor | src/components/twoFactorSettings.tsx:25-32 | The panel starts with nothing pending. |
| TwoFactorSettings.Settings.EnterCode | src/components/twoFactorSettings.tsx:28 | The typed code is what the panel verifies. |
| TwoFactorSettings.Settings.HandleEnable2FA | src/components/twoFactorSettings.tsx:34-59 | Only the pending secret, codes and QR change. The QR image stays as before when rendering throws. The user, the store and the signed-in user are untouched. |
| TwoFactorSettings.Settings.HandleVerify2FA | src/components/twoFactorSettings.tsx:61-112 | With no pending secret, or a wrong code, nothing changes. With a right code, only the user's own entry is replaced with 2FA on plus exactly the pending secret and codes, that record is signed in, and all pending state is cleared. |
| TwoFactorSettings.Settings.HandleDisable2FA | src/components/twoFactorSettings.tsx:114-147 | The user's entry and the signed-in user lose enabled, secret and codes together. |
| TwoFactorSettings.Settings.HandleCancelSetup | src/components/twoFactorSettings.tsx:149-155 | All pending state is cleared and the user is not touched. |
| TwoFactorSettings.EnrolmentTakesEffect | src/components/twoFactorSettings.tsx:69-83 | After enrolment, sign-in asks for the second factor and the authenticator's current code passes `verify2FA`. After disabling, no second factor is asked. |
| TwoFactorSettings.EnrolledRecoveryCodeWorksOnce | src/components/twoFactorSettings.tsx:74 | A code from a duplicate-free enrolment batch signs in once on the client and not a second time. |
| SmsService.IsValid | src/lib/sms-service.ts:106-116 | A number is valid exactly when normalising it gives the international form: 12 digits starting with 233. |
| SmsService.Normalize | src/lib/sms-service.ts:123-143 | The result is always a digit string. |
| SmsService.ValidNormalizesToInternational | src/lib/sms-service.ts:106-143 | A valid number normalises to 12 digits starting with 233 that end in its last nine digits. |
| SmsService.InvalidKeepsDigits | src/lib/sms-service.ts:142 | An invalid number comes back as its bare digits. |
| SmsService.NormalizeIdempotent | src/lib/sms-service.ts:123-143 | Normalising twice is normalising once. |
| SmsService.NormalizePreservesValidity | src/lib/sms-service.ts:106-143 | A number is valid iff its normalised form is. |
| SmsService.SendSingleSms | src/lib/sms-service.ts:62-99 | An empty message or an invalid number is refused with its own error. Success iff the checks pass and the endpoint answers ok with `success`. It has an error iff it failed. |
| SmsService.RejectedBeforeSending | src/lib/sms-service.ts:63-75 | When the checks fail, the transport is never consulted. |
| SmsService.SendsInternationalNumber | src/lib/sms-service.ts:70-82 | What is sent is the normalised, international number. |
| SmsService.SendSms | src/lib/sms-service.ts:153-168 | One outcome per item, in order, with the item's id. An item without a non-blank phone gets "No phone number". The others get `sendSingleSms`'s outcome. |
| SmsService.SendSmsSplits | src/lib/sms-service.ts:153-167 | Each outcome depends only on its own item. |
| SmsRoute.Normalize | src/app/api/sms/route.ts:3-19 | The result is always a digit string. |
| SmsRoute.AgreesWithService | src/app/api/sms/route.ts:3-19 | Agrees with the client's normalisation except on nine-digit numbers starting with 2 or 5. There the route keeps the bare digits. |
| SmsRoute.KeepsServiceOutput | src/app/api/sms/route.ts:3-19 | The route leaves a client-normalised number unchanged. |
| SmsRoute.Post | src/app/api/sms/route.ts:22-63 | A missing phone or message gives 400. A missing API key or sender id then gives 500 "SMS service is not configured…". A phone with no digit then gives 400 "Invalid or empty phone number provided.". The gateway is called iff all four inputs are present and the phone has a digit. It is called with the message and with the normalised phone number, a non-empty digit string. |
| SmsRoute.NoDigitsNormalizeEmpty | src/app/api/sms/route.ts:49-53 | The route's number is empty iff the input has no digit. |
| SmsRoute.ClientRequestDispatched | src/app/api/sms/route.ts:49-63 | A request the client's checks let through is sent to exactly that number. |
| SerialNumbers.DigitRun | src/components/add-property-defaulter-dialog.tsx:71 | `\d+` matches the maximal run of digits. |
| SerialNumbers.MatchAt | src/components/add-property-defaulter-dialog.tsx:71 | A capture of `/TAG\/\d+\/(\d+)/` at a position is a non-empty digit string. |
| SerialNumbers.FirstMatch | src/components/add-property-defaulter-dialog.tsx:71 | The capture of a match is a non-empty digit string. |
| SerialNumbers.FirstMatchIsLeftmost | src/components/add-property-defaulter-dialog.tsx:71 | With a match at `q` and none before it, `match` returns the one at `q`. |
| SerialNumbers.FirstMatchNone | src/components/add-property-defaulter-dialog.tsx:71 | With no match anywhere, `match` returns null. |
| SerialNumbers.SerialOfLeftmostCapture | src/components/add-property-defaulter-dialog.tsx:70-73 | A number's serial is `parseInt` of the capture of the leftmost match. |
| SerialNumbers.SerialOfNoMatch | src/components/add-property-defaulter-dialog.tsx:70-73 | A number the pattern does not match has serial 0. |
| SerialNumbers.CurrentYear | src/components/add-property-defaulter-dialog.tsx:63-66 | Keeps exactly the string numbers that start with `TAG/year/`. |
| SerialNumbers.MaxSerial | src/components/add-property-defaulter-dialog.tsx:75 | `Math.max(...serials, 0)` bounds every serial and is one of them, or 0. |
| SerialNumbers.NextSerialNumber | src/components/add-property-defaulter-dialog.tsx:61-77 | The proposal is this year's `TAG/year/` prefix followed by at least three digits. |
| SerialNumbers.NextSerial | src/components/add-property-defaulter-dialog.tsx:68-76 | The serial part is always the largest serial plus one, zero-padded. The `001` of the first number of a year is that same rule at 0. |
| SerialNumbers.Padded | src/components/add-property-defaulter-dialog.tsx:76 | The padded serial has at least 3 digits and reads back as the number. |
| SerialNumbers.ParseOwnNumber | src/components/add-property-defaulter-dialog.tsx:70-76 | Reading back `TAG/year/serial` yields the serial's value. |
| SerialNumbers.NextIsFresh | src/components/add-property-defaulter-dialog.tsx:61-77 | The proposal starts with `TAG/year/` and its serial is max+1. That is above every serial of this year, so it equals no existing number of this year. |
| SerialNumbers.FirstOfTheYear | src/components/add-property-defaulter-dialog.tsx:68 | With no number of this year, the proposal is `TAG/year/001`. |
| SerialNumbers.OtherYearsIgnored | src/components/add-property-defaulter-dialog.tsx:63-66 | A record without a number, or with another year's, does not change the proposal. |
| PropertyDefaulterDialog.GetNextSerialNumber | src/components/add-property-defaulter-dialog.tsx:61-77 | `PROP/year/…`, with a serial above every existing `PROP/year/` serial, and distinct from all of them. |
| BopDefaulterDialog.GetNextSerialNumber | src/components/add-bop-defaulter-dialog.tsx:58-74 | `BOP/year/…`, with a serial above every existing `BOP/year/` serial, and distinct from all of them. |

## Left out

- The TOTP code computation (HMAC-SHA-1, RFC 4226 truncation) is foreign
  cryptography. It is the parameter `hotp`. The library's internal checks
  of the token's length and its integer comparison are folded into string
  equality with `hotp`'s output.
- Secret generation, the Base32 encoding and the `otpauth://` URI belong to
  the TOTP library. They are a `SecretGenerator` parameter.
- QR rendering is a parameter. `Math.random` is the `random36` parameter,
  and `Date.now` is the `nowMs` parameter.
- JWT signing and signature checking are foreign cryptography. Every other
  failure of `jwt.verify` (a malformed token, say) counts as an invalid
  signature.
- The `Authorization: Bearer` header parsing is left out. The guards
  receive the token, or `None`.
- Password hashing and `comparePassword` are bcrypt. The comparison is the
  `passwordMatches` parameter.
- Persistence is left out. Each handler is one atomic change and every
  `save()` succeeds. The `500 Server error during …` catch branches are not
  modelled. Neither are races between concurrent requests on one account,
  which would lose increments.
- The schema fields `username`, `password`, `isVerified`,
  `verificationToken` and the timestamps are left out. So is the e-mail
  format check. models/User.js declares no `tokens` path, although the
  routes and guards use one. The model assumes the list is stored.
- The `/register` handler (user creation, its validation and its errors)
  and the rate limiter on the auth routes (`authLimiter`) are outside this
  model. Only the token `/register` stores is modelled, as
  `Jwt.RegisterToken`.
- Letter case covers the ASCII letters only. JavaScript's `toUpperCase`,
  `toLowerCase` and mongoose's `lowercase` map all of Unicode.
- Integers are unbounded. `parseInt` of very long digit strings and
  `String` of very large numbers lose precision in JavaScript, and that is
  not modelled.
- On the client, `localStorage` mirrors the signed-in user and is not
  modelled. Also left out are the 500 ms delays, toasts, the busy flags
  (`isEnabling`, `isDisabling`, `isVerifying`), `saveStore` and the restore
  of the user on mount.
- `compileTemplate` and `getPropertyValue` are left out. The filled-in
  message and the resolved phone number of each item are inputs. The SMS
  transport and the gateway call after the route's checks are not
  modelled. Neither is the concurrency of `Promise.all`.
- Property and BOP records are reduced to their number field. The year
  comes from the clock and is a parameter.
- TwoFactorAuth.RecoveryCodeFrom: states at most six characters, because
  `Math.random().toString(36).substring(2, 8)` can be shorter. It does not
  state that the characters are base-36 digits, because the random
  rendering is an arbitrary string here.
