# Konasal backend: authentication, catalog and payment records

This project models the core of the Konasal training-institute backend, a FastAPI service
that sells courses. The model covers:

- the account lifecycle: signup with a five-digit email verification code, verification,
  resending the code, login with a signed session token, logout by blacklisting that token,
  forgotten-password codes and password reset;
- request authentication: choosing the token from the `Authorization` header or the
  `access_token` cookie, then a fixed order of checks in `get_current_user`;
- the validators and formatters: the password policy, the two password-confirmation
  validators, the `DD-MM` birth-date serializer and the profile-update name bounds;
- the course listing filter (category, and a case-insensitive `ILIKE` search over name and
  description), lookup by id and enrollment;
- PayPal payment records: creating an order, choosing the approval link and capturing;
- the settings defaults, the CORS origin parser, the database URI and the migration
  environment's rewrite of that URI to the synchronous driver.

The users table is a sequence of rows, and the Redis cache is a map from keys to values with
expiry times. The two live in a `Store` class together with an explicit clock. The course
and payment tables are `EnrollmentTable` and `PaymentTable`. Each handler is a method that
runs its guards in the source's order: a failing guard changes nothing, a passing one
performs the writes. Pure code (validators, the filter, settings) is written as functions.

Some behaviour is not computed by the model and enters as parameters instead:

- Randomness: the five-digit code and the new user's UUID.
- The clock (`now`), and the server's UTC offset where it matters.
- The gateway: PayPal replies, or the gateway client's exception text.
- Email validation: the `email_validator` verdict.
- Email delivery: whether sending is configured.
- Hashing and token signing: a `Crypto` value holding a hash function and a token
  encoder/decoder pair.

About `Crypto`, the model assumes only three things: decoding a token gives back the claims
it was encoded from, a token is never empty, and a token has no spaces.

Modules:

- `Wrappers` holds `Option`, `Result` and `HttpError`.
- `Text` holds the Python string operations used.
- `Uuid` models `uuid.UUID(text)`.
- `AuthUtils` holds the policy, claims and token codec.
- `AuthSchemas` holds the request/response schemas.
- `AuthService` holds the service functions and the `Store`.
- `AuthRoutes` holds the endpoints.
- `AuthLifecycle` holds the properties that span several requests.
- `Courses`, `Payments`, `Settings` and `Migrations` model the files of the same names.

Where the code and its surrounding description differ, the model follows the code:

- A verify-email replay fails, because the first success deletes the code.
- Reset codes are five-digit numbers, like verification codes.
- The reset endpoint does not apply the password policy.
- Capture does not check that the payment belongs to the caller.
- A pending payment stays committed when the approval link is missing.

## Model

| member | source | states |
|---|---|---|
| Settings.WithDefaults | core/config/settings.py:17-23 | with only the required settings given, the port is `5432`, the algorithm `HS256`, the token lifetime 30 minutes and the origins `["http://127.0.0.1:5500"]` |
| Settings.AssembleCorsOrigins | core/config/settings.py:58-63 | a list is returned unchanged; a text gives one item per comma-separated piece (commas + 1 items), each the stripped piece, so no item holds a comma or surrounding whitespace |
| Settings.CorsRoundTrip | core/config/settings.py:60-62 | origins without commas or surrounding spaces come back unchanged from their comma-joined text |
| Settings.DatabaseUri | core/config/settings.py:65-67 | the URI is the `postgresql+asyncpg` scheme followed by `://user:password@server:port/db` |
| Migrations.GetSyncDatabaseUrl | alembic/env.py:25-28 | a URL not starting with `postgresql+asyncpg` is unchanged; one that does starts with `postgresql+psycopg2` afterwards and is one character longer per replaced occurrence |
| Migrations.GetSyncDatabaseUrlIdempotent | alembic/env.py:25-28 | applying the rewrite twice gives the same URL as applying it once |
| Migrations.GetSyncOfConfiguredUri | alembic/env.py:30 | for a configured URI whose parts do not contain `postgresql+asyncpg`, the rewrite only swaps the scheme to `postgresql+psycopg2` |
| Text.Split | core/config/settings.py:62 | `split(",")` always gives one more piece than there are separators, and no piece contains the separator |
| Text.SplitJoin | core/config/settings.py:62 | joining the pieces of a split with the separator gives the text back |
| Text.JoinSplit | core/config/settings.py:62 | splitting a join of separator-free pieces gives the pieces back |
| Text.Strip | core/config/settings.py:62 | `strip()` yields a contiguous slice of the text, starting where `lstrip()` stops |
| Text.StripDropsSpace | core/config/settings.py:62 | every character `strip()` drops, before or after that slice, is whitespace |
| Text.StripTrimmed | core/config/settings.py:62 | the result of `strip()` has no whitespace at either end |
| Text.StripUntrimmed | core/config/settings.py:62 | a text with no whitespace at either end is unchanged by `strip()` |
| Text.ReplaceAllLength | alembic/env.py:27 | each replacement changes the length by the difference between replacement and pattern lengths |
| Text.ReplaceAllAbsent | alembic/env.py:27 | `replace` leaves a text not containing the pattern unchanged |
| Text.DecimalRoundTrip | api/v1/routes/auth.py:36 | `int(str(n)) == n` for the code written with `str`, so distinct codes have distinct texts |
| Text.FiveDigitText | api/v1/routes/auth.py:36 | a code drawn from 10000..99999 is written with five digits, the first non-zero |
| AuthUtils.Search | api/utils/auth.py:17-24 | `re.search` over a character class succeeds exactly when some character of the password is in the class |
| AuthUtils.ValidatePassword | api/utils/auth.py:14-25 | the password is accepted iff it has at least 8 characters, an ASCII capital, an ASCII small letter, a digit and one of `!@#$%^&*(),.?":{}\|<>`; otherwise the result is the first failing rule, in the order length, uppercase, lowercase, digit, special |
| AuthUtils.NonAsciiCapitalIsNotUppercase | api/utils/auth.py:17 | `École-42!` fails the uppercase rule, because `[A-Z]` contains only ASCII capitals |
| AuthUtils.ExpiryFor | api/utils/auth.py:39 | the expiry is `now + delta` for a non-zero delta, else `now` plus the configured minutes |
| AuthUtils.AccessTokenClaims | api/utils/auth.py:37-40 | the signed claims are the caller's with `exp` added or overwritten, and every other claim is kept |
| AuthUtils.CreateAccessToken | api/utils/auth.py:37-41 | the token decodes to exactly the caller's claims plus the expiry |
| AuthUtils.DecodeToken | api/v1/services/auth.py:57 | a token decodes only when correctly signed, with an `exp` (if any) still in the future and a text `sub` (if any) |
| AuthUtils.IssuedTokenLifetime | api/utils/auth.py:37-41 | an issued token decodes to its claims strictly before its expiry and fails from its expiry on |
| AuthSchemas.UserCreatePasswordsMatch | api/v1/schemas/auth.py:32-39 | two supplied passwords pass iff equal; two missing ones pass; with only one supplied, it passes iff that one is the text `None`, which is what `str(None)` prints; any failure is the mismatch error |
| AuthSchemas.MissingPasswordMatchesNoneText | api/v1/schemas/auth.py:37 | because the check compares `str()` renderings, a missing password and the text `None` pass it, and the body is then refused for the missing `password` field |
| AuthSchemas.ParseUserCreate | api/v1/schemas/auth.py:22-39 | a mismatch is reported before missing fields; a body parses iff the renderings agree and all five required fields are present, and then password and confirmation are equal |
| AuthSchemas.ResetPasswordsMatch | api/v1/schemas/auth.py:104-108 | a missing `new_password` (looked up first), then a missing `new_password_verify`, is a key error; two present values pass iff equal |
| AuthSchemas.ParsePasswordResetVerify | api/v1/schemas/auth.py:99-108 | a reset body parses iff the token is present and the two new passwords are present and equal |
| AuthSchemas.TwoDigits | api/v1/schemas/auth.py:54 | a zero-padded two-digit field reads back as its number |
| AuthSchemas.FormatBirthDate | api/v1/schemas/auth.py:52-54 | no date gives no text; a date gives five characters `DD-MM` whose day and month read back as the date's |
| AuthSchemas.FormatBirthDateForgetsYear | api/v1/schemas/auth.py:77-81 | two dates print alike exactly when they share day and month |
| AuthSchemas.UserUpdateErrors | api/v1/schemas/auth.py:59-62 | an update is refused iff a supplied first or last name is outside 2..20 characters, and each bad field is named |
| Uuid.ParseUuid | api/v1/services/auth.py:69-74 | `uuid.UUID` accepts a text iff, after removing `urn:` and `uuid:`, stripping braces and removing hyphens, 32 hex digits remain; the result is the canonical 8-4-4-4-12 form whose 32 digits are the input's hex digits lower-cased, in order |
| Uuid.ParseCanonicalUuid | api/v1/services/auth.py:70 | the canonical text of an id parses back to itself, so a token's subject `str(user.id)` finds that user again |
| AuthService.KeysDistinct | api/v1/services/auth.py:112 | verification and reset keys never collide, and each key determines its email or code |
| AuthService.FindUserByEmail | api/v1/services/auth.py:30-33 | the lookup returns a row with the email, and finds nothing iff no row has it |
| AuthService.FindUserById | api/v1/services/auth.py:76-78 | the lookup returns a row with the id, and finds nothing iff no row has it |
| AuthService.NewUser | api/v1/services/auth.py:93-104 | the new row has the given id and email, is unverified, and its hash verifies the signup password |
| AuthService.VerifyEmailCheck | api/v1/services/auth.py:114-122 | the invalid-code error happens iff no live non-empty code equal to the supplied one is stored; "User not found" happens iff the code matches but no user has the email; success happens iff the code matches and a user has the email, and names that user's row |
| AuthService.BlacklistTtlAgreesOnUtc | api/v1/services/auth.py:138 | the TTL as written equals the token's remaining lifetime iff the server's local time is UTC |
| AuthService.AfterBlacklist | api/v1/services/auth.py:133-143 | an undecodable token, or one without `exp`, leaves the cache as it was; a decodable one with `exp` is stored as `blacklisted` until exactly its own expiry; no other key changes |
| AuthService.BlacklistAsWritten | api/v1/services/auth.py:133-143 | with the TTL as written, an undecodable token or one without `exp` changes nothing; otherwise the token is stored as `blacklisted` for the as-written TTL when that is positive and the cache is unchanged when it is not; no other key changes |
| AuthService.SelectToken | api/v1/services/auth.py:37-45 | a header starting `Bearer ` selects its second space-separated field, otherwise the cookie is used |
| AuthService.BearerTokenSelected | api/v1/services/auth.py:40-41 | a space-free bearer token is taken whole and the cookie is ignored |
| AuthService.DoubleSpaceBearerIsEmpty | api/v1/services/auth.py:41 | `Bearer` followed by two spaces selects the empty token, even when a cookie is sent |
| AuthService.Authenticate | api/v1/services/auth.py:35-85 | the checks run in the source's order, each outcome holding iff the earlier checks pass and its own fails: "Missing authentication token", "Token has been revoked", "Could not validate token", "Invalid token" (no text `sub`), "Invalid user ID format", 404 "User not found"; when all pass the result is the row with the parsed id |
| AuthService.Store.GetUserByEmail | api/v1/services/auth.py:30-33 | the row whose email equals the given one, and none iff no row has it |
| AuthService.Store.CreateUser | api/v1/services/auth.py:87-108 | a registered email is refused with no change; otherwise exactly one unverified row with the hashed password is appended; emails and ids stay unique |
| AuthService.Store.StoreVerificationToken | api/v1/services/auth.py:110-112 | the email's code is replaced and expires 600 seconds later |
| AuthService.Store.VerifyUserEmail | api/v1/services/auth.py:114-130 | when the check fails nothing changes; otherwise only that user becomes verified and the code is deleted |
| AuthService.Store.BlacklistToken | api/v1/services/auth.py:133-143 | the cache becomes `AfterBlacklist` of the old one (the TTL of a server that keeps UTC) and it never raises |
| AuthService.Store.IsTokenBlacklisted | api/v1/services/auth.py:145-148 | true iff a live entry with value `blacklisted` is stored under the token |
| AuthService.Store.StoreResetToken | api/v1/services/auth.py:150-153 | the code's key maps to the email for `expiry` seconds |
| AuthService.Store.VerifyToken | api/v1/services/auth.py:155-159 | the email of a live reset code, without consuming it |
| AuthService.Store.DeleteToken | api/v1/services/auth.py:161-164 | only the code's key is removed |
| AuthService.Store.UpdateUserPassword | api/v1/services/auth.py:167-171 | only that row's hash changes, to the hash of the new password |
| AuthService.Store.GetCurrentUser | api/v1/services/auth.py:35-85 | the result is `Authenticate` of the current table, cache and clock |
| AuthRoutes.CodeShownOnlyWhenUnconfigured | api/v1/routes/auth.py:53-64 | the reply contains the code iff email is not configured |
| AuthRoutes.SentRepliesShowCodeOnlyWhenUnconfigured | api/v1/routes/auth.py:53-112 | the replies of signup and of resending the code contain the code iff email is not configured |
| AuthRoutes.SignupCheck | api/v1/routes/auth.py:27-32 | signup's errors in order: the password policy's message, then the email-format message, then "Email already registered", all 400; it passes iff none applies |
| AuthRoutes.Signup | api/v1/routes/auth.py:23-67 | a failed guard changes nothing; otherwise one unverified user is added and the decimal code is stored for the email for 600 seconds, and the reply shows the code only without email |
| AuthRoutes.RegisterUnverified | api/v1/routes/auth.py:34-37 | the writes of a passed signup: the new row, then the stored code |
| AuthRoutes.VerifyEmail | api/v1/routes/auth.py:69-75 | a failing check is a 400 with its message and no change; success verifies the user and deletes the code |
| AuthRoutes.ResendVerification | api/v1/routes/auth.py:77-112 | unknown email is a 404 and a verified user gets "Email already verified", both with no change; otherwise a new code replaces the stored one |
| AuthRoutes.LoginOutcome | api/v1/routes/auth.py:114-156 | 401 iff the email is unknown or the password does not verify; 403 iff the credentials are right but the account is unverified; success iff the credentials are right on a verified account, and it carries a token for the user's id and the user's profile |
| AuthRoutes.LoginTokenClaims | api/v1/routes/auth.py:126 | the login token decodes to `sub` = the user's id and an expiry the configured minutes later |
| AuthRoutes.Login | api/v1/routes/auth.py:114-156 | the handler's reply is `LoginOutcome`, and it writes nothing |
| AuthRoutes.Logout | api/v1/routes/auth.py:158-166 | without a cookie, a 401 "Not authenticated" and no change; otherwise the cookie's token is blacklisted with the TTL of a server that keeps UTC and logout succeeds |
| AuthRoutes.ForgotPassword | api/v1/routes/auth.py:168-197 | unknown email is a 404 with no change; otherwise the five-digit code maps to the email for 600 seconds |
| AuthRoutes.ResetCheck | api/v1/routes/auth.py:200-207 | 400 "Invalid or expired token" iff the code has no live non-empty email; 404 iff no user has that email; success iff a user has it, and names that user's row |
| AuthRoutes.ResetPassword | api/v1/routes/auth.py:199-212 | a failed guard changes nothing; otherwise only the user's hash changes and the code is deleted |
| AuthLifecycle.VerificationCodeSingleUse | api/v1/services/auth.py:124-129 | after a successful verification, every later attempt for that email fails, whatever code and whenever |
| AuthLifecycle.OnlyLatestCodeVerifies | api/v1/routes/auth.py:87-88 | after a code is stored, verification succeeds iff the latest code is supplied within 600 seconds and the user exists |
| AuthLifecycle.ResetCodeSingleUse | api/v1/routes/auth.py:209-210 | after a successful reset, the code no longer resolves |
| AuthLifecycle.ForgotThenReset | api/v1/routes/auth.py:174-175 | a stored reset code resolves to its user until it expires, and storing it leaves every verification code unchanged |
| AuthLifecycle.RejectedStaysRejected | api/v1/services/auth.py:56-66 | a token with an expiry that fails decoding now fails at every later time |
| AuthLifecycle.LogoutRevokes | api/v1/routes/auth.py:158-166 | once a token is blacklisted, every later request presenting it gets a 401, before and after its expiry |
| AuthLifecycle.LoginThenAuthenticate | api/v1/services/auth.py:35-85 | a login token authenticates its user as a cookie and as a bearer header until it expires, unless revoked |
| AuthLifecycle.AsWrittenLogoutIneffectiveWestOfUtc | api/v1/services/auth.py:138 | five hours behind UTC, blacklisting a fresh 30-minute token as written records nothing, and the token still authenticates |
| AuthLifecycle.SignupVerifyLogin | api/v1/routes/auth.py:23-156 | signup, verification with the stored code and login with the signup password succeed, for the new verified user |
| AuthLifecycle.VerifyThenLogin | api/v1/routes/auth.py:69-156 | the newest user's stored code verifies them, after which login succeeds |
| Courses.SearchIsSubstring | api/v1/services/course_service.py:14 | for a search text without `%`, `_` or backslash, `ILIKE '%text%'` holds iff the lower-cased field contains the lower-cased text |
| Courses.UnderscoreMatchesAnyNonEmpty | api/v1/services/course_service.py:14 | searching for `_` matches every non-empty field, since `_` stays a wildcard |
| Courses.GetAllCourses | api/v1/services/course_service.py:8-17 | a course is returned iff it passes every active filter (an empty or missing filter is off); with no filters every course is returned; every returned course has the requested category |
| Courses.FiltersCompose | api/v1/services/course_service.py:10-15 | filtering by category, then by search, is the same as filtering by both |
| Courses.NoDescriptionMatchesByName | api/v1/services/course_service.py:14 | a course without a description matches a search only through its name |
| Courses.FindCourse | api/v1/services/course_service.py:21-23 | the first course with the id, and none iff no course has it |
| Courses.GetCourseById | api/v1/services/course_service.py:20-26 | a course with that id, or 404 "Course not found" iff none exists |
| Courses.EnrollmentTable.EnrollCourse | api/v1/routes/course.py:23-40 | unknown course is a 404 and an existing pair a 400 "Already enrolled in this course", both with no change; otherwise exactly the pair is appended; pairs stay unique |
| Payments.FirstApproveIndex | api/v1/routes/payment.py:85-88 | the first link whose `rel` is `approve`, and none iff none has it |
| Payments.ApprovalUrlIgnoresLaterLinks | api/v1/routes/payment.py:85-88 | links after the first `approve` link do not affect the approval URL |
| Payments.FindApprovalUrl | api/v1/routes/payment.py:84-88 | the loop's result is the `href` of the first `approve` link, even when that `href` is missing |
| Payments.FindPayment | api/v1/routes/payment.py:122-125 | a payment with the order id, and none iff no payment has it |
| Payments.CreateOrderPrecheck | api/v1/routes/payment.py:49-75 | unknown course is a 404 first; then a gateway failure is a 400 "Failed to create order: …", a reply without `id` the KeyError text, an order id already recorded the database's integrity-error text; an existing course with a fresh order id passes with that id |
| Payments.CreateOrderAnswer | api/v1/routes/payment.py:84-100 | succeeds iff the approval URL is non-empty and the reply has a status, and then returns the order id, that URL and the status |
| Payments.CapturedStatus | api/v1/routes/payment.py:137 | the stored status is the gateway status with each character lower-cased, so it has the same length and no capital letters |
| Payments.PaymentTable.CreatePaypalOrder | api/v1/routes/payment.py:29-109 | a failure before the insert writes nothing; otherwise a `pending` payment with the user, course, amount, currency and order id is appended and stays even when the reply then lacks an approval URL or status; order ids stay unique |
| Payments.PaymentTable.CapturePaypalOrder | api/v1/routes/payment.py:111-154 | unknown order is a 404; a failed capture or missing status is a 400; both leave the table unchanged; otherwise only that payment's status changes, to the lower-cased gateway status |

## Left out

- Email transport (SendGrid, background tasks) is not modelled; only whether email is configured enters, as a boolean.
- bcrypt and JWT signing are not algorithms here; they are the `Crypto` parameter. Only round-trip decoding, non-empty tokens and space-free tokens are assumed.
- AuthUtils.DecodeToken: a token counts as unexpired while `exp > now` in whole seconds; jose's own boundary handling and leeway options are not modelled.
- AuthLifecycle.LogoutRevokes: holds at `later == exp` only because the model's decode rejects a token in its expiry second (`exp > now`); python-jose accepts a token until `exp < now`, while a blacklist entry with TTL `exp - now` lapses at `exp`, so in the deployed code a revoked token authenticates again during that one second.
- AuthService.Store.BlacklistToken, AuthRoutes.Logout: model a UTC server: they store the corrected TTL `exp - now` (`AfterBlacklist`); the TTL as written depends on the server's UTC offset (`BlacklistAsWritten`, see Findings) and is not what these methods store.
- Payments.PaymentTable.CreatePaypalOrder, Payments.PaymentTable.CapturePaypalOrder: assume the gateway client can be built. `PayPalService()` reads `PAYPAL_CLIENT_ID` and `PAYPAL_CLIENT_SECRET`, which `core/config/settings.py` does not declare. The routes build the client before their `try`, so as written each request would fail with an `AttributeError` (a 500) before any modelled outcome. The model treats a configured client as given.
- The debug `print`s in `get_current_user` and `UserCreate.passwords_match` are not modelled. They write headers, tokens and passwords to standard output and change no returned value. Neither is the `logger.error` in `blacklist_token`'s exception handler, which only logs.
- Fractional seconds are not modelled: the clock is whole seconds, so the truncation in `int(exp - timestamp)` does not arise.
- `email_validator` and pydantic's `EmailStr` normalisation are not modelled; the validator's verdict is an input.
- Uuid.ParseUuid: does not model the leniencies of `int(hex, 16)` (a sign, a `0x` prefix, underscores, surrounding whitespace, non-ASCII digits), which `uuid.UUID` may let through after hyphen removal.
- Text.LowerAscii: Python's `lower()` folds all of Unicode; the model folds only ASCII letters, and so do the `ILIKE` and capture-status models built on it.
- Courses.ParsePattern: a lone trailing backslash, which PostgreSQL rejects, is read as a literal backslash; it cannot end a `%…%` search pattern except as an escape of the final `%`.
- The new user's UUID is an input required to be fresh; `uuid4` collisions are not modelled.
- AuthService.Store.StoreResetToken: requires a positive expiry, since Redis refuses a non-positive TTL; the only caller passes 600.
- Random code generation is an input in 10000..99999.
- Concurrency and races between requests, and Redis eviction beyond TTL expiry, are not modelled.
- Cookie attributes, CORS middleware and the HTTP plumbing beyond status and detail are not modelled.
- The `Course.id` column is a UUID while the routes and `Payment.course_id` use integers; the model uses integer ids throughout.
- Course columns other than id, name, category and description, and the enrollment's progress, are not modelled.
- The payment amount is a `real`; float rounding and the `amount:.2f` formatting sent to PayPal are not modelled.
- The PayPal HTTP client (OAuth token, network errors, logging) is not modelled; its replies and exception texts are inputs.
- The database's text for a duplicate order id is an input (`integrityError`), and other commit failures are not modelled.
- A reply whose `links` is JSON `null`, or whose link entries are not objects, is not modelled; a missing `links` key is the empty list.
- The capture reply's `details` echo is not part of the modelled response.
- The `UserCreate` mismatch message includes the reprs of both values; the model reports the mismatch as one error value.
- `UserInfo` drops the user's `profile_picture`, which the login handler passes; the model's `UserInfo` has no such field.
- The rest of the migration environment (online/offline runners) is configuration, not modelled.
- `get_enrolled_courses`, `update_profile` and the other user routes are outside this model.

## Findings

| source | as written | input that shows it | evidently intended | confidence | as-written member | corrected member |
|---|---|---|---|---|---|---|
| api/v1/services/auth.py:138 | the blacklist TTL is `exp - datetime.utcnow().timestamp()`; `utcnow()` is naive, so `timestamp()` reads it as local time and the TTL is off by the server's UTC offset | a server at UTC-5 and a fresh 30-minute token: TTL = 1800 - 18000 < 0, so nothing is stored and the token keeps authenticating after logout | the TTL is the token's remaining lifetime, `exp - now`, so the token stays revoked until it expires | not executed; medium (harmless on servers that keep UTC) | AuthLifecycle.AsWrittenLogoutIneffectiveWestOfUtc | AuthLifecycle.LogoutRevokes |
