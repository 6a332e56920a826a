/**
 * The authentication endpoints as transitions of the service state: each handler runs its
 * guards in the source's order and either fails without writing anything or performs its
 * writes. A random five-digit code, a fresh id, the result of email validation and whether
 * outgoing email is configured are inputs.
 */
module AuthRoutes {
  import opened Wrappers
  import opened Text
  import opened AuthUtils
  import opened AuthSchemas
  import opened AuthService
  import opened Uuid

  // ---------------------------------------------------------------------------
  // messages

  /** The reply after a code was stored: a fixed text when the code is emailed, the code
      itself when email is not configured. */
  function CodeMessage(emailConfigured: bool, sentText: string, code: string): string {
    if emailConfigured then sentText else "Verification code: " + code + " (email not configured)"
  }

  /** A message without digits never shows a code. */
  predicate DigitFree(s: string) {
    forall i :: 0 <= i < |s| ==> !IsDigit(s[i])
  }

  /** The code appears in the reply exactly when email is not configured. */
  lemma CodeShownOnlyWhenUnconfigured(emailConfigured: bool, sentText: string, code: nat)
    requires DigitFree(sentText)
    ensures Contains(CodeMessage(emailConfigured, sentText, DecimalText(code)), DecimalText(code)) <==> !emailConfigured
  {
    var text := DecimalText(code);
    if emailConfigured {
      assert text[0] !in sentText by {
        assert IsDigit(text[0]);
      }
      MissingCharNotContains(sentText, text, 0);
    } else {
      var m := CodeMessage(false, sentText, text);
      assert m[19..][..|text|] == text;
    }
  }

  /** The replies of `signup` and `resend_verification_email` show the code exactly when
      email is not configured. */
  lemma SentRepliesShowCodeOnlyWhenUnconfigured(emailConfigured: bool, code: nat)
    ensures var text := DecimalText(code);
      Contains(CodeMessage(emailConfigured, "Verification code sent to your email", text), text) <==> !emailConfigured
    ensures var text := DecimalText(code);
      Contains(CodeMessage(emailConfigured, "Verification email resent", text), text) <==> !emailConfigured
  {
    assert DigitFree("Verification code sent to your email");
    assert DigitFree("Verification email resent");
    CodeShownOnlyWhenUnconfigured(emailConfigured, "Verification code sent to your email", code);
    CodeShownOnlyWhenUnconfigured(emailConfigured, "Verification email resent", code);
  }

  // ---------------------------------------------------------------------------
  // signup

  /** The guards of `signup`, in order: password policy, email format, duplicate email. */
  function SignupCheck(users: seq<User>, data: UserCreate, emailError: Option<string>): (r: Option<HttpError>)
    ensures ValidatePassword(data.password).Some? ==>
      r == Some(HttpError(400, PolicyDetail(ValidatePassword(data.password).value)))
    ensures ValidatePassword(data.password).None? && emailError.Some? ==>
      r == Some(HttpError(400, "Invalid email format: " + emailError.value))
    ensures ValidatePassword(data.password).None? && emailError.None? && FindUserByEmail(users, data.email).Some? ==>
      r == Some(HttpError(400, "Email already registered"))
    ensures r.None? <==>
      ValidatePassword(data.password).None? && emailError.None? && FindUserByEmail(users, data.email).None?
    ensures r.Some? ==> r.value.status == 400
  {
    match ValidatePassword(data.password)
    case Some(e) => Some(HttpError(400, PolicyDetail(e)))
    case None =>
      if emailError.Some? then Some(HttpError(400, "Invalid email format: " + emailError.value))
      else if FindUserByEmail(users, data.email).Some? then Some(HttpError(400, "Email already registered"))
      else None
  }

  /** `signup`: on success exactly one unverified user is added and the new code is stored
      for the email; on failure nothing changes. */
  method Signup(store: Store, data: UserCreate, emailError: Option<string>, emailConfigured: bool, newId: string, code: nat)
    returns (r: Result<string, HttpError>)
    requires store.Valid()
    requires IsCanonicalUuid(newId) && FindUserById(store.users, newId).None?
    requires 10000 <= code <= 99999
    modifies store
    ensures store.Valid() && store.now == old(store.now)
    ensures var check := SignupCheck(old(store.users), data, emailError);
      && (check.Some? ==> r == Failure(check.value) && store.users == old(store.users) && store.cache == old(store.cache))
      && (check.None? ==>
          && store.users == old(store.users) + [NewUser(store.crypto, data, newId)]
          && store.cache == old(store.cache)[VerificationKey(data.email) := Entry(DecimalText(code), old(store.now) + VerificationTtl)]
          && r == Success(CodeMessage(emailConfigured, "Verification code sent to your email", DecimalText(code))))
  {
    var check := SignupCheck(store.users, data, emailError);
    if check.Some? {
      return Failure(check.value);
    }
    r := RegisterUnverified(store, data, emailConfigured, newId, code);
  }

  /** The writes of a signup whose guards passed: create the user, then store the code. */
  method RegisterUnverified(store: Store, data: UserCreate, emailConfigured: bool, newId: string, code: nat)
    returns (r: Result<string, HttpError>)
    requires store.Valid() && FindUserByEmail(store.users, data.email).None?
    requires IsCanonicalUuid(newId) && FindUserById(store.users, newId).None?
    modifies store
    ensures store.Valid() && store.now == old(store.now)
    ensures store.users == old(store.users) + [NewUser(store.crypto, data, newId)]
    ensures store.cache == old(store.cache)[VerificationKey(data.email) := Entry(DecimalText(code), old(store.now) + VerificationTtl)]
    ensures r == Success(CodeMessage(emailConfigured, "Verification code sent to your email", DecimalText(code)))
  {
    var created := store.CreateUser(data, newId);
    var token := DecimalText(code);
    store.StoreVerificationToken(data.email, token);
    r := Success(CodeMessage(emailConfigured, "Verification code sent to your email", token));
  }

  // ---------------------------------------------------------------------------
  // verify-email and resend

  /** `verify_email`: a service failure becomes a 400 with its message. */
  method VerifyEmail(store: Store, email: string, code: string) returns (r: Result<string, HttpError>)
    requires store.Valid()
    modifies store
    ensures store.Valid() && store.now == old(store.now)
    ensures var check := VerifyEmailCheck(old(store.users), old(store.cache), old(store.now), email, code);
      && (check.Failure? ==>
          r == Failure(HttpError(400, check.error)) && store.users == old(store.users) && store.cache == old(store.cache))
      && (check.Success? ==>
          && r == Success("Email verified successfully")
          && store.users == old(store.users)[check.value := old(store.users)[check.value].(isVerified := true)]
          && store.cache == old(store.cache) - {VerificationKey(email)})
  {
    var result := store.VerifyUserEmail(email, code);
    if result.Failure? {
      return Failure(HttpError(400, result.error));
    }
    r := Success("Email verified successfully");
  }

  /** `resend_verification_email`: unknown email is a 404 and a verified user gets a notice,
      both without writes; otherwise a new code replaces the stored one. */
  method ResendVerification(store: Store, email: string, emailConfigured: bool, code: nat) returns (r: Result<string, HttpError>)
    requires 10000 <= code <= 99999
    modifies store
    ensures store.users == old(store.users) && store.now == old(store.now)
    ensures var found := FindUserByEmail(old(store.users), email);
      && (found.None? ==> r == Failure(HttpError(404, "User not found")) && store.cache == old(store.cache))
      && (found.Some? && old(store.users)[found.value].isVerified ==>
          r == Success("Email already verified") && store.cache == old(store.cache))
      && (found.Some? && !old(store.users)[found.value].isVerified ==>
          && store.cache == old(store.cache)[VerificationKey(email) := Entry(DecimalText(code), old(store.now) + VerificationTtl)]
          && r == Success(CodeMessage(emailConfigured, "Verification email resent", DecimalText(code))))
  {
    var found := store.GetUserByEmail(email);
    if found.None? {
      return Failure(HttpError(404, "User not found"));
    }
    var user := store.users[found.value];
    if user.isVerified {
      return Success("Email already verified");
    }
    var token := DecimalText(code);
    store.StoreVerificationToken(user.email, token);
    r := Success(CodeMessage(emailConfigured, "Verification email resent", token));
  }

  // ---------------------------------------------------------------------------
  // login and logout

  /** The profile part of the login reply; the birth date is serialized as `DD-MM` and the
      profile picture is not part of it. */
  datatype UserInfo = UserInfo(
    id: string,
    firstName: string,
    lastName: string,
    email: string,
    phoneNumber: Option<string>,
    dateOfBirth: Option<string>,
    gender: Option<Gender>,
    isVerified: bool)

  datatype LoginResponse = LoginResponse(message: string, accessToken: string, tokenType: string, user: UserInfo)

  function UserInfoOf(u: User): UserInfo {
    UserInfo(u.id, u.firstName, u.lastName, u.email, u.phoneNumber, FormatBirthDate(u.dateOfBirth), u.gender, u.isVerified)
  }

  /** The claims of a session token for a user id. */
  function SessionClaims(id: string): Claims {
    map["sub" := ClaimText(id)]
  }

  /** `login`: an unknown email and a wrong password give the same 401, which is decided
      before the 403 for an unverified account; a success issues a token whose subject is
      the user's id. */
  function LoginOutcome(users: seq<User>, c: Crypto, now: int, expireMinutes: nat, email: string, password: string)
    : (r: Result<LoginResponse, HttpError>)
    ensures var f := FindUserByEmail(users, email);
      && (r == Failure(HttpError(401, "Invalid email or password")) <==>
          f.None? || !VerifyPassword(c, password, users[f.value].passwordHash))
      && (r == Failure(HttpError(403, "Please verify your email before logging in")) <==>
          f.Some? && VerifyPassword(c, password, users[f.value].passwordHash) && !users[f.value].isVerified)
      && (r.Success? <==>
          f.Some? && VerifyPassword(c, password, users[f.value].passwordHash) && users[f.value].isVerified)
      && (r.Success? ==>
          && f.Some? && users[f.value].isVerified && VerifyPassword(c, password, users[f.value].passwordHash)
          && r.value.accessToken == CreateAccessToken(c, SessionClaims(users[f.value].id), now, None, expireMinutes)
          && r.value.user == UserInfoOf(users[f.value])
          && r.value.message == "Login successful" && r.value.tokenType == "bearer")
  {
    match FindUserByEmail(users, email)
    case None => Failure(HttpError(401, "Invalid email or password"))
    case Some(i) =>
      var u := users[i];
      if !VerifyPassword(c, password, u.passwordHash) then Failure(HttpError(401, "Invalid email or password"))
      else if !u.isVerified then Failure(HttpError(403, "Please verify your email before logging in"))
      else
        var token := CreateAccessToken(c, SessionClaims(u.id), now, None, expireMinutes);
        Success(LoginResponse("Login successful", token, "bearer", UserInfoOf(u)))
  }

  /** The token a login issues decodes to the user's id and an expiry the configured number
      of minutes later. */
  lemma LoginTokenClaims(users: seq<User>, c: Crypto, now: int, expireMinutes: nat, email: string, password: string)
    requires Sound(c)
    requires LoginOutcome(users, c, now, expireMinutes, email, password).Success?
    ensures var r := LoginOutcome(users, c, now, expireMinutes, email, password).value;
      && c.decode(r.accessToken).Some?
      && SubjectOf(c.decode(r.accessToken).value) == Some(r.user.id)
      && ExpOf(c.decode(r.accessToken).value) == Some(now + expireMinutes * 60)
  {
    var i := FindUserByEmail(users, email).value;
    var claims := AccessTokenClaims(SessionClaims(users[i].id), now, None, expireMinutes);
    assert claims["sub"] == ClaimText(users[i].id);
  }

  /** `login`: reads the table only (the cookie it sets is not modelled). */
  method Login(store: Store, email: string, password: string) returns (r: Result<LoginResponse, HttpError>)
    ensures r == LoginOutcome(store.users, store.crypto, store.now, store.expireMinutes, email, password)
  {
    var found := store.GetUserByEmail(email);
    if found.None? {
      return Failure(HttpError(401, "Invalid email or password"));
    }
    var u := store.users[found.value];
    if !VerifyPassword(store.crypto, password, u.passwordHash) {
      return Failure(HttpError(401, "Invalid email or password"));
    }
    if !u.isVerified {
      return Failure(HttpError(403, "Please verify your email before logging in"));
    }
    var token := CreateAccessToken(store.crypto, SessionClaims(u.id), store.now, None, store.expireMinutes);
    r := Success(LoginResponse("Login successful", token, "bearer", UserInfoOf(u)));
  }

  /** `logout`: without the cookie a 401 and no change; otherwise the cookie's token is
      blacklisted, which never fails. */
  method Logout(store: Store, cookie: Option<string>) returns (r: Result<string, HttpError>)
    modifies store
    ensures store.users == old(store.users) && store.now == old(store.now)
    ensures Falsy(cookie) ==> r == Failure(HttpError(401, "Not authenticated")) && store.cache == old(store.cache)
    ensures !Falsy(cookie) ==>
      r == Success("Logged out successfully")
      && store.cache == AfterBlacklist(old(store.cache), store.crypto, cookie.value, old(store.now))
  {
    if Falsy(cookie) {
      return Failure(HttpError(401, "Not authenticated"));
    }
    store.BlacklistToken(cookie.value);
    r := Success("Logged out successfully");
  }

  // ---------------------------------------------------------------------------
  // forgot-password and reset-password

  /** `forgot_password`: unknown email is a 404 without writes; otherwise a five-digit
      reset code is stored that maps to the email for ten minutes. */
  method ForgotPassword(store: Store, email: string, code: nat) returns (r: Result<string, HttpError>)
    requires 10000 <= code <= 99999
    modifies store
    ensures store.users == old(store.users) && store.now == old(store.now)
    ensures FindUserByEmail(old(store.users), email).None? ==>
      r == Failure(HttpError(404, "User not found")) && store.cache == old(store.cache)
    ensures FindUserByEmail(old(store.users), email).Some? ==>
      && r == Success("Password reset token sent to your email")
      && store.cache == old(store.cache)[ResetKey(DecimalText(code)) := Entry(email, old(store.now) + DefaultResetTtl)]
  {
    var found := store.GetUserByEmail(email);
    if found.None? {
      return Failure(HttpError(404, "User not found"));
    }
    store.StoreResetToken(email, DecimalText(code), DefaultResetTtl);
    r := Success("Password reset token sent to your email");
  }

  /** The guards of `reset_password`: a live reset code naming a non-empty email, and a
      user with that email. */
  function ResetCheck(users: seq<User>, cache: Cache, now: int, code: string): (r: Result<nat, HttpError>)
    ensures r == Failure(HttpError(400, "Invalid or expired token")) <==> Falsy(CacheGet(cache, ResetKey(code), now))
    ensures r == Failure(HttpError(404, "User not found")) <==>
      !Falsy(CacheGet(cache, ResetKey(code), now)) && FindUserByEmail(users, CacheGet(cache, ResetKey(code), now).value).None?
    ensures r.Success? <==>
      !Falsy(CacheGet(cache, ResetKey(code), now)) && FindUserByEmail(users, CacheGet(cache, ResetKey(code), now).value).Some?
    ensures r.Success? ==>
      && r == Success(FindUserByEmail(users, cache[ResetKey(code)].value).value)
      && ResetKey(code) in cache && now < cache[ResetKey(code)].expiresAt
      && r.value < |users| && users[r.value].email == cache[ResetKey(code)].value
  {
    var email := CacheGet(cache, ResetKey(code), now);
    if Falsy(email) then Failure(HttpError(400, "Invalid or expired token"))
    else
      match FindUserByEmail(users, email.value)
      case None => Failure(HttpError(404, "User not found"))
      case Some(i) => Success(i)
  }

  /** `reset_password`: on success the user's hash is replaced and then the code is
      deleted; on failure nothing changes (an unknown user leaves the code in place). The
      new password is not checked against the password policy. */
  method ResetPassword(store: Store, data: PasswordResetVerify) returns (r: Result<string, HttpError>)
    requires store.Valid()
    modifies store
    ensures store.Valid() && store.now == old(store.now)
    ensures var check := ResetCheck(old(store.users), old(store.cache), old(store.now), data.token);
      && (check.Failure? ==>
          r == Failure(check.error) && store.users == old(store.users) && store.cache == old(store.cache))
      && (check.Success? ==>
          && r == Success("Password reset successfully")
          && store.users == old(store.users)[check.value := old(store.users)[check.value].(passwordHash := store.crypto.hash(data.newPassword))]
          && store.cache == old(store.cache) - {ResetKey(data.token)})
  {
    var email := store.VerifyToken(data.token);
    if Falsy(email) {
      return Failure(HttpError(400, "Invalid or expired token"));
    }
    var found := store.GetUserByEmail(email.value);
    if found.None? {
      return Failure(HttpError(404, "User not found"));
    }
    store.UpdateUserPassword(found.value, data.newPassword);
    store.DeleteToken(data.token);
    r := Success("Password reset successfully");
  }
}
