/**
 * Properties of the authentication lifecycle that span several requests: codes are
 * single-use and only the latest one counts, logout revokes a session for good, and a
 * login's token authenticates its user.
 */
module AuthLifecycle {
  import opened Wrappers
  import opened Text
  import opened AuthUtils
  import opened AuthSchemas
  import opened AuthService
  import opened AuthRoutes
  import opened Uuid
  import Settings

  // ---------------------------------------------------------------------------
  // verification codes

  /** A verification code works once: the successful verification deletes it, so every
      later attempt for that email fails, whatever code it supplies and whenever it comes. */
  lemma VerificationCodeSingleUse(users: seq<User>, cache: Cache, now: int, email: string, code: string, later: int, attempt: string)
    requires VerifyEmailCheck(users, cache, now, email, code).Success?
    ensures var i := VerifyEmailCheck(users, cache, now, email, code).value;
      VerifyEmailCheck(users[i := users[i].(isVerified := true)], cache - {VerificationKey(email)}, later, email, attempt)
        == Failure("Invalid or expired verification token")
  {
  }

  /** Storing a code replaces the earlier one: from then on exactly the latest code
      verifies, and only for ten minutes. */
  lemma OnlyLatestCodeVerifies(users: seq<User>, cache: Cache, now: int, email: string, code: nat, attempt: string, later: int)
    ensures var stored := cache[VerificationKey(email) := Entry(DecimalText(code), now + VerificationTtl)];
      VerifyEmailCheck(users, stored, later, email, attempt).Success? <==>
        attempt == DecimalText(code) && later < now + VerificationTtl && FindUserByEmail(users, email).Some?
  {
  }

  // ---------------------------------------------------------------------------
  // reset codes

  /** A reset code works once: the successful reset deletes it. */
  lemma ResetCodeSingleUse(users: seq<User>, cache: Cache, now: int, code: string, newHash: string, later: int)
    requires ResetCheck(users, cache, now, code).Success?
    ensures var i := ResetCheck(users, cache, now, code).value;
      ResetCheck(users[i := users[i].(passwordHash := newHash)], cache - {ResetKey(code)}, later, code)
        == Failure(HttpError(400, "Invalid or expired token"))
  {
  }

  /** A code stored by forgot-password resolves to the user it was issued for until it
      expires, and storing it leaves every verification code as it was. */
  lemma ForgotThenReset(users: seq<User>, cache: Cache, now: int, i: nat, code: nat, later: int)
    requires UniqueEmails(users) && i < |users| && users[i].email != ""
    requires later < now + DefaultResetTtl
    ensures var stored := cache[ResetKey(DecimalText(code)) := Entry(users[i].email, now + DefaultResetTtl)];
      && ResetCheck(users, stored, later, DecimalText(code)) == Success(i)
      && forall e: string, t: int :: CacheGet(stored, VerificationKey(e), t) == CacheGet(cache, VerificationKey(e), t)
  {
    var key := ResetKey(DecimalText(code));
    var stored := cache[key := Entry(users[i].email, now + DefaultResetTtl)];
    assert ResetCheck(users, stored, later, DecimalText(code)) == Success(i) by {
      assert CacheGet(stored, key, later) == Some(users[i].email);
      FindUserByEmailExact(users, i);
    }
    forall e: string, t: int ensures CacheGet(stored, VerificationKey(e), t) == CacheGet(cache, VerificationKey(e), t) {
      KeysDistinct(e, DecimalText(code), e, DecimalText(code));
      assert VerificationKey(e) != key;
    }
  }

  // ---------------------------------------------------------------------------
  // sessions

  /** A presented token that fails the claim checks now fails them at every later time,
      provided it carries an expiry. */
  lemma RejectedStaysRejected(c: Crypto, token: string, now: int, later: int)
    requires later >= now
    requires c.decode(token).Some? ==> "exp" in c.decode(token).value
    requires DecodeToken(c, token, now).None?
    ensures DecodeToken(c, token, later).None?
  {
  }

  /** Logout revokes for good: once a session token has been blacklisted, every request
      that presents it is refused with a 401, before and after the token's own expiry. */
  lemma LogoutRevokes(users: seq<User>, cache: Cache, c: Crypto, now: nat, token: string, authorization: Option<string>, later: int)
    requires c.decode(token).Some? ==> "exp" in c.decode(token).value
    requires later >= now
    requires SelectToken(authorization, Some(token)) == Some(token)
    ensures var r := Authenticate(users, AfterBlacklist(cache, c, token, now), c, later, authorization, Some(token));
      r.Failure? && r.error.status == 401
  {
    var revoked := AfterBlacklist(cache, c, token, now);
    if token != "" && !Revoked(revoked, token, later) {
      match DecodeToken(c, token, now)
      case None =>
        RejectedStaysRejected(c, token, now, later);
      case Some(claims) =>
        assert ExpOf(claims).Some?;
        assert later >= ExpOf(claims).value;
    }
  }

  /** The token of a successful login authenticates its user, presented either as the
      cookie or as a bearer header, until it expires unless it is revoked first. */
  lemma LoginThenAuthenticate(users: seq<User>, cache: Cache, c: Crypto, now: int, expireMinutes: nat, email: string, password: string, later: int)
    requires Sound(c) && UniqueIds(users) && CanonicalIds(users)
    requires LoginOutcome(users, c, now, expireMinutes, email, password).Success?
    requires later < now + expireMinutes * 60
    requires !Revoked(cache, LoginOutcome(users, c, now, expireMinutes, email, password).value.accessToken, later)
    ensures var token := LoginOutcome(users, c, now, expireMinutes, email, password).value.accessToken;
      var user := users[FindUserByEmail(users, email).value];
      && Authenticate(users, cache, c, later, None, Some(token)) == Success(user)
      && Authenticate(users, cache, c, later, Some("Bearer " + token), None) == Success(user)
  {
    var i := FindUserByEmail(users, email).value;
    var token := LoginOutcome(users, c, now, expireMinutes, email, password).value.accessToken;
    var claims := AccessTokenClaims(SessionClaims(users[i].id), now, None, expireMinutes);
    assert claims["sub"] == ClaimText(users[i].id);
    assert c.decode(token) == Some(claims);
    assert DecodeToken(c, token, later) == Some(claims);
    BearerTokenSelected(token, None);
    ParseCanonicalUuid(users[i].id);
    FindUserByIdExact(users, i);
  }

  /** The logout a user of a server five hours behind UTC gets: blacklisting a fresh
      session token of the default 30-minute lifetime with the TTL as written records nothing, and the token goes
      on authenticating its user. */
  lemma AsWrittenLogoutIneffectiveWestOfUtc(users: seq<User>, cache: Cache, c: Crypto, now: nat, i: nat)
    requires Sound(c) && UniqueIds(users) && CanonicalIds(users) && i < |users|
    requires !Revoked(cache, CreateAccessToken(c, SessionClaims(users[i].id), now, None, Settings.DefaultAccessTokenExpireMinutes), now)
    ensures var token := CreateAccessToken(c, SessionClaims(users[i].id), now, None, Settings.DefaultAccessTokenExpireMinutes);
      && BlacklistAsWritten(cache, c, token, now, -18000) == cache
      && Authenticate(users, BlacklistAsWritten(cache, c, token, now, -18000), c, now, None, Some(token)) == Success(users[i])
  {
    var token := CreateAccessToken(c, SessionClaims(users[i].id), now, None, Settings.DefaultAccessTokenExpireMinutes);
    var claims := AccessTokenClaims(SessionClaims(users[i].id), now, None, Settings.DefaultAccessTokenExpireMinutes);
    assert claims["sub"] == ClaimText(users[i].id);
    assert DecodeToken(c, token, now) == Some(claims);
    assert ExpOf(claims) == Some(now + 1800);
    assert BlacklistTtlAsWritten(now + 1800, now, -18000) < 0;
    ParseCanonicalUuid(users[i].id);
    FindUserByIdExact(users, i);
  }

  // ---------------------------------------------------------------------------
  // an end-to-end run

  /** Signup, then verification with the code signup stored, then login with the signup
      password: the login succeeds for the new, now verified, user. */
  method SignupVerifyLogin(store: Store, data: UserCreate, emailConfigured: bool, newId: string, code: nat)
    returns (login: Result<LoginResponse, HttpError>)
    requires store.Valid()
    requires IsCanonicalUuid(newId) && FindUserById(store.users, newId).None?
    requires 10000 <= code <= 99999
    requires SignupCheck(store.users, data, None).None?
    modifies store
    ensures store.Valid()
    ensures login.Success? && login.value.user.id == newId && login.value.user.isVerified
    ensures login.value.user.email == data.email
  {
    var signedUp := Signup(store, data, None, emailConfigured, newId, code);
    login := VerifyThenLogin(store, data, newId, DecimalText(code));
  }

  /** The second half of the run: the stored code verifies the newest user, who can then
      log in with the signup password. */
  method VerifyThenLogin(store: Store, data: UserCreate, newId: string, code: string)
    returns (login: Result<LoginResponse, HttpError>)
    requires store.Valid() && |store.users| > 0
    requires store.users[|store.users| - 1] == NewUser(store.crypto, data, newId)
    requires CacheGet(store.cache, VerificationKey(data.email), store.now) == Some(code) && code != ""
    modifies store
    ensures store.Valid()
    ensures login.Success? && login.value.user.id == newId && login.value.user.isVerified
    ensures login.value.user.email == data.email
  {
    var n := |store.users| - 1;
    FindUserByEmailExact(store.users, n);
    var verified := VerifyEmail(store, data.email, code);
    FindUserByEmailExact(store.users, n);
    login := Login(store, data.email, data.password);
  }
}
