/**
 * The authentication service: the users table and the key/value cache that the handlers
 * share, the operations on them, and request authentication (`get_current_user`).
 *
 * The cache is one keyspace holding three kinds of entry: verification codes under
 * `verification_token:<email>`, reset codes under `reset_token:<code>` (whose value is the
 * email) and revoked session tokens under the raw token text (whose value is
 * `blacklisted`). An entry written at time `now` with a time-to-live `ttl` is live while
 * the clock is below `now + ttl`.
 */
module AuthService {
  import opened Wrappers
  import opened Text
  import opened AuthUtils
  import opened AuthSchemas
  import opened Uuid

  // ---------------------------------------------------------------------------
  // records

  /** A row of the users table. The id is kept in its canonical text form. */
  datatype User = User(
    id: string,
    email: string,
    passwordHash: string,
    firstName: string,
    lastName: string,
    phoneNumber: Option<string>,
    dateOfBirth: Option<Date>,
    gender: Option<Gender>,
    isVerified: bool,
    profilePicture: Option<string>)

  /** A cache entry and the time at which it expires. */
  datatype Entry = Entry(value: string, expiresAt: int)

  type Cache = map<string, Entry>

  const VerificationTtl := 600
  const DefaultResetTtl := 600
  const Blacklisted := "blacklisted"

  function VerificationKey(email: string): string {
    "verification_token:" + email
  }

  function ResetKey(code: string): string {
    "reset_token:" + code
  }

  /** The value of a live entry (`GET`). */
  function CacheGet(cache: Cache, key: string, now: int): Option<string> {
    if key in cache && now < cache[key].expiresAt then Some(cache[key].value) else None
  }

  /** A verification key and a reset key never coincide, and each kind of key determines
      its email or code. */
  lemma KeysDistinct(email: string, code: string, email2: string, code2: string)
    ensures VerificationKey(email) != ResetKey(code)
    ensures VerificationKey(email) == VerificationKey(email2) <==> email == email2
    ensures ResetKey(code) == ResetKey(code2) <==> code == code2
  {
    assert VerificationKey(email)[0] == 'v' && ResetKey(code)[0] == 'r';
    if VerificationKey(email) == VerificationKey(email2) {
      assert email == VerificationKey(email)[19..] && email2 == VerificationKey(email2)[19..];
    }
    if ResetKey(code) == ResetKey(code2) {
      assert code == ResetKey(code)[12..] && code2 == ResetKey(code2)[12..];
    }
  }

  // ---------------------------------------------------------------------------
  // the users table

  ghost predicate UniqueEmails(users: seq<User>) {
    forall i, j :: 0 <= i < j < |users| ==> users[i].email != users[j].email
  }

  ghost predicate UniqueIds(users: seq<User>) {
    forall i, j :: 0 <= i < j < |users| ==> users[i].id != users[j].id
  }

  ghost predicate CanonicalIds(users: seq<User>) {
    forall i :: 0 <= i < |users| ==> IsCanonicalUuid(users[i].id)
  }

  /** `select(User).where(User.email == email)`: the position of the row with that email. */
  function FindUserByEmail(users: seq<User>, email: string): (r: Option<nat>)
    ensures r.Some? ==> r.value < |users| && users[r.value].email == email
    ensures r.None? <==> forall j :: 0 <= j < |users| ==> users[j].email != email
  {
    if users == [] then None
    else if users[0].email == email then Some(0)
    else
      match FindUserByEmail(users[1..], email)
      case None =>
        assert forall j :: 0 < j < |users| ==> users[j] == users[1..][j - 1];
        None
      case Some(i) => Some(i + 1)
  }

  /** `select(User).where(User.id == id)`: the position of the row with that id. */
  function FindUserById(users: seq<User>, id: string): (r: Option<nat>)
    ensures r.Some? ==> r.value < |users| && users[r.value].id == id
    ensures r.None? <==> forall j :: 0 <= j < |users| ==> users[j].id != id
  {
    if users == [] then None
    else if users[0].id == id then Some(0)
    else
      match FindUserById(users[1..], id)
      case None =>
        assert forall j :: 0 < j < |users| ==> users[j] == users[1..][j - 1];
        None
      case Some(i) => Some(i + 1)
  }

  /** With unique emails the lookup finds exactly the row that has the email. */
  lemma FindUserByEmailExact(users: seq<User>, i: nat)
    requires UniqueEmails(users) && i < |users|
    ensures FindUserByEmail(users, users[i].email) == Some(i)
  {
  }

  /** With unique ids the lookup finds exactly the row that has the id. */
  lemma FindUserByIdExact(users: seq<User>, i: nat)
    requires UniqueIds(users) && i < |users|
    ensures FindUserById(users, users[i].id) == Some(i)
  {
  }

  /** The row `create_user` builds: the signup data with the password hashed and
      `is_verified` false. */
  function NewUser(c: Crypto, data: UserCreate, id: string): (u: User)
    ensures u.id == id && u.email == data.email && !u.isVerified
    ensures VerifyPassword(c, data.password, u.passwordHash)
  {
    User(id, data.email, c.hash(data.password), data.firstName, data.lastName, data.phoneNumber,
      data.dateOfBirth, data.gender, false, None)
  }

  // ---------------------------------------------------------------------------
  // email verification

  /** The guards of `verify_user_email`: the live code stored for the email must equal the
      supplied one, and a user must have the email. */
  function VerifyEmailCheck(users: seq<User>, cache: Cache, now: int, email: string, code: string)
    : (r: Result<nat, string>)
    ensures r == Failure("Invalid or expired verification token") <==>
      Falsy(CacheGet(cache, VerificationKey(email), now)) || CacheGet(cache, VerificationKey(email), now) != Some(code)
    ensures r == Failure("User not found") <==>
      !Falsy(CacheGet(cache, VerificationKey(email), now)) && CacheGet(cache, VerificationKey(email), now) == Some(code)
      && FindUserByEmail(users, email).None?
    ensures r.Success? <==>
      !Falsy(CacheGet(cache, VerificationKey(email), now)) && CacheGet(cache, VerificationKey(email), now) == Some(code)
      && FindUserByEmail(users, email).Some?
    ensures r.Success? ==>
      && r == Success(FindUserByEmail(users, email).value)
      && r.value < |users| && users[r.value].email == email
      && code != "" && CacheGet(cache, VerificationKey(email), now) == Some(code)
  {
    var stored := CacheGet(cache, VerificationKey(email), now);
    if Falsy(stored) || stored != Some(code) then Failure("Invalid or expired verification token")
    else
      match FindUserByEmail(users, email)
      case None => Failure("User not found")
      case Some(i) => Success(i)
  }

  // ---------------------------------------------------------------------------
  // the blacklist

  /** The TTL `blacklist_token` gives a token expiring at `exp`: its remaining lifetime. */
  function BlacklistTtl(exp: int, now: int): int {
    exp - now
  }

  /** The TTL as `int(exp - datetime.utcnow().timestamp())` computes it on a server whose
      local time is `utcOffset` seconds ahead of UTC: `utcnow()` is a naive value, which
      `timestamp()` reads as local time. */
  function BlacklistTtlAsWritten(exp: int, now: int, utcOffset: int): int {
    exp - (now - utcOffset)
  }

  /** The two agree exactly on a server that keeps UTC. */
  lemma BlacklistTtlAgreesOnUtc(exp: int, now: int, utcOffset: int)
    ensures BlacklistTtlAsWritten(exp, now, utcOffset) == BlacklistTtl(exp, now) <==> utcOffset == 0
  {
  }

  /** The cache after `blacklist_token(token)` with a given TTL law: a token that decodes
      and has a non-zero `exp` is stored as `blacklisted` for the TTL when that is positive;
      anything else, an undecodable token included, leaves the cache as it was. */
  function BlacklistWith(cache: Cache, c: Crypto, token: string, now: nat, ttlOf: (int, int) -> int): Cache {
    match DecodeToken(c, token, now)
    case None => cache
    case Some(claims) =>
      match ExpOf(claims)
      case None => cache
      case Some(exp) =>
        if exp != 0 && ttlOf(exp, now) > 0 then cache[token := Entry(Blacklisted, now + ttlOf(exp, now))] else cache
  }

  /** `blacklist_token`: a token that decodes is revoked until exactly its own expiry;
      nothing else changes, and an undecodable token changes nothing. */
  function AfterBlacklist(cache: Cache, c: Crypto, token: string, now: nat): (r: Cache)
    ensures DecodeToken(c, token, now).None? ==> r == cache
    ensures DecodeToken(c, token, now).Some? && ExpOf(DecodeToken(c, token, now).value).None? ==> r == cache
    ensures DecodeToken(c, token, now).Some? && ExpOf(DecodeToken(c, token, now).value).Some? ==>
      r == cache[token := Entry(Blacklisted, ExpOf(DecodeToken(c, token, now).value).value)]
    ensures forall k :: k != token ==> (k in r <==> k in cache) && (k in r ==> r[k] == cache[k])
  {
    BlacklistWith(cache, c, token, now, BlacklistTtl)
  }

  /** `blacklist_token` as written, on a server `utcOffset` seconds ahead of UTC. */
  function BlacklistAsWritten(cache: Cache, c: Crypto, token: string, now: nat, utcOffset: int): (r: Cache)
    ensures DecodeToken(c, token, now).None? ==> r == cache
    ensures DecodeToken(c, token, now).Some? && ExpOf(DecodeToken(c, token, now).value).None? ==> r == cache
    ensures DecodeToken(c, token, now).Some? && ExpOf(DecodeToken(c, token, now).value).Some? ==>
      var ttl := BlacklistTtlAsWritten(ExpOf(DecodeToken(c, token, now).value).value, now, utcOffset);
      && (ttl > 0 ==> r == cache[token := Entry(Blacklisted, now + ttl)])
      && (ttl <= 0 ==> r == cache)
    ensures forall k :: k != token ==> (k in r <==> k in cache) && (k in r ==> r[k] == cache[k])
  {
    BlacklistWith(cache, c, token, now, (exp, t) => BlacklistTtlAsWritten(exp, t, utcOffset))
  }

  /** A token is revoked while a live `blacklisted` entry exists under it. */
  predicate Revoked(cache: Cache, token: string, now: int) {
    CacheGet(cache, token, now) == Some(Blacklisted)
  }

  // ---------------------------------------------------------------------------
  // request authentication

  /** The token a request presents: the second space-separated field of an
      `Authorization` header that starts with `Bearer `, otherwise the `access_token`
      cookie. */
  function SelectToken(authorization: Option<string>, cookie: Option<string>): (t: Option<string>)
    ensures authorization.Some? && StartsWith(authorization.value, "Bearer ") ==>
      t == Some(Split(authorization.value[7..], ' ')[0])
    ensures !(authorization.Some? && StartsWith(authorization.value, "Bearer ")) ==> t == cookie
  {
    if authorization.Some? && authorization.value != "" && StartsWith(authorization.value, "Bearer ") then
      var a := authorization.value;
      assert a == "Bearer" + [' '] + a[7..];
      SplitFieldThen("Bearer", ' ', a[7..]);
      Some(Split(a, ' ')[1])
    else
      cookie
  }

  /** A bearer token without spaces is taken whole, and the cookie is then ignored. */
  lemma BearerTokenSelected(token: string, cookie: Option<string>)
    requires ' ' !in token
    ensures SelectToken(Some("Bearer " + token), cookie) == Some(token)
  {
    var a := "Bearer " + token;
    assert a[7..] == token;
    SplitSingleField(token, ' ');
  }

  /** A header with two spaces after `Bearer` selects the empty token, so the request is
      unauthenticated even when a valid cookie is also sent. */
  lemma DoubleSpaceBearerIsEmpty(rest: string, cookie: Option<string>)
    ensures SelectToken(Some("Bearer  " + rest), cookie) == Some("")
  {
    var a := "Bearer  " + rest;
    assert a[7..] == [] + [' '] + rest;
    SplitFieldThen([], ' ', rest);
  }

  /** `get_current_user`: the user a request authenticates as, or the first failing check
      in the order missing token, revoked token, undecodable token, missing subject,
      malformed id, unknown user. */
  function Authenticate(users: seq<User>, cache: Cache, c: Crypto, now: int, authorization: Option<string>, cookie: Option<string>)
    : (r: Result<User, HttpError>)
    ensures var t := SelectToken(authorization, cookie);
      && (Falsy(t) <==> r == Failure(HttpError(401, "Missing authentication token")))
      && (!Falsy(t) && Revoked(cache, t.value, now) <==> r == Failure(HttpError(401, "Token has been revoked")))
      && (!Falsy(t) && !Revoked(cache, t.value, now) && DecodeToken(c, t.value, now).None? <==>
          r == Failure(HttpError(401, "Could not validate token")))
    ensures var t := SelectToken(authorization, cookie);
      !Falsy(t) && !Revoked(cache, t.value, now) && DecodeToken(c, t.value, now).Some? ==>
      var sub := SubjectOf(DecodeToken(c, t.value, now).value);
      && (Falsy(sub) <==> r == Failure(HttpError(401, "Invalid token")))
      && (!Falsy(sub) ==>
          && (ParseUuid(sub.value).None? <==> r == Failure(HttpError(401, "Invalid user ID format")))
          && (ParseUuid(sub.value).Some? ==>
              var found := FindUserById(users, ParseUuid(sub.value).value);
              && (found.None? <==> r == Failure(HttpError(404, "User not found")))
              && (found.Some? ==> r == Success(users[found.value]))))
    ensures r.Success? ==>
      var t := SelectToken(authorization, cookie).value;
      && !Revoked(cache, t, now)
      && DecodeToken(c, t, now).Some?
      && SubjectOf(DecodeToken(c, t, now).value).Some?
      && ParseUuid(SubjectOf(DecodeToken(c, t, now).value).value) == Some(r.value.id)
      && r.value in users
    ensures r.Failure? ==> r.error.status == 401 || r.error == HttpError(404, "User not found")
  {
    var t := SelectToken(authorization, cookie);
    if Falsy(t) then Failure(HttpError(401, "Missing authentication token"))
    else if Revoked(cache, t.value, now) then Failure(HttpError(401, "Token has been revoked"))
    else
      match DecodeToken(c, t.value, now)
      case None => Failure(HttpError(401, "Could not validate token"))
      case Some(claims) =>
        var sub := SubjectOf(claims);
        if Falsy(sub) then Failure(HttpError(401, "Invalid token"))
        else
          match ParseUuid(sub.value)
          case None => Failure(HttpError(401, "Invalid user ID format"))
          case Some(id) =>
            match FindUserById(users, id)
            case None => Failure(HttpError(404, "User not found"))
            case Some(i) => Success(users[i])
  }

  // ---------------------------------------------------------------------------
  // the service state

  /** The users table, the cache and the clock, with the signer they are used with. */
  class Store {
    var users: seq<User>
    var cache: Cache
    var now: nat
    const crypto: Crypto
    const expireMinutes: nat

    ghost predicate Valid()
      reads this
    {
      Sound(crypto) && UniqueEmails(users) && UniqueIds(users) && CanonicalIds(users)
    }

    /** `expireMinutes` is the configuration's `accessTokenExpireMinutes`; without an
        override that is `Settings.DefaultAccessTokenExpireMinutes`. */
    constructor (crypto: Crypto, expireMinutes: nat, start: nat)
      requires Sound(crypto)
      ensures Valid()
      ensures this.crypto == crypto && this.expireMinutes == expireMinutes
      ensures users == [] && cache == map[] && now == start
    {
      this.crypto := crypto;
      this.expireMinutes := expireMinutes;
      users := [];
      cache := map[];
      now := start;
    }

    /** Time passes; entries whose time is up stop being live. */
    method AdvanceClock(t: nat)
      requires t >= now
      modifies this
      ensures now == t && users == old(users) && cache == old(cache)
    {
      now := t;
    }

    /** `get_user_by_email`. */
    method GetUserByEmail(email: string) returns (r: Option<nat>)
      ensures r == FindUserByEmail(users, email)
    {
      r := FindUserByEmail(users, email);
    }

    /** `create_user`: an email already present is refused and changes nothing; otherwise
        exactly one unverified row with the hashed password is added. */
    method CreateUser(data: UserCreate, newId: string) returns (r: Result<User, string>)
      requires Valid()
      requires IsCanonicalUuid(newId) && FindUserById(users, newId).None?
      modifies this
      ensures Valid()
      ensures cache == old(cache) && now == old(now)
      ensures FindUserByEmail(old(users), data.email).Some? ==>
        r == Failure("Email already registered") && users == old(users)
      ensures FindUserByEmail(old(users), data.email).None? ==>
        r == Success(NewUser(crypto, data, newId)) && users == old(users) + [NewUser(crypto, data, newId)]
    {
      var existing := FindUserByEmail(users, data.email);
      if existing.Some? {
        return Failure("Email already registered");
      }
      var u := NewUser(crypto, data, newId);
      users := users + [u];
      return Success(u);
    }

    /** `store_verification_token`: the code replaces any earlier one for the email and
        lives for ten minutes. */
    method StoreVerificationToken(email: string, code: string)
      modifies this
      ensures cache == old(cache)[VerificationKey(email) := Entry(code, old(now) + VerificationTtl)]
      ensures users == old(users) && now == old(now)
    {
      cache := cache[VerificationKey(email) := Entry(code, now + VerificationTtl)];
    }

    /** `verify_user_email`: when the guards pass, the user is marked verified and the code
        is deleted; when they fail, nothing changes. */
    method VerifyUserEmail(email: string, code: string) returns (r: Result<User, string>)
      requires Valid()
      modifies this
      ensures Valid() && now == old(now)
      ensures var check := VerifyEmailCheck(old(users), old(cache), old(now), email, code);
        && (check.Failure? ==> r == Failure(check.error) && users == old(users) && cache == old(cache))
        && (check.Success? ==>
            && users == old(users)[check.value := old(users)[check.value].(isVerified := true)]
            && cache == old(cache) - {VerificationKey(email)}
            && r == Success(users[check.value]))
    {
      var check := VerifyEmailCheck(users, cache, now, email, code);
      if check.Failure? {
        return Failure(check.error);
      }
      var i := check.value;
      users := users[i := users[i].(isVerified := true)];
      cache := cache - {VerificationKey(email)};
      return Success(users[i]);
    }

    /** `blacklist_token`: never fails; see `AfterBlacklist`. */
    method BlacklistToken(token: string)
      modifies this
      ensures cache == AfterBlacklist(old(cache), crypto, token, old(now))
      ensures users == old(users) && now == old(now)
    {
      cache := AfterBlacklist(cache, crypto, token, now);
    }

    /** `is_token_blacklisted`. */
    method IsTokenBlacklisted(token: string) returns (b: bool)
      ensures b <==> token in cache && now < cache[token].expiresAt && cache[token].value == Blacklisted
    {
      b := CacheGet(cache, token, now) == Some(Blacklisted);
    }

    /** `store_reset_token`: the code maps to the email for `expiry` seconds. */
    method StoreResetToken(email: string, code: string, expiry: nat)
      requires expiry > 0
      modifies this
      ensures cache == old(cache)[ResetKey(code) := Entry(email, old(now) + expiry)]
      ensures users == old(users) && now == old(now)
    {
      cache := cache[ResetKey(code) := Entry(email, now + expiry)];
    }

    /** `verify_token`: the email a live reset code maps to; reading does not consume it. */
    method VerifyToken(code: string) returns (email: Option<string>)
      ensures email.Some? <==> ResetKey(code) in cache && now < cache[ResetKey(code)].expiresAt
      ensures email.Some? ==> email.value == cache[ResetKey(code)].value
    {
      email := CacheGet(cache, ResetKey(code), now);
    }

    /** `delete_token`. */
    method DeleteToken(code: string)
      modifies this
      ensures cache == old(cache) - {ResetKey(code)}
      ensures users == old(users) && now == old(now)
    {
      cache := cache - {ResetKey(code)};
    }

    /** `update_user_password`: only that row's hash changes. */
    method UpdateUserPassword(i: nat, newPassword: string)
      requires Valid() && i < |users|
      modifies this
      ensures Valid()
      ensures users == old(users)[i := old(users)[i].(passwordHash := crypto.hash(newPassword))]
      ensures cache == old(cache) && now == old(now)
    {
      users := users[i := users[i].(passwordHash := crypto.hash(newPassword))];
    }

    /** `get_current_user`: reads the header, the cookie, the cache and the table. */
    method GetCurrentUser(authorization: Option<string>, cookie: Option<string>) returns (r: Result<User, HttpError>)
      ensures r == Authenticate(users, cache, crypto, now, authorization, cookie)
    {
      r := Authenticate(users, cache, crypto, now, authorization, cookie);
    }
  }
}
