/**
 * Password policy, password hashing and access-token creation.
 *
 * bcrypt and JWT signing are not modelled as algorithms: a `Crypto` value carries a hash
 * function and a token encoder/decoder pair, and all that is assumed about them is that
 * decoding an encoded claim set gives the claim set back and that tokens are non-empty
 * and free of spaces (`Sound`).
 */
module AuthUtils {
  import opened Wrappers
  import opened Text

  // ---------------------------------------------------------------------------
  // password policy

  datatype PolicyError = TooShort | NoUppercase | NoLowercase | NoDigit | NoSpecial

  /** The `detail` of the 400 response for each rejection. */
  function PolicyDetail(e: PolicyError): string {
    match e
    case TooShort => "Password must be at least 8 characters long"
    case NoUppercase => "Password must contain at least one uppercase letter"
    case NoLowercase => "Password must contain at least one lowercase letter"
    case NoDigit => "Password must contain at least one digit"
    case NoSpecial => "Password must contain at least one special character"
  }

  /** The regular-expression character classes of the policy. They are ranges of code
      points, so only ASCII letters and digits belong to them. */
  datatype CharClass = Upper | Lower | Digit | Special

  const SpecialChars := "!@#$%^&*(),.?\":{}|<>"

  predicate InClass(c: char, k: CharClass) {
    match k
    case Upper => 'A' <= c <= 'Z'
    case Lower => 'a' <= c <= 'z'
    case Digit => '0' <= c <= '9'
    case Special => c in SpecialChars
  }

  /** Some character of `p` is in class `k`. */
  ghost predicate HasClass(p: string, k: CharClass) {
    exists i :: 0 <= i < |p| && InClass(p[i], k)
  }

  /** `re.search("[...]", p) is not None`, scanning from the left. */
  function Search(p: string, k: CharClass): (found: bool)
    ensures found <==> HasClass(p, k)
  {
    if p == [] then false
    else if InClass(p[0], k) then true
    else
      var rest := Search(p[1..], k);
      assert HasClass(p[1..], k) ==> HasClass(p, k) by {
        if HasClass(p[1..], k) {
          var i :| 0 <= i < |p| - 1 && InClass(p[1..][i], k);
          assert p[i + 1] == p[1..][i];
        }
      }
      assert HasClass(p, k) ==> HasClass(p[1..], k) by {
        if HasClass(p, k) {
          var i :| 0 <= i < |p| && InClass(p[i], k);
          assert i > 0 && p[1..][i - 1] == p[i];
        }
      }
      rest
  }

  /** `validate_password`: `None` when the password is accepted, otherwise the first
      check that fails, in the order length, uppercase, lowercase, digit, special. */
  function ValidatePassword(p: string): (r: Option<PolicyError>)
    ensures r.None? <==>
      |p| >= 8 && HasClass(p, Upper) && HasClass(p, Lower) && HasClass(p, Digit) && HasClass(p, Special)
    ensures r == Some(TooShort) <==> |p| < 8
    ensures r == Some(NoUppercase) <==> |p| >= 8 && !HasClass(p, Upper)
    ensures r == Some(NoLowercase) <==> |p| >= 8 && HasClass(p, Upper) && !HasClass(p, Lower)
    ensures r == Some(NoDigit) <==>
      |p| >= 8 && HasClass(p, Upper) && HasClass(p, Lower) && !HasClass(p, Digit)
    ensures r == Some(NoSpecial) <==>
      |p| >= 8 && HasClass(p, Upper) && HasClass(p, Lower) && HasClass(p, Digit) && !HasClass(p, Special)
  {
    if |p| < 8 then Some(TooShort)
    else if !Search(p, Upper) then Some(NoUppercase)
    else if !Search(p, Lower) then Some(NoLowercase)
    else if !Search(p, Digit) then Some(NoDigit)
    else if !Search(p, Special) then Some(NoSpecial)
    else None
  }

  /** A capital letter outside ASCII does not satisfy the uppercase rule. */
  lemma NonAsciiCapitalIsNotUppercase()
    ensures ValidatePassword("\U{c9}cole-42!") == Some(NoUppercase)
  {
    var p := "\U{c9}cole-42!";
    assert |p| == 9;
    assert !HasClass(p, Upper) by {
      forall i | 0 <= i < |p| ensures !InClass(p[i], Upper) {
      }
    }
  }

  // ---------------------------------------------------------------------------
  // token claims

  datatype Claim = ClaimText(text: string) | ClaimTime(time: int)

  type Claims = map<string, Claim>

  /** The expiry `create_access_token` puts in the token: `now + delta` for a non-zero
      delta, otherwise `now` plus the configured number of minutes. */
  function ExpiryFor(now: int, delta: Option<int>, expireMinutes: nat): (exp: int)
    ensures delta.Some? && delta.value != 0 ==> exp == now + delta.value
    ensures (delta.None? || delta.value == 0) ==> exp == now + expireMinutes * 60
  {
    match delta
    case Some(d) => if d != 0 then now + d else now + expireMinutes * 60
    case None => now + expireMinutes * 60
  }

  /** The claims `create_access_token` signs: a copy of the caller's claims with `exp`
      set; the caller's own map is a value and is not affected. */
  function AccessTokenClaims(data: Claims, now: int, delta: Option<int>, expireMinutes: nat): (claims: Claims)
    ensures claims.Keys == data.Keys + {"exp"}
    ensures claims["exp"] == ClaimTime(ExpiryFor(now, delta, expireMinutes))
    ensures forall k :: k in data && k != "exp" ==> claims[k] == data[k]
  {
    data["exp" := ClaimTime(ExpiryFor(now, delta, expireMinutes))]
  }

  // ---------------------------------------------------------------------------
  // hashing and signing

  /** The password hasher and the token signer under the configured secret key. */
  datatype Crypto = Crypto(hash: string -> string, encode: Claims -> string, decode: string -> Option<Claims>)

  /** What the model relies on about signing: a token made by `encode` decodes to the
      claims it was made from, and, being a compact JWT, is non-empty and has no spaces. */
  ghost predicate Sound(c: Crypto) {
    forall claims :: c.decode(c.encode(claims)) == Some(claims) && c.encode(claims) != [] && ' ' !in c.encode(claims)
  }

  /** `verify_password`: the plain password hashes to the stored hash. */
  predicate VerifyPassword(c: Crypto, plain: string, hashed: string) {
    c.hash(plain) == hashed
  }

  /** `create_access_token`: the signed claims with their expiry. */
  function CreateAccessToken(c: Crypto, data: Claims, now: int, delta: Option<int>, expireMinutes: nat): (token: string)
    ensures Sound(c) ==> c.decode(token) == Some(AccessTokenClaims(data, now, delta, expireMinutes))
  {
    c.encode(AccessTokenClaims(data, now, delta, expireMinutes))
  }

  /** The `exp` claim, when it is a time. */
  function ExpOf(claims: Claims): Option<int> {
    if "exp" in claims && claims["exp"].ClaimTime? then Some(claims["exp"].time) else None
  }

  /** The `sub` claim, when it is a text. */
  function SubjectOf(claims: Claims): Option<string> {
    if "sub" in claims && claims["sub"].ClaimText? then Some(claims["sub"].text) else None
  }

  /** The claim checks made while decoding: an `exp` must be a time still in the future and
      a `sub` must be a text. */
  predicate ClaimsAcceptable(claims: Claims, now: int) {
    && ("exp" in claims ==> claims["exp"].ClaimTime? && claims["exp"].time > now)
    && ("sub" in claims ==> claims["sub"].ClaimText?)
  }

  /** `jwt.decode` at time `now`: the claims of a correctly signed token that passes the
      claim checks. */
  function DecodeToken(c: Crypto, token: string, now: int): (r: Option<Claims>)
    ensures r.Some? ==> c.decode(token) == r && ClaimsAcceptable(r.value, now)
    ensures r.None? ==> c.decode(token).None? || !ClaimsAcceptable(c.decode(token).value, now)
  {
    match c.decode(token)
    case None => None
    case Some(claims) => if ClaimsAcceptable(claims, now) then Some(claims) else None
  }

  /** A token issued at `issuedAt` decodes, to the claims it was issued with, exactly until
      its expiry; after that every decode fails. */
  lemma IssuedTokenLifetime(c: Crypto, data: Claims, issuedAt: int, delta: Option<int>, expireMinutes: nat, now: int)
    requires Sound(c)
    requires "sub" in data ==> data["sub"].ClaimText?
    ensures var token := CreateAccessToken(c, data, issuedAt, delta, expireMinutes);
      var exp := ExpiryFor(issuedAt, delta, expireMinutes);
      && (now < exp ==> DecodeToken(c, token, now) == Some(AccessTokenClaims(data, issuedAt, delta, expireMinutes)))
      && (now >= exp ==> DecodeToken(c, token, now).None?)
  {
    var claims := AccessTokenClaims(data, issuedAt, delta, expireMinutes);
    assert "sub" in claims ==> claims["sub"] == data["sub"];
  }
}
