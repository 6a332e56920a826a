/**
 * The request and response schemas of the authentication endpoints: the two
 * password-confirmation validators, the `DD-MM` birth-date serializer and the name-length
 * bounds of a profile update.
 */
module AuthSchemas {
  import opened Wrappers
  import opened Text

  datatype Gender = Male | Female | OtherGender

  datatype CalendarDate = CalendarDate(year: int, month: int, day: int)

  function DaysInMonth(year: int, month: int): int {
    if month == 2 then (if (year % 4 == 0 && year % 100 != 0) || year % 400 == 0 then 29 else 28)
    else if month == 4 || month == 6 || month == 9 || month == 11 then 30
    else 31
  }

  predicate ValidDate(d: CalendarDate) {
    1 <= d.year <= 9999 && 1 <= d.month <= 12 && 1 <= d.day <= DaysInMonth(d.year, d.month)
  }

  /** A `datetime.date`: only real calendar days exist. */
  type Date = d: CalendarDate | ValidDate(d) witness CalendarDate(1970, 1, 1)

  // ---------------------------------------------------------------------------
  // UserCreate

  /** A validated signup body. */
  datatype UserCreate = UserCreate(
    email: string,
    password: string,
    passwordVerify: string,
    firstName: string,
    lastName: string,
    phoneNumber: Option<string>,
    dateOfBirth: Option<Date>,
    gender: Option<Gender>)

  /** A signup body as submitted: any field may be missing. */
  datatype RawUserCreate = RawUserCreate(
    email: Option<string>,
    password: Option<string>,
    passwordVerify: Option<string>,
    firstName: Option<string>,
    lastName: Option<string>,
    phoneNumber: Option<string>,
    dateOfBirth: Option<Date>,
    gender: Option<Gender>)

  datatype SchemaError =
    | PasswordsDoNotMatch
    | MissingFields(names: seq<string>)
    | KeyNotSupplied(name: string)

  /** Python's `str()` of a submitted value: a missing value prints as `None`. */
  function PyStr(v: Option<string>): string {
    match v
    case None => "None"
    case Some(s) => s
  }

  /** `UserCreate.passwords_match`, run before field validation; it compares the `str()`
      renderings of the two values. */
  function UserCreatePasswordsMatch(password: Option<string>, passwordVerify: Option<string>): (r: Option<SchemaError>)
    ensures r.Some? ==> r.value == PasswordsDoNotMatch
    ensures password.Some? && passwordVerify.Some? ==>
      (r.None? <==> password.value == passwordVerify.value)
    ensures password.None? && passwordVerify.None? ==> r.None?
    ensures password.Some? && passwordVerify.None? ==> (r.None? <==> password.value == "None")
    ensures password.None? && passwordVerify.Some? ==> (r.None? <==> passwordVerify.value == "None")
  {
    if PyStr(password) != PyStr(passwordVerify) then Some(PasswordsDoNotMatch) else None
  }

  /** Because the comparison goes through `str()`, a missing password and the text `None`
      pass the check alike; field validation rejects the body afterwards. */
  lemma MissingPasswordMatchesNoneText()
    ensures UserCreatePasswordsMatch(None, Some("None")).None?
    ensures ParseUserCreate(RawUserCreate(Some("a@b.c"), None, Some("None"), Some("Ada"), Some("Lovelace"), None, None, None))
      == Failure(MissingFields(["password"]))
  {
    assert PyStr(None) == PyStr(Some("None"));
    assert [] + ["password"] + [] + [] + [] == ["password"];
  }

  function MissingName(v: Option<string>, name: string): seq<string> {
    if v.None? then [name] else []
  }

  /** Parsing a signup body: the confirmation check first, then the required fields. */
  function ParseUserCreate(raw: RawUserCreate): (r: Result<UserCreate, SchemaError>)
    ensures UserCreatePasswordsMatch(raw.password, raw.passwordVerify).Some? ==>
      r == Failure(PasswordsDoNotMatch)
    ensures r.Success? ==>
      && raw.password == Some(r.value.password)
      && raw.passwordVerify == Some(r.value.passwordVerify)
      && r.value.password == r.value.passwordVerify
    ensures r.Success? <==>
      && PyStr(raw.password) == PyStr(raw.passwordVerify)
      && raw.email.Some? && raw.password.Some? && raw.passwordVerify.Some?
      && raw.firstName.Some? && raw.lastName.Some?
  {
    if UserCreatePasswordsMatch(raw.password, raw.passwordVerify).Some? then Failure(PasswordsDoNotMatch)
    else
      var missing := MissingName(raw.email, "email") + MissingName(raw.password, "password")
        + MissingName(raw.passwordVerify, "password_verify") + MissingName(raw.firstName, "first_name")
        + MissingName(raw.lastName, "last_name");
      if missing != [] then Failure(MissingFields(missing))
      else
        Success(UserCreate(raw.email.value, raw.password.value, raw.passwordVerify.value,
          raw.firstName.value, raw.lastName.value, raw.phoneNumber, raw.dateOfBirth, raw.gender))
  }

  // ---------------------------------------------------------------------------
  // PasswordResetVerify

  /** A validated reset body. */
  datatype PasswordResetVerify = PasswordResetVerify(token: string, newPassword: string, newPasswordVerify: string)

  /** `PasswordResetVerify.passwords_match`: it indexes the body directly, so a missing
      `new_password` (looked up first) or `new_password_verify` raises a key error; two
      present values are compared as they are. */
  function ResetPasswordsMatch(newPassword: Option<string>, newPasswordVerify: Option<string>): (r: Option<SchemaError>)
    ensures newPassword.None? ==> r == Some(KeyNotSupplied("new_password"))
    ensures newPassword.Some? && newPasswordVerify.None? ==> r == Some(KeyNotSupplied("new_password_verify"))
    ensures newPassword.Some? && newPasswordVerify.Some? ==>
      (r.None? <==> newPassword.value == newPasswordVerify.value)
      && (r.Some? ==> r.value == PasswordsDoNotMatch)
  {
    if newPassword.None? then Some(KeyNotSupplied("new_password"))
    else if newPasswordVerify.None? then Some(KeyNotSupplied("new_password_verify"))
    else if newPassword.value != newPasswordVerify.value then Some(PasswordsDoNotMatch)
    else None
  }

  /** Parsing a reset body: the confirmation check first, then the required `token`. */
  function ParsePasswordResetVerify(token: Option<string>, newPassword: Option<string>, newPasswordVerify: Option<string>)
    : (r: Result<PasswordResetVerify, SchemaError>)
    ensures r.Success? <==> token.Some? && newPassword.Some? && newPassword == newPasswordVerify
    ensures r.Success? ==> r.value.newPassword == r.value.newPasswordVerify
  {
    match ResetPasswordsMatch(newPassword, newPasswordVerify)
    case Some(e) => Failure(e)
    case None =>
      if token.None? then Failure(MissingFields(["token"]))
      else Success(PasswordResetVerify(token.value, newPassword.value, newPasswordVerify.value))
  }

  // ---------------------------------------------------------------------------
  // date of birth serializer

  function TwoDigits(n: nat): (r: string)
    requires n < 100
    ensures |r| == 2 && IsDigit(r[0]) && IsDigit(r[1]) && ParseDecimal(r) == n
  {
    var r := [DigitChar(n / 10), DigitChar(n % 10)];
    assert r[..1] == [DigitChar(n / 10)] && r[..1][..0] == [];
    assert ParseDecimal(r[..1]) == n / 10;
    assert ParseDecimal(r) == ParseDecimal(r[..1]) * 10 + n % 10;
    r
  }

  /** `format_birth_date`: `strftime("%d-%m")`, the zero-padded day and month with the
      year dropped; no date gives no text. */
  function FormatBirthDate(dob: Option<Date>): (r: Option<string>)
    ensures r.None? <==> dob.None?
    ensures r.Some? ==>
      && |r.value| == 5 && r.value[2] == '-'
      && IsDigit(r.value[0]) && IsDigit(r.value[1]) && IsDigit(r.value[3]) && IsDigit(r.value[4])
      && ParseDecimal(r.value[..2]) == dob.value.day
      && ParseDecimal(r.value[3..]) == dob.value.month
  {
    match dob
    case None => None
    case Some(d) =>
      var text := TwoDigits(d.day) + "-" + TwoDigits(d.month);
      assert text[..2] == TwoDigits(d.day) && text[3..] == TwoDigits(d.month);
      Some(text)
  }

  /** Two dates print the same exactly when they share day and month. */
  lemma FormatBirthDateForgetsYear(a: Date, b: Date)
    ensures FormatBirthDate(Some(a)) == FormatBirthDate(Some(b)) <==> a.day == b.day && a.month == b.month
  {
    var fa, fb := FormatBirthDate(Some(a)).value, FormatBirthDate(Some(b)).value;
    if fa == fb {
      assert fa[..2] == fb[..2] && fa[3..] == fb[3..];
    }
  }

  // ---------------------------------------------------------------------------
  // UserUpdate

  datatype UserUpdate = UserUpdate(
    email: Option<string>,
    firstName: Option<string>,
    lastName: Option<string>,
    phoneNumber: Option<string>,
    dateOfBirth: Option<Date>,
    gender: Option<Gender>)

  /** A name field of a profile update: absent, or 2 to 20 characters. */
  predicate NameLengthOk(name: Option<string>) {
    name.None? || 2 <= |name.value| <= 20
  }

  /** The fields of a profile update that fail their length bounds, in declaration order. */
  function UserUpdateErrors(u: UserUpdate): (bad: seq<string>)
    ensures bad == [] <==> NameLengthOk(u.firstName) && NameLengthOk(u.lastName)
    ensures "first_name" in bad <==> !NameLengthOk(u.firstName)
    ensures "last_name" in bad <==> !NameLengthOk(u.lastName)
    ensures |bad| <= 2
  {
    (if NameLengthOk(u.firstName) then [] else ["first_name"])
      + (if NameLengthOk(u.lastName) then [] else ["last_name"])
  }
}
