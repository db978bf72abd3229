/**
 * The field validators of src/utils/validation.ts. Each returns the first
 * failing check's message, or `None` when the value passes. The two
 * `validator` library checks used are modelled as the library defines them:
 * `isAlphanumeric` as ASCII letters and digits, `isLength` as the number of
 * code points other than the variation selectors U+FE0E and U+FE0F, and
 * `isStrongPassword` as at least one lower-case letter, upper-case letter,
 * digit and symbol.
 */
module Validation {
  import opened Options
  import opened Text

  const EmployeeIdRequired := "Employee ID is required."
  const EmployeeIdNotAlphanumeric := "Employee ID must be alphanumeric."
  const EmployeeIdLength := "Employee ID must be 4 to 20 characters long."
  const EmployeeNameRequired := "Employee name is required."
  const PasswordRequired := "Password is required."
  const PasswordTooShort := "Password must be at least 8 characters long."
  const PasswordTooWeak := "Password must include uppercase, lowercase, number, and special character."

  predicate IsAsciiAlphanumeric(c: char) {
    ('0' <= c <= '9') || ('A' <= c <= 'Z') || ('a' <= c <= 'z')
  }

  /** `validator.isAlphanumeric`: a non-empty run of ASCII letters and digits. */
  predicate IsAlphanumeric(s: string) {
    |s| > 0 && forall i :: 0 <= i < |s| ==> IsAsciiAlphanumeric(s[i])
  }

  predicate IsVariationSelector(c: char) {
    c == '\U{FE0E}' || c == '\U{FE0F}'
  }

  /** The length `validator.isLength` compares: code points, not counting variation selectors. */
  function ValidatorLength(s: string): (n: nat)
    ensures n <= |s|
    ensures (forall i :: 0 <= i < |s| ==> !IsVariationSelector(s[i])) ==> n == |s|
    ensures n == 0 <==> forall i :: 0 <= i < |s| ==> IsVariationSelector(s[i])
  {
    if |s| == 0 then 0
    else ValidatorLength(s[..|s| - 1]) + (if IsVariationSelector(s[|s| - 1]) then 0 else 1)
  }

  /** The character classes `validator.isStrongPassword` counts. */
  datatype CharClass = Lower | Upper | Digit | Symbol

  const Symbols := "-#!$@\U{00A3}%^&*()_+|~=`{}[]:\";'<>?,./\\ "

  predicate InClass(c: char, k: CharClass) {
    match k
    case Lower => 'a' <= c <= 'z'
    case Upper => 'A' <= c <= 'Z'
    case Digit => '0' <= c <= '9'
    case Symbol => c in Symbols
  }

  /** How many characters of `s` fall in class `k`. */
  function CountClass(s: string, k: CharClass): (n: nat)
    ensures n <= |s|
    ensures n > 0 <==> exists i :: 0 <= i < |s| && InClass(s[i], k)
  {
    if |s| == 0 then 0
    else
      var n := CountClass(s[..|s| - 1], k) + (if InClass(s[|s| - 1], k) then 1 else 0);
      assert forall i :: 0 <= i < |s| - 1 ==> s[..|s| - 1][i] == s[i];
      n
  }

  /** `isStrongPassword` with minimum length 8 and at least one of each class. */
  predicate IsStrongPassword(s: string) {
    && |s| >= 8
    && CountClass(s, Lower) >= 1 && CountClass(s, Upper) >= 1
    && CountClass(s, Digit) >= 1 && CountClass(s, Symbol) >= 1
  }

  /** An employee id the validator accepts once trimmed: 4 to 20 ASCII letters and digits. */
  predicate WellFormedEmployeeId(v: string) {
    4 <= |v| <= 20 && forall i :: 0 <= i < |v| ==> IsAsciiAlphanumeric(v[i])
  }

  /**
   * `validateEmployeeId`: trims, then reports the first failing check in the
   * order required, alphanumeric, length 4 to 20.
   */
  function ValidateEmployeeId(value: string): (r: Option<string>)
    ensures var v := Trim(value);
      r.None? <==> WellFormedEmployeeId(v)
    ensures r == Some(EmployeeIdRequired) <==> AllWhitespace(value)
    ensures var v := Trim(value);
      r == Some(EmployeeIdNotAlphanumeric) <==> |v| > 0 && exists i :: 0 <= i < |v| && !IsAsciiAlphanumeric(v[i])
    ensures var v := Trim(value);
      r == Some(EmployeeIdLength) <==>
        && (forall i :: 0 <= i < |v| ==> IsAsciiAlphanumeric(v[i]))
        && (1 <= |v| < 4 || |v| > 20)
  {
    var v := Trim(value);
    EmployeeIdMessagesDistinct();
    if |v| == 0 then Some(EmployeeIdRequired)
    else if !IsAlphanumeric(v) then Some(EmployeeIdNotAlphanumeric)
    else
      AlphanumericLength(v);
      if !(4 <= ValidatorLength(v) <= 20) then Some(EmployeeIdLength)
      else None
  }

  lemma EmployeeIdMessagesDistinct()
    ensures EmployeeIdRequired != EmployeeIdNotAlphanumeric
    ensures EmployeeIdRequired != EmployeeIdLength
    ensures EmployeeIdNotAlphanumeric != EmployeeIdLength
  {
    assert |EmployeeIdRequired| == 24 && |EmployeeIdNotAlphanumeric| == 33 && |EmployeeIdLength| == 44;
  }

  /** Letters and digits are never variation selectors, so `validator` counts every one of them. */
  lemma AlphanumericLength(v: string)
    requires IsAlphanumeric(v)
    ensures ValidatorLength(v) == |v|
  {
    assert forall i :: 0 <= i < |v| ==> !IsVariationSelector(v[i]);
  }

  /** `validateEmployeeName`: fails, always with the same message, iff the trimmed name has no counted character. */
  function ValidateEmployeeName(value: string): (r: Option<string>)
    ensures r.None? || r == Some(EmployeeNameRequired)
    ensures r.Some? <==> ValidatorLength(Trim(value)) == 0
    ensures AllWhitespace(value) ==> r == Some(EmployeeNameRequired)
  {
    var v := Trim(value);
    if |v| == 0 then Some(EmployeeNameRequired)
    else if !(ValidatorLength(v) >= 1) then Some(EmployeeNameRequired)
    else None
  }

  /**
   * `validatePassword`: not trimmed; empty, then shorter than 8, then missing
   * a lower-case letter, an upper-case letter, a digit or a symbol.
   */
  function ValidatePassword(value: string): (r: Option<string>)
    ensures r.None? <==>
      && ValidatorLength(value) >= 8
      && (exists i :: 0 <= i < |value| && InClass(value[i], Lower))
      && (exists i :: 0 <= i < |value| && InClass(value[i], Upper))
      && (exists i :: 0 <= i < |value| && InClass(value[i], Digit))
      && (exists i :: 0 <= i < |value| && InClass(value[i], Symbol))
    ensures r == Some(PasswordRequired) <==> value == ""
    ensures r == Some(PasswordTooShort) <==> value != "" && ValidatorLength(value) < 8
    ensures r.None? || r == Some(PasswordRequired) || r == Some(PasswordTooShort) || r == Some(PasswordTooWeak)
  {
    if |value| == 0 then Some(PasswordRequired)
    else if !(ValidatorLength(value) >= 8) then Some(PasswordTooShort)
    else if !IsStrongPassword(value) then Some(PasswordTooWeak)
    else None
  }

  /** `validateLoginPassword`: only emptiness is checked at login. */
  function ValidateLoginPassword(value: string): (r: Option<string>)
    ensures r.None? <==> |value| > 0
    ensures r.Some? ==> r.value == PasswordRequired
  {
    if |value| == 0 then Some(PasswordRequired) else None
  }

  /** Surrounding white space never changes an employee id's or name's verdict. */
  lemma TrimmedFieldsIgnoreSurroundingWhitespace(a: string, value: string, b: string)
    requires AllWhitespace(a) && AllWhitespace(b)
    ensures ValidateEmployeeId(a + value + b) == ValidateEmployeeId(value)
    ensures ValidateEmployeeName(a + value + b) == ValidateEmployeeName(value)
  {
    TrimIgnoresSurroundingWhitespace(a, value, b);
  }

  datatype SignupForm = SignupForm(employeeId: string, employeeName: string, password: string)
  datatype SignupErrors = SignupErrors(employeeId: Option<string>, employeeName: Option<string>, password: Option<string>)
  datatype LoginForm = LoginForm(employeeId: string, password: string)
  datatype LoginErrors = LoginErrors(employeeId: Option<string>, password: Option<string>)

  /** `validateSignupForm`: each field's own validator, applied independently. */
  function ValidateSignupForm(f: SignupForm): (r: SignupErrors)
    ensures r.employeeId == ValidateEmployeeId(f.employeeId)
    ensures r.employeeName == ValidateEmployeeName(f.employeeName)
    ensures r.password == ValidatePassword(f.password)
  {
    SignupErrors(ValidateEmployeeId(f.employeeId), ValidateEmployeeName(f.employeeName), ValidatePassword(f.password))
  }

  /** `validateLoginForm`: the id validator and the login password validator. */
  function ValidateLoginForm(f: LoginForm): (r: LoginErrors)
    ensures r.employeeId == ValidateEmployeeId(f.employeeId)
    ensures r.password == ValidateLoginPassword(f.password)
  {
    LoginErrors(ValidateEmployeeId(f.employeeId), ValidateLoginPassword(f.password))
  }

  /** Some field of the form carries a message (neither null nor undefined). */
  predicate SignupHasError(e: SignupErrors) {
    e.employeeId.Some? || e.employeeName.Some? || e.password.Some?
  }

  predicate LoginHasError(e: LoginErrors) {
    e.employeeId.Some? || e.password.Some?
  }
}
