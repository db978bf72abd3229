/**
 * The login form of src/pages/LoginPage.tsx: per-field validation on change
 * and blur, and a submit that validates first, calls the session manager's
 * `login` only with valid input, navigates once it resolves, and maps a
 * failure to one user-facing message. The submit is modelled from start to
 * settlement; its effects are listed in the order they happen.
 */
module LoginPage {
  import opened Options
  import opened JsValues
  import opened Validation
  import opened Routes
  import CustomerService

  const InvalidCredentials := "Invalid employee ID or password."
  const LoginFailedPrefix := "Login failed: "
  const LoginFailedGeneric := "Login failed. Please try again."

  datatype LoginState = LoginState(
    employeeId: string,
    password: string,
    errors: LoginErrors,
    apiError: Option<string>,
    isSubmitting: bool)

  function Initial(): LoginState {
    LoginState("", "", LoginErrors(None, None), None, false)
  }

  /** `handleChange`: the named input takes the value and its error is revalidated; other names do nothing. */
  function Change(s: LoginState, name: string, value: string): (r: LoginState)
    ensures name == "employee_id" ==>
      r == s.(employeeId := value, errors := s.errors.(employeeId := ValidateEmployeeId(value)))
    ensures name == "password" ==>
      r == s.(password := value, errors := s.errors.(password := ValidateLoginPassword(value)))
    ensures name != "employee_id" && name != "password" ==> r == s
  {
    if name == "employee_id" then
      s.(employeeId := value, errors := s.errors.(employeeId := ValidateEmployeeId(value)))
    else if name == "password" then
      s.(password := value, errors := s.errors.(password := ValidateLoginPassword(value)))
    else s
  }

  /** `handleBlur`: only the named field's error is revalidated, from the value the input holds. */
  function Blur(s: LoginState, name: string, value: string): (r: LoginState)
    ensures r.employeeId == s.employeeId && r.password == s.password
    ensures r.apiError == s.apiError && r.isSubmitting == s.isSubmitting
    ensures r.errors.employeeId == if name == "employee_id" then ValidateEmployeeId(value) else s.errors.employeeId
    ensures r.errors.password == if name == "password" then ValidateLoginPassword(value) else s.errors.password
  {
    if name == "employee_id" then s.(errors := s.errors.(employeeId := ValidateEmployeeId(value)))
    else if name == "password" then s.(errors := s.errors.(password := ValidateLoginPassword(value)))
    else s
  }

  /**
   * The alert shown for a failed login: a 401 status always gives the fixed
   * text; otherwise the error's non-empty message behind "Login failed: ",
   * else a non-empty thrown string as is, else the generic text.
   */
  function LoginErrorMessage(err: JsValue): (m: string)
    ensures |m| > 0
    ensures Truthy(err) && Get(err, "status") == Num(401) ==> m == InvalidCredentials
    ensures Get(err, "status") != Num(401) && IsNonEmptyString(Get(err, "message")) ==>
      m == LoginFailedPrefix + Get(err, "message").s
    ensures Get(err, "status") != Num(401) && !IsNonEmptyString(Get(err, "message")) && IsNonEmptyString(err) ==>
      m == err.s
    ensures !(Truthy(err) && Get(err, "status") == Num(401)) && !IsNonEmptyString(Get(err, "message")) && !IsNonEmptyString(err) ==>
      m == LoginFailedGeneric
  {
    if Truthy(err) && Get(err, "status") == Num(401) then InvalidCredentials
    else if Truthy(err) && IsNonEmptyString(Get(err, "message")) then LoginFailedPrefix + Get(err, "message").s
    else if IsNonEmptyString(err) then err.s
    else LoginFailedGeneric
  }

  datatype LoginEffect = Requested(call: CustomerService.ServiceCall) | Navigated(to: Navigation)

  datatype Submitted = Submitted(state: LoginState, effects: seq<LoginEffect>)

  /**
   * `handleSubmit`: clears the API error, records both validators' results,
   * and only when both pass calls `login` with the raw id and password; the
   * navigation to /customer follows a resolved login, a rejected one sets the
   * alert instead. The form is never left submitting.
   */
  function Submit(s: LoginState, outcome: Result<(), JsValue>): (r: Submitted)
    ensures r.state.errors == ValidateLoginForm(LoginForm(s.employeeId, s.password))
    ensures r.state.employeeId == s.employeeId && r.state.password == s.password
    ensures !r.state.isSubmitting
    ensures |r.effects| > 0 <==> ValidateEmployeeId(s.employeeId).None? && ValidateLoginPassword(s.password).None?
    ensures |r.effects| > 0 ==> r.effects[0] == Requested(CustomerService.Login(s.employeeId, s.password))
    ensures |r.effects| > 0 && outcome.Err? ==> r.effects == [Requested(CustomerService.Login(s.employeeId, s.password))]
    ensures |r.effects| > 0 && outcome.Ok? ==>
      r.effects == [Requested(CustomerService.Login(s.employeeId, s.password)), Navigated(Navigate(CustomerRoute, false))]
    ensures r.state.apiError.Some? <==> |r.effects| > 0 && outcome.Err?
    ensures r.state.apiError.Some? ==> r.state.apiError.value == LoginErrorMessage(outcome.error)
  {
    var validation := ValidateLoginForm(LoginForm(s.employeeId, s.password));
    var checked := s.(apiError := None, errors := validation);
    if LoginHasError(validation) then
      Submitted(checked.(isSubmitting := false), [])
    else
      var call := Requested(CustomerService.Login(s.employeeId, s.password));
      match outcome
      case Ok(_) => Submitted(checked.(isSubmitting := false), [call, Navigated(Navigate(CustomerRoute, false))])
      case Err(e) => Submitted(checked.(isSubmitting := false, apiError := Some(LoginErrorMessage(e))), [call])
  }

  /** Leaving a field right after typing into it changes nothing more. */
  lemma BlurAfterChangeIsNoOp(s: LoginState, name: string, value: string)
    ensures Blur(Change(s, name, value), name, value) == Change(s, name, value)
  {
  }

  /**
   * After a value has been typed into both fields, the live errors on screen
   * predict the submit: it calls `login` exactly when neither is shown.
   */
  lemma LiveErrorsPredictSubmit(id: string, password: string, outcome: Result<(), JsValue>)
    ensures var s := Change(Change(Initial(), "employee_id", id), "password", password);
      && s.employeeId == id && s.password == password
      && (|Submit(s, outcome).effects| > 0 <==> !LoginHasError(s.errors))
      && Submit(s, outcome).state.errors == s.errors
  {
  }
}
