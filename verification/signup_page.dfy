/**
 * The signup form of src/pages/SignupPage.tsx: per-field validation on
 * change and blur, and a submit that validates all three fields, calls the
 * session manager's `signup` only with valid input, and either navigates
 * to /login (replacing the history entry) or shows the failure.
 */
module SignupPage {
  import opened Options
  import opened JsValues
  import opened Validation
  import opened Routes
  import CustomerService

  const SignupFailedGeneric := "Signup failed. Please check your details and try again."

  datatype SignupState = SignupState(form: SignupForm, errors: SignupErrors, apiError: Option<string>, loading: bool)

  function Initial(): SignupState {
    SignupState(SignupForm("", "", ""), SignupErrors(None, None, None), None, false)
  }

  /** The named field's error revalidated from `value`; other names leave the errors alone. */
  function Revalidate(e: SignupErrors, name: string, value: string): (r: SignupErrors)
    ensures r.employeeId == if name == "employee_id" then ValidateEmployeeId(value) else e.employeeId
    ensures r.employeeName == if name == "employee_name" then ValidateEmployeeName(value) else e.employeeName
    ensures r.password == if name == "password" then ValidatePassword(value) else e.password
  {
    if name == "employee_id" then e.(employeeId := ValidateEmployeeId(value))
    else if name == "employee_name" then e.(employeeName := ValidateEmployeeName(value))
    else if name == "password" then e.(password := ValidatePassword(value))
    else e
  }

  /** `handleChange`: the named field takes the value and only its error is revalidated. */
  function Change(s: SignupState, name: string, value: string): (r: SignupState)
    ensures r.form.employeeId == if name == "employee_id" then value else s.form.employeeId
    ensures r.form.employeeName == if name == "employee_name" then value else s.form.employeeName
    ensures r.form.password == if name == "password" then value else s.form.password
    ensures r.errors == Revalidate(s.errors, name, value)
    ensures r.apiError == s.apiError && r.loading == s.loading
  {
    var form :=
      if name == "employee_id" then s.form.(employeeId := value)
      else if name == "employee_name" then s.form.(employeeName := value)
      else if name == "password" then s.form.(password := value)
      else s.form;
    s.(form := form, errors := Revalidate(s.errors, name, value))
  }

  /** `handleBlur`: only the named field's error is revalidated. */
  function Blur(s: SignupState, name: string, value: string): (r: SignupState)
    ensures r.form == s.form && r.apiError == s.apiError && r.loading == s.loading
    ensures r.errors == Revalidate(s.errors, name, value)
  {
    s.(errors := Revalidate(s.errors, name, value))
  }

  /** The alert for a failed signup: the message verbatim (no status is special), else a thrown string, else the generic text. */
  function SignupErrorMessage(err: JsValue): (m: string)
    ensures |m| > 0
    ensures IsNonEmptyString(Get(err, "message")) ==> m == Get(err, "message").s
    ensures !IsNonEmptyString(Get(err, "message")) && IsNonEmptyString(err) ==> m == err.s
    ensures !IsNonEmptyString(Get(err, "message")) && !IsNonEmptyString(err) ==> m == SignupFailedGeneric
  {
    if Truthy(err) && IsNonEmptyString(Get(err, "message")) then Get(err, "message").s
    else if IsNonEmptyString(err) then err.s
    else SignupFailedGeneric
  }

  datatype SignupEffect =
    | Requested(call: CustomerService.ServiceCall)
    | Navigated(to: Navigation)

  datatype Submitted = Submitted(state: SignupState, effects: seq<SignupEffect>)

  /**
   * `handleSubmit`: clears the API error and records all three verdicts;
   * only with none calls `signup` with exactly the form's three fields, then
   * navigates to /login replacing the entry, or shows the failure. Loading
   * is off at the end either way.
   */
  function Submit(s: SignupState, outcome: Result<(), JsValue>): (r: Submitted)
    ensures r.state.errors == ValidateSignupForm(s.form)
    ensures r.state.form == s.form && !r.state.loading
    ensures |r.effects| > 0 <==>
      ValidateEmployeeId(s.form.employeeId).None? && ValidateEmployeeName(s.form.employeeName).None?
      && ValidatePassword(s.form.password).None?
    ensures |r.effects| > 0 ==> r.effects[0] == Requested(CustomerService.Signup(s.form.employeeId, s.form.employeeName, s.form.password))
    ensures |r.effects| > 0 && outcome.Ok? ==> r.effects[1..] == [Navigated(Navigate(LoginRoute, true))]
    ensures |r.effects| > 0 && outcome.Err? ==> |r.effects| == 1
    ensures r.state.apiError.Some? <==> |r.effects| > 0 && outcome.Err?
    ensures r.state.apiError.Some? ==> r.state.apiError.value == SignupErrorMessage(outcome.error)
  {
    var validation := ValidateSignupForm(s.form);
    var checked := s.(apiError := None, errors := validation, loading := false);
    if SignupHasError(validation) then Submitted(checked, [])
    else
      var call := Requested(CustomerService.Signup(s.form.employeeId, s.form.employeeName, s.form.password));
      match outcome
      case Ok(_) => Submitted(checked, [call, Navigated(Navigate(LoginRoute, true))])
      case Err(e) => Submitted(checked.(apiError := Some(SignupErrorMessage(e))), [call])
  }

  /** Leaving a field right after typing into it changes nothing more. */
  lemma BlurAfterChangeIsNoOp(s: SignupState, name: string, value: string)
    ensures Blur(Change(s, name, value), name, value) == Change(s, name, value)
  {
  }

  /**
   * After a value has been typed into each field, the live errors on screen
   * predict the submit: it calls the backend exactly when none is shown.
   */
  lemma LiveErrorsPredictSubmit(id: string, name: string, password: string, outcome: Result<(), JsValue>)
    ensures var s := Change(Change(Change(Initial(), "employee_id", id), "employee_name", name), "password", password);
      && s.form == SignupForm(id, name, password)
      && (|Submit(s, outcome).effects| > 0 <==> !SignupHasError(s.errors))
      && Submit(s, outcome).state.errors == s.errors
  {
  }
}
