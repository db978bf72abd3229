/**
 * The add-customer dialog of src/components/AddCustomerForm.tsx: four
 * fields validated on blur and on submit, a create request only for valid
 * input, and a reset of everything whenever the dialog closes.
 */
module AddCustomerForm {
  import opened Options
  import opened JsValues
  import opened CustomerService
  import opened CustomerForms

  const CreateFailed := "Failed to create customer"

  datatype FormState = FormState(
    fields: CustomerRequest,
    errors: CustomerErrors,
    isSubmitting: bool,
    submitError: Option<string>)

  const Blank := CustomerRequest("", "", "", "")

  /** The state the component mounts with, and the one closing returns it to. */
  const Initial := FormState(Blank, NoErrors, false, None)

  datatype AddEffect = Requested(call: ServiceCall) | SuccessCallback(created: Customer)

  datatype FormStep = FormStep(state: FormState, effects: seq<AddEffect>)

  /**
   * The effect on `isOpen`: becoming closed clears all four fields, the
   * errors and the submit error and ends submitting; opening keeps the state.
   */
  function OpenChanged(s: FormState, isOpen: bool): (r: FormState)
    ensures !isOpen ==> forall f :: FieldOf(r.fields, f) == ""
    ensures !isOpen ==> r.errors == NoErrors && r.submitError.None? && !r.isSubmitting
    ensures isOpen ==> r == s
  {
    if isOpen then s else Initial
  }

  /** The dialog's messages in the order it renders them: the four field errors, then the submit error. */
  function Messages(s: FormState): seq<Option<string>> {
    [s.errors.name, s.errors.contact, s.errors.address, s.errors.managedBy, s.submitError]
  }

  /**
   * The texts of the messages in `ms` that render an alert, in order: a
   * text is listed exactly when some message carries it and it is not
   * empty; nothing is listed exactly when no message alerts, and every
   * message is listed exactly when every one does.
   */
  function AlertTexts(ms: seq<Option<string>>): (r: seq<string>)
    ensures |r| <= |ms|
    ensures forall t :: t in r <==> t != "" && Some(t) in ms
    ensures |r| == 0 <==> forall i :: 0 <= i < |ms| ==> !CustomerForms.Alerts(ms[i])
    ensures |r| == |ms| <==> forall i :: 0 <= i < |ms| ==> CustomerForms.Alerts(ms[i])
    decreases |ms|
  {
    if |ms| == 0 then []
    else
      var rest := AlertTexts(ms[1..]);
      assert forall t :: Some(t) in ms <==> Some(t) == ms[0] || Some(t) in ms[1..];
      assert forall i :: 1 <= i < |ms| ==> ms[1..][i - 1] == ms[i];
      Shown(ms[0]) + rest
  }

  /** The alerts of a message list are those of its first part followed by those of the rest. */
  lemma {:induction false} AlertTextsAppend(a: seq<Option<string>>, b: seq<Option<string>>)
    ensures AlertTexts(a + b) == AlertTexts(a) + AlertTexts(b)
    decreases |a|
  {
    if |a| == 0 {
      assert a + b == b;
    } else {
      assert (a + b)[0] == a[0];
      assert (a + b)[1..] == a[1..] + b;
      AlertTextsAppend(a[1..], b);
    }
  }

  /** A single message lists exactly the alert it renders. */
  lemma AlertTextsSingle(m: Option<string>)
    ensures AlertTexts([m]) == Shown(m)
  {
    assert [m][1..] == [];
  }

  /** The dialog's alerts are, in render order, the alert of each of its five messages. */
  lemma {:induction false} AlertTextsOfMessages(s: FormState)
    ensures AlertTexts(Messages(s)) ==
      Shown(s.errors.name) + (Shown(s.errors.contact) + (Shown(s.errors.address) + (Shown(s.errors.managedBy) + Shown(s.submitError))))
  {
    var n, c, a, m, e := s.errors.name, s.errors.contact, s.errors.address, s.errors.managedBy, s.submitError;
    var t4 := [m] + [e];
    var t3 := [a] + t4;
    var t2 := [c] + t3;
    assert Messages(s) == [n] + t2;
    assert AlertTexts(t4) == Shown(m) + Shown(e) by {
      AlertTextsAppend([m], [e]);
      AlertTextsSingle(m);
      AlertTextsSingle(e);
    }
    assert AlertTexts(t3) == Shown(a) + AlertTexts(t4) by {
      AlertTextsAppend([a], t4);
      AlertTextsSingle(a);
    }
    assert AlertTexts(t2) == Shown(c) + AlertTexts(t3) by {
      AlertTextsAppend([c], t3);
      AlertTextsSingle(c);
    }
    assert AlertTexts([n] + t2) == Shown(n) + AlertTexts(t2) by {
      AlertTextsAppend([n], t2);
      AlertTextsSingle(n);
    }
  }

  /**
   * What the dialog shows: nothing when closed; when open, one alert for
   * each non-empty message, in render order, repeated texts included.
   */
  function ShownAlerts(s: FormState, isOpen: bool): (v: Option<seq<string>>)
    ensures v.None? <==> !isOpen
    ensures isOpen ==> (v.value ==
      Shown(s.errors.name) + (Shown(s.errors.contact) + (Shown(s.errors.address) + (Shown(s.errors.managedBy) + Shown(s.submitError)))))
    ensures isOpen ==> forall t :: t in v.value <==> t != "" && Some(t) in Messages(s)
    ensures isOpen ==> (|v.value| == 0 <==>
      !(CustomerForms.Alerts(s.errors.name) || CustomerForms.Alerts(s.errors.contact) || CustomerForms.Alerts(s.errors.address)
        || CustomerForms.Alerts(s.errors.managedBy) || CustomerForms.Alerts(s.submitError)))
    ensures isOpen ==> (|v.value| == 5 <==>
      CustomerForms.Alerts(s.errors.name) && CustomerForms.Alerts(s.errors.contact) && CustomerForms.Alerts(s.errors.address)
        && CustomerForms.Alerts(s.errors.managedBy) && CustomerForms.Alerts(s.submitError))
  {
    if !isOpen then None
    else
      var ms := Messages(s);
      AlertTextsOfMessages(s);
      assert ms[0] == s.errors.name && ms[1] == s.errors.contact && ms[2] == s.errors.address;
      assert ms[3] == s.errors.managedBy && ms[4] == s.submitError;
      Some(AlertTexts(ms))
  }

  /** The alert a message renders, if any. */
  function Shown(m: Option<string>): (r: seq<string>)
    ensures |r| <= 1 && (|r| == 1 <==> CustomerForms.Alerts(m))
    ensures |r| == 1 ==> r[0] == m.value && r[0] != ""
  {
    if CustomerForms.Alerts(m) then [m.value] else []
  }

  /** An input's `onChange`. */
  function EditField(s: FormState, f: Field, v: string): (r: FormState)
    ensures FieldOf(r.fields, f) == v
    ensures forall g :: g != f ==> FieldOf(r.fields, g) == FieldOf(s.fields, g)
    ensures r.errors == s.errors && r.submitError == s.submitError && r.isSubmitting == s.isSubmitting
  {
    s.(fields := WithField(s.fields, f, v))
  }

  /** An input's `onBlur`: all four fields are revalidated. */
  function Blur(s: FormState, validate: CustomerRequest -> CustomerErrors): (r: FormState)
    ensures r == s.(errors := validate(s.fields))
  {
    s.(errors := ValidateAll(validate, s.fields).errors)
  }

  /**
   * `handleSubmit`: clears the submit error and revalidates; invalid input
   * stops there. Otherwise `createCustomer` gets the four fields and the
   * created record goes to `onSuccess`, or the failure is shown and
   * `onSuccess` is not called. Submitting is off at the end.
   */
  function Submit(s: FormState, validate: CustomerRequest -> CustomerErrors, outcome: Result<Customer, JsValue>): (r: FormStep)
    ensures r.state.errors == validate(s.fields) && r.state.fields == s.fields
    ensures |r.effects| > 0 <==> ValidateAll(validate, s.fields).ok
    ensures |r.effects| == 0 ==> r.state == s.(submitError := None, errors := validate(s.fields))
    ensures |r.effects| > 0 ==> r.effects[0] == Requested(CreateCustomer(s.fields)) && !r.state.isSubmitting
    ensures |r.effects| > 0 && outcome.Ok? ==> r.effects == [Requested(CreateCustomer(s.fields)), SuccessCallback(outcome.value)]
    ensures |r.effects| > 0 && outcome.Ok? ==> r.state.submitError.None?
    ensures |r.effects| > 0 && outcome.Err? ==>
      r.effects == [Requested(CreateCustomer(s.fields))] && r.state.submitError == Some(MessageOr(outcome.error, CreateFailed))
  {
    var checked := ValidateAll(validate, s.fields);
    var cleared := s.(submitError := None, errors := checked.errors);
    if !checked.ok then FormStep(cleared, [])
    else
      match outcome
      case Ok(created) => FormStep(cleared.(isSubmitting := false), [Requested(CreateCustomer(s.fields)), SuccessCallback(created)])
      case Err(e) => FormStep(cleared.(isSubmitting := false, submitError := Some(MessageOr(e, CreateFailed))), [Requested(CreateCustomer(s.fields))])
  }

  /** Closing the dialog forgets everything: the state afterwards does not depend on the state before. */
  lemma CloseForgets(s: FormState, t: FormState)
    ensures OpenChanged(s, false) == OpenChanged(t, false) == Initial
  {
  }

  /** A rejected submit leaves an alert on screen: the failure message is never empty. */
  lemma {:induction false} FailedSubmitShowsAlert(s: FormState, validate: CustomerRequest -> CustomerErrors, e: JsValue)
    requires ValidateAll(validate, s.fields).ok
    ensures var r := Submit(s, validate, Err(e));
      ShownAlerts(r.state, true).Some? && |ShownAlerts(r.state, true).value| > 0
  {
    var r := Submit(s, validate, Err(e));
    assert CustomerForms.Alerts(r.state.submitError);
  }

  /** A successful submit of valid input shows no alert. */
  lemma {:induction false} SuccessfulSubmitShowsNoAlert(s: FormState, validate: CustomerRequest -> CustomerErrors, c: Customer)
    requires ValidateAll(validate, s.fields).ok
    ensures var r := Submit(s, validate, Ok(c));
      ShownAlerts(r.state, true) == Some([])
  {
    var r := Submit(s, validate, Ok(c));
    assert Shown(r.state.submitError) == [];
    assert Shown(r.state.errors.name) == [] && Shown(r.state.errors.contact) == [];
    assert Shown(r.state.errors.address) == [] && Shown(r.state.errors.managedBy) == [];
  }
}
