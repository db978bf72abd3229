/**
 * The customer-form check shared by src/components/CustomerRow.tsx and
 * src/components/AddCustomerForm.tsx. The per-field validator
 * `validateCustomerForm` is not part of this model: it is a function
 * parameter returning one optional message per field.
 */
module CustomerForms {
  import opened Options
  import opened CustomerService

  /** One optional message per field of a customer request (`null` is `None`). */
  datatype CustomerErrors = CustomerErrors(
    name: Option<string>,
    contact: Option<string>,
    address: Option<string>,
    managedBy: Option<string>)

  /** The `{}` the components start from and reset to. */
  const NoErrors := CustomerErrors(None, None, None, None)

  /** The four editable fields of a customer. */
  datatype Field = NameField | ContactField | AddressField | ManagedByField

  /** The field of `req` a `Field` names. */
  function FieldOf(req: CustomerRequest, f: Field): string {
    match f
    case NameField => req.name
    case ContactField => req.contact
    case AddressField => req.address
    case ManagedByField => req.managedBy
  }

  /** An input's `onChange`: only the named field takes the new value. */
  function WithField(req: CustomerRequest, f: Field, v: string): (r: CustomerRequest)
    ensures FieldOf(r, f) == v
    ensures forall g :: g != f ==> FieldOf(r, g) == FieldOf(req, g)
  {
    match f
    case NameField => req.(name := v)
    case ContactField => req.(contact := v)
    case AddressField => req.(address := v)
    case ManagedByField => req.(managedBy := v)
  }

  /** A message that the `!errs.x` test lets through: absent or the empty string. */
  predicate Passes(m: Option<string>) {
    m.None? || m.value == ""
  }

  /** A message the component renders as an alert. */
  predicate Alerts(m: Option<string>) {
    m.Some? && m.value != ""
  }

  datatype Checked = Checked(errors: CustomerErrors, ok: bool)

  /**
   * `validateAll`: the errors are replaced wholesale by the validator's four
   * results, and the form passes exactly when none of them would be shown.
   */
  function ValidateAll(validate: CustomerRequest -> CustomerErrors, req: CustomerRequest): (r: Checked)
    ensures r.errors == validate(req)
    ensures r.ok <==> Passes(r.errors.name) && Passes(r.errors.contact) && Passes(r.errors.address) && Passes(r.errors.managedBy)
    ensures r.ok <==> !(Alerts(r.errors.name) || Alerts(r.errors.contact) || Alerts(r.errors.address) || Alerts(r.errors.managedBy))
  {
    var errs := validate(req);
    Checked(errs, Passes(errs.name) && Passes(errs.contact) && Passes(errs.address) && Passes(errs.managedBy))
  }

  /** Edits of two different fields commute: the order the inputs change in does not matter. */
  lemma {:induction false} EditsAreIndependent(req: CustomerRequest, f: Field, g: Field, v: string, w: string)
    requires f != g
    ensures WithField(WithField(req, f, v), g, w) == WithField(WithField(req, g, w), f, v)
  {
    var a := WithField(WithField(req, f, v), g, w);
    var b := WithField(WithField(req, g, w), f, v);
    assert forall h :: FieldOf(a, h) == FieldOf(b, h);
    assert FieldOf(a, NameField) == FieldOf(b, NameField);
    assert FieldOf(a, ContactField) == FieldOf(b, ContactField);
    assert FieldOf(a, AddressField) == FieldOf(b, AddressField);
    assert FieldOf(a, ManagedByField) == FieldOf(b, ManagedByField);
  }
}
