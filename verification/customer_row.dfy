/**
 * One table row of src/components/CustomerRow.tsx as an edit-mode state
 * machine: drafts of the four fields, Edit / Cancel / Save, and Delete
 * behind a confirmation. Save and Delete are modelled from the click to
 * the settled request; the calls they make and the callbacks they fire are
 * listed, in order, as effects.
 */
module CustomerRow {
  import opened Options
  import opened JsValues
  import opened CustomerService
  import opened CustomerForms

  const UpdateFailed := "Failed to update customer"
  const DeleteFailed := "Failed to delete customer"

  datatype RowState = RowState(
    isEditing: bool,
    draft: CustomerRequest,
    errors: CustomerErrors,
    isSaving: bool,
    isDeleting: bool,
    opError: Option<string>)

  datatype RowEffect =
    | Requested(call: ServiceCall)
    | SavedCallback(updated: Customer)
    | DeletedCallback(id: string)

  datatype RowStep = RowStep(state: RowState, effects: seq<RowEffect>)

  /** The four editable fields of a customer record. */
  function DraftOf(c: Customer): (r: CustomerRequest)
    ensures r.name == c.name && r.contact == c.contact && r.address == c.address && r.managedBy == c.managedBy
  {
    CustomerRequest(c.name, c.contact, c.address, c.managedBy)
  }

  /** The row's initial state: drafts equal the customer's fields, not editing, nothing pending. */
  function Mount(c: Customer): (s: RowState)
    ensures !s.isEditing && !s.isSaving && !s.isDeleting
    ensures s.draft == DraftOf(c) && s.errors == NoErrors && s.opError.None?
  {
    RowState(false, DraftOf(c), NoErrors, false, false, None)
  }

  /** The Edit button. */
  function StartEdit(s: RowState): (r: RowState)
    ensures r.isEditing && r.draft == s.draft && r.errors == s.errors && r.opError == s.opError
  {
    s.(isEditing := true)
  }

  /** Typing into one of the inputs. */
  function EditDraft(s: RowState, f: Field, v: string): (r: RowState)
    ensures FieldOf(r.draft, f) == v
    ensures forall g :: g != f ==> FieldOf(r.draft, g) == FieldOf(s.draft, g)
    ensures r.isEditing == s.isEditing && r.errors == s.errors && r.opError == s.opError
  {
    s.(draft := WithField(s.draft, f, v))
  }

  /** The Cancel button: leaves edit mode, restores all four drafts from the customer and clears the errors. */
  function Cancel(s: RowState, c: Customer): (r: RowState)
    ensures !r.isEditing && r.errors == NoErrors
    ensures forall f :: FieldOf(r.draft, f) == FieldOf(DraftOf(c), f)
    ensures r.opError == s.opError && r.isSaving == s.isSaving && r.isDeleting == s.isDeleting
  {
    s.(isEditing := false, draft := DraftOf(c), errors := NoErrors)
  }

  /**
   * `handleSave`: clears the operation error and revalidates; invalid drafts
   * stop there. Otherwise the drafts go to `updateCustomer` under the
   * customer's id; on success the server's record goes to `onSaved` and the
   * row leaves edit mode, on failure the row stays as it was with the error
   * shown and no callback.
   */
  function Save(s: RowState, c: Customer, validate: CustomerRequest -> CustomerErrors, outcome: Result<Customer, JsValue>): (r: RowStep)
    ensures r.state.errors == validate(s.draft)
    ensures r.state.draft == s.draft && r.state.isDeleting == s.isDeleting
    ensures |r.effects| > 0 <==> ValidateAll(validate, s.draft).ok
    ensures |r.effects| > 0 ==> r.effects[0] == Requested(UpdateCustomer(c.id, s.draft))
    ensures |r.effects| == 0 ==> r.state == s.(opError := None, errors := validate(s.draft))
    ensures |r.effects| > 0 ==> !r.state.isSaving
    ensures |r.effects| > 0 && outcome.Ok? ==>
      r.effects[1..] == [SavedCallback(outcome.value)] && !r.state.isEditing && r.state.opError.None?
    ensures |r.effects| > 0 && outcome.Err? ==>
      |r.effects| == 1 && r.state.isEditing == s.isEditing
      && r.state.opError == Some(MessageOr(outcome.error, UpdateFailed))
  {
    var checked := ValidateAll(validate, s.draft);
    var cleared := s.(opError := None, errors := checked.errors);
    if !checked.ok then RowStep(cleared, [])
    else
      var call := Requested(UpdateCustomer(c.id, s.draft));
      match outcome
      case Ok(updated) => RowStep(cleared.(isEditing := false, isSaving := false), [call, SavedCallback(updated)])
      case Err(e) => RowStep(cleared.(isSaving := false, opError := Some(MessageOr(e, UpdateFailed))), [call])
  }

  /**
   * `handleDelete`: clears the operation error; an unconfirmed delete stops
   * there. A confirmed one calls `deleteCustomer` with the customer's id and
   * then `onDeleted` with that id, or shows the failure instead.
   */
  function Delete(s: RowState, c: Customer, confirmed: bool, outcome: Result<(), JsValue>): (r: RowStep)
    ensures r.state.draft == s.draft && r.state.isEditing == s.isEditing && r.state.errors == s.errors
    ensures !confirmed ==> r.effects == [] && r.state == s.(opError := None)
    ensures confirmed ==> !r.state.isDeleting && |r.effects| > 0 && r.effects[0] == Requested(DeleteCustomer(c.id))
    ensures confirmed && outcome.Ok? ==> r.effects == [Requested(DeleteCustomer(c.id)), DeletedCallback(c.id)] && r.state.opError.None?
    ensures confirmed && outcome.Err? ==>
      r.effects == [Requested(DeleteCustomer(c.id))] && r.state.opError == Some(MessageOr(outcome.error, DeleteFailed))
  {
    var cleared := s.(opError := None);
    if !confirmed then RowStep(cleared, [])
    else
      match outcome
      case Ok(_) => RowStep(cleared.(isDeleting := false), [Requested(DeleteCustomer(c.id)), DeletedCallback(c.id)])
      case Err(e) => RowStep(cleared.(isDeleting := false, opError := Some(MessageOr(e, DeleteFailed))), [Requested(DeleteCustomer(c.id))])
  }

  /** The edits a user types, in order. */
  function EditAll(s: RowState, edits: seq<(Field, string)>): RowState
    decreases |edits|
  {
    if |edits| == 0 then s else EditAll(EditDraft(s, edits[0].0, edits[0].1), edits[1..])
  }

  /** Any sequence of edits followed by Cancel returns a freshly mounted row to its initial state. */
  lemma {:induction false} EditThenCancelRestores(c: Customer, edits: seq<(Field, string)>)
    ensures Cancel(EditAll(StartEdit(Mount(c)), edits), c) == Mount(c)
  {
    EditAllKeepsFlags(StartEdit(Mount(c)), edits);
  }

  lemma {:induction false} EditAllKeepsFlags(s: RowState, edits: seq<(Field, string)>)
    ensures var r := EditAll(s, edits);
      r.isEditing == s.isEditing && r.errors == s.errors && r.opError == s.opError
      && r.isSaving == s.isSaving && r.isDeleting == s.isDeleting
    decreases |edits|
  {
    if |edits| > 0 {
      EditAllKeepsFlags(EditDraft(s, edits[0].0, edits[0].1), edits[1..]);
    }
  }

  /**
   * A failed save keeps the drafts, the edit mode and the errors and shows
   * the failure, so saving again sends the same update under the same id.
   */
  lemma FailedSaveAllowsRetry(s: RowState, c: Customer, validate: CustomerRequest -> CustomerErrors, e: JsValue, retry: Result<Customer, JsValue>)
    ensures var failed := Save(s, c, validate, Err(e)).state;
      ValidateAll(validate, s.draft).ok ==>
        && failed.draft == s.draft && failed.isEditing == s.isEditing && failed.errors == validate(s.draft)
        && failed.opError == Some(MessageOr(e, UpdateFailed)) && !failed.isSaving
        && |Save(failed, c, validate, retry).effects| > 0
        && Save(failed, c, validate, retry).effects[0] == Requested(UpdateCustomer(c.id, s.draft))
  {
  }

  /**
   * Cancel after a save from a freshly mounted row returns it to its mounted
   * state, except that a failed update's message stays on screen: Cancel
   * does not clear the operation error.
   */
  lemma {:induction false} CancelAfterSave(c: Customer, edits: seq<(Field, string)>, validate: CustomerRequest -> CustomerErrors, e: JsValue)
    ensures var editing := EditAll(StartEdit(Mount(c)), edits);
      var saved := Save(editing, c, validate, Err(e)).state;
      Cancel(saved, c) == Mount(c).(opError := if ValidateAll(validate, editing.draft).ok then Some(MessageOr(e, UpdateFailed)) else None)
  {
    EditAllKeepsFlags(StartEdit(Mount(c)), edits);
  }

  /**
   * A failed delete changes nothing but the alert and the pending flag, so
   * a row stays as it was and deleting again sends the same request.
   */
  lemma FailedDeleteKeepsRow(s: RowState, c: Customer, e: JsValue, retry: Result<(), JsValue>)
    ensures var failed := Delete(s, c, true, Err(e)).state;
      && failed == s.(isDeleting := false, opError := Some(MessageOr(e, DeleteFailed)))
      && Delete(failed, c, true, retry).effects[0] == Requested(DeleteCustomer(c.id))
    ensures Delete(Mount(c), c, true, Err(e)).state == Mount(c).(opError := Some(MessageOr(e, DeleteFailed)))
  {
  }
}
