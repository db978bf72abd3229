# Customer management web client — Dafny model

A model of the browser client of a small customer-management service. The
client lets an employee sign up and log in. It keeps the access token in
session storage and guards the customer page behind it. It lists
customers page by page, and it edits, deletes and creates customers through
a REST API. Every failure of that API is normalised into one `ApiError`
shape. Every page and form turns such an error into one message for the
user.

The model is pure: React state becomes immutable records, and event
handlers become functions from state (and the outcome of the request they
make) to the new state plus the effects they cause, in order. The effects
are the service calls, the callbacks and the navigations. JavaScript's
dynamic values are a `JsValue` datatype with truthiness, `??`, property
access, `String()` and `Number()`.

Modules, one per source file plus shared helpers:

- `Options`: `Option` and `Result`.
- `Text`: `String.prototype.trim`, decimal rendering of integers and `Number()` on integer text.
- `JsValues`: dynamic values, and the `err?.message ? String(err.message) : fallback` idiom.
- `CustomerService`: records, the six service calls and the requests they send, response unwrapping, error normalisation.
- `Validation`: the employee-id, name and password validators and the two form validators.
- `Pagination`: the pagination widget.
- `CustomerList`: the paginated list controller, as a reducer over user events and settled fetches.
- `SessionStorage`: a string map with guarded blocks of writes that may throw part-way.
- `AuthContext`: session hydration, login, logout, signup, and the route guard of `ProtectedRoute`.
- `Routes`: navigations.
- `LoginPage` and `SignupPage`: the login and signup pages.
- `CustomerForms`: the `validateAll` step shared by the row editor and the add dialog.
- `CustomerRow` and `AddCustomerForm`: the row editor and the add dialog.
- `Flows`: end-to-end properties from a transport failure to the message on the login page.

Notes on what the code does:

- `src/components/CustomerList.tsx` has no reload request and does not
  merge created, updated or deleted records into the list, so the model has
  neither.
- `CustomerList.tsx` discards a stale success but not a stale failure (see
  Findings). Its page-size select and pagination are disabled while a load
  is in flight, so a stale run can only exist after the load effect is
  re-run with the same page and size.
- The two `validateAll` functions accept a field when its message is
  falsy (`!errs.x`). So an empty-string message counts as valid, not only
  `null`.

## Model

| member | source | states |
|---|---|---|
| Text.Trim | src/utils/validation.ts:4 | only surrounding white space is removed: the result is a slice of the input with nothing but white space outside it and none at its ends, and it is empty exactly when the input is all white space |
| Text.TrimIgnoresSurroundingWhitespace | src/utils/validation.ts:4 | whitespace added around a value never changes its trimmed form |
| Text.TrimIdempotent | src/utils/validation.ts:4 | trimming twice is trimming once |
| Text.DecimalString | src/api/customerService.ts:152 | an integer interpolated into a URL is non-empty decimal text, with a leading minus exactly for negatives |
| Text.DecimalStringInjective | src/api/customerService.ts:152 | distinct integers never render as the same text |
| Text.ParseInteger | src/components/CustomerList.tsx:50 | `Number()` on integer text: blank text is 0 and a digit string is its value |
| Text.ParseDecimalString | src/components/CustomerList.tsx:50 | `Number()` reads back every rendered integer exactly |
| Text.DigitsValueOfNatDigits | src/api/customerService.ts:152 | the digits of a natural number read back as that number |
| JsValues.Coalesce | src/contexts/AuthContext.tsx:52 | `??` yields the default exactly for null and undefined |
| JsValues.ToJsString | src/api/customerService.ts:80 | `String()` of a truthy value is non-empty and keeps strings unchanged |
| JsValues.ToNumber | src/components/CustomerList.tsx:50 | `Number()` yields a number or NaN, and the number of every rendered integer |
| JsValues.MessageOr | src/components/CustomerRow.tsx:46 | a falsy message gives the fallback; a truthy one gives non-empty text, a non-empty string message itself |
| CustomerService.ApiErrorValue | src/api/customerService.ts:28-38 | the thrown `ApiError` is truthy and carries exactly its message, status and body |
| CustomerService.OwnMessage | src/api/customerService.ts:49-55 | a non-empty string message is kept as is; anything else becomes "Unknown error" |
| CustomerService.ExtractAxiosDetails | src/api/customerService.ts:45-93 | without a response only the own message survives; with one, status and body are the response's and the message follows the body's priority: text, `message`, `error`, JSON, `String` |
| CustomerService.NormalizeError | src/api/customerService.ts:99-106 | transport failures keep their extracted details; any other throw becomes its message or "Unknown error", with no status and no body |
| CustomerService.UnwrapResponse | src/api/customerService.ts:98 | a call resolves to the response's data when present, else to the response itself |
| CustomerService.Settle | src/api/customerService.ts:150-163 | a call succeeds exactly when its request resolved, and then returns the unwrapped body; otherwise it throws the normalised error |
| CustomerService.PlainErrorsLoseDetails | src/api/customerService.ts:40-43 | a thrown value without the transport's marks loses any status or body; a falsy one is never the transport's and becomes "Unknown error"; a truthy value with a truthy `response` always is |
| CustomerService.FailedCallReadsBack | src/components/CustomerRow.tsx:43-46 | a component's catch block reads the normalised message back, and uses its own fallback exactly when that message is empty; the status is the one normalisation kept |
| CustomerService.SettleDelete | src/api/customerService.ts:194-207 | a delete resolves to nothing whatever the response holds, and rejects with the normalised error |
| CustomerService.StatusOnlyFromResponse | src/api/customerService.ts:58-60 | any status an `ApiError` carries was copied from a transport response |
| CustomerService.NetworkErrorKeepsMessage | src/api/customerService.ts:51-58 | a transport failure without a response keeps its own message and has no status |
| CustomerService.EmptyMessageOnlyFromEmptyBody | src/api/customerService.ts:62-82 | the normalised message is empty only if the server sent an empty body text, or an object whose JSON is empty |
| CustomerService.RequestOf | src/api/customerService.ts:95-207 | only fetch uses GET, only update uses PUT and only delete uses DELETE; fetch and delete send no body; update and delete address the record by its id |
| CustomerService.IdOf | src/api/customerService.ts:181 | a URL has a record id exactly when it starts with `/api/customers/`, and it is that id's URL |
| CustomerService.PageUrlHasNoId | src/api/customerService.ts:152 | a list URL never addresses a record |
| CustomerService.PageQueryOfPageUrl | src/api/customerService.ts:152 | the list URL reads back as exactly the page and size it was built from |
| CustomerService.CallOfRequestOf | src/api/customerService.ts:95-207 | each request identifies the service call that sent it and all of that call's arguments |
| CustomerService.RequestIdentifiesCall | src/api/customerService.ts:150-207 | distinct calls never send the same request: neither pages and sizes nor record ids are ever confused |
| Validation.ValidatorLength | src/utils/validation.ts:7 | the length `validator` counts is at most the code-point count, equal without variation selectors, zero exactly when there are only variation selectors |
| Validation.CountClass | src/utils/validation.ts:22-28 | a password's count of a character class is positive exactly when it holds a character of that class |
| Validation.ValidateEmployeeId | src/utils/validation.ts:3-9 | valid exactly when the trimmed id is 4 to 20 ASCII letters and digits; each message is given exactly in its case, in the source's order |
| Validation.ValidateEmployeeName | src/utils/validation.ts:11-16 | the one message appears exactly when the trimmed name has no countable character |
| Validation.ValidatePassword | src/utils/validation.ts:18-33 | valid exactly when at least 8 long with an upper, a lower, a digit and a symbol; each message is given exactly in its case |
| Validation.ValidateLoginPassword | src/utils/validation.ts:36-40 | a login password is valid exactly when it is non-empty |
| Validation.TrimmedFieldsIgnoreSurroundingWhitespace | src/utils/validation.ts:3-16 | surrounding whitespace never changes the verdict on an employee id or name |
| Validation.ValidateSignupForm | src/utils/validation.ts:48-54 | each field's verdict is that field's validator applied to it |
| Validation.ValidateLoginForm | src/utils/validation.ts:57-62 | the id gets the full id check and the password only the non-empty check |
| Pagination.Prev | src/components/Pagination.tsx:11-15 | Previous reports the page before when enabled and above page 1, page 1 when enabled and below it, nothing on page 1 or when disabled |
| Pagination.Next | src/components/Pagination.tsx:17-21 | Next reports the page after when enabled and before the last page, the last page when enabled and beyond it, nothing on the last page or when disabled |
| Pagination.Click | src/components/Pagination.tsx:23-27 | a numbered click is reported exactly when enabled, in range and not the current page |
| Pagination.PageList | src/components/Pagination.tsx:29 | the numbered buttons are 1, 2, … in order, as many as the page count (none for a count below 1) |
| Pagination.PageListIsRange | src/components/Pagination.tsx:29 | a page has a button exactly when it lies between 1 and the page count |
| Pagination.OneCurrentButton | src/components/Pagination.tsx:41 | exactly one button is marked current when the current page exists, none otherwise |
| Pagination.ReportedPagesInRange | src/components/Pagination.tsx:11-27 | from a page in range, every control reports only pages in range |
| Pagination.DisabledReportsNothing | src/components/Pagination.tsx:11-27 | a disabled widget reports nothing |
| Pagination.ButtonsEnabledIffHandlersReport | src/components/Pagination.tsx:33-50 | on a page in range, Previous and Next are enabled exactly when their handlers would report a page |
| CustomerList.Initial | src/components/CustomerList.tsx:7-13 | the list starts on page 1 of size 10, with one page, no customers, no error, no loading and no run outstanding |
| CustomerList.StartLoad | src/components/CustomerList.tsx:15-21 | a load turns loading on, clears the error, starts a newer run that is now outstanding and fetches exactly the current page and size, keeping the records and totals |
| CustomerList.Mount | src/components/CustomerList.tsx:15-43 | mounting fetches page 1 of size 10, with that one run outstanding |
| CustomerList.Commit | src/components/CustomerList.tsx:43 | an update that keeps page and size changes nothing else; one that changes either starts a load of the new page and size |
| CustomerList.PageChange | src/components/CustomerList.tsx:45-47 | the requested page is taken unclamped; the same page leaves the state unchanged, another starts a load of it at the current size |
| CustomerList.SelectedPageSize | src/components/CustomerList.tsx:50 | the chosen size is the number read, or 10 when that reads as 0 or NaN; it is never 0 |
| CustomerList.PageSizeChange | src/components/CustomerList.tsx:49-53 | changing the size goes back to page 1; if page and size are unchanged nothing changes, otherwise a load of page 1 at the new size starts |
| CustomerList.LoadErrorMessage | src/components/CustomerList.tsx:29 | the error's non-empty string message as is, "Failed to fetch customers" when the message is falsy, and never empty |
| CustomerList.Loaded | src/components/CustomerList.tsx:23-25 | a loaded page shows the customers and totals returned, with an empty list, 1 page and 0 customers for missing fields |
| CustomerList.ResolveAsWritten | src/components/CustomerList.tsx:20-35 | as written: the latest run's success is applied and a stale success dropped, but any failure, stale or not, empties the page and sets the error; only the latest run ends loading |
| CustomerList.Resolve | src/components/CustomerList.tsx:20-35 | with the guard on both branches: a stale result changes nothing, the latest ends loading and applies its page or its failure |
| CustomerList.Act | src/components/CustomerList.tsx:60 | while loading the select and the pagination are disabled, so a user event changes nothing; otherwise it changes nothing or starts a load of the page or size picked |
| CustomerList.StepAsWritten | src/components/CustomerList.tsx:15-60 | the controller as written: user events gated by loading, a re-run of the effect starts a load, and each outstanding run settles once through the unguarded catch branch |
| CustomerList.Step | src/components/CustomerList.tsx:15-60 | the corrected controller: the same, except that any settlement of a run other than the latest only marks it settled |
| CustomerList.OneRegionShown | src/components/CustomerList.tsx:66-70 | in a valid state exactly one of the loading line, the alert and the table is on screen |
| CustomerList.StepTracksRuns | src/components/CustomerList.tsx:15-43 | the corrected controller keeps the run bookkeeping: outstanding runs were started, and loading holds exactly while the latest is outstanding |
| CustomerList.StepAsWrittenTracksRuns | src/components/CustomerList.tsx:34 | the code as written keeps the same bookkeeping, since only the latest run clears loading |
| CustomerList.ReplayAsWrittenTracksRuns | src/components/CustomerList.tsx:15-43 | in every history of the code as written, the list is loading exactly while its latest run is outstanding |
| CustomerList.StepPreservesValid | src/components/CustomerList.tsx:22 | with the guard of this line applied to the catch branch too, no event breaks the invariant: an error is non-empty and never shown with loading, and the size is never 0 |
| CustomerList.ReplayValid | src/components/CustomerList.tsx:66-70 | in every state the corrected controller reaches, including re-runs of the effect, the alert shows exactly when there is an error and the table exactly when neither loading nor error |
| CustomerList.StepsAgreeWithoutRerun | src/components/CustomerList.tsx:60 | while no stale run is outstanding, the code as written and the corrected controller take the same step on any event but a re-run, and no stale run appears |
| CustomerList.ReplaysAgreeWithoutRerun | src/components/CustomerList.tsx:26-34 | without a re-run of the effect the code as written reaches exactly the corrected controller's states, so every state it reaches is valid |
| CustomerList.StaleFailureHidesFreshPage | src/components/CustomerList.tsx:26-32 | after a re-run of the mount effect, run 1 failing while run 2 loads shows the alert beside the loading line; run 2's success then loads the page but the table stays hidden |
| CustomerList.StaleFailureWipesFreshPage | src/components/CustomerList.tsx:26-32 | after a re-run of the mount effect, run 1 failing after run 2 loaded empties the page and hides the table |
| CustomerList.GuardedStaleFailureKeepsFreshPage | src/components/CustomerList.tsx:22 | with the guard on both branches, either order ends with run 2's page on screen and no alert |
| CustomerList.PageSizeOptionsReadBack | src/components/CustomerList.tsx:60-64 | each offered size, 5, 10 or 20, is read back as itself and goes to page 1 |
| SessionStorage.Apply | src/contexts/AuthContext.tsx:54-58 | a set stores its value and a remove deletes its key; no other key changes |
| SessionStorage.ApplyAll | src/contexts/AuthContext.tsx:53-59 | keys no operation names keep their values; the last operation decides its own key |
| SessionStorage.RunGuarded | src/contexts/AuthContext.tsx:53-63 | a block that throws keeps exactly the writes made before the throwing call |
| AuthContext.Hydrate | src/contexts/AuthContext.tsx:27-45 | authenticated exactly when storage is readable and holds a non-empty token; the user is the parsed blob, or null when it is missing or unparsable |
| AuthContext.Login | src/contexts/AuthContext.tsx:47-69 | a rejected login changes nothing and rethrows; a resolved one sets the token and user whatever storage does and persists them unless storage throws; when the block stops after the token write (the user write throws, or `JSON.stringify` does), the new token sits beside the previous user entry |
| AuthContext.Logout | src/contexts/AuthContext.tsx:71-81 | logout always signs the session out, and removes both keys unless storage throws, touching no other key |
| AuthContext.Signup | src/contexts/AuthContext.tsx:83-91 | signup never changes the session and rethrows exactly the failure it got |
| AuthContext.LogoutIdempotent | src/contexts/AuthContext.tsx:71-81 | logging out twice is logging out once |
| AuthContext.LoginThenHydrate | src/contexts/AuthContext.tsx:27-59 | a reload after a fault-free login restores the token; it restores the user when that user is truthy and its JSON reads back, and null otherwise, even where memory held a falsy non-null user |
| AuthContext.LoginAuthenticates | src/contexts/AuthContext.tsx:25-69 | a resolved login authenticates, and opens the guard, exactly when the returned token is non-empty; a rejected one leaves the flag as it was |
| AuthContext.Guard | src/components/ProtectedRoute.tsx:10-26 | the protected page renders exactly when the session is authenticated |
| AuthContext.LogoutLocksGuard | src/components/ProtectedRoute.tsx:14-26 | after logout the guard always redirects to login |
| LoginPage.Change | src/pages/LoginPage.tsx:21-42 | typing sets the named field and revalidates only it; other names change nothing |
| LoginPage.Blur | src/pages/LoginPage.tsx:44-53 | leaving a field revalidates only that field's error |
| LoginPage.LoginErrorMessage | src/pages/LoginPage.tsx:75-84 | a 401 always shows the fixed text, otherwise the message after "Login failed: ", a thrown string, or the generic text; never empty |
| LoginPage.Submit | src/pages/LoginPage.tsx:55-88 | login is called exactly when both fields pass, with the raw id and password; navigation to /customer follows only success; the alert appears exactly on failure |
| LoginPage.BlurAfterChangeIsNoOp | src/pages/LoginPage.tsx:21-53 | leaving a field right after typing into it changes nothing more |
| LoginPage.LiveErrorsPredictSubmit | src/pages/LoginPage.tsx:55-70 | after typing into both fields, submit calls login exactly when no live error is shown, and it leaves those errors as they were |
| SignupPage.Revalidate | src/pages/SignupPage.tsx:22-24 | only the named field's error is recomputed, by that field's validator |
| SignupPage.Change | src/pages/SignupPage.tsx:16-29 | typing sets the named field and revalidates only it |
| SignupPage.Blur | src/pages/SignupPage.tsx:31-41 | leaving a field revalidates only that field, leaving the form alone |
| SignupPage.SignupErrorMessage | src/pages/SignupPage.tsx:62-65 | the failure shows its message verbatim, else a thrown string, else the generic text; never empty |
| SignupPage.Submit | src/pages/SignupPage.tsx:43-69 | signup is called exactly when all three fields pass, with those fields; success navigates to /login replacing history; the alert appears exactly on failure; loading ends |
| SignupPage.BlurAfterChangeIsNoOp | src/pages/SignupPage.tsx:16-41 | leaving a field right after typing into it changes nothing more |
| SignupPage.LiveErrorsPredictSubmit | src/pages/SignupPage.tsx:43-57 | after typing into all three fields, submit calls signup exactly when no live error is shown, and it leaves those errors as they were |
| CustomerForms.WithField | src/components/AddCustomerForm.tsx:76-94 | an input sets its own field and leaves the other three alone |
| CustomerForms.ValidateAll | src/components/CustomerRow.tsx:23-32 | the errors are replaced wholesale, and the form passes exactly when none of the four would show an alert |
| CustomerForms.EditsAreIndependent | src/components/AddCustomerForm.tsx:76-94 | edits of two different fields commute |
| CustomerRow.DraftOf | src/components/CustomerRow.tsx:14-17 | the drafts are the customer's four editable fields |
| CustomerRow.Mount | src/components/CustomerRow.tsx:13-21 | a row starts showing the customer's fields, not editing, with nothing pending and no errors |
| CustomerRow.StartEdit | src/components/CustomerRow.tsx:96 | Edit enters edit mode and keeps the drafts |
| CustomerRow.EditDraft | src/components/CustomerRow.tsx:73-85 | typing changes only that draft |
| CustomerRow.Cancel | src/components/CustomerRow.tsx:92 | Cancel leaves edit mode, restores every draft from the customer and clears the errors |
| CustomerRow.EditThenCancelRestores | src/components/CustomerRow.tsx:92 | any edits followed by Cancel return a fresh row to exactly its initial state |
| CustomerRow.EditAllKeepsFlags | src/components/CustomerRow.tsx:73-85 | typing never changes the mode, errors or pending flags |
| CustomerRow.Save | src/components/CustomerRow.tsx:34-50 | invalid drafts make no call; valid ones are sent under the customer's id; success fires `onSaved` with the server's record and leaves edit mode; failure stays with the error shown |
| CustomerRow.FailedSaveAllowsRetry | src/components/CustomerRow.tsx:34-50 | a failed save keeps the drafts, the edit mode and the errors and shows the failure, so saving again sends the same update under the same id |
| CustomerRow.CancelAfterSave | src/components/CustomerRow.tsx:34-92 | Cancel after a save from a fresh row returns it to its mounted state, except that a failed update's message stays, as Cancel does not clear it |
| CustomerRow.Delete | src/components/CustomerRow.tsx:52-67 | no call unless confirmed; success fires `onDeleted` with the id; failure shows the message or the fixed text |
| CustomerRow.FailedDeleteKeepsRow | src/components/CustomerRow.tsx:52-67 | a failed delete changes only the alert and the pending flag, so a mounted row stays mounted and deleting again sends the same request |
| AddCustomerForm.OpenChanged | src/components/AddCustomerForm.tsx:21-31 | closing empties all four fields, clears errors and the submit error and ends submitting; opening changes nothing |
| AddCustomerForm.CloseForgets | src/components/AddCustomerForm.tsx:21-31 | after closing, the state no longer depends on what it was |
| AddCustomerForm.AlertTexts | src/components/AddCustomerForm.tsx:73-97 | the alerts of a list of messages: a text appears exactly when some message carries it and it is non-empty; none when no message alerts, all when all do |
| AddCustomerForm.AlertTextsAppend | src/components/AddCustomerForm.tsx:73-97 | the alerts of two lists rendered one after the other are the first list's alerts followed by the second's |
| AddCustomerForm.AlertTextsSingle | src/components/AddCustomerForm.tsx:77 | one message lists exactly the one alert it renders, or none |
| AddCustomerForm.AlertTextsOfMessages | src/components/AddCustomerForm.tsx:73-97 | the dialog's alerts are the alert of the name, contact, address and managed-by errors and then of the submit error, in that order, one per alerting message |
| AddCustomerForm.ShownAlerts | src/components/AddCustomerForm.tsx:73-97 | a closed dialog renders nothing; an open one shows one alert per non-empty message, in render order (name, contact, address, managed by, submit error), repeated texts included; none when none alerts, five when all do |
| AddCustomerForm.Shown | src/components/AddCustomerForm.tsx:77 | a message renders one alert exactly when it is non-empty |
| AddCustomerForm.EditField | src/components/AddCustomerForm.tsx:76-94 | typing changes only that field |
| AddCustomerForm.Blur | src/components/AddCustomerForm.tsx:35-44 | leaving any field revalidates all four |
| AddCustomerForm.Submit | src/components/AddCustomerForm.tsx:46-67 | invalid input makes no call; valid input is sent as is; success fires `onSuccess` with the created record; failure shows the message or the fixed text; submitting ends |
| AddCustomerForm.FailedSubmitShowsAlert | src/components/AddCustomerForm.tsx:60-66 | a failed create always leaves an alert on screen |
| AddCustomerForm.SuccessfulSubmitShowsNoAlert | src/components/AddCustomerForm.tsx:46-59 | a successful create of valid input leaves no alert |
| Flows.UnauthorizedLoginShowsFixedMessage | src/pages/LoginPage.tsx:76-77 | a 401 from the backend leaves session and storage untouched and shows "Invalid employee ID or password." whatever the body says |
| Flows.NetworkFailureShowsItsMessage | src/pages/LoginPage.tsx:78-79 | a login that got no response shows "Login failed: " followed by the transport's message |

## Left out

- `src/api/http.ts` is not part of this model. That covers the transport, its base URL and the token header. Each request's settled outcome is an input.
- JSX rendering is reduced to the predicates that decide what is shown (loading, alert, table, dialog alerts). Console logging and the `useAuth` provider check are left out.
- `window.confirm` is a boolean input, and so is the storage failure on hydration. Which storage call throws is an input index.
- `JSON.stringify` and `JSON.parse` are an injected codec whose functions may fail. Nothing about them is assumed except where a lemma requires a round trip.
- Numbers are unbounded integers, and NaN is a single value.
- JsValues.ToNumber: reads only optionally signed decimal integers surrounded by whitespace. Decimals, exponents, hex and `Infinity` read as NaN instead of their value.
- Text.ParseInteger: same restriction as `ToNumber`, which it implements.
- Arrays and functions are not distinguished from plain objects among dynamic values. The body-message rule treats any object alike.
- The outer `catch` of `extractAxiosDetails` (src/api/customerService.ts:85-90) is left out. In the model no property read can throw, so that branch is unreachable.
- Every submit, save and delete of the two pages, the row editor and the add dialog is modelled from its start to its settlement in one step, so no event can arrive in between. The buttons and inputs those components disable while a request is in flight are therefore not modelled. CustomerList's loads are different: a load's start and its settlement are separate events, and its disabled select and pagination are modelled by dropping user events while loading.
- CustomerList's unmounting is left out: after it no setter has any effect. The one effect cleanup the model has is the one before a re-run of the load effect with the same page and size (`EffectRerun`), the re-run React's development mode performs on mount.
- `CustomerList.Replay` and `CustomerList.ReplayAsWritten` carry no contract of their own; what they reach is stated by `ReplayValid`, `ReplayAsWrittenTracksRuns` and `ReplaysAgreeWithoutRerun`.
- `CustomerService.CallOf` is the decoder that inverts `RequestOf`; it has no counterpart in the source, and its meaning is stated by `CallOfRequestOf` and `RequestIdentifiesCall`.
- An input name other than the ones a page knows changes nothing in the model. The signup page's `{...prev, [name]: value}` would add an extra key that nothing reads.
- `validateCustomerForm` is imported by the row editor and the add dialog but is not part of this model. It is a function parameter returning four optional messages.
- The route guard's redirect is a decision value, not a navigation effect.

## Findings

| source | as written | input that shows it | evidently intended | confidence | as-written member | corrected member |
|---|---|---|---|---|---|---|
| src/components/CustomerList.tsx:26-32 | the catch branch sets the error and empties the list without checking `mounted`, unlike the success branch | the mount effect runs twice (its cleanup, then a second run on the same state), so runs 1 and 2 both fetch page 1; run 1 fails while run 2 is loading, then run 2 succeeds: the alert shows beside the loading line, and after the success the error stays and the table stays hidden | a stale failure is discarded like a stale success, so the latest page stays on screen | low (needs a re-run of the load effect), not executed | CustomerList.StepAsWritten (counterexamples CustomerList.StaleFailureHidesFreshPage, CustomerList.StaleFailureWipesFreshPage) | CustomerList.Step (CustomerList.ReplayValid, CustomerList.GuardedStaleFailureKeepsFreshPage) |
