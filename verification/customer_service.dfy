/**
 * The client's API layer (src/api/customerService.ts): the records it
 * exchanges, the requests it sends, how a resolved response is unwrapped,
 * and how every failure is normalised into an `ApiError` before it is
 * rethrown. The transport itself is not modelled: each call's settled
 * outcome is an input.
 */
module CustomerService {
  import opened Options
  import opened JsValues
  import Text

  /** A customer record as the backend returns it; `id` is `customer_id`. */
  datatype Customer = Customer(id: string, name: string, contact: string, address: string, managedBy: string)

  /** The editable fields of a customer, as sent on create and update. */
  datatype CustomerRequest = CustomerRequest(name: string, contact: string, address: string, managedBy: string)

  /** The body of a successful login; `user` is `Undefined` when the backend omits it. */
  datatype LoginResponse = LoginResponse(accessToken: string, user: JsValue)

  /** The body of a customer page; each field is `None` when the backend omits it. */
  datatype PageResponse = PageResponse(customers: Option<seq<Customer>>, totalPages: Option<int>, totalCount: Option<int>)

  /** The normalised failure every service call throws. */
  datatype ApiError = ApiError(message: string, status: JsValue, body: JsValue)

  const UnknownError := "Unknown error"

  /** The thrown `ApiError` as its catchers see it: an Error object carrying the three fields. */
  function ApiErrorValue(e: ApiError): (v: JsValue)
    ensures Truthy(v)
    ensures Get(v, "message") == Str(e.message)
    ensures Get(v, "status") == e.status && Get(v, "body") == e.body
  {
    Obj(map["name" := Str("ApiError"), "message" := Str(e.message), "status" := e.status, "body" := e.body])
  }

  /** What the transport layer marks as its own failure: a truthy `isAxiosError`, `response` or `request`. */
  predicate IsAxiosLike(err: JsValue) {
    Truthy(err) && (Truthy(Get(err, "isAxiosError")) || Truthy(Get(err, "response")) || Truthy(Get(err, "request")))
  }

  /** The error's own message when it is a non-empty string, else the generic text. */
  function OwnMessage(err: JsValue): (r: string)
    ensures |r| > 0
    ensures IsNonEmptyString(Get(err, "message")) ==> r == Get(err, "message").s
    ensures !IsNonEmptyString(Get(err, "message")) ==> r == UnknownError
  {
    var m := Get(err, "message");
    if IsNonEmptyString(m) then m.s else UnknownError
  }

  /** The message a response body yields, or `fallback` when it yields none. */
  function BodyMessage(body: JsValue, fallback: string, json: JsonCodec): string {
    if Nullish(body) then fallback
    else if IsNonEmptyString(body) then body.s
    else if body.Obj? then
      if IsNonEmptyString(Get(body, "message")) then Get(body, "message").s
      else if IsNonEmptyString(Get(body, "error")) then Get(body, "error").s
      else match json.stringify(body)
        case Some(text) => text
        case None => fallback
    else ToJsString(body)
  }

  /**
   * The details of a transport failure. Without a response only the error's
   * own message survives; with one, status and body are copied verbatim and
   * the body, when present, supplies the message: a non-empty string as is;
   * for an object its non-empty `message`, else its non-empty `error`, else
   * its JSON text (kept at the previous message if that throws); any other
   * non-null value converted with `String`.
   */
  function ExtractAxiosDetails(err: JsValue, json: JsonCodec): (d: ApiError)
    ensures !Truthy(Get(err, "response")) ==> d == ApiError(OwnMessage(err), Undefined, Undefined)
    ensures Truthy(Get(err, "response")) ==>
      && d.status == Get(Get(err, "response"), "status")
      && d.body == Get(Get(err, "response"), "data")
    ensures Truthy(Get(err, "response")) && Nullish(d.body) ==> d.message == OwnMessage(err)
    ensures Truthy(Get(err, "response")) && IsNonEmptyString(d.body) ==> d.message == d.body.s
    ensures Truthy(Get(err, "response")) && !Nullish(d.body) && !d.body.Obj? && !IsNonEmptyString(d.body) ==>
      d.message == ToJsString(d.body)
    ensures Truthy(Get(err, "response")) && d.body.Obj? ==>
      if IsNonEmptyString(Get(d.body, "message")) then d.message == Get(d.body, "message").s
      else if IsNonEmptyString(Get(d.body, "error")) then d.message == Get(d.body, "error").s
      else if json.stringify(d.body).Some? then d.message == json.stringify(d.body).value
      else d.message == OwnMessage(err)
  {
    var own := OwnMessage(err);
    if !Truthy(err) || !Truthy(Get(err, "response")) then
      ApiError(own, Undefined, Undefined)
    else
      var response := Get(err, "response");
      var body := Get(response, "data");
      ApiError(BodyMessage(body, own, json), Get(response, "status"), body)
  }

  /**
   * The shared catch block of every service call: transport failures keep
   * their details, anything else becomes an `ApiError` with its message (or
   * the generic text) and neither status nor body.
   */
  function NormalizeError(err: JsValue, json: JsonCodec): (e: ApiError)
    ensures IsAxiosLike(err) ==> e == ExtractAxiosDetails(err, json)
    ensures !IsAxiosLike(err) ==>
      && e.status == Undefined && e.body == Undefined
      && e.message == MessageOr(err, UnknownError)
  {
    if IsAxiosLike(err) then ExtractAxiosDetails(err, json)
    else ApiError(MessageOr(err, UnknownError), Undefined, Undefined)
  }

  /** `(resp && resp.data) ?? resp`: the body of a response, or the response itself when it has none. */
  function UnwrapResponse(resp: JsValue): (r: JsValue)
    ensures Truthy(resp) && !Nullish(Get(resp, "data")) ==> r == Get(resp, "data")
    ensures Nullish(Get(resp, "data")) ==> r == resp
    ensures !Truthy(resp) ==> r == resp
  {
    Coalesce(if Truthy(resp) then Get(resp, "data") else resp, resp)
  }

  /** How the transport settled one request. */
  datatype HttpOutcome = Resolved(response: JsValue) | Rejected(thrown: JsValue)

  /** What a service call returns or throws, given how its request settled. */
  function Settle(outcome: HttpOutcome, json: JsonCodec): (r: Result<JsValue, ApiError>)
    ensures r.Ok? <==> outcome.Resolved?
    ensures outcome.Resolved? ==> r.value == UnwrapResponse(outcome.response)
    ensures outcome.Rejected? ==> r.error == NormalizeError(outcome.thrown, json)
  {
    match outcome
    case Resolved(resp) => Ok(UnwrapResponse(resp))
    case Rejected(err) => Err(NormalizeError(err, json))
  }

  /** `deleteCustomer`: resolves to nothing, whatever the response holds. */
  function SettleDelete(outcome: HttpOutcome, json: JsonCodec): (r: Result<JsValue, ApiError>)
    ensures outcome.Resolved? ==> r == Ok(Undefined)
    ensures outcome.Rejected? ==> r == Err(NormalizeError(outcome.thrown, json))
  {
    match outcome
    case Resolved(_) => Ok(Undefined)
    case Rejected(err) => Err(NormalizeError(err, json))
  }

  /**
   * What a component's catch block reads back from a failed call: the
   * normalised message, or the component's own fallback exactly when that
   * message is empty, and the status the normalisation kept.
   */
  lemma FailedCallReadsBack(outcome: HttpOutcome, json: JsonCodec, fallback: string)
    ensures var r := Settle(outcome, json);
      r.Err? ==>
        && r.error == NormalizeError(outcome.thrown, json)
        && MessageOr(ApiErrorValue(r.error), fallback) == (if r.error.message == "" then fallback else r.error.message)
        && Get(ApiErrorValue(r.error), "status") == r.error.status
  {
  }

  /**
   * A thrown value without the transport's marks loses any status or body
   * it carries; a falsy one (null, undefined, 0, "") is never the
   * transport's and becomes "Unknown error".
   */
  lemma PlainErrorsLoseDetails(err: JsValue, json: JsonCodec)
    ensures !IsAxiosLike(err) ==> NormalizeError(err, json) == ApiError(MessageOr(err, UnknownError), Undefined, Undefined)
    ensures !Truthy(err) ==> !IsAxiosLike(err) && NormalizeError(err, json) == ApiError(UnknownError, Undefined, Undefined)
    ensures Truthy(err) && Truthy(Get(err, "response")) ==> IsAxiosLike(err)
  {
  }

  /** Any status an `ApiError` carries was read from a transport response. */
  lemma StatusOnlyFromResponse(err: JsValue, json: JsonCodec)
    ensures var e := NormalizeError(err, json);
      e.status != Undefined ==>
        && IsAxiosLike(err) && Truthy(Get(err, "response"))
        && e.status == Get(Get(err, "response"), "status")
  {
  }

  /** A network failure (no response) surfaces its own message with no status: "Network Error" stays "Network Error". */
  lemma NetworkErrorKeepsMessage(err: JsValue, json: JsonCodec)
    requires Truthy(Get(err, "isAxiosError")) && !Truthy(Get(err, "response"))
    requires IsNonEmptyString(Get(err, "message"))
    ensures NormalizeError(err, json) == ApiError(Get(err, "message").s, Undefined, Undefined)
  {
  }

  /**
   * The normalised message is empty only when the server sent an empty string
   * as its body, or an object whose JSON text is empty.
   */
  lemma EmptyMessageOnlyFromEmptyBody(err: JsValue, json: JsonCodec)
    ensures var e := NormalizeError(err, json);
      e.message == "" ==>
        || e.body == Str("")
        || (e.body.Obj? && json.stringify(e.body) == Some(""))
  {
    var e := NormalizeError(err, json);
    if IsAxiosLike(err) && Truthy(Get(err, "response")) && e.message == "" {
      var body := e.body;
      if !Nullish(body) && !IsNonEmptyString(body) && !body.Obj? {
        // String(v) is empty only for the empty string.
        assert !Truthy(body) ==> body.Bool? || body.NaN? || body.Num? || body.Str?;
      }
    }
  }

  // Requests

  datatype Verb = GET | POST | PUT | DELETE

  datatype Payload =
    | NoPayload
    | Credentials(username: string, password: string)
    | Registration(employeeId: string, employeeName: string, password: string)
    | CustomerFields(fields: CustomerRequest)

  datatype HttpRequest = HttpRequest(verb: Verb, url: string, payload: Payload)

  const CustomersPath := "/api/customers"

  /** `/api/customers?page=<page>&page_size=<size>`. */
  function CustomersPageUrl(page: int, pageSize: int): string {
    CustomersPath + "?page=" + Text.DecimalString(page) + "&page_size=" + Text.DecimalString(pageSize)
  }

  /** `/api/customers/<id>`, the id interpolated as is. */
  function CustomerUrl(id: string): string {
    CustomersPath + "/" + id
  }

  /** The six service calls, with the arguments each one sends. */
  datatype ServiceCall =
    | Login(username: string, password: string)
    | Signup(employeeId: string, employeeName: string, password: string)
    | FetchCustomers(page: int, pageSize: int)
    | CreateCustomer(fields: CustomerRequest)
    | UpdateCustomer(id: string, fields: CustomerRequest)
    | DeleteCustomer(id: string)

  /** The request each service call hands to the transport. */
  function RequestOf(call: ServiceCall): (r: HttpRequest)
    ensures r.verb == GET <==> call.FetchCustomers?
    ensures r.verb == PUT <==> call.UpdateCustomer?
    ensures r.verb == DELETE <==> call.DeleteCustomer?
    ensures r.payload == NoPayload <==> call.FetchCustomers? || call.DeleteCustomer?
    ensures call.UpdateCustomer? || call.DeleteCustomer? ==> IdOf(r.url) == Some(call.id)
  {
    match call
    case Login(u, p) => HttpRequest(POST, "/login", Credentials(u, p))
    case Signup(i, n, p) => HttpRequest(POST, "/signup", Registration(i, n, p))
    case FetchCustomers(page, size) => HttpRequest(GET, CustomersPageUrl(page, size), NoPayload)
    case CreateCustomer(f) => HttpRequest(POST, CustomersPath, CustomerFields(f))
    case UpdateCustomer(id, f) => HttpRequest(PUT, CustomerUrl(id), CustomerFields(f))
    case DeleteCustomer(id) => HttpRequest(DELETE, CustomerUrl(id), NoPayload)
  }

  /** The record id a `/api/customers/<id>` URL addresses. */
  function IdOf(url: string): (r: Option<string>)
    ensures r.Some? <==> CustomersPath + "/" <= url
    ensures r.Some? ==> url == CustomerUrl(r.value)
  {
    var prefix := CustomersPath + "/";
    if prefix <= url then Some(url[|prefix|..]) else None
  }

  /** The position of the first `c` in `s`. */
  function FirstIndex(s: string, c: char): (r: Option<nat>)
    ensures r.None? <==> c !in s
    ensures r.Some? ==> r.value < |s| && s[r.value] == c && c !in s[..r.value]
  {
    if |s| == 0 then None
    else if s[0] == c then Some(0)
    else match FirstIndex(s[1..], c)
      case None => None
      case Some(i) => assert s[1..][..i] == s[1..i + 1]; Some(i + 1)
  }

  /** The page and size texts of a `/api/customers?page=<p>&page_size=<s>` URL. */
  function QueryParts(url: string): Option<(string, string)> {
    var prefix := CustomersPath + "?page=";
    if !(prefix <= url) then None
    else
      var rest := url[|prefix|..];
      match FirstIndex(rest, '&')
      case None => None
      case Some(i) =>
        var tail := rest[i + 1..];
        if "page_size=" <= tail then Some((rest[..i], tail[10..])) else None
  }

  /** The page and size a list URL asks for, read as `Number` would. */
  function PageQueryOf(url: string): Option<(int, int)> {
    match QueryParts(url)
    case None => None
    case Some((p, s)) =>
      match (Text.ParseInteger(p), Text.ParseInteger(s))
      case (Some(page), Some(size)) => Some((page, size))
      case _ => None
  }

  /** Which service call a request came from, if any: the inverse of `RequestOf`. */
  function CallOf(req: HttpRequest): Option<ServiceCall> {
    match req.payload
    case Credentials(u, p) =>
      if req.verb == POST && req.url == "/login" then Some(Login(u, p)) else None
    case Registration(i, n, p) =>
      if req.verb == POST && req.url == "/signup" then Some(Signup(i, n, p)) else None
    case CustomerFields(f) =>
      if req.verb == POST && req.url == CustomersPath then Some(CreateCustomer(f))
      else if req.verb == PUT && IdOf(req.url).Some? then Some(UpdateCustomer(IdOf(req.url).value, f))
      else None
    case NoPayload =>
      if req.verb == DELETE && IdOf(req.url).Some? then Some(DeleteCustomer(IdOf(req.url).value))
      else if req.verb == GET && PageQueryOf(req.url).Some? then
        Some(FetchCustomers(PageQueryOf(req.url).value.0, PageQueryOf(req.url).value.1))
      else None
  }

  lemma NoAmpersandInDecimal(n: int)
    ensures '&' !in Text.DecimalString(n)
  {
    var d := Text.DecimalString(n);
    assert forall i :: 0 <= i < |d| ==> d[i] != '&';
  }

  /** In `d + "&" + tail`, the first ampersand is the one after `d` when `d` has none. */
  lemma {:induction false} FirstIndexAfter(d: string, tail: string)
    requires '&' !in d
    ensures FirstIndex(d + "&" + tail, '&') == Some(|d|)
  {
    var s := d + "&" + tail;
    var i := FirstIndex(s, '&');
    assert s[|d|] == '&';
    assert forall j :: 0 <= j < |d| ==> s[j] == d[j];
    assert forall j :: 0 <= j < |d| ==> s[j] != '&';
    var k := i.value;
    assert forall j :: 0 <= j < k ==> s[j] == s[..k][j] != '&';
  }

  /** A list URL splits back into the page and size texts it was built from, when the page text has no ampersand. */
  lemma {:induction false} QueryPartsOfTexts(d1: string, d2: string)
    requires '&' !in d1
    ensures QueryParts(CustomersPath + "?page=" + d1 + "&page_size=" + d2) == Some((d1, d2))
  {
    var prefix := CustomersPath + "?page=";
    var rest := d1 + "&" + ("page_size=" + d2);
    var url := CustomersPath + "?page=" + d1 + "&page_size=" + d2;
    assert url == prefix + rest;
    assert prefix <= url && url[|prefix|..] == rest;
    FirstIndexAfter(d1, "page_size=" + d2);
    assert rest[..|d1|] == d1;
    assert rest[|d1| + 1..] == "page_size=" + d2;
    assert ("page_size=" + d2)[10..] == d2;
  }

  /** The list URL splits back into the two decimal texts it was built from. */
  lemma {:induction false} QueryPartsOfPageUrl(page: int, pageSize: int)
    ensures QueryParts(CustomersPageUrl(page, pageSize)) == Some((Text.DecimalString(page), Text.DecimalString(pageSize)))
  {
    NoAmpersandInDecimal(page);
    QueryPartsOfTexts(Text.DecimalString(page), Text.DecimalString(pageSize));
  }

  /** The list URL reads back as the page and size it was built from. */
  lemma {:induction false} PageQueryOfPageUrl(page: int, pageSize: int)
    ensures PageQueryOf(CustomersPageUrl(page, pageSize)) == Some((page, pageSize))
  {
    QueryPartsOfPageUrl(page, pageSize);
    Text.ParseDecimalString(page);
    Text.ParseDecimalString(pageSize);
  }

  /** A list URL never addresses a record. */
  lemma PageUrlHasNoId(page: int, pageSize: int)
    ensures IdOf(CustomersPageUrl(page, pageSize)).None?
  {
    var url := CustomersPageUrl(page, pageSize);
    assert url[|CustomersPath|] == '?';
    assert (CustomersPath + "/")[|CustomersPath|] != url[|CustomersPath|];
  }

  /** A bodiless GET of a list URL is the fetch of the page and size that URL names. */
  lemma CallOfListRequest(req: HttpRequest, page: int, pageSize: int)
    requires req.verb == GET && req.payload == NoPayload
    requires PageQueryOf(req.url) == Some((page, pageSize))
    ensures CallOf(req) == Some(FetchCustomers(page, pageSize))
  {
  }

  /** A list request reads back as the fetch of its page and size. */
  lemma {:induction false} CallOfFetchRequest(page: int, pageSize: int)
    ensures CallOf(RequestOf(FetchCustomers(page, pageSize))) == Some(FetchCustomers(page, pageSize))
  {
    var req := RequestOf(FetchCustomers(page, pageSize));
    assert req.url == CustomersPageUrl(page, pageSize);
    PageQueryOfPageUrl(page, pageSize);
    CallOfListRequest(req, page, pageSize);
  }

  /** A record request reads back as the update or delete of that record. */
  lemma {:induction false} CallOfRecordRequest(id: string, fields: CustomerRequest)
    ensures CallOf(RequestOf(UpdateCustomer(id, fields))) == Some(UpdateCustomer(id, fields))
    ensures CallOf(RequestOf(DeleteCustomer(id))) == Some(DeleteCustomer(id))
  {
    assert |CustomerUrl(id)| > |CustomersPath|;
    assert IdOf(CustomerUrl(id)) == Some(id);
  }

  /** Every request a service call sends identifies that call and all its arguments. */
  lemma {:induction false} CallOfRequestOf(call: ServiceCall)
    ensures CallOf(RequestOf(call)) == Some(call)
  {
    match call
    case FetchCustomers(page, size) => CallOfFetchRequest(page, size);
    case UpdateCustomer(id, f) => CallOfRecordRequest(id, f);
    case DeleteCustomer(id) => CallOfRecordRequest(id, CustomerRequest("", "", "", ""));
    case CreateCustomer(_) =>
    case Login(_, _) =>
    case Signup(_, _, _) =>
  }

  /** Distinct calls never send the same request: the page and size, and the record id, are never confused. */
  lemma {:induction false} RequestIdentifiesCall(c1: ServiceCall, c2: ServiceCall)
    requires RequestOf(c1) == RequestOf(c2)
    ensures c1 == c2
  {
    CallOfRequestOf(c1);
    CallOfRequestOf(c2);
  }
}
