/**
 * End-to-end properties that cross the API layer, the session manager and
 * the login page: what a user sees when the backend rejects a login.
 */
module Flows {
  import opened Options
  import opened JsValues
  import opened CustomerService
  import SessionStorage
  import AuthContext
  import Validation
  import LoginPage

  /** A login form whose two fields pass validation, so submitting it calls the backend. */
  predicate Submittable(page: LoginPage.LoginState) {
    Validation.ValidateEmployeeId(page.employeeId).None? && Validation.ValidateLoginPassword(page.password).None?
  }

  /**
   * A 401 from the backend leaves the session and storage untouched and
   * shows the fixed credentials message, whatever the response body says.
   */
  lemma {:induction false} UnauthorizedLoginShowsFixedMessage(
    page: LoginPage.LoginState, session: AuthContext.Session, store: SessionStorage.Store,
    json: JsonCodec, thrown: JsValue, fault: Option<nat>)
    ensures var auth := AuthContext.Login(session, store, json, Err(ApiErrorValue(NormalizeError(thrown, json))), fault);
      && auth.session == session && auth.store == store && auth.thrown.Some?
      && (Submittable(page) && IsAxiosLike(thrown) && Truthy(Get(thrown, "response"))
          && Get(Get(thrown, "response"), "status") == Num(401) ==>
            LoginPage.Submit(page, Err(auth.thrown.value)).state.apiError == Some(LoginPage.InvalidCredentials))
  {
    var e := NormalizeError(thrown, json);
    if IsAxiosLike(thrown) && Truthy(Get(thrown, "response")) {
      assert e.status == Get(Get(thrown, "response"), "status");
      assert Get(ApiErrorValue(e), "status") == e.status;
    }
  }

  /**
   * A request that never got a response shows the transport's own message
   * behind the login-failure prefix.
   */
  lemma {:induction false} NetworkFailureShowsItsMessage(
    page: LoginPage.LoginState, session: AuthContext.Session, store: SessionStorage.Store,
    json: JsonCodec, thrown: JsValue, fault: Option<nat>, m: string)
    ensures var auth := AuthContext.Login(session, store, json, Err(ApiErrorValue(NormalizeError(thrown, json))), fault);
      && auth.session == session && auth.thrown.Some?
      && (Submittable(page) && IsAxiosLike(thrown) && !Truthy(Get(thrown, "response"))
          && Get(thrown, "message") == Str(m) && m != "" ==>
            LoginPage.Submit(page, Err(auth.thrown.value)).state.apiError == Some(LoginPage.LoginFailedPrefix + m))
  {
    var e := NormalizeError(thrown, json);
    if IsAxiosLike(thrown) && !Truthy(Get(thrown, "response")) && Get(thrown, "message") == Str(m) && m != "" {
      assert e == ApiError(m, Undefined, Undefined);
      assert Get(ApiErrorValue(e), "message") == Str(m);
    }
  }
}
