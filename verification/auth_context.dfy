/**
 * The session manager of src/contexts/AuthContext.tsx: the in-memory token
 * and user, the derived `isAuthenticated`, hydration from session storage,
 * and the login, logout and signup operations. The API calls' settled
 * results and the storage failures are inputs.
 */
module AuthContext {
  import opened Options
  import opened JsValues
  import opened SessionStorage
  import CustomerService

  const TokenKey := "AUTH_TOKEN"
  const UserKey := "AUTH_USER"

  /** The in-memory session; `user` is `Null` when there is none. */
  datatype Session = Session(token: Option<string>, user: JsValue)

  const SignedOut := Session(None, Null)

  /** `Boolean(token)`: a non-empty token; null and "" are both signed out. */
  predicate IsAuthenticated(s: Session) {
    s.token.Some? && |s.token.value| > 0
  }

  /**
   * The mount effect, run on the initial (signed-out) session: a non-empty
   * stored token is taken, with the user decoded from a non-empty stored
   * blob (null when it does not decode); without a token nothing is taken,
   * whatever the user key holds. When storage itself throws nothing is taken.
   */
  function Hydrate(store: Store, json: JsonCodec, storageThrows: bool): (s: Session)
    ensures storageThrows ==> s == SignedOut
    ensures !storageThrows && Lookup(store, TokenKey) in {None, Some("")} ==> s == SignedOut
    ensures IsAuthenticated(s) <==> !storageThrows && Lookup(store, TokenKey).Some? && Lookup(store, TokenKey) != Some("")
    ensures IsAuthenticated(s) ==> s.token == Lookup(store, TokenKey)
    ensures IsAuthenticated(s) && (Lookup(store, UserKey) in {None, Some("")}) ==> s.user == Null
    ensures IsAuthenticated(s) && Lookup(store, UserKey).Some? && Lookup(store, UserKey) != Some("") ==>
      s.user == (match json.parse(Lookup(store, UserKey).value) case Some(v) => v case None => Null)
  {
    if storageThrows then SignedOut
    else
      match Lookup(store, TokenKey)
      case None => SignedOut
      case Some(t) =>
        if |t| == 0 then SignedOut
        else
          var user := match Lookup(store, UserKey)
            case Some(u) =>
              if |u| > 0 then (match json.parse(u) case Some(v) => v case None => Null) else Null
            case None => Null;
          Session(Some(t), user)
  }

  datatype LoginResult = LoginResult(session: Session, store: Store, thrown: Option<JsValue>)

  /** The storage calls of a successful login, up to any that throws (`JSON.stringify` included). */
  function LoginWrites(resp: CustomerService.LoginResponse, json: JsonCodec): seq<StorageOp> {
    [SetItem(TokenKey, resp.accessToken)]
    + if Truthy(resp.user) then
        match json.stringify(resp.user)
        case Some(blob) => [SetItem(UserKey, blob)]
        case None => []
      else [RemoveItem(UserKey)]
  }

  /**
   * `login`: on success the token and user are set in memory first, then
   * written to storage in one guarded block (the user blob written when
   * there is a user, removed when there is not); a storage failure is
   * swallowed and undoes nothing. On failure memory and storage are
   * untouched and the same error is rethrown.
   */
  function Login(s: Session, store: Store, json: JsonCodec,
                 outcome: Result<CustomerService.LoginResponse, JsValue>, fault: Option<nat>): (r: LoginResult)
    ensures outcome.Err? ==> r == LoginResult(s, store, Some(outcome.error))
    ensures outcome.Ok? ==> r.thrown.None?
    ensures outcome.Ok? ==> r.session == Session(Some(outcome.value.accessToken), Coalesce(outcome.value.user, Null))
    ensures outcome.Ok? && fault.None? ==> Lookup(r.store, TokenKey) == Some(outcome.value.accessToken)
    ensures outcome.Ok? && fault.None? && !Truthy(outcome.value.user) ==> Lookup(r.store, UserKey).None?
    ensures outcome.Ok? && fault.None? && Truthy(outcome.value.user) && json.stringify(outcome.value.user).Some? ==>
      Lookup(r.store, UserKey) == json.stringify(outcome.value.user)
    ensures outcome.Ok? && fault == Some(0) ==> r.store == store
    ensures outcome.Ok? && (fault == Some(1) || (fault.None? && Truthy(outcome.value.user) && json.stringify(outcome.value.user).None?)) ==>
      Lookup(r.store, TokenKey) == Some(outcome.value.accessToken) && Lookup(r.store, UserKey) == Lookup(store, UserKey)
    ensures forall k :: k != TokenKey && k != UserKey ==> Lookup(r.store, k) == Lookup(store, k)
  {
    match outcome
    case Err(e) => LoginResult(s, store, Some(e))
    case Ok(resp) =>
      var session := Session(Some(resp.accessToken), Coalesce(resp.user, Null));
      var ops := LoginWrites(resp, json);
      assert forall k :: k != TokenKey && k != UserKey ==> Untouched(ops, k);
      assert forall n :: 0 <= n <= |ops| ==> forall k :: k != TokenKey && k != UserKey ==> Untouched(ops[..n], k);
      assert |ops| >= 1 && ops[..1] == [SetItem(TokenKey, resp.accessToken)];
      LoginResult(session, RunGuarded(store, ops, fault), None)
  }

  datatype LogoutResult = LogoutResult(session: Session, store: Store)

  /**
   * `logout`: removes the token key and then the user key in one guarded
   * block (a failure on the first skips the second), then clears the
   * session. It never throws.
   */
  function Logout(s: Session, store: Store, fault: Option<nat>): (r: LogoutResult)
    ensures r.session == SignedOut
    ensures fault.None? ==> Lookup(r.store, TokenKey).None? && Lookup(r.store, UserKey).None?
    ensures fault == Some(0) ==> r.store == store
    ensures fault == Some(1) ==> Lookup(r.store, TokenKey).None? && Lookup(r.store, UserKey) == Lookup(store, UserKey)
    ensures forall k :: k != TokenKey && k != UserKey ==> Lookup(r.store, k) == Lookup(store, k)
  {
    var ops := [RemoveItem(TokenKey), RemoveItem(UserKey)];
    assert ops[..1] == [RemoveItem(TokenKey)];
    assert forall k :: k != TokenKey && k != UserKey ==> Untouched(ops, k) && Untouched(ops[..1], k) && Untouched(ops[..0], k);
    assert Untouched(ops[..1], UserKey);
    LogoutResult(SignedOut, RunGuarded(store, ops, fault))
  }

  datatype SignupResult = SignupResult(session: Session, thrown: Option<JsValue>)

  /** `signup`: pure delegation; the session is never touched and a failure is rethrown unchanged. */
  function Signup(s: Session, outcome: Result<JsValue, JsValue>): (r: SignupResult)
    ensures r.session == s
    ensures r.thrown.Some? <==> outcome.Err?
    ensures outcome.Err? ==> r.thrown == Some(outcome.error)
  {
    match outcome
    case Ok(_) => SignupResult(s, None)
    case Err(e) => SignupResult(s, Some(e))
  }

  /** Logging out twice is logging out once, in memory and in storage. */
  lemma LogoutIdempotent(s: Session, store: Store)
    ensures var once := Logout(s, store, None);
      Logout(once.session, once.store, None) == once
  {
    var once := Logout(s, store, None);
    var twice := Logout(once.session, once.store, None);
    forall k
      ensures k in twice.store <==> k in once.store
      ensures k in twice.store ==> twice.store[k] == once.store[k]
    {
      assert Lookup(twice.store, k) == Lookup(once.store, k);
    }
    assert twice.store == once.store;
  }

  /**
   * A login that persisted completely survives a reload: hydrating the
   * written storage gives the same authentication verdict and the same
   * token, and the same user when the user is truthy and its JSON text
   * decodes back to it; a falsy user comes back as null.
   */
  lemma LoginThenHydrate(s: Session, store: Store, json: JsonCodec, resp: CustomerService.LoginResponse)
    requires Truthy(resp.user) ==>
      json.stringify(resp.user).Some? && |json.stringify(resp.user).value| > 0
      && json.parse(json.stringify(resp.user).value) == Some(resp.user)
    ensures var r := Login(s, store, json, Ok(resp), None);
      var h := Hydrate(r.store, json, false);
      && (IsAuthenticated(h) <==> IsAuthenticated(r.session))
      && (IsAuthenticated(h) ==> h.token == r.session.token)
      && (IsAuthenticated(h) && Truthy(resp.user) ==> h.user == resp.user)
      && (IsAuthenticated(h) && !Truthy(resp.user) ==> h.user == Null)
  {
  }

  /** The route guard of src/components/ProtectedRoute.tsx: render the children, or redirect to /login. */
  datatype GuardDecision = RenderChildren | RedirectToLogin

  function Guard(s: Session): (d: GuardDecision)
    ensures d == RenderChildren <==> IsAuthenticated(s)
  {
    if IsAuthenticated(s) then RenderChildren else RedirectToLogin
  }

  /**
   * `isAuthenticated` after a login: a resolved login authenticates exactly
   * when the server returned a non-empty token (an empty one leaves the
   * client signed out although the call succeeded); a rejected one leaves
   * the flag as it was.
   */
  lemma LoginAuthenticates(s: Session, store: Store, json: JsonCodec,
                           outcome: Result<CustomerService.LoginResponse, JsValue>, fault: Option<nat>)
    ensures var r := Login(s, store, json, outcome, fault);
      && (outcome.Ok? ==> (IsAuthenticated(r.session) <==> outcome.value.accessToken != ""))
      && (outcome.Err? ==> (IsAuthenticated(r.session) <==> IsAuthenticated(s)))
      && (outcome.Ok? ==> (Guard(r.session) == RenderChildren <==> outcome.value.accessToken != ""))
  {
  }

  /** After logout the guard redirects, whatever storage did. */
  lemma LogoutLocksGuard(s: Session, store: Store, fault: Option<nat>)
    ensures Guard(Logout(s, store, fault).session) == RedirectToLogin
  {
  }
}
