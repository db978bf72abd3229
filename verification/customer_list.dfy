/**
 * The paginated list controller of src/components/CustomerList.tsx as a
 * reducer. Each run of the load effect is numbered, and the runs whose
 * fetch has not settled yet are kept in `pending`; a settlement tagged with
 * a run other than the latest is one whose `mounted` flag the effect
 * cleanup has already cleared. A transition yields the new state and the
 * fetch it starts, if any.
 */
module CustomerList {
  import opened Options
  import opened JsValues
  import opened CustomerService

  const DefaultPageSize := 10
  const FetchFailedMessage := "Failed to fetch customers"

  datatype ListState = ListState(
    customers: seq<Customer>,
    currentPage: int,
    pageSize: int,
    totalPages: int,
    totalCount: int,
    isLoading: bool,
    error: Option<string>,
    run: nat,
    pending: set<nat>)

  /** The request one run of the load effect sends, tagged with that run. */
  datatype FetchRequest = FetchRequest(run: nat, page: int, pageSize: int)

  datatype Transition = Transition(state: ListState, fetch: Option<FetchRequest>)

  datatype FetchOutcome = Fetched(response: PageResponse) | FetchFailed(thrown: JsValue)

  /** What the user can do: pick a page in the pagination widget, or pick a size in the select. */
  datatype UserEvent = PageChanged(page: int) | PageSizeSelected(value: string)

  /**
   * What the controller reacts to: a user event, the settlement of one run's
   * fetch, or a re-run of the load effect with unchanged page and size (its
   * cleanup, then a new run on the same state), as React's development mode
   * does by invoking a mount effect twice.
   */
  datatype ListEvent =
    | User(action: UserEvent)
    | FetchSettled(run: nat, outcome: FetchOutcome)
    | EffectRerun

  /** The state before the first render's effect: page 1 of size 10, nothing loaded, no error. */
  function Initial(): (s: ListState)
    ensures s.currentPage == 1 && s.pageSize == 10 && s.totalPages == 1 && s.totalCount == 0
    ensures s.customers == [] && !s.isLoading && s.error.None? && s.pending == {}
  {
    ListState([], 1, DefaultPageSize, 1, 0, false, None, 0, {})
  }

  /**
   * `t` is a run of the load effect for `page` and `size`, started from `s`:
   * loading on, error cleared, a newer run that is now outstanding, a fetch
   * of exactly that page and size, and the records and totals kept.
   */
  predicate LoadStarted(s: ListState, t: Transition, page: int, size: int) {
    && t.fetch == Some(FetchRequest(t.state.run, page, size))
    && t.state.currentPage == page && t.state.pageSize == size
    && t.state.isLoading && t.state.error.None?
    && t.state.run > s.run && t.state.pending == s.pending + {t.state.run}
    && t.state.customers == s.customers
    && t.state.totalPages == s.totalPages && t.state.totalCount == s.totalCount
  }

  /** A run of the load effect on the current page and size. */
  function StartLoad(s: ListState): (t: Transition)
    ensures LoadStarted(s, t, s.currentPage, s.pageSize)
  {
    var next := s.(isLoading := true, error := None, run := s.run + 1, pending := s.pending + {s.run + 1});
    Transition(next, Some(FetchRequest(next.run, next.currentPage, next.pageSize)))
  }

  /** Mounting runs the effect once on the initial state. */
  function Mount(): (t: Transition)
    ensures t.fetch == Some(FetchRequest(t.state.run, 1, 10))
    ensures t.state.isLoading && t.state.error.None? && t.state.pending == {t.state.run}
  {
    StartLoad(Initial())
  }

  /** A state update re-runs the effect iff it changed the page or the page size. */
  function Commit(before: ListState, after: ListState): (t: Transition)
    ensures (after.currentPage, after.pageSize) == (before.currentPage, before.pageSize) ==> t == Transition(after, None)
    ensures (after.currentPage, after.pageSize) != (before.currentPage, before.pageSize) ==>
      LoadStarted(after, t, after.currentPage, after.pageSize)
  {
    if after.currentPage == before.currentPage && after.pageSize == before.pageSize then Transition(after, None)
    else StartLoad(after)
  }

  /** `handlePageChange`: the requested page is taken as is, with no clamping. */
  function PageChange(s: ListState, page: int): (t: Transition)
    ensures t.state.currentPage == page && t.state.pageSize == s.pageSize
    ensures t.fetch.Some? <==> page != s.currentPage
    ensures t.fetch.None? ==> t.state == s
    ensures page != s.currentPage ==> LoadStarted(s, t, page, s.pageSize)
  {
    Commit(s, s.(currentPage := page))
  }

  /** `Number(value) || 10`: the selected size, or 10 when it reads as 0 or NaN. */
  function SelectedPageSize(value: string): (n: int)
    ensures n != 0
    ensures ToNumber(value) == Num(n) || n == DefaultPageSize
    ensures forall k :: ToNumber(value) == Num(k) && k != 0 ==> n == k
  {
    var v := ToNumber(value);
    if Truthy(v) then v.n else DefaultPageSize
  }

  /** `handlePageSizeChange`: the new size, and back to page 1 whatever the page was. */
  function PageSizeChange(s: ListState, value: string): (t: Transition)
    ensures t.state.pageSize == SelectedPageSize(value) && t.state.currentPage == 1
    ensures t.fetch.Some? <==> (1, SelectedPageSize(value)) != (s.currentPage, s.pageSize)
    ensures t.fetch.None? ==> t.state == s
    ensures t.fetch.Some? ==> LoadStarted(s, t, 1, SelectedPageSize(value))
  {
    Commit(s, s.(pageSize := SelectedPageSize(value), currentPage := 1))
  }

  /** The message a failed load shows: the error's message, or the generic text. */
  function LoadErrorMessage(thrown: JsValue): (m: string)
    ensures |m| > 0
    ensures !Truthy(Get(thrown, "message")) ==> m == FetchFailedMessage
    ensures IsNonEmptyString(Get(thrown, "message")) ==> m == Get(thrown, "message").s
  {
    MessageOr(thrown, FetchFailedMessage)
  }

  /** A successful load: the page exactly as returned, with the documented defaults. */
  function Loaded(s: ListState, resp: PageResponse): (r: ListState)
    ensures r.customers == (if resp.customers.Some? then resp.customers.value else [])
    ensures r.totalPages == (if resp.totalPages.Some? then resp.totalPages.value else 1)
    ensures r.totalCount == (if resp.totalCount.Some? then resp.totalCount.value else 0)
    ensures resp.customers.Some? ==> |r.customers| == |resp.customers.value|
    ensures !r.isLoading && r.error == s.error
    ensures r.currentPage == s.currentPage && r.pageSize == s.pageSize && r.run == s.run && r.pending == s.pending
  {
    var customers := match resp.customers case Some(c) => c case None => [];
    var totalPages := match resp.totalPages case Some(n) => n case None => 1;
    var totalCount := match resp.totalCount case Some(n) => n case None => 0;
    s.(customers := customers, totalPages := totalPages, totalCount := totalCount, isLoading := false)
  }

  /**
   * A load's settlement as the source writes it: a success is applied only
   * for the latest run, but the catch branch resets the page and sets the
   * error for any run; only clearing `isLoading` is guarded in both cases.
   */
  function ResolveAsWritten(s: ListState, run: nat, outcome: FetchOutcome): (r: ListState)
    ensures (r.currentPage, r.pageSize, r.run, r.pending) == (s.currentPage, s.pageSize, s.run, s.pending)
    ensures outcome.Fetched? && run == s.run ==> r == Loaded(s, outcome.response)
    ensures outcome.Fetched? && run != s.run ==> r == s
    ensures outcome.FetchFailed? ==>
      && r.error == Some(LoadErrorMessage(outcome.thrown))
      && r.customers == [] && r.totalPages == 1 && r.totalCount == 0
      && r.isLoading == (s.isLoading && run != s.run)
  {
    var current := run == s.run;
    match outcome
    case Fetched(resp) => if current then Loaded(s, resp) else s
    case FetchFailed(thrown) =>
      var failed := s.(error := Some(LoadErrorMessage(thrown)), customers := [], totalPages := 1, totalCount := 0);
      if current then failed.(isLoading := false) else failed
  }

  /**
   * A load's settlement with the stale-request guard applied to both
   * branches: anything tagged with an earlier run changes nothing.
   */
  function Resolve(s: ListState, run: nat, outcome: FetchOutcome): (r: ListState)
    ensures (r.currentPage, r.pageSize, r.run, r.pending) == (s.currentPage, s.pageSize, s.run, s.pending)
    ensures run != s.run ==> r == s
    ensures run == s.run ==> !r.isLoading
    ensures run == s.run && outcome.Fetched? ==> r == Loaded(s, outcome.response)
    ensures run == s.run && outcome.FetchFailed? ==>
      && r.error == Some(LoadErrorMessage(outcome.thrown))
      && r.customers == [] && r.totalPages == 1 && r.totalCount == 0
  {
    if run != s.run then s else ResolveAsWritten(s, run, outcome)
  }

  /**
   * A user event. While loading, the page-size select and the pagination
   * widget are disabled, so the event is dropped; otherwise it either
   * changes nothing or starts a load.
   */
  function Act(s: ListState, u: UserEvent): (t: Transition)
    ensures s.isLoading ==> t == Transition(s, None)
    ensures t.fetch.None? ==> t.state == s
    ensures t.fetch.Some? ==> !s.isLoading && t.state.isLoading && t.state.error.None? && t.state.pending == s.pending + {t.state.run}
    ensures !s.isLoading && u.PageChanged? ==> t.state.currentPage == u.page && t.state.pageSize == s.pageSize
    ensures !s.isLoading && u.PageSizeSelected? ==> t.state.currentPage == 1 && t.state.pageSize == SelectedPageSize(u.value)
  {
    if s.isLoading then Transition(s, None)
    else
      match u
      case PageChanged(page) => PageChange(s, page)
      case PageSizeSelected(value) => PageSizeChange(s, value)
  }

  /**
   * The controller as the source writes it. A fetch settles once: a
   * settlement of a run that is not outstanding is not an event the
   * program can receive, and changes nothing.
   */
  function StepAsWritten(s: ListState, e: ListEvent): (t: Transition)
    ensures e.User? ==> t == Act(s, e.action)
    ensures e.EffectRerun? ==> LoadStarted(s, t, s.currentPage, s.pageSize)
    ensures e.FetchSettled? ==> t.fetch.None? && t.state.pending == s.pending - {e.run}
    ensures e.FetchSettled? && e.run !in s.pending ==> t.state == s
    ensures e.FetchSettled? && e.run in s.pending ==> t.state == ResolveAsWritten(s, e.run, e.outcome).(pending := s.pending - {e.run})
  {
    match e
    case User(u) => Act(s, u)
    case EffectRerun => StartLoad(s)
    case FetchSettled(run, outcome) =>
      if run in s.pending then Transition(ResolveAsWritten(s, run, outcome).(pending := s.pending - {run}), None)
      else Transition(s, None)
  }

  /** The corrected controller: the same, with every stale settlement discarded. */
  function Step(s: ListState, e: ListEvent): (t: Transition)
    ensures e.User? ==> t == Act(s, e.action)
    ensures e.EffectRerun? ==> LoadStarted(s, t, s.currentPage, s.pageSize)
    ensures e.FetchSettled? ==> t.fetch.None? && t.state.pending == s.pending - {e.run}
    ensures e.FetchSettled? && e.run != s.run ==> t.state == s.(pending := s.pending - {e.run})
    ensures e.FetchSettled? && e.run == s.run && e.run in s.pending ==>
      t.state == Resolve(s, e.run, e.outcome).(pending := s.pending - {e.run})
  {
    match e
    case User(u) => Act(s, u)
    case EffectRerun => StartLoad(s)
    case FetchSettled(run, outcome) =>
      if run in s.pending then Transition(Resolve(s, run, outcome).(pending := s.pending - {run}), None)
      else Transition(s, None)
  }

  /** The state the source reaches after mounting and then handling `events` in order. */
  function ReplayAsWritten(events: seq<ListEvent>): ListState
    decreases |events|
  {
    if |events| == 0 then Mount().state
    else StepAsWritten(ReplayAsWritten(events[..|events| - 1]), events[|events| - 1]).state
  }

  /** The state the corrected controller reaches after mounting and then handling `events` in order. */
  function Replay(events: seq<ListEvent>): ListState
    decreases |events|
  {
    if |events| == 0 then Mount().state else Step(Replay(events[..|events| - 1]), events[|events| - 1]).state
  }

  /** `{isLoading ? … : null}`. */
  predicate ShowsLoading(s: ListState) { s.isLoading }

  /** `{error ? <div role="alert"> : null}`: a non-empty error string. */
  predicate ShowsAlert(s: ListState) { s.error.Some? && |s.error.value| > 0 }

  /** `{!isLoading && !error ? <table> : null}`. */
  predicate ShowsTable(s: ListState) { !s.isLoading && !ShowsAlert(s) }

  /**
   * What holds at every point of the controller's life: an error is never
   * the empty string, is never shown while loading, and the page size is
   * never 0.
   */
  ghost predicate Valid(s: ListState) {
    && (s.error.Some? ==> |s.error.value| > 0)
    && !(s.isLoading && s.error.Some?)
    && s.pageSize != 0
  }

  /**
   * The run bookkeeping: every outstanding run has been started, and the
   * list is loading exactly while the latest run is outstanding.
   */
  ghost predicate Tracked(s: ListState) {
    && (forall r :: r in s.pending ==> 1 <= r <= s.run)
    && (s.isLoading <==> s.run in s.pending)
  }

  /** No run other than the latest is outstanding. */
  ghost predicate NoStaleRun(s: ListState) {
    forall r :: r in s.pending ==> r == s.run
  }

  /** In a valid state exactly one of the loading line, the alert and the table is on screen. */
  lemma OneRegionShown(s: ListState)
    requires Valid(s)
    ensures ShowsAlert(s) <==> s.error.Some?
    ensures ShowsTable(s) <==> !s.isLoading && s.error.None?
    ensures ShowsLoading(s) ==> !ShowsAlert(s) && !ShowsTable(s)
    ensures ShowsAlert(s) ==> !ShowsLoading(s) && !ShowsTable(s)
    ensures ShowsLoading(s) || ShowsAlert(s) || ShowsTable(s)
  {
  }

  lemma StepPreservesValid(s: ListState, e: ListEvent)
    requires Valid(s)
    ensures Valid(Step(s, e).state)
  {
  }

  lemma StepTracksRuns(s: ListState, e: ListEvent)
    requires Tracked(s)
    ensures Tracked(Step(s, e).state)
  {
  }

  lemma StepAsWrittenTracksRuns(s: ListState, e: ListEvent)
    requires Tracked(s)
    ensures Tracked(StepAsWritten(s, e).state)
  {
  }

  /**
   * Every state the corrected controller reaches is valid and tracked, so
   * exactly one screen region shows, whatever the order in which fetches
   * settle and however often the effect re-runs.
   */
  lemma {:induction false} ReplayValid(events: seq<ListEvent>)
    ensures Valid(Replay(events)) && Tracked(Replay(events))
    ensures ShowsAlert(Replay(events)) <==> Replay(events).error.Some?
    ensures ShowsTable(Replay(events)) <==> !Replay(events).isLoading && Replay(events).error.None?
    decreases |events|
  {
    if |events| > 0 {
      var before := Replay(events[..|events| - 1]);
      ReplayValid(events[..|events| - 1]);
      StepPreservesValid(before, events[|events| - 1]);
      StepTracksRuns(before, events[|events| - 1]);
    }
    OneRegionShown(Replay(events));
  }

  /** The source, too, is loading exactly while its latest run is outstanding, in every history. */
  lemma {:induction false} ReplayAsWrittenTracksRuns(events: seq<ListEvent>)
    ensures Tracked(ReplayAsWritten(events))
    decreases |events|
  {
    if |events| > 0 {
      ReplayAsWrittenTracksRuns(events[..|events| - 1]);
      StepAsWrittenTracksRuns(ReplayAsWritten(events[..|events| - 1]), events[|events| - 1]);
    }
  }

  /**
   * From a tracked state with no stale run, and for any event but an effect
   * re-run, the source and the corrected controller take the same step and
   * no stale run appears: the disabled controls let a new run start only
   * after the latest one has settled.
   */
  lemma StepsAgreeWithoutRerun(s: ListState, e: ListEvent)
    requires Tracked(s) && NoStaleRun(s) && !e.EffectRerun?
    ensures StepAsWritten(s, e) == Step(s, e)
    ensures Tracked(Step(s, e).state) && NoStaleRun(Step(s, e).state)
  {
    StepTracksRuns(s, e);
  }

  /**
   * As long as the load effect is not re-run, the source behaves exactly
   * like the corrected controller, so every state it reaches is valid: the
   * missing guard in the catch branch needs a re-run of the effect to show.
   */
  lemma {:induction false} ReplaysAgreeWithoutRerun(events: seq<ListEvent>)
    requires forall i :: 0 <= i < |events| ==> !events[i].EffectRerun?
    ensures ReplayAsWritten(events) == Replay(events)
    ensures NoStaleRun(Replay(events))
    ensures Valid(ReplayAsWritten(events))
    decreases |events|
  {
    if |events| > 0 {
      var prefix := events[..|events| - 1];
      var last := events[|events| - 1];
      assert forall i :: 0 <= i < |prefix| ==> prefix[i] == events[i];
      ReplaysAgreeWithoutRerun(prefix);
      ReplayValid(prefix);
      StepsAgreeWithoutRerun(Replay(prefix), last);
    }
    ReplayValid(events);
  }

  /**
   * The guard the catch branch lacks, on a history the source can receive:
   * the mount effect runs twice (runs 1 and 2, both fetching page 1); run 1
   * fails first, while run 2 is still loading, and then run 2 succeeds. The
   * stale failure puts the alert next to the loading line, and the error it
   * set survives the fresh success, so the table stays hidden although the
   * latest load succeeded.
   */
  lemma StaleFailureHidesFreshPage(resp: PageResponse, thrown: JsValue)
    requires resp.customers.Some?
    ensures var s1 := Mount().state;
      var s2 := StepAsWritten(s1, EffectRerun).state;
      var s3 := StepAsWritten(s2, FetchSettled(1, FetchFailed(thrown))).state;
      var s4 := StepAsWritten(s3, FetchSettled(2, Fetched(resp))).state;
      && s2.pending == {1, 2}
      && ShowsLoading(s3) && ShowsAlert(s3) && !Valid(s3)
      && s4.pending == {} && s4.customers == resp.customers.value
      && ShowsAlert(s4) && !ShowsTable(s4)
  {
  }

  /**
   * The other order on the same history: run 2 loads its page and then run
   * 1's failure arrives, empties that page and hides the table.
   */
  lemma StaleFailureWipesFreshPage(resp: PageResponse, thrown: JsValue)
    requires resp.customers.Some?
    ensures var s1 := Mount().state;
      var s2 := StepAsWritten(s1, EffectRerun).state;
      var s3 := StepAsWritten(s2, FetchSettled(2, Fetched(resp))).state;
      var s4 := StepAsWritten(s3, FetchSettled(1, FetchFailed(thrown))).state;
      && s3.customers == resp.customers.value && ShowsTable(s3)
      && s4.pending == {} && s4.customers == [] && !ShowsTable(s4) && ShowsAlert(s4)
  {
  }

  /** With the guard, both orders end with the latest page on screen and no alert. */
  lemma GuardedStaleFailureKeepsFreshPage(resp: PageResponse, thrown: JsValue)
    requires resp.customers.Some?
    ensures var s1 := Mount().state;
      var s2 := Step(s1, EffectRerun).state;
      var failedFirst := Step(Step(s2, FetchSettled(1, FetchFailed(thrown))).state, FetchSettled(2, Fetched(resp))).state;
      var loadedFirst := Step(Step(s2, FetchSettled(2, Fetched(resp))).state, FetchSettled(1, FetchFailed(thrown))).state;
      && failedFirst == loadedFirst
      && failedFirst.customers == resp.customers.value && ShowsTable(failedFirst) && !ShowsAlert(failedFirst)
  {
  }

  /** The select's options read back as their own sizes. */
  lemma PageSizeOptionsReadBack(s: ListState, size: int)
    requires size == 5 || size == 10 || size == 20
    ensures PageSizeChange(s, Text.DecimalString(size)).state.pageSize == size
    ensures PageSizeChange(s, Text.DecimalString(size)).state.currentPage == 1
  {
  }
}
