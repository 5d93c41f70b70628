/**
 * The state of the posts view: the search box and its debounce timer, the page
 * selector, and the loading / error / data cells of the fetch hook, driven by
 * discrete events (an edit, the timer elapsing, a page click, a fetch settling,
 * the view being torn down).
 *
 * There is no guard against out-of-order responses: every fetch that settles
 * writes its own result, whichever request is the most recent.
 */
module PostsView {
  import opened Wrappers
  import opened Strings
  import opened Posts

  /** The page and the debounced term one run of the fetch effect captured. */
  datatype Request = Request(page: int, term: string)

  /** How a fetch ended: the server answered with a status (and a body), or something threw. */
  datatype Outcome = Responded(status: nat, body: seq<Post>) | Threw(message: string)

  /** `response.ok`: a status in the range 200-299. */
  predicate IsOkStatus(status: nat) {
    200 <= status <= 299
  }

  /** The message of the error thrown for a non-ok response. */
  function HttpErrorMessage(status: nat): (m: string)
    ensures |m| > 20 && m[..20] == "HTTP error! status: "
    ensures forall i :: 20 <= i < |m| ==> IsDigit(m[i])
    ensures m[20] == '0' ==> m == "HTTP error! status: 0"
  {
    "HTTP error! status: " + DecimalString(status)
  }

  /** The status can be read back from the message. */
  lemma HttpErrorMessageStatus(status: nat)
    ensures ParseDecimal(HttpErrorMessage(status)[20..]) == status
  {
    assert HttpErrorMessage(status)[20..] == DecimalString(status);
    DecimalRoundTrip(status);
  }

  datatype ViewState = ViewState(
    mounted: bool,
    // the view component
    searchTerm: string,
    debouncedSearchTerm: string,
    currentPage: int,
    pendingTimer: Option<string>,  // the value the armed debounce timer will emit
    // the fetch hook
    effectDeps: Request,           // what the fetch effect last ran for
    inFlight: seq<Request>,        // fetches started and not yet settled
    data: seq<Post>,
    loading: bool,
    error: Option<string>,
    totalCount: nat)

  datatype Event =
    | Typed(value: string)
    | ClearClicked
    | TimerElapsed
    | Unmounted
    | PageClicked(page: int)
    | FetchSettled(index: nat, outcome: Outcome)

  /** After mounting: both effects have run once, so a timer for '' is armed and a fetch of page 1 is in flight. */
  function Init(): (r: ViewState)
    ensures r.mounted && r.currentPage == 1 && r.searchTerm == r.debouncedSearchTerm == ""
    ensures r.pendingTimer == Some(r.searchTerm)
    ensures r.effectDeps == Request(r.currentPage, r.debouncedSearchTerm) && r.inFlight == [r.effectDeps]
    ensures r.loading && r.data == [] && r.totalCount == 0 && r.error == None
  {
    ViewState(true, "", "", 1, Some(""), Request(1, ""), [Request(1, "")], [], true, None, 0)
  }

  // ---------------------------------------------------------------------------
  // Transitions
  // ---------------------------------------------------------------------------

  /** The fetch effect runs again only when the page or the debounced term differs from its last run. */
  function RunFetchEffect(s: ViewState): (t: ViewState)
    ensures t.effectDeps == Request(s.currentPage, s.debouncedSearchTerm)
    ensures s.effectDeps == t.effectDeps ==> t == s
    ensures s.effectDeps != t.effectDeps ==> t.loading && t.error == None && t.inFlight == s.inFlight + [t.effectDeps]
    ensures s.effectDeps != t.effectDeps ==>
      t == s.(effectDeps := t.effectDeps, inFlight := t.inFlight, loading := true, error := None)
  {
    var req := Request(s.currentPage, s.debouncedSearchTerm);
    if req == s.effectDeps then s
    else s.(effectDeps := req, inFlight := s.inFlight + [req], loading := true, error := None)
  }

  /** Editing the search box: a new value cancels the pending timer and arms one for itself. */
  function OnEdit(s: ViewState, v: string): (r: ViewState)
    ensures r == s.(searchTerm := r.searchTerm, pendingTimer := r.pendingTimer)
    ensures s.mounted ==> r.searchTerm == v
    ensures !s.mounted || v == s.searchTerm ==> r == s
    ensures s.mounted && v != s.searchTerm ==> r.pendingTimer == Some(v)
  {
    if !s.mounted || v == s.searchTerm then s
    else s.(searchTerm := v, pendingTimer := Some(v))
  }

  /** The "Clear Search" button sets the search box to ''. */
  function OnClearSearch(s: ViewState): (r: ViewState)
    ensures r == s.(searchTerm := r.searchTerm, pendingTimer := r.pendingTimer)
    ensures s.mounted ==> r.searchTerm == ""
    ensures s.mounted && s.searchTerm != "" ==> r.pendingTimer == Some("")
    ensures !s.mounted || s.searchTerm == "" ==> r == s
  {
    OnEdit(s, "")
  }

  /** The debounce timer elapses: its value becomes the debounced term and the page goes back to 1. */
  function OnTimerElapsed(s: ViewState): (r: ViewState)
    ensures s.pendingTimer.None? ==> r == s
    ensures s.pendingTimer.Some? ==>
      r.debouncedSearchTerm == s.pendingTimer.value && r.currentPage == 1 && r.pendingTimer.None?
      && r.effectDeps == Request(1, s.pendingTimer.value)
      && r.mounted == s.mounted && r.searchTerm == s.searchTerm
      && r.data == s.data && r.totalCount == s.totalCount
  {
    match s.pendingTimer
    case None => s
    case Some(v) => RunFetchEffect(s.(debouncedSearchTerm := v, currentPage := 1, pendingTimer := None))
  }

  /** Tearing the view down clears the pending timer. */
  function OnUnmount(s: ViewState): (r: ViewState)
    ensures !r.mounted && r.pendingTimer.None?
    ensures r.(mounted := s.mounted, pendingTimer := s.pendingTimer) == s
  {
    s.(mounted := false, pendingTimer := None)
  }

  /** `handlePageChange`: only pages 1 .. totalPages are accepted. */
  predicate PageAccepted(s: ViewState, page: int) {
    1 <= page <= TotalPages(s.totalCount)
  }

  function OnPageChange(s: ViewState, page: int): (r: ViewState)
    ensures !(s.mounted && 1 <= page <= TotalPages(s.totalCount)) ==> r == s
    ensures s.mounted && 1 <= page <= TotalPages(s.totalCount) ==>
      r.currentPage == page && r.effectDeps == Request(page, s.debouncedSearchTerm)
      && r.mounted == s.mounted && r.searchTerm == s.searchTerm && r.debouncedSearchTerm == s.debouncedSearchTerm
      && r.pendingTimer == s.pendingTimer && r.data == s.data && r.totalCount == s.totalCount
  {
    if s.mounted && PageAccepted(s, page) then RunFetchEffect(s.(currentPage := page)) else s
  }

  function RemoveAt<T>(xs: seq<T>, i: nat): (r: seq<T>)
    requires i < |xs|
    ensures |r| == |xs| - 1
  {
    xs[..i] + xs[i + 1..]
  }

  /** The try / catch / finally of one fetch, for the request that captured `req`. */
  function Settle(s: ViewState, req: Request, o: Outcome): (t: ViewState)
    ensures !t.loading
    ensures t.mounted == s.mounted && t.inFlight == s.inFlight && t.effectDeps == s.effectDeps
    ensures t.searchTerm == s.searchTerm && t.debouncedSearchTerm == s.debouncedSearchTerm
    ensures t.currentPage == s.currentPage && t.pendingTimer == s.pendingTimer
  {
    match o
    case Responded(status, body) =>
      if IsOkStatus(status) then
        var filtered := FilterPosts(body, req.term);
        s.(totalCount := |filtered|, data := PageSlice(filtered, req.page), loading := false)
      else
        s.(error := Some(HttpErrorMessage(status)), loading := false)
    case Threw(message) =>
      s.(error := Some(message), loading := false)
  }

  /** The fetch at position `i` among those in flight settles; after teardown its state updates are dropped. */
  function OnFetchSettled(s: ViewState, i: nat, o: Outcome): (r: ViewState)
    ensures i >= |s.inFlight| ==> r == s
    ensures i < |s.inFlight| ==> r.inFlight == s.inFlight[..i] + s.inFlight[i + 1..]
    ensures i < |s.inFlight| && !s.mounted ==> r == s.(inFlight := r.inFlight)
    ensures i < |s.inFlight| && s.mounted ==> !r.loading
    ensures r.mounted == s.mounted && r.searchTerm == s.searchTerm && r.pendingTimer == s.pendingTimer
    ensures r.debouncedSearchTerm == s.debouncedSearchTerm && r.currentPage == s.currentPage
    ensures r.effectDeps == s.effectDeps
  {
    if i >= |s.inFlight| then s
    else
      var t := s.(inFlight := RemoveAt(s.inFlight, i));
      if s.mounted then Settle(t, s.inFlight[i], o) else t
  }

  function Step(s: ViewState, e: Event): ViewState {
    match e
    case Typed(v) => OnEdit(s, v)
    case ClearClicked => OnClearSearch(s)
    case TimerElapsed => OnTimerElapsed(s)
    case Unmounted => OnUnmount(s)
    case PageClicked(p) => OnPageChange(s, p)
    case FetchSettled(i, o) => OnFetchSettled(s, i, o)
  }

  function Run(s: ViewState, es: seq<Event>): ViewState
    decreases |es|
  {
    if es == [] then s else Run(Step(s, es[0]), es[1..])
  }

  // ---------------------------------------------------------------------------
  // Invariant
  // ---------------------------------------------------------------------------

  ghost predicate Inv(s: ViewState) {
    && s.currentPage >= 1
    // the armed timer always carries the latest value of the search box
    && (s.pendingTimer.Some? ==> s.pendingTimer.value == s.searchTerm)
    && (!s.mounted ==> s.pendingTimer.None?)
    // the fetch effect has run for the current page and term
    && s.effectDeps == Request(s.currentPage, s.debouncedSearchTerm)
    && (forall k :: 0 <= k < |s.inFlight| ==> s.inFlight[k].page >= 1)
    // while loading, the latest request is still in flight and no error is set
    && (s.loading ==> s.error.None?)
    && (s.mounted && s.loading ==> |s.inFlight| > 0 && s.inFlight[|s.inFlight| - 1] == s.effectDeps)
    && |s.data| <= PageSize
  }

  lemma InitInv()
    ensures Inv(Init())
  {
  }

  lemma StepPreservesInv(s: ViewState, e: Event)
    requires Inv(s)
    ensures Inv(Step(s, e))
  {
    match e
    case Typed(v) => EditPreservesInv(s, v);
    case ClearClicked => EditPreservesInv(s, "");
    case TimerElapsed => TimerPreservesInv(s);
    case Unmounted =>
    case PageClicked(p) => PageChangePreservesInv(s, p);
    case FetchSettled(i, o) => SettlePreservesInv(s, i, o);
  }

  lemma EditPreservesInv(s: ViewState, v: string)
    requires Inv(s)
    ensures Inv(OnEdit(s, v))
  {
  }

  lemma TimerPreservesInv(s: ViewState)
    requires Inv(s)
    ensures Inv(OnTimerElapsed(s))
  {
  }

  lemma PageChangePreservesInv(s: ViewState, page: int)
    requires Inv(s)
    ensures Inv(OnPageChange(s, page))
  {
  }

  lemma SettlePreservesInv(s: ViewState, i: nat, o: Outcome)
    requires Inv(s)
    ensures Inv(OnFetchSettled(s, i, o))
  {
    if i < |s.inFlight| {
      var rest := RemoveAt(s.inFlight, i);
      assert forall k :: 0 <= k < |rest| ==> rest[k] in s.inFlight;
      assert s.inFlight[i] in s.inFlight;
    }
  }

  lemma {:induction false} RunPreservesInv(s: ViewState, es: seq<Event>)
    requires Inv(s)
    ensures Inv(Run(s, es))
    decreases |es|
  {
    if es != [] {
      StepPreservesInv(s, es[0]);
      RunPreservesInv(Step(s, es[0]), es[1..]);
    }
  }

  /** Every state reachable from mounting satisfies the invariant. */
  lemma ReachableInv(es: seq<Event>)
    ensures Inv(Run(Init(), es))
  {
    InitInv();
    RunPreservesInv(Init(), es);
  }

  // ---------------------------------------------------------------------------
  // Debounce
  // ---------------------------------------------------------------------------

  function Edits(vs: seq<string>): (es: seq<Event>)
    ensures |es| == |vs| && forall k :: 0 <= k < |vs| ==> es[k] == Typed(vs[k])
  {
    if vs == [] then [] else [Typed(vs[0])] + Edits(vs[1..])
  }

  /** Every value in `vs` is `v`. */
  predicate AllSame(vs: seq<string>, v: string) {
    forall k :: 0 <= k < |vs| ==> vs[k] == v
  }

  function LastOr(d: string, vs: seq<string>): string {
    if vs == [] then d else vs[|vs| - 1]
  }

  /**
   * A burst of edits only moves the search box and the timer: the timer ends up
   * armed for the last value typed, unless no edit changed anything and none was
   * pending. Nothing is emitted during the burst.
   */
  lemma {:induction false} EditBurst(s: ViewState, vs: seq<string>)
    requires s.mounted && (s.pendingTimer.Some? ==> s.pendingTimer.value == s.searchTerm)
    ensures Run(s, Edits(vs)) == s.(
      searchTerm := LastOr(s.searchTerm, vs),
      pendingTimer := if s.pendingTimer.None? && AllSame(vs, s.searchTerm) then None else Some(LastOr(s.searchTerm, vs)))
  {
    RunEditsIsApplyEdits(s, vs);
    ApplyEditsResult(s, vs);
  }

  /** Applying edits one after the other. */
  function ApplyEdits(s: ViewState, vs: seq<string>): ViewState
    decreases |vs|
  {
    if vs == [] then s else ApplyEdits(OnEdit(s, vs[0]), vs[1..])
  }

  lemma {:induction false} RunEditsIsApplyEdits(s: ViewState, vs: seq<string>)
    ensures Run(s, Edits(vs)) == ApplyEdits(s, vs)
    decreases |vs|
  {
    if vs != [] {
      assert Edits(vs)[1..] == Edits(vs[1..]);
      RunEditsIsApplyEdits(OnEdit(s, vs[0]), vs[1..]);
    }
  }

  lemma {:induction false} ApplyEditsResult(s: ViewState, vs: seq<string>)
    requires s.mounted && (s.pendingTimer.Some? ==> s.pendingTimer.value == s.searchTerm)
    ensures ApplyEdits(s, vs) == s.(
      searchTerm := LastOr(s.searchTerm, vs),
      pendingTimer := if s.pendingTimer.None? && AllSame(vs, s.searchTerm) then None else Some(LastOr(s.searchTerm, vs)))
    decreases |vs|
  {
    if vs != [] {
      var s' := OnEdit(s, vs[0]);
      ApplyEditsResult(s', vs[1..]);
      assert LastOr(vs[0], vs[1..]) == LastOr(s.searchTerm, vs);
      if vs[0] != s.searchTerm {
        assert !AllSame(vs, s.searchTerm);
      }
    }
  }

  /** The timer only ever emits the current value of the search box, and resets the page to 1. */
  lemma TimerEmitsLatest(s: ViewState)
    requires Inv(s) && s.pendingTimer.Some?
    ensures var t := OnTimerElapsed(s);
      t.debouncedSearchTerm == s.searchTerm && t.currentPage == 1 && t.pendingTimer.None?
      && (t.effectDeps != s.effectDeps <==> (s.currentPage, s.debouncedSearchTerm) != (1, s.searchTerm))
      && (t.effectDeps != s.effectDeps ==>
            t.loading && t.error.None? && t.inFlight == s.inFlight + [Request(1, s.searchTerm)])
      && (t.effectDeps == s.effectDeps ==>
            t == s.(debouncedSearchTerm := s.searchTerm, currentPage := 1, pendingTimer := None))
  {
  }

  /** Typing a burst that ends on a new value, then letting the timer elapse, settles exactly that last value. */
  lemma BurstThenTimer(s: ViewState, vs: seq<string>)
    requires Inv(s) && s.mounted && vs != [] && vs[|vs| - 1] != s.searchTerm
    ensures var t := OnTimerElapsed(Run(s, Edits(vs)));
      t.debouncedSearchTerm == vs[|vs| - 1] && t.currentPage == 1 && t.pendingTimer.None?
  {
    EditBurst(s, vs);
  }

  /** Once the view is torn down, no later event lets the timer emit. */
  lemma NoEmissionAfterUnmount(s: ViewState, es: seq<Event>)
    requires Inv(s)
    ensures var t := Run(OnUnmount(s), es);
      t.debouncedSearchTerm == s.debouncedSearchTerm && t.currentPage == s.currentPage && !t.mounted
  {
    NoEmissionWhileUnmounted(OnUnmount(s), es);
  }

  lemma {:induction false} NoEmissionWhileUnmounted(s: ViewState, es: seq<Event>)
    requires Inv(s) && !s.mounted
    ensures var t := Run(s, es);
      t.debouncedSearchTerm == s.debouncedSearchTerm && t.currentPage == s.currentPage && !t.mounted
    decreases |es|
  {
    if es != [] {
      StepPreservesInv(s, es[0]);
      NoEmissionWhileUnmounted(Step(s, es[0]), es[1..]);
    }
  }

  // ---------------------------------------------------------------------------
  // Page guard
  // ---------------------------------------------------------------------------

  /** A page change is taken exactly when 1 <= page <= totalPages; otherwise nothing changes. */
  lemma PageChangeGuard(s: ViewState, page: int)
    requires Inv(s) && s.mounted
    ensures var t := OnPageChange(s, page);
      && (PageAccepted(s, page) ==> t.currentPage == page)
      && (!PageAccepted(s, page) ==> t == s)
      && (PageAccepted(s, page) && page == s.currentPage ==> t == s)
      && (PageAccepted(s, page) && page != s.currentPage ==>
            t == s.(currentPage := page, effectDeps := Request(page, s.debouncedSearchTerm),
                    inFlight := s.inFlight + [Request(page, s.debouncedSearchTerm)],
                    loading := true, error := None))
  {
  }

  /** With no records there are no pages, so every page change is refused. */
  lemma NoPagesWhenEmpty(s: ViewState, page: int)
    requires s.totalCount == 0
    ensures OnPageChange(s, page) == s
  {
  }

  // ---------------------------------------------------------------------------
  // Request lifecycle
  // ---------------------------------------------------------------------------

  /**
   * Settling any fetch while mounted ends loading. A success replaces the count and
   * the page with those of the request's own term and page and leaves the error
   * alone; a failure sets the error and leaves the count and the data alone.
   */
  lemma SettleOutcome(s: ViewState, i: nat, o: Outcome)
    requires Inv(s) && s.mounted && i < |s.inFlight|
    ensures var t, req := OnFetchSettled(s, i, o), s.inFlight[i];
      && !t.loading
      && |t.inFlight| == |s.inFlight| - 1
      && (o.Responded? && IsOkStatus(o.status) ==>
            var filtered := FilterPosts(o.body, req.term);
            && t.totalCount == |filtered| && t.error == s.error
            && |t.data| <= PageSize
            && t.data == filtered[Min((req.page - 1) * PageSize, |filtered|)..Min(req.page * PageSize, |filtered|)])
      && (o.Responded? && !IsOkStatus(o.status) ==>
            t.error == Some("HTTP error! status: " + DecimalString(o.status)) && t.data == s.data && t.totalCount == s.totalCount)
      && (o.Threw? ==> t.error == Some(o.message) && t.data == s.data && t.totalCount == s.totalCount)
  {
    assert s.inFlight[i] in s.inFlight;
  }

  /** When only the latest request is in flight and it succeeds, the view shows its term's page. */
  lemma LatestSuccessIsShown(s: ViewState, status: nat, body: seq<Post>)
    requires Inv(s) && s.mounted && |s.inFlight| == 1 && s.inFlight[0] == s.effectDeps && IsOkStatus(status)
    ensures var t := OnFetchSettled(s, 0, Responded(status, body));
      var filtered := FilterPosts(body, s.debouncedSearchTerm);
      && t.data == PageSlice(filtered, s.currentPage)
      && t.totalCount == |filtered|
      && t.inFlight == [] && !t.loading
  {
  }

  /** When no record matches a non-empty term, the sole fetch in flight leaves the "no results" view. */
  lemma NoMatchShowsNoResults(s: ViewState, status: nat, body: seq<Post>)
    requires Inv(s) && s.mounted && s.loading && |s.inFlight| == 1 && IsOkStatus(status)
    requires s.debouncedSearchTerm != ""
    requires forall k :: 0 <= k < |body| ==> !Matches(body[k], s.debouncedSearchTerm)
    ensures var t := OnFetchSettled(s, 0, Responded(status, body));
      t.data == [] && t.totalCount == 0 && Mode(t) == NoResults
  {
    NoMatchFiltersAll(body, s.debouncedSearchTerm);
  }

  /**
   * The trace behind the missing ordering guard: search "a", then "b"; the fetch
   * for "b" settles first and the one for "a" after it. The view ends on term "b"
   * but shows the records found for "a".
   */
  function StaleBody(): seq<Post> {
    [Post(1, "a", None, None), Post(2, "b", None, None)]
  }

  function StaleTrace(): seq<Event> {
    [ FetchSettled(0, Responded(200, StaleBody())),
      Typed("a"), TimerElapsed,
      Typed("b"), TimerElapsed,
      FetchSettled(1, Responded(200, StaleBody())),
      FetchSettled(0, Responded(200, StaleBody())) ]
  }

  lemma StaleResponseWins()
    ensures var t := Run(Init(), StaleTrace());
      && t.debouncedSearchTerm == "b" && t.inFlight == [] && !t.loading
      && t.data == [Post(1, "a", None, None)]
      && t.data != PageSlice(FilterPosts(StaleBody(), t.debouncedSearchTerm), t.currentPage)
  {
    StaleTypingPhase();
    StaleSettlingPhase();
    StaleFilters();
    assert PageSlice([StaleBody()[1]], 1) == [StaleBody()[1]];
  }

  /** The trace's state once both searches have started: two fetches in flight, the one for "a" first. */
  function StaleRacing(): ViewState {
    ViewState(true, "b", "b", 1, None, Request(1, "b"), [Request(1, "a"), Request(1, "b")], StaleBody(), true, None, 2)
  }

  lemma StaleTypingPhase()
    ensures Run(Init(), StaleTrace()) == Run(StaleRacing(), StaleTrace()[5..])
  {
    var body, es := StaleBody(), StaleTrace();
    assert es[0..] == es;
    var s1 := ViewState(true, "", "", 1, Some(""), Request(1, ""), [], body, false, None, 2);
    assert Step(Init(), es[0]) == s1 by { assert PageSlice(body, 1) == body; }
    var s2 := s1.(searchTerm := "a", pendingTimer := Some("a"));
    assert Step(s1, es[1]) == s2;
    var s3 := ViewState(true, "a", "a", 1, None, Request(1, "a"), [Request(1, "a")], body, true, None, 2);
    assert Step(s2, es[2]) == s3;
    var s4 := s3.(searchTerm := "b", pendingTimer := Some("b"));
    assert Step(s3, es[3]) == s4;
    assert Step(s4, es[4]) == StaleRacing();
    RunUnfold(Init(), es, 0);
    RunUnfold(s1, es, 1);
    RunUnfold(s2, es, 2);
    RunUnfold(s3, es, 3);
    RunUnfold(s4, es, 4);
  }

  lemma StaleSettlingPhase()
    ensures Run(StaleRacing(), StaleTrace()[5..]) ==
      StaleRacing().(inFlight := [], data := [StaleBody()[0]], loading := false, totalCount := 1)
  {
    var body, es := StaleBody(), StaleTrace();
    var onlyA, onlyB := [body[0]], [body[1]];
    StaleFilters();
    var s5 := StaleRacing();
    var s6 := s5.(inFlight := [Request(1, "a")], data := onlyB, loading := false, totalCount := 1);
    assert Step(s5, es[5]) == s6 by { assert PageSlice(onlyB, 1) == onlyB; }
    var s7 := s6.(inFlight := [], data := onlyA);
    assert Step(s6, es[6]) == s7 by { assert PageSlice(onlyA, 1) == onlyA; }
    RunUnfold(s5, es, 5);
    RunUnfold(s6, es, 6);
    assert es[7..] == [];
  }

  /** Each of the two terms finds exactly its own record in the stale-trace body. */
  lemma StaleFilters()
    ensures FilterPosts(StaleBody(), "a") == [StaleBody()[0]]
    ensures FilterPosts(StaleBody(), "b") == [StaleBody()[1]]
  {
    var body := StaleBody();
    assert Lower("a") == "a" && Lower("b") == "b";
    assert Contains("a", "a") by { assert OccursAt("a", "a", 0); }
    assert !Contains("b", "a") by { assert "b"[..1] == "b"; assert !Contains("", "a"); }
    assert Contains("b", "b") by { assert OccursAt("b", "b", 0); }
    assert !Contains("a", "b") by { assert "a"[..1] == "a"; assert !Contains("", "b"); }
    assert Matches(body[0], "a") && !Matches(body[1], "a");
    assert Matches(body[1], "b") && !Matches(body[0], "b");
    assert body[1..][1..] == [];
  }

  /** Running the suffix of a trace from position `k` is taking event `k` and running the rest. */
  lemma RunUnfold(s: ViewState, es: seq<Event>, k: nat)
    requires k < |es|
    ensures Run(s, es[k..]) == Run(Step(s, es[k]), es[k + 1..])
  {
    assert es[k..][1..] == es[k + 1..];
  }

  // ---------------------------------------------------------------------------
  // What is rendered
  // ---------------------------------------------------------------------------

  /** `error` is truthy: set and not the empty string. */
  predicate HasError(s: ViewState) {
    s.error.Some? && s.error.value != ""
  }

  predicate ShowSpinner(s: ViewState) { s.loading }
  predicate ShowErrorPanel(s: ViewState) { HasError(s) }
  predicate ShowSummary(s: ViewState) { !s.loading && !HasError(s) }
  predicate ShowNoResults(s: ViewState) { !s.loading && !HasError(s) && |s.data| == 0 && s.debouncedSearchTerm != "" }
  predicate ShowPostList(s: ViewState) { !s.loading && !HasError(s) && |s.data| > 0 }
  predicate ShowPagination(s: ViewState) { ShowPostList(s) && TotalPages(s.totalCount) > 1 }

  datatype RenderMode = Spinner | ErrorPanel | NoResults | PostList | EmptyFeed

  /** Which content block the view renders; each block's condition holds in exactly its own mode. */
  function Mode(s: ViewState): (m: RenderMode)
    requires Inv(s)
    ensures m == Spinner <==> ShowSpinner(s)
    ensures m == ErrorPanel <==> ShowErrorPanel(s)
    ensures m == NoResults <==> ShowNoResults(s)
    ensures m == PostList <==> ShowPostList(s)
    ensures m == EmptyFeed <==> ShowSummary(s) && |s.data| == 0 && s.debouncedSearchTerm == ""
  {
    if s.loading then Spinner
    else if HasError(s) then ErrorPanel
    else if |s.data| == 0 then (if s.debouncedSearchTerm != "" then NoResults else EmptyFeed)
    else PostList
  }

  /** A failed response always renders the error panel: its message is never empty. */
  lemma HttpFailureShowsError(s: ViewState, i: nat, status: nat, body: seq<Post>)
    requires Inv(s) && s.mounted && i < |s.inFlight| && !IsOkStatus(status)
    ensures Mode(OnFetchSettled(s, i, Responded(status, body))) == ErrorPanel
  {
    StepPreservesInv(s, FetchSettled(i, Responded(status, body)));
  }

  // ---------------------------------------------------------------------------
  // The component, as an object whose fields the event handlers update
  // ---------------------------------------------------------------------------

  class ApiIntegration {
    var mounted: bool
    var searchTerm: string
    var debouncedSearchTerm: string
    var currentPage: int
    var pendingTimer: Option<string>
    var effectDeps: Request
    var inFlight: seq<Request>
    var data: seq<Post>
    var loading: bool
    var error: Option<string>
    var totalCount: nat

    ghost function Model(): ViewState
      reads this
    {
      ViewState(mounted, searchTerm, debouncedSearchTerm, currentPage, pendingTimer,
                effectDeps, inFlight, data, loading, error, totalCount)
    }

    ghost predicate Valid()
      reads this
    {
      Inv(Model())
    }

    /** Mounting: the debounce effect arms a timer for '', the fetch effect starts page 1. */
    constructor ()
      ensures Valid() && Model() == Init()
    {
      mounted, searchTerm, debouncedSearchTerm, currentPage := true, "", "", 1;
      pendingTimer := Some("");
      effectDeps, inFlight := Request(1, ""), [Request(1, "")];
      data, loading, error, totalCount := [], true, None, 0;
    }

    method FetchEffect()
      modifies this
      ensures Model() == RunFetchEffect(old(Model()))
    {
      var req := Request(currentPage, debouncedSearchTerm);
      if req != effectDeps {
        effectDeps := req;
        inFlight := inFlight + [req];
        loading := true;
        error := None;
      }
    }

    method Edit(v: string)
      requires Valid()
      modifies this
      ensures Valid() && Model() == OnEdit(old(Model()), v)
    {
      StepPreservesInv(Model(), Typed(v));
      if mounted && v != searchTerm {
        searchTerm := v;
        pendingTimer := Some(v);
      }
    }

    method ClearSearch()
      requires Valid()
      modifies this
      ensures Valid() && Model() == OnClearSearch(old(Model()))
    {
      Edit("");
    }

    method TimerElapsed()
      requires Valid()
      modifies this
      ensures Valid() && Model() == OnTimerElapsed(old(Model()))
    {
      StepPreservesInv(Model(), Event.TimerElapsed);
      if pendingTimer.Some? {
        debouncedSearchTerm := pendingTimer.value;
        currentPage := 1;
        pendingTimer := None;
        FetchEffect();
      }
    }

    method Teardown()
      requires Valid()
      modifies this
      ensures Valid() && Model() == OnUnmount(old(Model()))
    {
      mounted := false;
      pendingTimer := None;
    }

    method ChangePage(page: int)
      requires Valid()
      modifies this
      ensures Valid() && Model() == OnPageChange(old(Model()), page)
    {
      StepPreservesInv(Model(), PageClicked(page));
      if mounted && 1 <= page <= TotalPages(totalCount) {
        currentPage := page;
        FetchEffect();
      }
    }

    method FetchSettled(i: nat, o: Outcome)
      requires Valid()
      modifies this
      ensures Valid() && Model() == OnFetchSettled(old(Model()), i, o)
    {
      StepPreservesInv(Model(), Event.FetchSettled(i, o));
      if i < |inFlight| {
        var req := inFlight[i];
        inFlight := RemoveAt(inFlight, i);
        if mounted {
          SettleRequest(req, o);
        }
      }
    }

    /** The body of the fetch after its awaits: try, catch, finally. */
    method SettleRequest(req: Request, o: Outcome)
      modifies this
      ensures Model() == Settle(old(Model()), req, o)
    {
      match o {
        case Responded(status, body) =>
          if IsOkStatus(status) {
            var filtered := FilterPosts(body, req.term);
            totalCount := |filtered|;
            data := PageSlice(filtered, req.page);
          } else {
            error := Some(HttpErrorMessage(status));
          }
        case Threw(message) =>
          error := Some(message);
      }
      loading := false;
    }
  }
}
