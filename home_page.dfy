/** The search page's controller: the `Home` component's state (query, approach, the
    displayed response, the loading flags, the error text and the query time) and the
    handlers that change it. A request's outcome is an input: the reply the back end
    gave, or a network failure. */
module HomePage {
  import opened Wrappers
  import opened Text
  import opened Records

  const PerPage := 10
  const DefaultApproach := "term_frequency_token"
  const SearchFallback := "Failed to search. Make sure the backend is running on http://localhost:5000"
  const LoadFallback := "Failed to load data. Make sure the backend is running on http://localhost:5000"

  /** How a `/search` request ended: a 2xx reply with its body, a non-2xx reply with the
      `message` of its JSON body (None when the body has none or is not JSON), or a thrown
      error with its message (a failed fetch, or a 2xx body that is not JSON). */
  datatype SearchReply =
    | Ok(body: SearchBody)
    | HttpErr(status: nat, message: Option<string>)
    | NetErr(message: Option<string>)

  /** How the startup `/load_data` request ended, in the same terms. */
  datatype LoadReply =
    | LoadOk
    | LoadHttpErr(status: nat, message: Option<string>)
    | LoadNetErr(message: Option<string>)

  /** The query string of a `/search` request. */
  datatype SearchRequest = SearchRequest(q: string, approach: string, page: int, perPage: int)

  /** The component's state. */
  datatype Snapshot = Snapshot(
    query: string,
    approach: string,
    results: Option<SearchBody>,
    loading: bool,
    error: Option<string>,
    dataLoading: bool,
    queryTime: Option<nat>)

  /** JavaScript's `a || b` on an optional string: an absent or empty `a` gives `b`. */
  function OrElse(a: Option<string>, b: string): (r: string)
    ensures a.Some? && a.value != [] ==> r == a.value
    ensures a.None? || a.value == [] ==> r == b
  {
    if a.Some? && a.value != [] then a.value else b
  }

  /** The error shown after a failed search: the reply's own message when it has one,
      otherwise "HTTP <status>: Search failed" for an error status, or the generic text
      for a failure without a reply. */
  function SearchErrorText(reply: SearchReply): (text: string)
    requires !reply.Ok?
    ensures text != []
    ensures reply.message.Some? && reply.message.value != [] ==> text == reply.message.value
    ensures reply.HttpErr? && (reply.message.None? || reply.message.value == []) ==>
      text == "HTTP " + Decimal(reply.status) + ": Search failed"
    ensures reply.NetErr? && (reply.message.None? || reply.message.value == []) ==> text == SearchFallback
  {
    match reply
    case HttpErr(status, message) => OrElse(message, "HTTP " + Decimal(status) + ": Search failed")
    case NetErr(message) => OrElse(message, SearchFallback)
  }

  /** The error shown after a failed startup load, built the same way. */
  function LoadErrorText(reply: LoadReply): (text: string)
    requires !reply.LoadOk?
    ensures text != []
    ensures reply.message.Some? && reply.message.value != [] ==> text == reply.message.value
    ensures reply.LoadHttpErr? && (reply.message.None? || reply.message.value == []) ==>
      text == "HTTP " + Decimal(reply.status) + ": Failed to load data"
    ensures reply.LoadNetErr? && (reply.message.None? || reply.message.value == []) ==> text == LoadFallback
  {
    match reply
    case LoadHttpErr(status, message) => OrElse(message, "HTTP " + Decimal(status) + ": Failed to load data")
    case LoadNetErr(message) => OrElse(message, LoadFallback)
  }

  /** The query time shown: the back end's processing time when it is reported and not
      zero, otherwise the time measured in the browser. */
  function QueryTimeOf(body: SearchBody, elapsedMs: nat): (t: nat)
    ensures body.processingTimeMs.Some? && body.processingTimeMs.value > 0 ==> t == body.processingTimeMs.value
    ensures body.processingTimeMs.None? || body.processingTimeMs.value == 0 ==> t == elapsedMs
  {
    if body.processingTimeMs.Some? && body.processingTimeMs.value != 0 then body.processingTimeMs.value
    else elapsedMs
  }

  /** The request `handleSearch` issues, or None when the trimmed query is empty. The
      query is sent as typed (untrimmed); the page size is always 10. */
  function RequestFor(searchQuery: string, searchApproach: string, page: int): Option<SearchRequest> {
    if Strip(JavaScript, searchQuery) == [] then None
    else Some(SearchRequest(searchQuery, searchApproach, page, PerPage))
  }

  /** The query input and the approach selector are disabled while a search or the
      startup load is in flight. */
  function InputDisabled(s: Snapshot): bool {
    s.loading || s.dataLoading
  }

  /** The submit button is disabled while the inputs are, or when the query is blank. */
  function SubmitDisabled(s: Snapshot): (disabled: bool)
    ensures !disabled ==> RequestFor(s.query, s.approach, 1).Some?
  {
    InputDisabled(s) || Strip(JavaScript, s.query) == []
  }

  // ---------------------------------------------------------------------------------
  // The transitions, as functions of the state.

  function Initial(): Snapshot {
    Snapshot("", DefaultApproach, None, false, None, true, None)
  }

  /** The end of the startup load: the flag drops, and a failure sets the error. */
  function Loaded(s: Snapshot, reply: LoadReply): Snapshot {
    s.(dataLoading := false,
       error := if reply.LoadOk? then s.error else Some(LoadErrorText(reply)))
  }

  /** Entering `handleSearch` with a query that is not blank. */
  function Started(s: Snapshot): Snapshot {
    s.(loading := true, error := None, queryTime := None)
  }

  /** The end of a search: the response replaces the results on success; a failure
      clears them and sets the error; either way loading stops. */
  function Completed(s: Snapshot, reply: SearchReply, elapsedMs: nat): Snapshot {
    match reply
    case Ok(body) => s.(results := Some(body), queryTime := Some(QueryTimeOf(body, elapsedMs)), error := None, loading := false)
    case _ => s.(error := Some(SearchErrorText(reply)), results := None, queryTime := None, loading := false)
  }

  /** What the page keeps true: nothing is searched before the startup load ends; while
      the `loading` flag is set no error and no time are shown; otherwise a time is shown
      exactly with results, and results never together with an error. The flag is set by
      the latest start and cleared by the next completion, which, when searches overlap,
      may be the reply to an earlier request. */
  predicate Consistent(s: Snapshot) {
    && (s.dataLoading ==> s.results.None? && !s.loading)
    && (s.loading ==> s.error.None? && s.queryTime.None?)
    && (!s.loading ==> (s.queryTime.Some? <==> s.results.Some?))
    && (!s.loading && s.results.Some? ==> s.error.None?)
  }

  // ---------------------------------------------------------------------------------
  // The component.

  class Home {
    var query: string
    var approach: string
    var results: Option<SearchBody>
    var loading: bool
    var error: Option<string>
    var dataLoading: bool
    var queryTime: Option<nat>

    function State(): Snapshot
      reads this
    {
      Snapshot(query, approach, results, loading, error, dataLoading, queryTime)
    }

    /** The initial state: empty query, the term-frequency approach, the startup load
        pending. */
    constructor()
      ensures State() == Initial()
      ensures Consistent(State())
    {
      query := "";
      approach := DefaultApproach;
      results := None;
      loading := false;
      error := None;
      dataLoading := true;
      queryTime := None;
    }

    /** Typing in the query input. */
    method SetQuery(q: string)
      modifies this
      ensures State() == old(State()).(query := q)
    {
      query := q;
    }

    /** Choosing an approach. */
    method SetApproach(a: string)
      modifies this
      ensures State() == old(State()).(approach := a)
    {
      approach := a;
    }

    /** The startup `loadData`, which runs once when the page mounts. */
    method LoadData(reply: LoadReply)
      modifies this
      ensures State() == Loaded(old(State()), reply)
      ensures old(Consistent(State())) && old(dataLoading) ==> Consistent(State())
    {
      if !reply.LoadOk? {
        error := Some(LoadErrorText(reply));
      }
      dataLoading := false;
    }

    /** The part of `handleSearch` before the request: a blank query changes nothing and
        issues nothing; otherwise loading starts and the error and time are cleared. */
    method BeginSearch(searchQuery: string, searchApproach: string, page: int) returns (request: Option<SearchRequest>)
      modifies this
      ensures request == RequestFor(searchQuery, searchApproach, page)
      ensures State() == if request.None? then old(State()) else Started(old(State()))
    {
      if Strip(JavaScript, searchQuery) == [] {
        return None;
      }
      loading := true;
      error := None;
      queryTime := None;
      request := Some(SearchRequest(searchQuery, searchApproach, page, PerPage));
    }

    /** The part of `handleSearch` after the request: success, failure, and `finally`. */
    method CompleteSearch(reply: SearchReply, elapsedMs: nat)
      modifies this
      ensures State() == Completed(old(State()), reply, elapsedMs)
      ensures old(Consistent(State())) && !old(dataLoading) ==> Consistent(State())
    {
      if reply.Ok? {
        var executionTime := QueryTimeOf(reply.body, elapsedMs);
        results := Some(reply.body);
        queryTime := Some(executionTime);
        error := None;
      } else {
        error := Some(SearchErrorText(reply));
        results := None;
        queryTime := None;
      }
      loading := false;
    }

    /** `handleSearch` when nothing else happens while its request is in flight: the
        reply is the outcome of the request it issued. */
    method HandleSearch(searchQuery: string, searchApproach: string, page: int, reply: SearchReply, elapsedMs: nat)
      returns (request: Option<SearchRequest>)
      modifies this
      ensures request == RequestFor(searchQuery, searchApproach, page)
      ensures State() == if request.None? then old(State()) else Completed(Started(old(State())), reply, elapsedMs)
    {
      request := BeginSearch(searchQuery, searchApproach, page);
      if request.Some? {
        CompleteSearch(reply, elapsedMs);
      }
    }

    /** `handleSubmit`: a search of the current query and approach from page 1. */
    method HandleSubmit(reply: SearchReply, elapsedMs: nat) returns (request: Option<SearchRequest>)
      modifies this
      ensures request == RequestFor(old(query), old(approach), 1)
      ensures State() == if request.None? then old(State()) else Completed(Started(old(State())), reply, elapsedMs)
    {
      request := HandleSearch(query, approach, 1, reply, elapsedMs);
    }

    /** Submitting the form as the search bar allows it: nothing happens while the submit
        button is disabled. */
    method Submit(reply: SearchReply, elapsedMs: nat) returns (request: Option<SearchRequest>)
      modifies this
      ensures request.None? <==> SubmitDisabled(old(State()))
      ensures request.Some? ==> request == RequestFor(old(query), old(approach), 1)
      ensures State() == if request.None? then old(State()) else Completed(Started(old(State())), reply, elapsedMs)
      ensures old(Consistent(State())) ==> Consistent(State())
    {
      if SubmitDisabled(State()) {
        return None;
      }
      request := HandleSubmit(reply, elapsedMs);
    }

    /** `handlePageChange`: nothing without results; otherwise a search of the CURRENT
        query and approach (which may have been edited since the results were fetched)
        at the requested page. */
    method HandlePageChange(page: int, reply: SearchReply, elapsedMs: nat) returns (request: Option<SearchRequest>)
      modifies this
      ensures old(results).None? ==> request.None? && State() == old(State())
      ensures old(results).Some? ==> request == RequestFor(old(query), old(approach), page)
      ensures State() == if request.None? then old(State()) else Completed(Started(old(State())), reply, elapsedMs)
      ensures old(Consistent(State())) ==> Consistent(State())
    {
      if results.None? {
        return None;
      }
      request := HandleSearch(query, approach, page, reply, elapsedMs);
    }
  }

  // ---------------------------------------------------------------------------------
  // Properties of the transitions.

  /** A request is issued exactly when the trimmed query is not empty, and it carries
      the query as typed, the approach, the page and a page size of 10. */
  lemma RequestIssued(searchQuery: string, searchApproach: string, page: int)
    ensures RequestFor(searchQuery, searchApproach, page).Some? <==> !AllSpace(JavaScript, searchQuery)
    ensures RequestFor(searchQuery, searchApproach, page).Some? ==>
      RequestFor(searchQuery, searchApproach, page).value == SearchRequest(searchQuery, searchApproach, page, 10)
  {
    StripEmptyIff(JavaScript, searchQuery);
  }

  /** Starting a search clears any error, including one left by the startup load, and
      the shown time; the displayed results stay until the reply arrives. */
  lemma StartClearsError(s: Snapshot)
    requires s.error.Some?
    ensures Started(s).error.None? && Started(s).loading && Started(s).queryTime.None?
    ensures Started(s).results == s.results
  {
  }

  /** After every completed search loading is off; on success the body replaces the
      results and the error is cleared; on failure the results and time are cleared and
      the error shows the failure; the query, approach and load flag are untouched. */
  lemma CompletionOutcome(s: Snapshot, reply: SearchReply, elapsedMs: nat)
    ensures var t := Completed(s, reply, elapsedMs);
      && !t.loading
      && (t.error.None? <==> reply.Ok?)
      && (t.results.Some? <==> reply.Ok?)
      && (t.queryTime.Some? <==> reply.Ok?)
      && (reply.Ok? ==> t.results == Some(reply.body) && t.queryTime == Some(QueryTimeOf(reply.body, elapsedMs)))
      && (!reply.Ok? ==> t.error == Some(SearchErrorText(reply)) && t.error.value != [])
      && t.query == s.query && t.approach == s.approach && t.dataLoading == s.dataLoading
  {
  }

  /** A reported processing time of 0 counts as missing: the browser's measurement is
      shown instead. */
  lemma ZeroProcessingTimeFallsBack(s: Snapshot, body: SearchBody, elapsedMs: nat)
    requires body.processingTimeMs == Some(0)
    ensures Completed(s, Ok(body), elapsedMs).queryTime == Some(elapsedMs)
  {
  }

  /** A 500 reply whose body says "index unavailable" shows exactly that text and no
      results; one without a message shows the status line. */
  lemma ErrorReplyExamples(s: Snapshot)
    ensures Completed(s, HttpErr(500, Some("index unavailable")), 0).error == Some("index unavailable")
    ensures Completed(s, HttpErr(500, Some("index unavailable")), 0).results == None
    ensures Completed(s, HttpErr(503, None), 0).error == Some("HTTP 503: Search failed")
  {
    assert Decimal(5) == "5";
    assert Decimal(50) == "50";
    assert Decimal(503) == "503";
    assert "HTTP " + "503" + ": Search failed" == "HTTP 503: Search failed";
  }

  /** The startup load always ends the load flag; it sets an error exactly on failure. */
  lemma LoadOutcome(s: Snapshot, reply: LoadReply)
    ensures !Loaded(s, reply).dataLoading
    ensures reply.LoadOk? ==> Loaded(s, reply).error == s.error
    ensures !reply.LoadOk? ==> Loaded(s, reply).error.Some? && Loaded(s, reply).error.value != []
    ensures Loaded(s, reply).results == s.results && Loaded(s, reply).loading == s.loading
  {
  }

  /** The page starts consistent, and every transition the page allows keeps it so: the
      one startup load, a search started once the load has ended, and its completion. */
  lemma ConsistentPreserved(s: Snapshot, reply: SearchReply, load: LoadReply, elapsedMs: nat)
    ensures Consistent(Initial())
    ensures Consistent(s) && s.dataLoading ==> Consistent(Loaded(s, load))
    ensures Consistent(s) && !s.dataLoading ==> Consistent(Started(s))
    ensures Consistent(s) && !s.dataLoading ==> Consistent(Completed(s, reply, elapsedMs))
  {
  }

  /** Nothing stops a second search while one is in flight: a started search keeps the
      shown results, so their pagination bar stays up, and a page change from it issues
      another request for the same query and approach. */
  lemma PageChangeWhileLoading(s: Snapshot, page: int)
    requires Consistent(s) && !s.dataLoading && s.results.Some?
    requires !AllSpace(JavaScript, s.query)
    ensures var busy := Started(s);
      && busy.loading && busy.results == s.results && Consistent(busy)
      && RequestFor(busy.query, busy.approach, page) == Some(SearchRequest(s.query, s.approach, page, PerPage))
      && Started(busy) == busy
  {
    StripEmptyIff(JavaScript, s.query);
  }

  /** With two searches in flight, whichever reply completes last decides the state:
      the earlier completion leaves no trace. */
  lemma LastReplyWins(s: Snapshot, first: SearchReply, e1: nat, last: SearchReply, e2: nat)
    ensures Completed(Completed(s, first, e1), last, e2) == Completed(s, last, e2)
  {
  }

  /** While the startup load runs, the submit button is disabled, and so is everything
      else that could start a search: there are no results to page through. */
  lemma NoSearchWhileDataLoads(s: Snapshot)
    requires Consistent(s) && s.dataLoading
    ensures SubmitDisabled(s) && InputDisabled(s) && s.results.None?
  {
  }
}
