/** The `/search` and `/load_data` routes of the two-approach server: request parameter
    normalisation, dispatch on the approach name, and the mapping of outcomes to HTTP
    status codes and JSON bodies. */
module BackendApp {
  import opened Wrappers
  import opened Text
  import opened Records
  import opened TermFrequency

  /** The query-string parameters of `/search`. A parameter is None when it is missing
      or, for `page` and `per_page`, when it is not an integer (Flask then uses the
      default). */
  datatype SearchArgs = SearchArgs(
    q: Option<string>,
    approach: Option<string>,
    page: Option<int>,
    perPage: Option<int>)

  /** JSON bodies: a search result, or `{status, message}`, or `{status, error}`. */
  datatype Body =
    | Found(result: SearchBody)
    | StatusMessage(status: string, message: string)
    | StatusError(status: string, error: string)

  /** A JSON reply with its status code, or Flask's 500 page for an uncaught exception. */
  datatype Reply = Json(code: nat, body: Body) | ServerError

  /** What loading the messages produced: the number of records, or the failure text. */
  datatype LoadOutcome = Loaded(count: nat) | FetchFailed(detail: string)

  /** The sentence-embedding back end, which is not part of this model: any function from
      (messages, query, page, per_page) to a reply dictionary or a raised exception (it
      loads a model, encodes texts and queries an index, any of which can fail). */
  type Embedding = (seq<Message>, string, int, int) -> SearchOutcome

  const TermFrequencyToken := "term_frequency_token"
  const SentenceEmbedding := "sentence_embedding"
  const QueryRequired := "Query parameter \"q\" is required"

  function UnknownApproach(approach: string): string {
    "Unknown approach: " + approach
      + ". Available approaches: term_frequency_token, sentence_embedding"
  }

  /** `page < 1` becomes 1; a valid page is kept. */
  function NormalisePage(page: int): (r: int)
    ensures r >= 1
    ensures page >= 1 ==> r == page
    ensures page < 1 ==> r == 1
  {
    if page < 1 then 1 else page
  }

  /** A page size outside [1, 100] becomes 10; a valid one is kept. */
  function NormalisePerPage(perPage: int): (r: int)
    ensures 1 <= r <= 100
    ensures 1 <= perPage <= 100 ==> r == perPage
    ensures perPage < 1 || perPage > 100 ==> r == 10
  {
    if perPage < 1 || perPage > 100 then 10 else perPage
  }

  /** The stripped query, as the route reads it. */
  function QueryOf(args: SearchArgs): string {
    Strip(Python, args.q.GetOr(""))
  }

  function ApproachOf(args: SearchArgs): string {
    args.approach.GetOr(TermFrequencyToken)
  }

  /** `GET /search`. `elapsedMs` is the measured processing time in whole milliseconds. */
  function Search(args: SearchArgs, messages: seq<Message>, embed: Embedding, elapsedMs: nat): Reply {
    var query := QueryOf(args);
    var approach := ApproachOf(args);
    var page := args.page.GetOr(1);
    var perPage := args.perPage.GetOr(10);
    if query == [] then Json(400, StatusMessage("error", QueryRequired))
    else
      var page := NormalisePage(page);
      var perPage := NormalisePerPage(perPage);
      if approach == TermFrequencyToken then
        match SearchResult(messages, query, page, perPage)
        case Raised(_) => ServerError
        case Returned(results) =>
          Json(200, Found(SearchBody("success", query, approach, Some(elapsedMs), results)))
      else if approach == SentenceEmbedding then
        match embed(messages, query, page, perPage)
        case Raised(_) => ServerError
        case Returned(results) =>
          Json(200, Found(SearchBody("success", query, approach, Some(elapsedMs), results)))
      else Json(400, StatusMessage("error", UnknownApproach(approach)))
  }

  /** `GET /load_data`: 200 with status "success" when loading succeeded, 500 with status
      "error" otherwise. */
  function LoadData(outcome: LoadOutcome): (r: Reply)
    ensures r.Json?
    ensures r.code == 200 <==> outcome.Loaded?
    ensures r.code == 500 <==> outcome.FetchFailed?
    ensures outcome.Loaded? ==> r.body.StatusMessage? && r.body.status == "success"
    ensures outcome.FetchFailed? ==> r.body.StatusError? && r.body.status == "error"
  {
    match outcome
    case Loaded(n) =>
      Json(200, StatusMessage("success", "Successfully loaded " + Decimal(n) + " messages"))
    case FetchFailed(detail) =>
      Json(500, StatusError("error", "Failed to fetch data: " + detail))
  }

  /** The route answers "q is required" exactly when the query is blank. */
  lemma BlankQueryRejected(args: SearchArgs, messages: seq<Message>, embed: Embedding, elapsedMs: nat)
    ensures (Search(args, messages, embed, elapsedMs) == Json(400, StatusMessage("error", QueryRequired)))
            <==> AllSpace(Python, args.q.GetOr(""))
  {
    StripEmptyIff(Python, args.q.GetOr(""));
    if QueryOf(args) != [] {
      assert UnknownApproach(ApproachOf(args))[0] != QueryRequired[0];
    }
  }

  /** A blank query runs no search: the reply does not depend on the messages, the
      embedding back end or the timing. */
  lemma BlankQueryIgnoresData(args: SearchArgs, messages: seq<Message>, embed: Embedding, elapsedMs: nat)
    requires AllSpace(Python, args.q.GetOr(""))
    ensures forall other: seq<Message>, e: Embedding, t: nat ::
      Search(args, other, e, t) == Search(args, messages, embed, elapsedMs)
  {
    StripEmptyIff(Python, args.q.GetOr(""));
  }

  /** Each known approach runs its back end on the stripped query and the normalised page
      and page size, and answers 200 with the route's keys merged with the back end's
      reply. The term-frequency search never raises, because the page size is at least 1;
      an exception of the embedding back end becomes Flask's 500 page. */
  lemma Dispatch(args: SearchArgs, messages: seq<Message>, embed: Embedding, elapsedMs: nat)
    requires QueryOf(args) != []
    ensures var r := Search(args, messages, embed, elapsedMs);
      var query, approach := QueryOf(args), ApproachOf(args);
      var page := NormalisePage(args.page.GetOr(1));
      var perPage := NormalisePerPage(args.perPage.GetOr(10));
      && page >= 1 && 1 <= perPage <= 100
      && (approach == TermFrequencyToken ==>
            SearchResult(messages, query, page, perPage).Returned?
            && r == Json(200, Found(SearchBody("success", query, approach, Some(elapsedMs),
                                      SearchResult(messages, query, page, perPage).reply))))
      && (approach == SentenceEmbedding && embed(messages, query, page, perPage).Returned? ==>
            r == Json(200, Found(SearchBody("success", query, approach, Some(elapsedMs),
                                            embed(messages, query, page, perPage).reply))))
      && (approach == SentenceEmbedding && embed(messages, query, page, perPage).Raised? ==>
            r == ServerError)
      && (approach != TermFrequencyToken && approach != SentenceEmbedding ==>
            r == Json(400, StatusMessage("error", UnknownApproach(approach))))
  {
  }

  /** The request reaches the embedding back end, and that back end raises. */
  predicate EmbeddingRaises(args: SearchArgs, messages: seq<Message>, embed: Embedding) {
    && QueryOf(args) != []
    && ApproachOf(args) == SentenceEmbedding
    && embed(messages, QueryOf(args), NormalisePage(args.page.GetOr(1)),
             NormalisePerPage(args.perPage.GetOr(10))).Raised?
  }

  /** A `/search` reply is Flask's 500 page exactly when the embedding back end raises;
      every other reply is JSON with status 200 or 400, and it is 200 exactly when the
      query is not blank and the approach is known, which is exactly when the body is a
      search result. */
  lemma SearchStatusCodes(args: SearchArgs, messages: seq<Message>, embed: Embedding, elapsedMs: nat)
    ensures var r := Search(args, messages, embed, elapsedMs);
      && (r.ServerError? <==> EmbeddingRaises(args, messages, embed))
      && (r.Json? ==> r.code == 200 || r.code == 400)
      && (r.Json? ==> (r.code == 200 <==>
            QueryOf(args) != []
            && (ApproachOf(args) == TermFrequencyToken || ApproachOf(args) == SentenceEmbedding)))
      && (r.Json? ==> (r.code == 200 <==> r.body.Found?))
  {
    if QueryOf(args) != [] {
      Dispatch(args, messages, embed, elapsedMs);
    }
  }

  /** Missing parameters default to the term-frequency approach, page 1 and 10 results
      per page. */
  lemma Defaults(q: string, messages: seq<Message>, embed: Embedding, elapsedMs: nat)
    requires Strip(Python, q) != []
    ensures Search(SearchArgs(Some(q), None, None, None), messages, embed, elapsedMs)
      == Json(200, Found(SearchBody("success", Strip(Python, q), TermFrequencyToken, Some(elapsedMs),
                                    SearchResult(messages, Strip(Python, q), 1, 10).reply)))
  {
    Dispatch(SearchArgs(Some(q), None, None, None), messages, embed, elapsedMs);
  }
}
