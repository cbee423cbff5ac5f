/** The older single-approach server: the same `/search` parameter handling as the
    two-approach server, but only the term-frequency back end and no processing time in
    the reply. Its `/load_data` route is the same as the two-approach server's
    (`BackendApp.LoadData`). */
module LegacyApp {
  import opened Wrappers
  import opened Text
  import opened Records
  import opened TermFrequency
  import opened BackendApp

  function LegacyUnknownApproach(approach: string): string {
    "Unknown approach: " + approach + ". Available approaches: term_frequency_token"
  }

  /** `GET /search` of the single-approach server. */
  function LegacySearch(args: SearchArgs, messages: seq<Message>): Reply {
    var query := QueryOf(args);
    var approach := ApproachOf(args);
    var page := args.page.GetOr(1);
    var perPage := args.perPage.GetOr(10);
    if query == [] then Json(400, StatusMessage("error", QueryRequired))
    else
      var page := NormalisePage(page);
      var perPage := NormalisePerPage(perPage);
      if approach == TermFrequencyToken then
        match SearchResult(messages, query, page, perPage)
        case Raised(_) => ServerError
        case Returned(results) => Json(200, Found(SearchBody("success", query, approach, None, results)))
      else Json(400, StatusMessage("error", LegacyUnknownApproach(approach)))
  }

  /** The reply with the processing time dropped. */
  function WithoutTiming(r: Reply): Reply {
    match r
    case Json(code, Found(body)) => Json(code, Found(body.(processingTimeMs := None)))
    case _ => r
  }

  /** The single-approach server answers like the two-approach server without its timing
      field, except that every approach other than term_frequency_token, the embedding
      one included, is refused with 400; a blank query is refused by both. */
  lemma LegacyAgrees(args: SearchArgs, messages: seq<Message>, embed: Embedding, elapsedMs: nat)
    ensures ApproachOf(args) == TermFrequencyToken || QueryOf(args) == [] ==>
      LegacySearch(args, messages) == WithoutTiming(BackendApp.Search(args, messages, embed, elapsedMs))
    ensures ApproachOf(args) != TermFrequencyToken && QueryOf(args) != [] ==>
      LegacySearch(args, messages)
        == Json(400, StatusMessage("error", LegacyUnknownApproach(ApproachOf(args))))
    ensures LegacySearch(args, messages) != ServerError
  {
    if QueryOf(args) != [] {
      Dispatch(args, messages, embed, elapsedMs);
    }
  }
}
