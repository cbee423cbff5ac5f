/** The page and the servers together: the request the page sends becomes the route's
    query-string arguments, and the route's reply becomes the outcome the page reacts to. */
module Interaction {
  import opened Wrappers
  import opened Text
  import opened Records
  import opened TermFrequency
  import opened TermFrequencyProperties
  import opened BackendApp
  import opened LegacyApp
  import opened SearchResults
  import opened HomePage

  /** The route's arguments for a request the page sent. The query arrives as typed,
      since URI encoding and decoding give it back unchanged. */
  function ArgsOf(r: SearchRequest): SearchArgs {
    SearchArgs(Some(r.q), Some(r.approach), Some(r.page), Some(r.perPage))
  }

  /** How the page sees a route's reply: a 2xx search body is a success; any other reply
      is an error status with the body's `message`, which only `{status, message}` bodies
      carry; Flask's 500 page is not JSON and carries none. */
  function Delivered(r: Reply): (outcome: SearchReply)
    ensures outcome.Ok? <==> r.Json? && 200 <= r.code < 300 && r.body.Found?
    ensures r.ServerError? ==> outcome == HttpErr(500, None)
  {
    match r
    case ServerError => HttpErr(500, None)
    case Json(code, body) =>
      if 200 <= code < 300 && body.Found? then Ok(body.result)
      else HttpErr(code, if body.StatusMessage? then Some(body.message) else None)
  }

  /** How the page sees the `/load_data` reply: any 2xx reply is a success (its body is
      only logged); otherwise an error status with the body's `message`. The route's
      failure body is `{status, error}`, which has no `message`. */
  function LoadDelivered(r: Reply): (outcome: LoadReply)
    ensures outcome.LoadOk? <==> r.Json? && 200 <= r.code < 300
    ensures r.ServerError? ==> outcome == LoadHttpErr(500, None)
    ensures r.Json? && !(200 <= r.code < 300) && !r.body.StatusMessage? ==> outcome == LoadHttpErr(r.code, None)
  {
    match r
    case ServerError => LoadHttpErr(500, None)
    case Json(code, body) =>
      if 200 <= code < 300 then LoadOk
      else LoadHttpErr(code, if body.StatusMessage? then Some(body.message) else None)
  }

  /** The server's failure text never reaches the user: after a failed `/load_data` the
      page shows the status line whatever the server reported, and after a successful one
      it keeps its error as it was. */
  lemma LoadFailureTextHidden(s: Snapshot, detail: string, count: nat)
    ensures HomePage.Loaded(s, LoadDelivered(LoadData(FetchFailed(detail)))).error == Some("HTTP 500: Failed to load data")
    ensures HomePage.Loaded(s, LoadDelivered(LoadData(LoadOutcome.Loaded(count)))).error == s.error
  {
    assert Decimal(5) == "5";
    assert Decimal(50) == "50";
    assert Decimal(500) == "500";
    assert "HTTP " + "500" + ": Failed to load data" == "HTTP 500: Failed to load data";
  }

  /** Every whitespace character of `q` that Python strips is one JavaScript trims too. */
  predicate NoPythonOnlySpace(q: string) {
    forall i :: 0 <= i < |q| && IsSpace(Python, q[i]) ==> IsSpace(JavaScript, q[i])
  }

  /** A request the page sends is never refused as blank by the server, unless the query
      holds whitespace that only Python strips; the server then searches the stripped
      query at the page sent (at least 1) with 10 results per page. */
  lemma SentQueryAccepted(q: string, approach: string, page: int, messages: seq<Message>, embed: Embedding, elapsedMs: nat)
    requires RequestFor(q, approach, page).Some?
    requires NoPythonOnlySpace(q)
    ensures var args := ArgsOf(RequestFor(q, approach, page).value);
      && BackendApp.Search(args, messages, embed, elapsedMs) != Json(400, StatusMessage("error", QueryRequired))
      && QueryOf(args) == Strip(Python, q)
      && NormalisePerPage(args.perPage.GetOr(10)) == 10
      && (page >= 1 ==> NormalisePage(args.page.GetOr(1)) == page)
  {
    var args := ArgsOf(RequestFor(q, approach, page).value);
    assert args.q == Some(q);
    assert !AllSpace(Python, q) by {
      StripEmptyIff(JavaScript, q);
      var i :| 0 <= i < |q| && !IsSpace(JavaScript, q[i]);
    }
    BlankQueryRejected(args, messages, embed, elapsedMs);
  }

  /** A query of one U+001C character (information separator four): JavaScript's trim
      keeps it, Python's strip removes it. */
  const SeparatorQuery: string := [0x1C as char]

  /** A route's refusal with a non-empty message is what the page then shows as its
      error, with no results and no time. */
  lemma RefusalShownAsError(s: Snapshot, code: nat, text: string, e: nat)
    requires text != [] && !(200 <= code < 300)
    ensures var after := Completed(Started(s), Delivered(Json(code, StatusMessage("error", text))), e);
      after.error == Some(text) && after.results.None? && after.queryTime.None? && !after.loading
  {
    assert Delivered(Json(code, StatusMessage("error", text))) == HttpErr(code, Some(text));
  }

  /** The two trims differ: the separator query passes the page's check ... */
  lemma PageSendsSeparatorQuery()
    ensures RequestFor(SeparatorQuery, TermFrequencyToken, 1)
      == Some(SearchRequest(SeparatorQuery, TermFrequencyToken, 1, 10))
  {
    StripSingle(JavaScript, 0x1C as char);
  }

  /** ... and the server, which strips it away, answers "q is required", which the page
      then shows as its error. */
  lemma ServerRefusesSeparatorQuery(s: Snapshot, messages: seq<Message>, embed: Embedding, elapsedMs: nat, e: nat)
    ensures var reply := BackendApp.Search(ArgsOf(SearchRequest(SeparatorQuery, TermFrequencyToken, 1, 10)),
                                           messages, embed, elapsedMs);
      && reply == Json(400, StatusMessage("error", QueryRequired))
      && Completed(Started(s), Delivered(reply), e).error == Some(QueryRequired)
  {
    var args := ArgsOf(SearchRequest(SeparatorQuery, TermFrequencyToken, 1, 10));
    assert QueryOf(args) == [] by {
      StripSingle(Python, 0x1C as char);
    }
    assert QueryRequired[0] == 'Q';
    RefusalShownAsError(s, 400, QueryRequired, e);
  }

  /** For a term-frequency reply the pagination bar shows exactly when the matches do not
      fit on one page; in particular no match means no bar. */
  lemma BarIffMoreThanOnePage(messages: seq<Message>, query: string, page: int, perPage: int)
    requires perPage >= 1
    ensures var reply := SearchResult(messages, query, page, perPage).reply;
      && (Pagination(reply).Some? <==> reply.total > perPage)
      && (reply.total == 0 ==> Pagination(reply).None?)
  {
    if messages != [] && Tokenize(query) != [] {
      var total := |Ranking(messages, Tokenize(query))|;
      var reply := SearchResult(messages, query, page, perPage).reply;
      assert reply.total == total && reply.totalPages == Some(PyFloorDiv(total + perPage - 1, perPage)) by {
        SearchRanked(messages, query, page, perPage);
      }
      MoreThanOnePage(total, perPage);
    }
  }

  /** A successful term-frequency reply echoes the normalised page it was asked for. */
  lemma FoundEchoesPage(args: SearchArgs, messages: seq<Message>, embed: Embedding, elapsedMs: nat)
    requires ApproachOf(args) == TermFrequencyToken
    requires Delivered(BackendApp.Search(args, messages, embed, elapsedMs)).Ok?
    ensures Delivered(BackendApp.Search(args, messages, embed, elapsedMs)).body.results.page
      == NormalisePage(args.page.GetOr(1))
  {
    SearchStatusCodes(args, messages, embed, elapsedMs);
    Dispatch(args, messages, embed, elapsedMs);
  }

  /** After a term-frequency search for a page p >= 1 succeeds, the highlighted entry of
      the bar asks for p again, and, with the query and approach untouched, the page
      sends the very same request again. */
  lemma CurrentEntryRepeatsRequest(
    s0: Snapshot, page: int, messages: seq<Message>, embed: Embedding, elapsedMs: nat, e: nat, i: nat)
    requires page >= 1 && s0.approach == TermFrequencyToken
    requires RequestFor(s0.query, s0.approach, page).Some?
    requires Delivered(BackendApp.Search(ArgsOf(RequestFor(s0.query, s0.approach, page).value), messages, embed, elapsedMs)).Ok?
    ensures var request := RequestFor(s0.query, s0.approach, page).value;
      var s := Completed(Started(s0), Delivered(BackendApp.Search(ArgsOf(request), messages, embed, elapsedMs)), e);
      && s.results.Some?
      && var bar := Pagination(s.results.value.results);
         bar.Some? && i < |bar.value.entries| && bar.value.entries[i].highlighted ==>
           Requested(bar.value, ClickEntry(i)) == Some(page)
           && RequestFor(s.query, s.approach, page) == Some(request)
  {
    var request := RequestFor(s0.query, s0.approach, page).value;
    var reply := Delivered(BackendApp.Search(ArgsOf(request), messages, embed, elapsedMs));
    FoundEchoesPage(ArgsOf(request), messages, embed, elapsedMs);
    assert reply.body.results.page == page;
    var s := Completed(Started(s0), reply, e);
    assert s.results == Some(reply.body) && s.query == s0.query && s.approach == s0.approach;
    var bar := Pagination(reply.body.results);
    if bar.Some? && i < |bar.value.entries| && bar.value.entries[i].highlighted {
      HighlightedEntryRequestsCurrent(reply.body.results, i);
    }
  }

  /** Clicking the highlighted entry asks for the response's own page. */
  lemma HighlightedEntryRequestsCurrent(response: SearchPage, i: nat)
    requires Pagination(response).Some?
    requires i < |Pagination(response).value.entries| && Pagination(response).value.entries[i].highlighted
    ensures Requested(Pagination(response).value, ClickEntry(i)) == Some(response.page)
  {
  }

  /** Against the single-approach server, picking the embedding approach shows the
      server's refusal as the page's error. */
  lemma LegacyRefusesEmbedding(s: Snapshot, q: string, messages: seq<Message>, e: nat)
    requires Strip(Python, q) != []
    ensures var reply := LegacySearch(SearchArgs(Some(q), Some(SentenceEmbedding), Some(1), Some(10)), messages);
      Completed(Started(s), Delivered(reply), e).error == Some(LegacyUnknownApproach(SentenceEmbedding))
  {
    var args := SearchArgs(Some(q), Some(SentenceEmbedding), Some(1), Some(10));
    var text := LegacyUnknownApproach(SentenceEmbedding);
    assert LegacySearch(args, messages) == Json(400, StatusMessage("error", text)) by {
      assert QueryOf(args) != [] && ApproachOf(args) == SentenceEmbedding;
      assert SentenceEmbedding[0] != TermFrequencyToken[0];
    }
    assert text[0] == 'U';
    RefusalShownAsError(s, 400, text, e);
  }
}
