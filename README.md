# Message search: a verified model

This project models a small message-search application in Dafny 4.11.
- A Flask server exposes `/load_data` and `/search`. The search route strips the query, defaults `page` to 1 and `per_page` to 10, resets a `page` below 1 to 1 and a `per_page` outside [1, 100] to 10, and dispatches to one of two back ends: term frequency or sentence embedding.
- The term-frequency back end does the following to each message and query:
  - lower-cases it and tokenises it into runs of word characters;
  - counts the terms of every message;
  - scores each message by the query-token occurrences and the number of matched query tokens;
  - sorts the scores stably in descending order, then slices out one page and counts the pages.
- An older single-approach server (`app.py`) has the same route handling, without timing and without the embedding approach.
- A React page holds the query, the approach, the displayed response, the loading flags, the error text and the query time. Its handlers search, submit and change page.
- A results component renders the count line, one view per record and the pagination bar: Previous, the numbered pages with ellipses, and Next.

Modules:

| file | module | what it holds |
|---|---|---|
| `wrappers.dfy` | `Wrappers` | `Option` |
| `text.dfy` | `Text` | `trim()`/`strip()` over the two whitespace sets, ASCII lower-casing, decimal numerals |
| `stable_sort.dfy` | `StableSort` | stable descending sort by key, and its correctness and uniqueness |
| `records.dfy` | `Records` | message records, back-end result dictionaries, `/search` bodies |
| `term_frequency.dfy` | `TermFrequency`, `TermFrequencyProperties` | tokenisation, term counts, scoring, ranking, paging; the loops as methods |
| `backend_app.dfy` | `BackendApp` | the two-approach server's `/search` and `/load_data` |
| `legacy_app.dfy` | `LegacyApp` | the single-approach server |
| `search_results.dfy` | `SearchResults` | the count line, item views and the pagination bar |
| `home_page.dfy` | `HomePage` | the page's state as a class `Home` with its handlers |
| `interaction.dfy` | `Interaction` | the page and the servers together |

Behaviour as the code has it:
- **Query sent as typed.** The page checks its query with JavaScript's `trim()`, but sends it untrimmed. The server strips it with Python's `strip()`, and the two whitespace sets differ. A query made of U+001C passes the page's check, and the server then refuses it as blank (`Interaction.PageSendsSeparatorQuery`, `Interaction.ServerRefusesSeparatorQuery`).
- **Pagination follows `total_pages`, not `total`.** With the term-frequency back end the two agree: there is a bar exactly when `total > per_page` (`Interaction.BarIffMoreThanOnePage`).
- **Searching clears a startup error.** Every search, successful or not, clears the error left by a failed `/load_data` when it starts (`HomePage.StartClearsError`).
- **The startup load blocks searching until it ends.** The inputs are disabled while it runs (`HomePage.NoSearchWhileDataLoads`).
- **Page change uses the current inputs.** A page change searches the current query and approach, which may have been edited since the results were shown.
- **A page change can overlap a search.** The pagination bar has no loading guard. Previous and Next are disabled only on the first and last page, and the numbered entries never (components/SearchResults.tsx:105-106, 139, 159-160). A started search keeps the shown results, so the bar stays up (app/page.tsx:65-67, 147). A click during a search therefore sends a second request while the first is in flight, and whichever reply arrives last decides what is shown (`HomePage.PageChangeWhileLoading`, `HomePage.LastReplyWins`).
- **The server's load-failure text is never shown.** A failed `/load_data` answers 500 with `{status: "error", error: ...}` (backend/app.py:51, 69-72). The page reads only the body's `message` (app/page.tsx:47-48), so it always shows "HTTP 500: Failed to load data" (`Interaction.LoadFailureTextHidden`).
- **Out-of-range pages are echoed.** A page beyond the page count is sent back as asked, with no records (`TermFrequencyProperties.PageNonEmptyIffInRange`).

## Model

| member | source | states |
|---|---|---|
| Text.DropLeading | backend/app.py:85 | the result is a suffix of the input that does not start with whitespace |
| Text.DropTrailing | backend/app.py:85 | the result is a prefix of the input that does not end with whitespace |
| Text.DropLeadingSpaces | backend/app.py:85 | every character removed at the front is whitespace |
| Text.DropTrailingSpaces | backend/app.py:85 | every character removed at the back is whitespace |
| Text.StripInfix | backend/app.py:85 | the stripped query is the infix of the input that starts after its leading whitespace |
| Text.StripOutside | backend/app.py:85 | everything outside the stripped part is whitespace |
| Text.StripEnds | backend/app.py:85 | a non-empty stripped string neither starts nor ends with whitespace |
| Text.StripEmptyIff | backend/app.py:90-94 | stripping gives the empty string exactly when the input is all whitespace |
| Text.StripIdempotent | backend/app.py:85 | stripping twice is stripping once |
| Text.StripSingle | backend/app.py:85 | a single character survives exactly when it is not whitespace |
| Text.Strip | backend/app.py:85 | Python's `strip()` (and JavaScript's `trim()` with the other whitespace set); StripInfix, StripOutside, StripEnds, StripEmptyIff and StripIdempotent state what it keeps and removes |
| Text.LowerChar | backend/search_approaches/term_frequency_token.py:10 | the result is never upper case, it is a word character exactly when the input is, and it fixes characters that are not upper case |
| Text.Lower | backend/search_approaches/term_frequency_token.py:10 | lower-casing keeps the length and maps each character by LowerChar |
| Text.LowerIdempotent | backend/search_approaches/term_frequency_token.py:10 | lower-casing twice is lower-casing once |
| Text.DecimalRoundTrip | components/SearchResults.tsx:47-48 | the numeral of n is non-empty and all digits, has no leading zero, and reads back as n |
| StableSort.WithScore | backend/search_approaches/term_frequency_token.py:71 | the per-key subsequence (the entries with one key, in order) by which stability is stated; it is no longer than the entries |
| StableSort.WithScoreAppend | backend/search_approaches/term_frequency_token.py:71 | selecting by key distributes over concatenation |
| StableSort.WithScoreMember | backend/search_approaches/term_frequency_token.py:71 | a selected entry is an entry of the input with that key |
| StableSort.Insert | backend/search_approaches/term_frequency_token.py:71 | one step of the sort: the entry goes before the first entry whose key is not greater than its own; InsertPermutes, InsertSorted and InsertStable state its properties |
| StableSort.SortDesc | backend/search_approaches/term_frequency_token.py:71 | `list.sort(key=..., reverse=True)`: SortDescCorrect states that it is descending, a permutation and stable, and StableSortUnique that these determine it |
| StableSort.InsertPermutes | backend/search_approaches/term_frequency_token.py:71 | inserting one entry permutes it into the list |
| StableSort.InsertSorted | backend/search_approaches/term_frequency_token.py:71 | inserting into a descending list keeps it descending |
| StableSort.InsertStable | backend/search_approaches/term_frequency_token.py:71 | inserting keeps the relative order of entries with equal keys |
| StableSort.SortDescCorrect | backend/search_approaches/term_frequency_token.py:71 | the sort is descending by key, a permutation of its input, and stable (equal keys keep their input order) |
| StableSort.StableSortUnique | backend/search_approaches/term_frequency_token.py:71 | two descending lists with the same per-key subsequences are equal, so any stable descending sort gives the same ranking |
| TermFrequency.WordLen | backend/search_approaches/term_frequency_token.py:11 | the length of the longest prefix of word characters; the next character is not one |
| TermFrequency.GapLen | backend/search_approaches/term_frequency_token.py:11 | the length of the longest prefix without word characters; the next character is one |
| TermFrequency.WordLenPrefix | backend/search_approaches/term_frequency_token.py:11 | that prefix is all word characters |
| TermFrequency.GapLenPrefix | backend/search_approaches/term_frequency_token.py:11 | that prefix has no word characters |
| TermFrequency.RunsWeave | backend/search_approaches/term_frequency_token.py:11 | the tokens interleaved with the separators between them rebuild the text |
| TermFrequency.RunsAreWords | backend/search_approaches/term_frequency_token.py:11 | every token is a non-empty run of word characters |
| TermFrequency.WeaveKeepsLowerCase | backend/search_approaches/term_frequency_token.py:10 | every character of a word woven into a text is a character of that text, so a text without upper case has words without upper case |
| TermFrequency.RunsKeepLowerCase | backend/search_approaches/term_frequency_token.py:10 | tokens of a text without upper case have no upper case |
| TermFrequency.GapIsSeparator | backend/search_approaches/term_frequency_token.py:11 | each separator has no word characters |
| TermFrequency.GapsAreSeparators | backend/search_approaches/term_frequency_token.py:11 | all separators have no word characters |
| TermFrequency.InnerGapsNonEmpty | backend/search_approaches/term_frequency_token.py:11 | separators between two tokens are non-empty, so tokens are maximal |
| TermFrequency.RunsDecompose | backend/search_approaches/term_frequency_token.py:11 | the text is exactly its maximal word runs separated by non-word text: the tokenisation is the `\b\w+\b` match list |
| TermFrequency.Tokenize | backend/search_approaches/term_frequency_token.py:6-11 | the tokens of the lower-cased text; TokenizeFacts, RunsDecompose and RunsWeave state what they are |
| TermFrequency.TokenizeFacts | backend/search_approaches/term_frequency_token.py:6-11 | tokens are non-empty and lower-case, and tokenising the lower-cased text changes nothing |
| TermFrequency.TermFrequencyCounts | backend/search_approaches/term_frequency_token.py:14-18 | the term map has exactly the tokens as keys, each counted as often as it occurs |
| TermFrequency.PickKey | backend/search_approaches/term_frequency_token.py:14-18 | a key of a non-empty map |
| TermFrequency.RemoveAll | backend/search_approaches/term_frequency_token.py:14-18 | removing every occurrence of a term removes exactly its count |
| TermFrequency.SumCountsIsLength | backend/search_approaches/term_frequency_token.py:14-18 | a map of occurrence counts sums to the number of tokens |
| TermFrequency.TermFrequencySum | backend/search_approaches/term_frequency_token.py:14-18 | the counts of the term map sum to the number of tokens |
| TermFrequency.TermFrequency | backend/search_approaches/term_frequency_token.py:14-18 | `dict(Counter(tokens))`; TermFrequencyCounts and TermFrequencySum state its keys and counts |
| TermFrequency.ScoreFacts | backend/search_approaches/term_frequency_token.py:59-65 | the matched count is at most the number of query tokens and positive exactly when some query token occurs in the message; the score is at least the matched count and equals the total occurrences of the query tokens |
| TermFrequency.Score | backend/search_approaches/term_frequency_token.py:59-64 | the sum of the message's counts of the query tokens, repeated query tokens counted again; ScoreFacts states it |
| TermFrequency.Matched | backend/search_approaches/term_frequency_token.py:60-65 | the number of query tokens (with repeats) that occur in the message; ScoreFacts states it |
| TermFrequency.FloatKeyOrder | backend/search_approaches/term_frequency_token.py:68 | over the reals, the source's score `(score/n)*(matched/n)` orders messages exactly as the integer key `score*matched` |
| TermFrequency.ScoredSound | backend/search_approaches/term_frequency_token.py:54-69 | every scored entry is an input message that matches the query, with its key |
| TermFrequency.ScoredComplete | backend/search_approaches/term_frequency_token.py:54-69 | every input message that matches the query is scored |
| TermFrequency.ScoredInOrder | backend/search_approaches/term_frequency_token.py:54-69 | the scored records are exactly the matching input messages, in input order, each occurrence of a repeated message kept |
| TermFrequency.MatchingMessagesSnoc | backend/search_approaches/term_frequency_token.py:54-69 | appending a message to the input appends it to the matching messages exactly when it matches |
| TermFrequency.Scored | backend/search_approaches/term_frequency_token.py:54-69 | the scored list the loop builds; ScoredSound, ScoredComplete and ScoredInOrder state which messages it holds and in what order |
| TermFrequency.MatchingMessages | backend/search_approaches/term_frequency_token.py:54-69 | the input messages that match the query, in input order; it is the reference for ScoredInOrder and TotalIsMatchCount |
| TermFrequency.Ranking | backend/search_approaches/term_frequency_token.py:71 | the stable descending sort of the scored list; RankingOrder states it |
| TermFrequency.PyIndex | backend/search_approaches/term_frequency_token.py:74-76 | a Python slice bound resolves into `[0, len]` and is kept when already in range |
| TermFrequency.PySliceNonNegative | backend/search_approaches/term_frequency_token.py:74-76 | with non-negative bounds a Python slice is the clamped sequence slice |
| TermFrequency.PyFloorDiv | backend/search_approaches/term_frequency_token.py:85 | Python floor division: the quotient q with `q*b <= a < q*b + b` (for b > 0) |
| TermFrequency.ItemsOf | backend/search_approaches/term_frequency_token.py:78-80 | the records of the page entries, in order |
| TermFrequency.SearchResult | backend/search_approaches/term_frequency_token.py:21-86 | the search raises exactly when there is data, the query has tokens and per_page is 0; it echoes page and per_page; no data gives the no-data note, and no tokens give an empty reply without a page count |
| TermFrequency.ScoreMessage | backend/search_approaches/term_frequency_token.py:59-65 | the inner loop computes the score and matched count of one message |
| TermFrequency.ScoreMessages | backend/search_approaches/term_frequency_token.py:54-69 | the outer loop builds exactly the scored matching messages, in input order |
| TermFrequency.Search | backend/search_approaches/term_frequency_token.py:21-86 | the method's reply is the search result |
| TermFrequency.SearchRanked | backend/search_approaches/term_frequency_token.py:71-86 | unfolds the search after its two early returns: the reply is the page slice of the ranking, its length as total, and the page count (or a ZeroDivisionError when per_page is 0); SearchPaging and TotalPagesIsCeiling state the properties of that reply |
| TermFrequency.RankAndPage | backend/search_approaches/term_frequency_token.py:52-86 | scoring, sorting and slicing compute the search result |
| TermFrequencyProperties.TotalIsMatchCount | backend/search_approaches/term_frequency_token.py:73 | with data and query tokens, total is the number of input messages that match the query |
| TermFrequencyProperties.TotalPagesIsCeiling | backend/search_approaches/term_frequency_token.py:85 | total_pages is the least page count whose pages hold every result |
| TermFrequencyProperties.MoreThanOnePage | backend/search_approaches/term_frequency_token.py:85 | there is more than one page exactly when the total exceeds the page size |
| TermFrequencyProperties.RankingOrder | backend/search_approaches/term_frequency_token.py:71 | the ranking is by descending key, a permutation of the scored messages, and ties keep the input order |
| TermFrequencyProperties.PySliceIsInfix | backend/search_approaches/term_frequency_token.py:74-76 | a Python slice is a contiguous part of the sequence |
| TermFrequencyProperties.SliceOfSorted | backend/search_approaches/term_frequency_token.py:71-76 | a slice of a descending list is descending and drawn from it |
| TermFrequencyProperties.SearchPaging | backend/search_approaches/term_frequency_token.py:73-86 | for page >= 1, the page is the ranking's entries from `(page-1)*per_page`, clamped, at most per_page of them, and the total and ceiling page count come with it |
| TermFrequencyProperties.SearchItemsRanked | backend/search_approaches/term_frequency_token.py:54-80 | every record of a page is an input message, unchanged, that matches the query, and the page is in non-increasing key order |
| TermFrequencyProperties.PageItem | backend/search_approaches/term_frequency_token.py:73-80 | record m of page p is ranking entry `(p-1)*per_page + m` |
| TermFrequencyProperties.PageCoverage | backend/search_approaches/term_frequency_token.py:73-80 | every ranked result appears on exactly the page its rank names, at its offset, so paging loses nothing |
| TermFrequencyProperties.PageStartIffInRange | backend/search_approaches/term_frequency_token.py:73-85 | a page starts within the results exactly when its number is at most total_pages |
| TermFrequencyProperties.PageNonEmptyIffInRange | backend/search_approaches/term_frequency_token.py:73-86 | a page has records exactly when its number is at most total_pages |
| BackendApp.NormalisePage | backend/app.py:96-97 | the page is at least 1: a page below 1 becomes 1, and any other page is kept |
| BackendApp.NormalisePerPage | backend/app.py:98-99 | the page size is in [1, 100]: a size outside that range becomes 10, and any other is kept |
| BackendApp.LoadData | backend/app.py:56-72 | `/load_data` answers 200 "success" exactly when loading succeeded, and 500 "error" with the failure otherwise |
| BackendApp.BlankQueryRejected | backend/app.py:85-94 | `/search` answers 400 "q is required" exactly when the stripped query is empty |
| BackendApp.BlankQueryIgnoresData | backend/app.py:90-94 | a blank query's reply does not depend on the messages, the back end or the clock |
| BackendApp.Dispatch | backend/app.py:96-124 | a known approach runs its back end on the stripped query and normalised paging and answers 200 with the merged body; the term-frequency search never raises, and an exception from the embedding back end becomes Flask's 500 page; an unknown approach answers 400 naming it |
| BackendApp.SearchStatusCodes | backend/app.py:75-124 | the reply is Flask's 500 page exactly when the query is not blank, the approach is sentence embedding and that back end raises; every other reply is JSON with 200 or 400, and 200 exactly when the query is not blank and the approach is known, which is also exactly when the body is a search result |
| BackendApp.Defaults | backend/app.py:86-88 | missing parameters mean term frequency, page 1, 10 per page |
| BackendApp.Search | backend/app.py:75-124 | the `/search` route; BlankQueryRejected, Dispatch, Defaults and SearchStatusCodes state its replies |
| BackendApp.EmbeddingRaises | backend/app.py:105-108 | the condition under which `/search` ends in Flask's 500 page; SearchStatusCodes states it |
| LegacyApp.LegacyAgrees | app.py:71-111 | the single-approach server answers as the two-approach one without timing for term frequency or a blank query, refuses any other approach with 400, and never raises |
| LegacyApp.LegacySearch | app.py:71-111 | the single-approach `/search` route; LegacyAgrees states its replies |
| LegacyApp.WithoutTiming | app.py:106-111 | a reply with the processing time dropped, the one difference LegacyAgrees names |
| SearchResults.DigitsLen | components/SearchResults.tsx:47-48 | the length of the longest prefix of digits |
| SearchResults.CountLine | components/SearchResults.tsx:47-48 | the count line; CountLineRoundTrip states that the total and time read back from it |
| SearchResults.Plural | components/SearchResults.tsx:47 | " result" for a total of 1 and " results" otherwise; AfterTotalRoundTrip states it reads back |
| SearchResults.TimePart | components/SearchResults.tsx:48 | the time suffix, empty without a time; TimePartRoundTrip states it reads back |
| SearchResults.ReadDecimal | components/SearchResults.tsx:47-48 | reading a numeral followed by a non-digit gives the number back |
| SearchResults.CountLineRoundTrip | components/SearchResults.tsx:47-48 | the count line is unambiguous: the total and the optional query time read back from it |
| SearchResults.ReadFound | components/SearchResults.tsx:47 | the line's "Found n" prefix reads back as n |
| SearchResults.AfterTotalRoundTrip | components/SearchResults.tsx:47-48 | after the total, the plural suffix and the time part read back as the query time |
| SearchResults.TimePartRoundTrip | components/SearchResults.tsx:48 | the time part reads back as the query time it was built from |
| SearchResults.RenderItems | components/SearchResults.tsx:52-93 | one view per record, in order, showing its id, user name, timestamp and message text, with a missing text shown as empty |
| SearchResults.ShownFromSpec | components/SearchResults.tsx:121-129 | the filtered pages from lo are exactly the shown pages in range, ascending |
| SearchResults.PageListSpec | components/SearchResults.tsx:121-129 | the page list is exactly pages 1, total_pages and current±1 within [1, total_pages], ascending, from page 1 to the last page |
| SearchResults.PageListAtMostFive | components/SearchResults.tsx:121-129 | at most five numbered entries |
| SearchResults.PageList | components/SearchResults.tsx:121-129 | the filtered page numbers; PageListSpec and PageListAtMostFive state them |
| SearchResults.Entries | components/SearchResults.tsx:130-153 | the numbered entries with ellipsis and highlight flags; EllipsesMarkHiddenPages and HighlightCurrent state them |
| SearchResults.Bar | components/SearchResults.tsx:104-160 | the pagination bar; NavigationRequests, SevenPagesOnPageFour and ThreePagesOnPageOne state it |
| SearchResults.Requested | components/SearchResults.tsx:104-160 | the page a click asks for, none for a disabled button; NavigationRequests states it |
| SearchResults.Render | components/SearchResults.tsx:40-96 | the rendered view: count line, item views and the bar when it shows; RenderItems, Pagination and NoResultsView state it |
| SearchResults.Pagination | components/SearchResults.tsx:96 | the bar is rendered exactly when total_pages is present and above 1 |
| SearchResults.NavigationRequests | components/SearchResults.tsx:104-106 | Previous asks for page-1 and is disabled exactly on page 1; Next asks for page+1 and is disabled exactly on the last page; an entry asks for its page |
| SearchResults.EllipsesMarkHiddenPages | components/SearchResults.tsx:130-136 | the ellipses mark exactly the hidden pages: none before the first entry, one before an entry exactly when the page after its predecessor is hidden, pages between neighbouring entries are all hidden, and every hidden page lies just before an entry with an ellipsis |
| SearchResults.HiddenBetweenEntries | components/SearchResults.tsx:130-136 | every page strictly between neighbouring entries is in range and hidden |
| SearchResults.EllipsisIffGap | components/SearchResults.tsx:130-136 | an ellipsis stands before an entry exactly when the page after its predecessor is hidden |
| SearchResults.EveryHiddenPageMarked | components/SearchResults.tsx:130-136 | every hidden page lies just before an entry that carries an ellipsis |
| SearchResults.HighlightCurrent | components/SearchResults.tsx:138-153 | an entry is highlighted exactly when it is the current page; there is one exactly when the current page is in range, and never two |
| SearchResults.SevenPageEntries | components/SearchResults.tsx:121-136 | on page 4 of 7 the entries are 1, then 3 after an ellipsis, 4 highlighted, 5, then 7 after an ellipsis |
| SearchResults.SevenPagesOnPageFour | components/SearchResults.tsx:104-160 | on page 4 of 7 the bar is Previous, 1, …, 3, 4, 5, …, 7, Next, both enabled |
| SearchResults.ThreePagesOnPageOne | components/SearchResults.tsx:104-160 | on page 1 of 3 the bar is Previous disabled, 1, 2, 3 without ellipsis, Next enabled |
| SearchResults.NoResultsView | components/SearchResults.tsx:47-96 | a response with no results and no page count above 0 has no pagination, and without a query time its count line is "Found 0 results" |
| HomePage.OrElse | app/page.tsx:78 | JavaScript `a \|\| b` on an optional string |
| HomePage.SearchErrorText | app/page.tsx:76-91 | a failed search shows the reply's message, or "HTTP <status>: Search failed", or the generic text; never empty |
| HomePage.LoadErrorText | app/page.tsx:46-52 | a failed load shows the reply's message, or "HTTP <status>: Failed to load data", or the generic text; never empty |
| HomePage.QueryTimeOf | app/page.tsx:84 | the shown time is the server's processing time unless it is missing or 0, otherwise the browser's measurement |
| HomePage.SubmitDisabled | components/SearchBar.tsx:73 | when the submit button is enabled, a request is issued |
| HomePage.RequestFor | app/page.tsx:62-74 | the request `handleSearch` sends, none for a blank query; RequestIssued states it |
| HomePage.InputDisabled | app/page.tsx:131 | the inputs are disabled while a search or the startup load runs; NoSearchWhileDataLoads states it |
| HomePage.Initial | app/page.tsx:30-36 | the state after mounting; Home.constructor and ConsistentPreserved state it |
| HomePage.Loaded | app/page.tsx:39-60 | the state after the startup load; LoadOutcome states it |
| HomePage.Started | app/page.tsx:65-67 | the state when a search starts; StartClearsError states it |
| HomePage.Completed | app/page.tsx:76-97 | the state when a search ends; CompletionOutcome states it |
| HomePage.Consistent | app/page.tsx:30-98 | the invariant of the page's state; ConsistentPreserved states that every transition keeps it |
| HomePage.Home.constructor | app/page.tsx:30-36 | the initial state: empty query, term frequency, startup load pending; it is consistent |
| HomePage.Home.SetQuery | app/page.tsx:128 | typing changes only the query |
| HomePage.Home.SetApproach | app/page.tsx:129 | choosing changes only the approach |
| HomePage.Home.LoadData | app/page.tsx:39-60 | the startup load ends the load flag and sets the error on failure; it keeps consistency |
| HomePage.Home.BeginSearch | app/page.tsx:62-74 | a blank query changes nothing and issues nothing; otherwise the request is issued and loading starts with the error and time cleared |
| HomePage.Home.CompleteSearch | app/page.tsx:76-97 | success shows the body and its time; failure clears results and time and shows the error; loading ends; consistency is kept |
| HomePage.Home.HandleSearch | app/page.tsx:62-98 | `handleSearch` is BeginSearch followed by CompleteSearch when a request was issued |
| HomePage.Home.HandleSubmit | app/page.tsx:100-103 | submitting searches the current query and approach from page 1 |
| HomePage.Home.Submit | components/SearchBar.tsx:73 | nothing happens exactly while the submit button is disabled; otherwise it is HandleSubmit; consistency is kept |
| HomePage.Home.HandlePageChange | app/page.tsx:105-109 | without results nothing happens; otherwise the current query and approach are searched at the requested page; consistency is kept |
| HomePage.RequestIssued | app/page.tsx:63-74 | a request is issued exactly when the query is not all whitespace, with the untrimmed query and 10 per page |
| HomePage.StartClearsError | app/page.tsx:65-67 | starting a search clears any error, including the startup one, and keeps the shown results |
| HomePage.CompletionOutcome | app/page.tsx:76-97 | after a search loading is off, and either results with a time or an error are shown, exactly on success or failure; query, approach and load flag are untouched |
| HomePage.ZeroProcessingTimeFallsBack | app/page.tsx:84 | a reported time of 0 shows the browser's measurement |
| HomePage.ErrorReplyExamples | app/page.tsx:76-79 | a 500 reply with "index unavailable" shows exactly that with no results; a 503 without a message shows "HTTP 503: Search failed" |
| HomePage.LoadOutcome | app/page.tsx:39-60 | the startup load always ends the load flag and sets a non-empty error exactly on failure |
| HomePage.ConsistentPreserved | app/page.tsx:30-98 | the initial state is consistent, and the load, the start and the end of a search keep it so |
| HomePage.PageChangeWhileLoading | components/SearchResults.tsx:104-160 | while a search is in flight the shown results, and so their bar, stay up, and a page change issues a second request for the same query and approach; the state stays consistent |
| HomePage.LastReplyWins | app/page.tsx:76-97 | of two completions, the later one alone decides the state |
| HomePage.NoSearchWhileDataLoads | app/page.tsx:131 | while the startup load runs the inputs and submit are disabled and there are no results to page through |
| Interaction.Delivered | app/page.tsx:72-94 | the page sees success exactly for a 2xx search body; Flask's 500 page gives "HTTP 500" without a message |
| Interaction.LoadDelivered | app/page.tsx:42-49 | the page sees success exactly for a 2xx `/load_data` reply; an error reply without a `message` key, such as the route's `{status, error}` body or Flask's 500 page, gives only the status |
| Interaction.LoadFailureTextHidden | backend/app.py:51-72 | after a failed load the page shows "HTTP 500: Failed to load data" whatever the server reported; after a successful one its error is unchanged |
| Interaction.ArgsOf | app/page.tsx:72-74 | the query parameters of the page's request as the server reads them; SentQueryAccepted states what the server does with them |
| Interaction.SentQueryAccepted | backend/app.py:85-99 | a query the page sends is not refused as blank unless it has whitespace only Python strips; the server searches it stripped, with the page and 10 per page |
| Interaction.RefusalShownAsError | app/page.tsx:76-79 | a refusal carrying a message shows exactly that message, with no results and loading off |
| Interaction.PageSendsSeparatorQuery | app/page.tsx:63-74 | the page sends a query made of U+001C |
| Interaction.ServerRefusesSeparatorQuery | backend/app.py:85-94 | the server refuses that query as blank, and the page shows "q is required" |
| Interaction.BarIffMoreThanOnePage | components/SearchResults.tsx:96 | for a term-frequency reply the bar shows exactly when the total exceeds the page size; no matches means no bar |
| Interaction.FoundEchoesPage | backend/app.py:118-124 | a successful term-frequency reply carries the normalised page asked for |
| Interaction.CurrentEntryRepeatsRequest | app/page.tsx:105-109 | after a term-frequency search for page p succeeds, the highlighted entry asks for p and, with inputs untouched, repeats the same request |
| Interaction.HighlightedEntryRequestsCurrent | components/SearchResults.tsx:138-153 | clicking the highlighted entry asks for the response's own page |
| Interaction.LegacyRefusesEmbedding | app.py:98-104 | against the single-approach server, the embedding approach shows the server's refusal as the page error |

## Left out

- `formatDate` (components/SearchResults.tsx:29-38): the timestamp's locale formatting is not modelled. The item view shows the timestamp as delivered.
- `load_data_from_api` (backend/app.py:17-53 and its copy in app.py): the HTTP fetch of the messages is not modelled. Its outcome is an input: the number of records loaded, or the failure text. The messages `/search` sees are a separate input.
- Clocks: `time.time()` on the server and `performance.now()` in the browser are inputs as whole milliseconds. Rounding of the measured time is not modelled.
- Floating point: the score `score / n * (matched / n)` is replaced by the integer key `score * matched`. The next line says what this leaves out.
- TermFrequency.FloatKeyOrder: holds over the reals only. Double rounding can split two equal integer keys. With three query tokens, score 5 with 3 matched gives `5/3*(3/3)` = 1.6666666666666667, and score 15 with 1 matched gives `15/3*(1/3)` = 1.6666666666666665. Both have key 15. The source ranks the first ahead whatever the input order, while the model keeps the two in input order.
- Interaction.LegacyRefusesEmbedding: assumes the page can read the single-approach server's reply, as it could from the same origin or with CORS enabled. app.py enables no CORS, unlike backend/app.py:10, and the page calls the API at a configurable base URL (app/page.tsx:27). From another origin the browser would block the reply and the page would show the fetch error instead.
- Unicode: `\w` and `lower()` are restricted to ASCII. Other characters count as separators and are not lower-cased.
- The sentence-embedding back end (backend/search_approaches/sentence_embedding.py) is not part of this model. It is an uninterpreted function from the messages, query, page and page size to either a result dictionary or a raised exception (loading the model, encoding or querying the index can fail).
- The network between page and server: URL encoding of the query string and JSON parsing. A 2xx body that is not JSON is one of the thrown errors `NetErr` carries.
- Flask's integer parsing of `page` and `per_page`: a parameter that is missing or not an integer arrives as None.
- A message record whose "message" field is JSON null: the source would raise on `.lower()`. The model treats the field as absent, so the text is "".
- React scheduling: `handleSearch` runs as two transitions, `BeginSearch` and `CompleteSearch`, and the model has no queue of requests in flight. The page itself can overlap searches (a page click during a search, see above): the transitions can be applied in any order, and `HomePage.PageChangeWhileLoading` and `HomePage.LastReplyWins` state what follows, but which reply belongs to which request is not tracked. `HandleSearch` composes the two transitions for a search that nothing interrupts.
- Rendering beyond content: styles, hover states and console logging are not modelled.
- `TermFrequency.RankAndPage` requires data and query tokens, because it models only the part of `search` after its two early returns. `TermFrequency.Search` covers the whole function.
