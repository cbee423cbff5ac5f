/** Records exchanged between the messages store, the search back ends and the page. */
module Records {
  import opened Wrappers

  /** One message record of the messages API. `text` is its "message" field, None when the
      record has no such key. Search results hand these records back unchanged. */
  datatype Message = Message(
    id: string,
    userId: string,
    userName: string,
    timestamp: string,
    text: Option<string>)

  /** The dictionary a search back end returns: `totalPages` is absent from the early
      "nothing to search" replies, `note` is the "message" key of the no-data reply. */
  datatype SearchPage = SearchPage(
    total: nat,
    items: seq<Message>,
    page: int,
    perPage: int,
    totalPages: Option<int>,
    note: Option<string>)

  /** The JSON body of a successful `/search` reply: the route's own keys merged with the
      back end's dictionary. `processingTimeMs` is absent in the single-approach server. */
  datatype SearchBody = SearchBody(
    status: string,
    query: string,
    approach: string,
    processingTimeMs: Option<nat>,
    results: SearchPage)
}
