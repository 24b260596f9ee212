/**
 * The browser-side `BookApiService`: `searchBooks` builds the query string of
 * a gateway search and interprets the gateway's reply as books or an error
 * message; `getBookById` turns any failure into `null`. The HTTP call itself
 * is a parameter: it maps the request to a `Reply`.
 */
module BookApi {
  import opened Wrappers
  import opened Text
  import opened Numerals
  import opened BookTypes
  import opened QueryParams
  import SearchRoute

  const DefaultMaxResults: int := 20
  const DefaultStartIndex: int := 0
  const SearchFailed: string := "Failed to search books"

  /**
   * What `axios.get` produced: a resolved response with its body (`None`
   * for a `null` body), a rejection carrying an HTTP error response, or a
   * rejection with no response at all (network failure, timeout).
   */
  datatype Reply = Ok(data: Option<Payload>) | HttpError(data: Option<Payload>) | TransportError

  /** How axios delivers a route's answer: a 2xx status resolves, any other rejects. */
  function Deliver(r: HttpResponse): Reply {
    if 200 <= r.status < 300 then Ok(Some(r.data)) else HttpError(Some(r.data))
  }

  // ---------------------------------------------------------------------------
  // The query string

  function AuthorOf(filters: Option<SearchFilters>): Option<string> {
    if filters.Some? then filters.value.author else None
  }

  function CategoryOf(filters: Option<SearchFilters>): Option<string> {
    if filters.Some? then filters.value.category else None
  }

  function SortByOf(filters: Option<SearchFilters>): Option<string> {
    if filters.Some? && filters.value.sortBy.Some? then Some(SortByName(filters.value.sortBy.value)) else None
  }

  /** `es` with the pair `(name, value)` appended when `value` is truthy. */
  function AppendTruthy(es: seq<Entry>, name: string, value: Option<string>): seq<Entry> {
    if Truthy(value) then es + [(name, value.value)] else es
  }

  /** The three pairs the parameters start with. */
  function BaseParams(query: string, maxResults: Option<int>, startIndex: Option<int>): seq<Entry> {
    [("q", query),
     ("maxResults", IntToString(maxResults.GetOr(DefaultMaxResults))),
     ("startIndex", IntToString(startIndex.GetOr(DefaultStartIndex)))]
  }

  /** The parameters `searchBooks` sends, built by appending. */
  function SearchParamList(query: string, maxResults: Option<int>, startIndex: Option<int>,
                           filters: Option<SearchFilters>): seq<Entry> {
    var withAuthor := AppendTruthy(BaseParams(query, maxResults, startIndex), "author", AuthorOf(filters));
    var withCategory := AppendTruthy(withAuthor, "category", CategoryOf(filters));
    AppendTruthy(withCategory, "sortBy", SortByOf(filters))
  }

  /** Appending a truthy pair under a new name adds that name once and changes no other answer of `get`. */
  lemma AppendTruthyFacts(es: seq<Entry>, name: string, value: Option<string>, other: string)
    requires !HasName(es, name) && other != name
    ensures Lookup(AppendTruthy(es, name, value), name) == if Truthy(value) then value else None
    ensures Lookup(AppendTruthy(es, name, value), other) == Lookup(es, other)
    ensures HasName(AppendTruthy(es, name, value), other) == HasName(es, other)
    ensures UniqueNames(es) ==> UniqueNames(AppendTruthy(es, name, value))
  {
    LookupFound(es, name);
    if Truthy(value) {
      var e := (name, value.value);
      LookupAppend(es, e, name);
      LookupAppend(es, e, other);
      LookupFound(es, other);
      var r := es + [e];
      assert HasName(r, other) ==> HasName(es, other) by {
        if HasName(r, other) {
          var i :| 0 <= i < |r| && r[i].0 == other;
          assert i < |es| && es[i].0 == other;
        }
      }
      assert HasName(es, other) ==> HasName(r, other) by {
        if HasName(es, other) {
          var i :| 0 <= i < |es| && es[i].0 == other;
          assert r[i].0 == other;
        }
      }
    }
  }

  /**
   * The parameters `searchBooks` sends: `q`, `maxResults` and `startIndex`
   * first and in that order (defaults 20 and 0, rendered in decimal), then
   * `author`, `category` and `sortBy`, each only when present and
   * non-empty; no name occurs twice.
   */
  lemma SearchParamListFacts(query: string, maxResults: Option<int>, startIndex: Option<int>,
                             filters: Option<SearchFilters>)
    ensures var r := SearchParamList(query, maxResults, startIndex, filters);
      |r| >= 3 && r[..3] == [("q", query),
                            ("maxResults", IntToString(maxResults.GetOr(20))),
                            ("startIndex", IntToString(startIndex.GetOr(0)))]
    ensures var r := SearchParamList(query, maxResults, startIndex, filters);
      && Lookup(r, "q") == Some(query)
      && Lookup(r, "maxResults") == Some(IntToString(maxResults.GetOr(20)))
      && Lookup(r, "startIndex") == Some(IntToString(startIndex.GetOr(0)))
    ensures var r := SearchParamList(query, maxResults, startIndex, filters);
      && Lookup(r, "author") == (if Truthy(AuthorOf(filters)) then AuthorOf(filters) else None)
      && Lookup(r, "category") == (if Truthy(CategoryOf(filters)) then CategoryOf(filters) else None)
      && Lookup(r, "sortBy") == SortByOf(filters)
    ensures var r := SearchParamList(query, maxResults, startIndex, filters);
      r[3..] == (if Truthy(AuthorOf(filters)) then [("author", AuthorOf(filters).value)] else [])
                + (if Truthy(CategoryOf(filters)) then [("category", CategoryOf(filters).value)] else [])
                + (if SortByOf(filters).Some? then [("sortBy", SortByOf(filters).value)] else [])
    ensures UniqueNames(SearchParamList(query, maxResults, startIndex, filters))
  {
    var base := BaseParams(query, maxResults, startIndex);
    var r1 := AppendTruthy(base, "author", AuthorOf(filters));
    var r2 := AppendTruthy(r1, "category", CategoryOf(filters));
    var r3 := AppendTruthy(r2, "sortBy", SortByOf(filters));
    BaseParamsFacts(query, maxResults, startIndex);
    assert SortByOf(filters).Some? ==> Truthy(SortByOf(filters));
    AppendTruthyFacts(base, "author", AuthorOf(filters), "q");
    AppendTruthyFacts(base, "author", AuthorOf(filters), "maxResults");
    AppendTruthyFacts(base, "author", AuthorOf(filters), "startIndex");
    AppendTruthyFacts(base, "author", AuthorOf(filters), "category");
    AppendTruthyFacts(base, "author", AuthorOf(filters), "sortBy");
    AppendTruthyFacts(r1, "category", CategoryOf(filters), "q");
    AppendTruthyFacts(r1, "category", CategoryOf(filters), "maxResults");
    AppendTruthyFacts(r1, "category", CategoryOf(filters), "startIndex");
    AppendTruthyFacts(r1, "category", CategoryOf(filters), "author");
    AppendTruthyFacts(r1, "category", CategoryOf(filters), "sortBy");
    AppendTruthyFacts(r2, "sortBy", SortByOf(filters), "q");
    AppendTruthyFacts(r2, "sortBy", SortByOf(filters), "maxResults");
    AppendTruthyFacts(r2, "sortBy", SortByOf(filters), "startIndex");
    AppendTruthyFacts(r2, "sortBy", SortByOf(filters), "author");
    AppendTruthyFacts(r2, "sortBy", SortByOf(filters), "category");
    assert r3[..3] == base;
    assert r3[3..] == r3[|base|..];
  }

  /** The three base pairs: what `get` answers for each name, and no name twice. */
  lemma BaseParamsFacts(query: string, maxResults: Option<int>, startIndex: Option<int>)
    ensures var base := BaseParams(query, maxResults, startIndex);
      && Lookup(base, "q") == Some(query)
      && Lookup(base, "maxResults") == Some(IntToString(maxResults.GetOr(20)))
      && Lookup(base, "startIndex") == Some(IntToString(startIndex.GetOr(0)))
      && !HasName(base, "author") && !HasName(base, "category") && !HasName(base, "sortBy")
      && UniqueNames(base)
  {
    var base := BaseParams(query, maxResults, startIndex);
    assert base[1..][1..] == base[2..];
    assert Lookup(base[2..], "startIndex") == Some(base[2].1);
  }

  /** Lines 13-29: a `URLSearchParams` built from the three base pairs, then `set` for each truthy filter. */
  method BuildSearchParams(query: string, maxResults: Option<int>, startIndex: Option<int>,
                           filters: Option<SearchFilters>) returns (entries: seq<Entry>)
    ensures entries == SearchParamList(query, maxResults, startIndex, filters)
  {
    SearchParamListFacts(query, maxResults, startIndex, filters);
    var params := new UrlSearchParams(BaseParams(query, maxResults, startIndex));
    if Truthy(AuthorOf(filters)) {
      SetEntryAppends(params.entries, "author", AuthorOf(filters).value);
      params.Set("author", AuthorOf(filters).value);
    }
    if Truthy(CategoryOf(filters)) {
      SetEntryAppends(params.entries, "category", CategoryOf(filters).value);
      params.Set("category", CategoryOf(filters).value);
    }
    if SortByOf(filters).Some? {
      SetEntryAppends(params.entries, "sortBy", SortByOf(filters).value);
      params.Set("sortBy", SortByOf(filters).value);
    }
    entries := params.entries;
  }

  // ---------------------------------------------------------------------------
  // Interpreting the reply

  /** What the `try` block of `searchBooks` may throw. */
  datatype Thrown =
    | PlainError(message: string)               // `throw new Error(response.data.error)`
    | TypeError                                 // reading `.error` of a `null` body
    | AxiosError(responseData: Option<Payload>) // a rejected `axios.get`, with `error.response?.data`

  /** How the `try` block ends. */
  datatype Attempt = Returned(books: seq<Book>) | Threw(thrown: Thrown)

  /** Lines 31-37: a body with a truthy `error` throws; otherwise `books`, or `[]` without it. */
  function TrySearch(reply: Reply): Attempt {
    match reply
    case TransportError => Threw(AxiosError(None))
    case HttpError(data) => Threw(AxiosError(data))
    case Ok(None) => Threw(TypeError)
    case Ok(Some(body)) =>
      if Truthy(body.error) then Threw(PlainError(body.error.value)) else Returned(body.books.GetOr([]))
  }

  /**
   * Lines 38-43: the message of the error the `catch` block throws. Only an
   * axios error whose response body has a truthy `error` keeps that text.
   */
  function CatchMessage(e: Thrown): string {
    match e
    case AxiosError(Some(body)) => if Truthy(body.error) then body.error.value else SearchFailed
    case _ => SearchFailed
  }

  /**
   * The outcome of `searchBooks` for a reply: the books of a resolved body
   * without a truthy `error`; otherwise a failure whose message is the
   * `error` of an HTTP error body or "Failed to search books". A resolved
   * body with an `error` also ends in "Failed to search books", because the
   * `catch` block catches its own `throw` and a plain `Error` is not an
   * axios error.
   */
  function InterpretSearchReply(reply: Reply): (r: Result<seq<Book>, string>)
    ensures r.Success? <==> reply.Ok? && reply.data.Some? && !Truthy(reply.data.value.error)
    ensures r.Success? ==> r.value == reply.data.value.books.GetOr([])
    ensures reply.Ok? && r.Failure? ==> r.error == "Failed to search books"
    ensures reply.HttpError? ==>
      r == Failure(if reply.data.Some? && Truthy(reply.data.value.error) then reply.data.value.error.value
                   else "Failed to search books")
    ensures reply.TransportError? ==> r == Failure("Failed to search books")
  {
    match TrySearch(reply)
    case Returned(books) => Success(books)
    case Threw(e) => Failure(CatchMessage(e))
  }

  /** `searchBooks(query, maxResults, startIndex, filters)`, where `fetch` stands for the HTTP call. */
  method SearchBooks(query: string, maxResults: Option<int>, startIndex: Option<int>,
                     filters: Option<SearchFilters>, fetch: seq<Entry> -> Reply)
    returns (result: Result<seq<Book>, string>)
    ensures result == InterpretSearchReply(fetch(SearchParamList(query, maxResults, startIndex, filters)))
  {
    var params := BuildSearchParams(query, maxResults, startIndex, filters);
    var reply := fetch(params);
    result := InterpretSearchReply(reply);
  }

  // ---------------------------------------------------------------------------
  // Fetching one book

  /** The path `getBookById` requests. */
  function BookPath(id: string): string {
    "/api/books/" + id
  }

  /** Lines 48-54: `response.data.book || null`, and `null` on any error. */
  function BookFromReply(reply: Reply): (r: Option<Book>)
    ensures r.Some? <==> reply.Ok? && reply.data.Some? && reply.data.value.book.Some?
    ensures r.Some? ==> r == reply.data.value.book
  {
    match reply
    case Ok(Some(body)) => body.book
    case _ => None
  }

  /** `getBookById(id)`, where `fetch` stands for the HTTP call on a path. */
  method GetBookById(id: string, fetch: string -> Reply) returns (book: Option<Book>)
    ensures book == BookFromReply(fetch(BookPath(id)))
  {
    var reply := fetch(BookPath(id));
    book := BookFromReply(reply);
  }

  // ---------------------------------------------------------------------------
  // The client against the search route

  /** The filters the route applies to a search sent by this client, in the route's order. */
  function SentStages(query: string, filters: Option<SearchFilters>): seq<SearchRoute.Stage> {
    (if query != "" then [SearchRoute.ByQuery(Lower(query))] else [])
    + (if Truthy(AuthorOf(filters)) then [SearchRoute.ByAuthor(Lower(AuthorOf(filters).value))] else [])
    + (if Truthy(CategoryOf(filters)) then [SearchRoute.ByCategory(Lower(CategoryOf(filters).value))] else [])
  }

  /** The route reads back what the client sent: lowercased texts and the very `maxResults`. */
  lemma RouteReadsSentParams(query: string, maxResults: Option<int>, startIndex: Option<int>,
                             filters: Option<SearchFilters>)
    ensures var c := SearchRoute.ReadCriteria(SearchParamList(query, maxResults, startIndex, filters));
      && c.maxResults == Some(maxResults.GetOr(20))
      && SearchRoute.ActiveStages(c) == SentStages(query, filters)
      && c.query == Lower(query)
  {
    var m := maxResults.GetOr(20);
    SearchParamListFacts(query, maxResults, startIndex, filters);
    ParseIntOfIntToString(m);
    IntToStringNonEmpty(m);
    LowerLength(query);
    LowerLength(AuthorOf(filters).GetOr(""));
    LowerLength(CategoryOf(filters).GetOr(""));
  }

  /**
   * Searching through the route over its demonstration records never
   * fails, and yields the first `maxResults` (default 20) records passing
   * the filters the client sent, whatever `startIndex` and `sortBy` are.
   */
  lemma SearchThroughRoute(query: string, maxResults: Option<int>, startIndex: Option<int>,
                           filters: Option<SearchFilters>)
    ensures var params := SearchParamList(query, maxResults, startIndex, filters);
      InterpretSearchReply(Deliver(SearchRoute.Respond(SearchRoute.MockBooks, SearchRoute.ReadCriteria(params))))
      == Success(SearchRoute.Slice(SearchRoute.KeepAll(SearchRoute.MockBooks, SentStages(query, filters)),
                                   Some(maxResults.GetOr(20))))
  {
    var params := SearchParamList(query, maxResults, startIndex, filters);
    RouteReadsSentParams(query, maxResults, startIndex, filters);
    SearchRoute.MockBooksNeverFail(params);
  }

  /** When the route fails (its query test throws), the client surfaces the route's own message. */
  lemma SearchThroughFailingRoute(books: seq<Book>, query: string, maxResults: Option<int>,
                                  startIndex: Option<int>, filters: Option<SearchFilters>)
    requires query != "" && SearchRoute.AnyQueryThrows(books, Lower(query))
    ensures var params := SearchParamList(query, maxResults, startIndex, filters);
      InterpretSearchReply(Deliver(SearchRoute.Respond(books, SearchRoute.ReadCriteria(params))))
      == Failure("Internal server error")
  {
    RouteReadsSentParams(query, maxResults, startIndex, filters);
    LowerLength(query);
  }

  /** The date filters are never sent. */
  lemma SearchParamsIgnoreDates(query: string, maxResults: Option<int>, startIndex: Option<int>,
                                f: SearchFilters, after: Option<string>, before: Option<string>)
    ensures SearchParamList(query, maxResults, startIndex, Some(f))
      == SearchParamList(query, maxResults, startIndex, Some(f.(publishedAfter := after, publishedBefore := before)))
  {
  }
}
