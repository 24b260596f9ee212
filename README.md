# Bookshelf book search, modelled in Dafny

This project models the book-search path of the Bookshelf web application.

- **The search gateway route** `GET /api/books/search` (`src/app/api/books/search/route.ts`). It reads `q`, `maxResults`, `author` and `category` from the query string. It applies up to three case-insensitive substring filters to a list of book records, one after another, and then keeps the first `maxResults` books with `slice(0, maxResults)`. In `route.ts`, the list it searches is a fixed set of six demonstration records (`mockBooks`), and every successful answer is tagged `source: 'mock-demo'`.
- **The browser-side client** `BookApiService` (`src/lib/api/books.ts`). `searchBooks` builds a `URLSearchParams` object (`q`, `maxResults`, `startIndex`, and then `author`, `category` and `sortBy` when they are set). It calls the gateway and turns the reply into a list of books or an error message. `getBookById` returns the `book` of the reply, or `null` on any failure.

The records come from `src/lib/types/index.ts`. An optional property becomes an `Option`. `sortBy` becomes the enumeration `Relevance | Newest | Oldest`.

## Structure

| file | module | what it holds |
|---|---|---|
| `wrappers.dfy` | `Wrappers` | `Option`, `Result` |
| `text.dfy` | `Text` | ASCII `toLowerCase`, `includes`, truthiness of an optional string |
| `numerals.dfy` | `Numerals` | `Number.prototype.toString` on integers, `parseInt` (with `None` for `NaN`) |
| `book_types.dfy` | `BookTypes` | `Book`, `SearchFilters`, `SortBy`, the gateway's JSON body `Payload`, `HttpResponse` |
| `query_params.dfy` | `QueryParams` | a query string as an ordered list of pairs; `get` (`Lookup`), `set` (`SetEntry`), the mutable `UrlSearchParams` class |
| `search_route.dfy` | `SearchRoute` | the route: reading the request, the filters, `slice`, the handler `Get` and its reference `Respond`, the demonstration records |
| `book_api.dfy` | `BookApi` | the client: building the parameters, interpreting replies, `SearchBooks`, `GetBookById`, and the client run against the route |

The HTTP call is an input. `SearchBooks` and `GetBookById` take a function `fetch` from the request to a `Reply`:
- `Ok(body)`: the call resolved; the body is `None` when it is `null`.
- `HttpError(body)`: the call was rejected with a response.
- `TransportError`: the call was rejected with no response.

`Deliver` turns one of the route's answers into such a reply, the way axios does (a 2xx status resolves; any other status rejects). This lets the client be run against the route.

The route is modelled over any list of `Book`s, and `description` is optional in `Book`. On a book whose title and authors do not match the query and which has no description, the query filter's `book.description.toLowerCase()` throws. The handler's `catch` then answers 500 with `Internal server error`. The model includes this path. On the six demonstration records it cannot happen, because each of them has a description (`MockBooksNeverFail`).

## Model

| member | source | states |
|---|---|---|
| `Numerals.ParseIntOfIntToString` | src/app/api/books/search/route.ts:82 | `parseInt` of the decimal string of any integer gives that integer back, so the `maxResults` the client writes is the one the route reads |
| `Numerals.IntToStringNonEmpty` | src/lib/api/books.ts:15-16 | the string form of a number is never empty, so the route never falls back to `'20'` for a number the client sent |
| `Numerals.ParseIntStopsAtNonDigit` | src/app/api/books/search/route.ts:82 | `parseInt(" 42px")` is 42: leading blanks are skipped and reading stops at the first non-digit |
| `Numerals.ParseIntHexadecimal` | src/app/api/books/search/route.ts:82 | `parseInt("0x1F")` is 31: a `0x` prefix reads hexadecimal |
| `Numerals.ParseIntNaN` | src/app/api/books/search/route.ts:82 | `parseInt` of `"abc"`, `""` and `"-"` is `NaN` |
| `QueryParams.SetEntryFacts` | src/lib/api/books.ts:19-29 | after `set(name, value)`: `get(name)` is `value`, `name` occurs exactly once, `get` of every other name is unchanged, and the pairs with other names are unchanged and in order |
| `QueryParams.SetEntryAppends` | src/lib/api/books.ts:19-29 | `set` with a name not yet present appends the pair at the end |
| `QueryParams.UrlSearchParams.constructor` | src/lib/api/books.ts:13-17 | a new `URLSearchParams` holds the pairs of its record, in order |
| `QueryParams.UrlSearchParams.Set` | src/lib/api/books.ts:19-29 | `set` replaces the object's pairs by the `SetEntry` of the old ones |
| `SearchRoute.KeepByQuery` | src/app/api/books/search/route.ts:92-98 | the query filter throws exactly when some book misses on title and authors and has no description; otherwise it is the plain filter by the query test |
| `SearchRoute.Get` | src/app/api/books/search/route.ts:79-127 | the handler, which chains the three conditional filters on a local list and then slices, answers exactly `Respond`: all active filters taken together, then the `slice`, or a 500 when the query test throws |
| `SearchRoute.KeepAllAppend` | src/app/api/books/search/route.ts:89-113 | filtering the books that pass some filters by one more filter is the same as filtering by all of them together |
| `SearchRoute.KeepAllSameStages` | src/app/api/books/search/route.ts:92-113 | the result depends only on which filters are active, not on their order |
| `SearchRoute.KeepCommutes` | src/app/api/books/search/route.ts:92-113 | two filters applied one after the other give the same list in either order |
| `SearchRoute.KeepAllIsSubsequence` | src/app/api/books/search/route.ts:92-113 | the filters keep books in input order and never duplicate one |
| `SearchRoute.KeepAllCount` | src/app/api/books/search/route.ts:92-113 | a book passing every active filter occurs in the result as often as in the input; any other book does not occur at all |
| `SearchRoute.RouteStatus` | src/app/api/books/search/route.ts:86-126 | the answer is 200 exactly when the query test does not throw; then the body has `books`, no `error` and `source: 'mock-demo'`; otherwise it is 500 with `Internal server error` |
| `SearchRoute.RouteResultIsSubsequence` | src/app/api/books/search/route.ts:89-116 | the answered list is an order-preserving subsequence of the searched list |
| `SearchRoute.RouteResultMatches` | src/app/api/books/search/route.ts:81-112 | for each non-empty `q`, `author` and `category`, every answered book contains the lowercased value in its lowercased title, an author, its description or a category (for `q`), in an author (for `author`), or in a category (for `category`) |
| `SearchRoute.RouteResultComplete` | src/app/api/books/search/route.ts:92-116 | the answer is a prefix of the books passing every active filter, and a book passes exactly when it meets all of them |
| `SearchRoute.RouteResultLength` | src/app/api/books/search/route.ts:82-116 | the answer has `min(maxResults, passing)` books when `maxResults >= 0`, `min(20, passing)` when the parameter is absent or empty, none when it is not a number, and `passing + maxResults` (at least 0) when it is negative |
| `SearchRoute.RouteIgnoresStartIndexAndSortBy` | src/app/api/books/search/route.ts:80-84 | setting `startIndex` or `sortBy` to anything leaves the answer unchanged |
| `SearchRoute.RouteIgnoresCase` | src/app/api/books/search/route.ts:81 | two queries that differ only in letter case give the same answer |
| `SearchRoute.MockBooksNeverFail` | src/app/api/books/search/route.ts:4-98 | on the demonstration records every request is answered with 200 |
| `SearchRoute.UnfilteredRequest` | src/app/api/books/search/route.ts:81-116 | with no non-empty `q`, `author`, `category` or `maxResults`, the answer is the first 20 books, unfiltered and in order |
| `SearchRoute.DefaultSearch` | src/app/api/books/search/route.ts:4-122 | with only the defaults, all six demonstration records are answered, in list order |
| `SearchRoute.CategoryMatches` | src/app/api/books/search/route.ts:109-112 | of the demonstration records, exactly the first and third have a category containing "programming languages" |
| `SearchRoute.CategorySearch` | src/app/api/books/search/route.ts:84-116 | `category=Programming Languages` answers the first and third records |
| `SearchRoute.CategorySearchFirstOnly` | src/app/api/books/search/route.ts:82-116 | adding `maxResults=1` answers the first record only |
| `SearchRoute.NonNumericMaxResults` | src/app/api/books/search/route.ts:82-116 | `maxResults=abc` makes `slice(0, NaN)`, and the answer is empty |
| `SearchRoute.NegativeMaxResults` | src/app/api/books/search/route.ts:82-116 | `maxResults=-1` answers all records but the last |
| `SearchRoute.QuerySearch` | src/app/api/books/search/route.ts:92-98 | `q=Computers` matches the category of every record and answers all six |
| `BookApi.BaseParamsFacts` | src/lib/api/books.ts:13-17 | the three initial pairs answer `get` for `q`, `maxResults` and `startIndex`, and have no repeated name |
| `BookApi.SearchParamListFacts` | src/lib/api/books.ts:8-29 | the parameters start with `q`, `maxResults`, `startIndex` in that order, with numbers in decimal and defaults 20 and 0; then come exactly `author`, `category` and `sortBy`, in that order, each present exactly when set and non-empty, and nothing else; no name occurs twice |
| `BookApi.BuildSearchParams` | src/lib/api/books.ts:13-29 | building the `URLSearchParams` object step by step with `set` yields exactly those parameters |
| `BookApi.InterpretSearchReply` | src/lib/api/books.ts:31-43 | success exactly for a resolved body without a truthy `error`, with its `books` or `[]`; a resolved body with an `error` fails with "Failed to search books", because the inner `throw` is caught again and is not an axios error; an HTTP error fails with its body's `error` when truthy, otherwise with "Failed to search books"; a transport error fails with "Failed to search books" |
| `BookApi.SearchBooks` | src/lib/api/books.ts:6-44 | `searchBooks` sends the parameters above and answers the interpretation of the reply: a list or one failure message, never both |
| `BookApi.BookFromReply` | src/lib/api/books.ts:49-53 | the result is a book exactly when the call resolved with a body carrying `book`, and then it is that book; every failure gives `null` |
| `BookApi.GetBookById` | src/lib/api/books.ts:47-55 | `getBookById` requests `/api/books/{id}` and never fails: it answers the book of the reply or `null` |
| `BookApi.RouteReadsSentParams` | src/app/api/books/search/route.ts:80-84 | the route reads back the client's `maxResults` exactly, and applies the lowercased query, author and category that the client sent |
| `BookApi.SearchThroughRoute` | src/lib/api/books.ts:12-44 | a client search through the route over the demonstration records never fails, and returns the first `maxResults` (default 20) records that pass the sent filters, whatever `startIndex` and `sortBy` are |
| `BookApi.SearchThroughFailingRoute` | src/lib/api/books.ts:38-43 | when the route answers 500, the client fails with the route's own message, "Internal server error" |
| `BookApi.SearchParamsIgnoreDates` | src/lib/api/books.ts:19-29 | `publishedAfter` and `publishedBefore` never reach the parameters |

## Left out

- HTTP transport: `axios.get`, `NextRequest`/`NextResponse` and the parsing of the request URL are not modelled. The reply is an input, and the route reads the list of pairs the client built.
- Percent-encoding: the `application/x-www-form-urlencoded` serialisation of `URLSearchParams.toString` and its parsing back are not modelled. The parameters stay an ordered list of pairs, and the end-to-end lemmas assume this round trip is exact.
- Text.Lower: lowercases only ASCII letters. The full Unicode case mapping of `toLowerCase` is not modelled.
- Numerals.ParseInt: gives exact integers. The double-precision rounding of very long digit strings (and `Infinity`) is not modelled.
- Numerals.IntToString: covers integers only. `maxResults` and `startIndex` are integers in this model; fractional numbers, and the exponent notation JavaScript uses from 10^21 upwards, are not modelled.
- `error` in a reply body is modelled as a string. A non-string `error` value (a number, an object) and a non-object body other than `null` are not modelled.
- Logging: the `console.error` calls are left out.
- The route's `catch` is modelled only for the one throw its filters can raise (a missing description). Malformed records are excluded by the `Book` type.
- `src/components/search/BookSearch.tsx`, `src/components/book/BookCard.tsx`, `src/app/layout.tsx` and `src/app/page.tsx`: user-interface and layout code is not part of this model.
- `src/app/api/books/[id]/route.ts`, the route `getBookById` calls, is not part of this model. Its transformation of upstream records (ISBN and thumbnail choice) is left out with it.
- Provider fallback is not implemented in `route.ts` or `books.ts` and is not modelled. The ISBN pick and the thumbnail fallback exist only in `src/app/api/books/[id]/route.ts:33-35,43`, which is left out above.
- The types `Author`, `User`, `UserBook`, `GoogleBooksVolume` and `GoogleBooksResponse` are not used by `route.ts` or `books.ts` and are left out.
- Asynchrony: each `await` is one sequential step, so promises are not modelled.
