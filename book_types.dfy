/** The records exchanged between the search client and the gateway routes. */
module BookTypes {
  import opened Wrappers

  /** A book record; JavaScript's optional properties are `Option`s. */
  datatype Book = Book(
    id: string,
    title: string,
    authors: seq<string>,
    description: Option<string>,
    thumbnail: Option<string>,
    publishedDate: Option<string>,
    pageCount: Option<int>,
    categories: seq<string>,
    isbn: Option<string>,
    googleBooksId: Option<string>)

  datatype SortBy = Relevance | Newest | Oldest

  /** The string literal each sort option stands for. */
  function SortByName(s: SortBy): string {
    match s
    case Relevance => "relevance"
    case Newest => "newest"
    case Oldest => "oldest"
  }

  /** The optional filters of a search; every one may be absent. */
  datatype SearchFilters = SearchFilters(
    category: Option<string>,
    author: Option<string>,
    publishedAfter: Option<string>,
    publishedBefore: Option<string>,
    sortBy: Option<SortBy>)

  /** The JSON object a gateway route answers with, as far as either side reads or writes it. */
  datatype Payload = Payload(
    books: Option<seq<Book>>,
    book: Option<Book>,
    error: Option<string>,
    source: Option<string>,
    message: Option<string>)

  /** A route's HTTP answer: a status code and a JSON body. */
  datatype HttpResponse = HttpResponse(status: nat, data: Payload)
}
