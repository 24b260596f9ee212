/**
 * The search gateway route: `GET /api/books/search` reads `q`, `maxResults`,
 * `author` and `category` from the query string, filters a list of books by
 * up to three case-insensitive substring tests and keeps the first
 * `maxResults` of them.
 */
module SearchRoute {
  import opened Wrappers
  import opened Text
  import opened Numerals
  import opened BookTypes
  import opened QueryParams

  const DemoSource: string := "mock-demo"
  const DemoMessage: string := "Demo data - In production, this would connect to Google Books API and OpenLibrary"
  const InternalError: string := "Internal server error"

  /** The six demonstration records the route searches, in their order. */
  const MockBooks: seq<Book> := [MockBook1, MockBook2, MockBook3, MockBook4, MockBook5, MockBook6]

  const MockBook1: Book :=
    Book(
      id := "1",
      title := "JavaScript: The Good Parts",
      authors := ["Douglas Crockford"],
      description := Some("Most programming languages contain good and bad parts, but JavaScript has more than its share of the bad, having been developed and released in a hurry before it could be refined. This authoritative book scrapes away these bad features to reveal a subset of JavaScript that's more reliable, readable, and maintainable."),
      thumbnail := Some("https://books.google.com/books/content?id=PXa2bby0oQ0C&printsec=frontcover&img=1&zoom=1&imgtk=AFLRE73u18CmYiWyZ4qUBPpCjnmJKjVVJQTzGWiYbkF-4G2n0Qk7mfFxBh0L9Pf3Y1QfSJZ8XiZPKkx8E1RH5qR2g"),
      publishedDate := Some("2008-05-08"),
      pageCount := Some(172),
      categories := ["Computers", "Programming Languages", "JavaScript"],
      isbn := Some("9780596517748"),
      googleBooksId := Some("1"))

  const MockBook2: Book :=
    Book(
      id := "2",
      title := "Eloquent JavaScript",
      authors := ["Marijn Haverbeke"],
      description := Some("A Modern Introduction to Programming. JavaScript lies at the heart of almost every modern web application, from social apps to the newest browser-based games. Though simple for beginners to pick up and play with, JavaScript is a flexible, complex language that you can use to build full-scale applications."),
      thumbnail := Some("https://eloquentjavascript.net/img/cover.jpg"),
      publishedDate := Some("2018-12-04"),
      pageCount := Some(448),
      categories := ["Computers", "Web Development", "JavaScript"],
      isbn := Some("9781593279509"),
      googleBooksId := Some("2"))

  const MockBook3: Book :=
    Book(
      id := "3",
      title := "You Don't Know JS: Up & Going",
      authors := ["Kyle Simpson"],
      description := Some("It's easy to learn parts of JavaScript, but much harder to learn it completely—or even sufficiently—whether you're new to the language or have used it for years. With the \"You Don't Know JS\" book series, you'll get a more complete understanding of JavaScript."),
      thumbnail := Some("https://github.com/getify/You-Dont-Know-JS/raw/1st-ed/up%20%26%20going/cover.jpg"),
      publishedDate := Some("2015-04-10"),
      pageCount := Some(88),
      categories := ["Computers", "Programming Languages", "JavaScript"],
      isbn := Some("9781491924464"),
      googleBooksId := Some("3"))

  const MockBook4: Book :=
    Book(
      id := "4",
      title := "Clean Code",
      authors := ["Robert C. Martin"],
      description := Some("Even bad code can function. But if code isn't clean, it can bring a development organization to its knees. Every year, countless hours and significant resources are lost because of poorly written code. But it doesn't have to be that way."),
      thumbnail := Some("https://m.media-amazon.com/images/I/41xShlnTZTL._SX376_BO1,204,203,200_.jpg"),
      publishedDate := Some("2008-08-01"),
      pageCount := Some(464),
      categories := ["Computers", "Software Engineering"],
      isbn := Some("9780132350884"),
      googleBooksId := Some("4"))

  const MockBook5: Book :=
    Book(
      id := "5",
      title := "The Pragmatic Programmer",
      authors := ["David Thomas", "Andrew Hunt"],
      description := Some("What others in the trenches say about The Pragmatic Programmer... \"The cool thing about this book is that it's great for keeping the programming process fresh. The book helps you to continue to grow and clearly comes from people who have been there.\""),
      thumbnail := Some("https://m.media-amazon.com/images/I/51W1sBPO7tL._SX380_BO1,204,203,200_.jpg"),
      publishedDate := Some("1999-10-20"),
      pageCount := Some(352),
      categories := ["Computers", "Software Engineering"],
      isbn := Some("9780201616224"),
      googleBooksId := Some("5"))

  const MockBook6: Book :=
    Book(
      id := "6",
      title := "React: Up & Running",
      authors := ["Stoyan Stefanov"],
      description := Some("Hit the ground running with React, the open-source technology from Facebook for building rich web applications fast. With this practical guide, Facebook web developer Stoyan Stefanov teaches you how to build components—React's basic building blocks—and organize them into maintainable, large-scale apps."),
      thumbnail := Some("https://learning.oreilly.com/library/cover/9781491931813/250w/"),
      publishedDate := Some("2016-06-07"),
      pageCount := Some(222),
      categories := ["Computers", "Web Development", "React"],
      isbn := Some("9781491931820"),
      googleBooksId := Some("6"))


  /** The body of a successful answer. */
  function BooksPayload(books: seq<Book>): Payload {
    Payload(Some(books), None, None, Some(DemoSource), Some(DemoMessage))
  }

  /** The body of an error answer. */
  function ErrorPayload(message: string): Payload {
    Payload(None, None, Some(message), None, None)
  }

  // ---------------------------------------------------------------------------
  // Reading the request

  /** What the handler takes from the query string. `maxResults == None` is `NaN`. */
  datatype Criteria = Criteria(query: string, maxResults: Option<int>, author: Option<string>, category: Option<string>)

  /** `s?.toLowerCase()` */
  function LowerOpt(o: Option<string>): Option<string> {
    match o
    case None => None
    case Some(s) => Some(Lower(s))
  }

  /**
   * The query is lowercased and defaults to the empty string; `maxResults`
   * is `parseInt` of the parameter, or of "20" when the parameter is absent
   * or empty; `author` and `category` are lowercased when present.
   */
  function ReadCriteria(params: seq<Entry>): Criteria {
    var q := LowerOpt(Lookup(params, "q"));
    var m := Lookup(params, "maxResults");
    Criteria(
      if Truthy(q) then q.value else "",
      ParseInt(if Truthy(m) then m.value else "20"),
      LowerOpt(Lookup(params, "author")),
      LowerOpt(Lookup(params, "category")))
  }

  // ---------------------------------------------------------------------------
  // The filters

  /** One of the three filters the handler may apply; every text is already lowercased. */
  datatype Stage = ByQuery(text: string) | ByAuthor(name: string) | ByCategory(name: string)

  /** `xs.some(x => x.toLowerCase().includes(needle))` */
  predicate SomeContains(xs: seq<string>, needle: string) {
    exists i | 0 <= i < |xs| :: Contains(Lower(xs[i]), needle)
  }

  /** The test of each filter (for the query, when it does not throw). */
  predicate Matches(b: Book, st: Stage) {
    match st
    case ByQuery(q) =>
      Contains(Lower(b.title), q) || SomeContains(b.authors, q)
      || (b.description.Some? && Contains(Lower(b.description.value), q))
      || SomeContains(b.categories, q)
    case ByAuthor(a) => SomeContains(b.authors, a)
    case ByCategory(c) => SomeContains(b.categories, c)
  }

  /**
   * The query test reaches `book.description.toLowerCase()` when neither
   * the title nor an author matched; on a book without a description that
   * throws a TypeError.
   */
  predicate QueryThrows(b: Book, q: string) {
    !Contains(Lower(b.title), q) && !SomeContains(b.authors, q) && b.description.None?
  }

  predicate AnyQueryThrows(books: seq<Book>, q: string) {
    exists i | 0 <= i < |books| :: QueryThrows(books[i], q)
  }

  /** `books.filter(b => test of st)` */
  function Keep(books: seq<Book>, st: Stage): seq<Book>
    decreases |books|
  {
    if books == [] then []
    else if Matches(books[0], st) then [books[0]] + Keep(books[1..], st)
    else Keep(books[1..], st)
  }

  /** The query filter, which fails as a whole when its test throws on some book. */
  function KeepByQuery(books: seq<Book>, q: string): (r: Option<seq<Book>>)
    ensures r.None? <==> AnyQueryThrows(books, q)
    ensures r.Some? ==> r.value == Keep(books, ByQuery(q))
    decreases |books|
  {
    if books == [] then Some([])
    else if QueryThrows(books[0], q) then None
    else
      var rest := KeepByQuery(books[1..], q);
      assert AnyQueryThrows(books[1..], q) ==> AnyQueryThrows(books, q) by {
        if AnyQueryThrows(books[1..], q) {
          var i :| 0 <= i < |books[1..]| && QueryThrows(books[1..][i], q);
          assert QueryThrows(books[i + 1], q);
        }
      }
      if rest.None? then None
      else if Matches(books[0], ByQuery(q)) then Some([books[0]] + rest.value)
      else Some(rest.value)
  }

  /** A book passes every stage of `stages`. */
  predicate PassesAll(b: Book, stages: seq<Stage>) {
    forall i | 0 <= i < |stages| :: Matches(b, stages[i])
  }

  /** The books passing all of `stages` at once, in their order: the reference for the chained filters. */
  function KeepAll(books: seq<Book>, stages: seq<Stage>): seq<Book>
    decreases |books|
  {
    if books == [] then []
    else if PassesAll(books[0], stages) then [books[0]] + KeepAll(books[1..], stages)
    else KeepAll(books[1..], stages)
  }

  /** The filters the handler applies: those whose parameter is truthy, in the order query, author, category. */
  function ActiveStages(c: Criteria): seq<Stage> {
    (if c.query != "" then [ByQuery(c.query)] else [])
    + (if Truthy(c.author) then [ByAuthor(c.author.value)] else [])
    + (if Truthy(c.category) then [ByCategory(c.category.value)] else [])
  }

  // ---------------------------------------------------------------------------
  // Truncation

  /**
   * Where `slice(0, end)` stops on a list of length `len`: `NaN` counts as 0,
   * a negative end counts from the back, and an end past the list is the list.
   */
  function SliceEnd(len: nat, end: Option<int>): (k: nat)
    ensures k <= len
  {
    match end
    case None => 0
    case Some(e) =>
      if e < 0 then (if len + e < 0 then 0 else len + e)
      else if e > len then len
      else e
  }

  /** `s.slice(0, end)` */
  function Slice(s: seq<Book>, end: Option<int>): seq<Book> {
    s[..SliceEnd(|s|, end)]
  }

  // ---------------------------------------------------------------------------
  // The handler

  /** The answer the handler gives: all active filters at once, then the truncation; a throw becomes a 500. */
  function Respond(books: seq<Book>, c: Criteria): HttpResponse {
    if c.query != "" && AnyQueryThrows(books, c.query) then HttpResponse(500, ErrorPayload(InternalError))
    else HttpResponse(200, BooksPayload(Slice(KeepAll(books, ActiveStages(c)), c.maxResults)))
  }

  /**
   * `GET(request)` over the list `books`: the query, author and category
   * filters one after another on a local list, then `slice(0, maxResults)`.
   */
  method Get(books: seq<Book>, params: seq<Entry>) returns (response: HttpResponse)
    ensures response == Respond(books, ReadCriteria(params))
  {
    var c := ReadCriteria(params);
    var filteredBooks := books;
    ghost var applied: seq<Stage> := [];
    KeepAllNothing(books);
    if c.query != "" {
      var kept := KeepByQuery(filteredBooks, c.query);
      if kept.None? {
        return HttpResponse(500, ErrorPayload(InternalError));
      }
      KeepAllAppend(books, applied, ByQuery(c.query));
      filteredBooks, applied := kept.value, applied + [ByQuery(c.query)];
    }
    if Truthy(c.author) {
      KeepAllAppend(books, applied, ByAuthor(c.author.value));
      filteredBooks, applied := Keep(filteredBooks, ByAuthor(c.author.value)), applied + [ByAuthor(c.author.value)];
    }
    if Truthy(c.category) {
      KeepAllAppend(books, applied, ByCategory(c.category.value));
      filteredBooks, applied := Keep(filteredBooks, ByCategory(c.category.value)), applied + [ByCategory(c.category.value)];
    }
    assert applied == ActiveStages(c);
    filteredBooks := Slice(filteredBooks, c.maxResults);
    response := HttpResponse(200, BooksPayload(filteredBooks));
  }

  // ---------------------------------------------------------------------------
  // Chaining filters is conjunction

  /** With no stage, every book passes. */
  lemma {:induction false} KeepAllNothing(books: seq<Book>)
    ensures KeepAll(books, []) == books
    decreases |books|
  {
    if books != [] {
      KeepAllNothing(books[1..]);
    }
  }

  /** Filtering the books that pass `stages` by one more stage is filtering by all of them. */
  lemma {:induction false} KeepAllAppend(books: seq<Book>, stages: seq<Stage>, st: Stage)
    ensures Keep(KeepAll(books, stages), st) == KeepAll(books, stages + [st])
    decreases |books|
  {
    if books != [] {
      KeepAllAppend(books[1..], stages, st);
      var b := books[0];
      assert PassesAll(b, stages + [st]) <==> PassesAll(b, stages) && Matches(b, st) by {
        if PassesAll(b, stages) && Matches(b, st) {
          forall i | 0 <= i < |stages + [st]| ensures Matches(b, (stages + [st])[i]) {
            if i < |stages| {
              assert (stages + [st])[i] == stages[i];
            }
          }
        }
        if PassesAll(b, stages + [st]) {
          assert (stages + [st])[|stages|] == st;
          forall i | 0 <= i < |stages| ensures Matches(b, stages[i]) {
            assert (stages + [st])[i] == stages[i];
          }
        }
      }
      if PassesAll(b, stages) {
        var rest := KeepAll(books[1..], stages);
        assert ([b] + rest)[1..] == rest;
      }
    }
  }

  /** Only which stages are active matters, not the order in which they come. */
  lemma {:induction false} KeepAllSameStages(books: seq<Book>, s1: seq<Stage>, s2: seq<Stage>)
    requires forall st :: st in s1 <==> st in s2
    ensures KeepAll(books, s1) == KeepAll(books, s2)
    decreases |books|
  {
    if books != [] {
      var b := books[0];
      assert PassesAll(b, s1) <==> PassesAll(b, s2) by {
        if PassesAll(b, s1) {
          forall i | 0 <= i < |s2| ensures Matches(b, s2[i]) {
            assert s2[i] in s1;
          }
        }
        if PassesAll(b, s2) {
          forall i | 0 <= i < |s1| ensures Matches(b, s1[i]) {
            assert s1[i] in s2;
          }
        }
      }
      KeepAllSameStages(books[1..], s1, s2);
    }
  }

  /** Two filters applied one after the other give the same list in either order. */
  lemma KeepCommutes(books: seq<Book>, s1: Stage, s2: Stage)
    ensures Keep(Keep(books, s1), s2) == Keep(Keep(books, s2), s1)
  {
    KeepAllNothing(books);
    KeepAllAppend(books, [], s1);
    KeepAllAppend(books, [s1], s2);
    KeepAllAppend(books, [], s2);
    KeepAllAppend(books, [s2], s1);
    KeepAllSameStages(books, [s1, s2], [s2, s1]);
  }

  // ---------------------------------------------------------------------------
  // Order preservation and multiplicities

  /** `a` is `b` with some elements left out, the rest in their order. */
  predicate IsSubsequence<T(==)>(a: seq<T>, b: seq<T>)
    decreases |b|
  {
    a == [] || (b != [] && ((a[0] == b[0] && IsSubsequence(a[1..], b[1..])) || IsSubsequence(a, b[1..])))
  }

  lemma {:induction false} SubsequenceTransitive<T>(a: seq<T>, b: seq<T>, c: seq<T>)
    requires IsSubsequence(a, b) && IsSubsequence(b, c)
    ensures IsSubsequence(a, c)
    decreases |c|
  {
    if a != [] {
      if b[0] == c[0] && IsSubsequence(b[1..], c[1..]) {
        if a[0] == b[0] && IsSubsequence(a[1..], b[1..]) {
          SubsequenceTransitive(a[1..], b[1..], c[1..]);
        } else {
          SubsequenceTransitive(a, b[1..], c[1..]);
        }
      } else {
        SubsequenceTransitive(a, b, c[1..]);
      }
    }
  }

  lemma {:induction false} PrefixIsSubsequence<T>(s: seq<T>, n: nat)
    requires n <= |s|
    ensures IsSubsequence(s[..n], s)
    decreases |s|
  {
    if n > 0 {
      assert s[..n][1..] == s[1..][..n - 1];
      PrefixIsSubsequence(s[1..], n - 1);
    }
  }

  /** The filter keeps books in their order and never repeats one. */
  lemma {:induction false} KeepAllIsSubsequence(books: seq<Book>, stages: seq<Stage>)
    ensures IsSubsequence(KeepAll(books, stages), books)
    decreases |books|
  {
    if books != [] {
      KeepAllIsSubsequence(books[1..], stages);
      if PassesAll(books[0], stages) {
        var rest := KeepAll(books[1..], stages);
        assert ([books[0]] + rest)[1..] == rest;
      }
    }
  }

  /** Each book occurs in the filtered list as often as in the input when it passes, and not at all otherwise. */
  lemma {:induction false} KeepAllCount(books: seq<Book>, stages: seq<Stage>, b: Book)
    ensures multiset(KeepAll(books, stages))[b] == if PassesAll(b, stages) then multiset(books)[b] else 0
    decreases |books|
  {
    if books != [] {
      KeepAllCount(books[1..], stages, b);
      assert books == [books[0]] + books[1..];
      assert multiset(books) == multiset([books[0]]) + multiset(books[1..]);
    }
  }

  // ---------------------------------------------------------------------------
  // What the route promises

  /** The books passing the filters the request activates. */
  function Passing(books: seq<Book>, params: seq<Entry>): seq<Book> {
    KeepAll(books, ActiveStages(ReadCriteria(params)))
  }

  /** The handler answers 200 unless the query test throws on some book, and then 500 with a fixed message. */
  lemma RouteStatus(books: seq<Book>, params: seq<Entry>)
    ensures var c := ReadCriteria(params);
      Respond(books, c).status == 200 <==> !(c.query != "" && AnyQueryThrows(books, c.query))
    ensures var r := Respond(books, ReadCriteria(params));
      r.status != 200 ==> r == HttpResponse(500, Payload(None, None, Some("Internal server error"), None, None))
    ensures var r := Respond(books, ReadCriteria(params));
      r.status == 200 ==> r.data.books.Some? && r.data.error.None? && r.data.source == Some("mock-demo")
  {
  }

  /** The answer lists books of the input in their order, without repeating any. */
  lemma RouteResultIsSubsequence(books: seq<Book>, params: seq<Entry>)
    requires Respond(books, ReadCriteria(params)).status == 200
    ensures IsSubsequence(Respond(books, ReadCriteria(params)).data.books.value, books)
  {
    var c := ReadCriteria(params);
    var passing := Passing(books, params);
    PrefixIsSubsequence(passing, SliceEnd(|passing|, c.maxResults));
    KeepAllIsSubsequence(books, ActiveStages(c));
    SubsequenceTransitive(Slice(passing, c.maxResults), passing, books);
  }

  /**
   * Every book answered passes each filter whose parameter is non-empty:
   * lowercased title, an author, the description or a category contains
   * the lowercased query; an author contains the lowercased author; a
   * category contains the lowercased category.
   */
  lemma RouteResultMatches(books: seq<Book>, params: seq<Entry>, b: Book)
    requires Respond(books, ReadCriteria(params)).status == 200
    requires b in Respond(books, ReadCriteria(params)).data.books.value
    ensures Lookup(params, "q").Some? && Lookup(params, "q").value != "" ==>
      var q := Lower(Lookup(params, "q").value);
      Contains(Lower(b.title), q) || SomeContains(b.authors, q)
      || (b.description.Some? && Contains(Lower(b.description.value), q))
      || SomeContains(b.categories, q)
    ensures Lookup(params, "author").Some? && Lookup(params, "author").value != "" ==>
      SomeContains(b.authors, Lower(Lookup(params, "author").value))
    ensures Lookup(params, "category").Some? && Lookup(params, "category").value != "" ==>
      SomeContains(b.categories, Lower(Lookup(params, "category").value))
  {
    var c := ReadCriteria(params);
    var stages := ActiveStages(c);
    var passing := Passing(books, params);
    assert b in passing;
    KeepAllCount(books, stages, b);
    assert PassesAll(b, stages);
    LowerLength(Lookup(params, "q").GetOr(""));
    LowerLength(Lookup(params, "author").GetOr(""));
    LowerLength(Lookup(params, "category").GetOr(""));
    if c.query != "" {
      assert stages[0] == ByQuery(c.query);
    }
    if Truthy(c.author) {
      assert ByAuthor(c.author.value) in stages;
    }
    if Truthy(c.category) {
      assert stages[|stages| - 1] == ByCategory(c.category.value);
    }
  }

  /**
   * Completeness: the answer is the first books that pass every filter,
   * and a book passes exactly when it meets every active filter.
   */
  lemma RouteResultComplete(books: seq<Book>, params: seq<Entry>, b: Book)
    requires Respond(books, ReadCriteria(params)).status == 200
    ensures var r := Respond(books, ReadCriteria(params)).data.books.value;
      r == Passing(books, params)[..|r|]
    ensures multiset(Passing(books, params))[b]
      == if PassesAll(b, ActiveStages(ReadCriteria(params))) then multiset(books)[b] else 0
  {
    KeepAllCount(books, ActiveStages(ReadCriteria(params)), b);
  }

  /**
   * The number of books answered: `min(maxResults, passing)` for a
   * non-negative `maxResults`, 20 at most when the parameter is absent or
   * empty, none when it is not a number, and all but the last `-maxResults`
   * when it is negative.
   */
  lemma RouteResultLength(books: seq<Book>, params: seq<Entry>)
    requires Respond(books, ReadCriteria(params)).status == 200
    ensures var n := |Passing(books, params)|;
      var r := Respond(books, ReadCriteria(params)).data.books.value;
      var m := ReadCriteria(params).maxResults;
      && (m.Some? && m.value >= 0 ==> |r| == if m.value < n then m.value else n)
      && (m.Some? && m.value < 0 ==> |r| == if n + m.value < 0 then 0 else n + m.value)
      && (m.None? ==> |r| == 0)
      && (!Truthy(Lookup(params, "maxResults")) ==> |r| == if 20 < n then 20 else n)
  {
    ParseIntOfIntToString(20);
    assert IntToString(20) == "20";
  }

  /** The handler never reads `startIndex` or `sortBy`: setting either leaves the answer unchanged. */
  lemma RouteIgnoresStartIndexAndSortBy(books: seq<Book>, params: seq<Entry>, startIndex: string, sortBy: string)
    ensures var p := SetEntry(SetEntry(params, "startIndex", startIndex), "sortBy", sortBy);
      Respond(books, ReadCriteria(p)) == Respond(books, ReadCriteria(params))
  {
    var p1 := SetEntry(params, "startIndex", startIndex);
    var p2 := SetEntry(p1, "sortBy", sortBy);
    var names := ["q", "maxResults", "author", "category"];
    forall i | 0 <= i < |names| ensures Lookup(p2, names[i]) == Lookup(params, names[i]) {
      SetEntryFacts(params, "startIndex", startIndex, names[i]);
      SetEntryFacts(p1, "sortBy", sortBy, names[i]);
    }
    assert ReadCriteria(p2) == ReadCriteria(params) by {
      assert Lookup(p2, names[0]) == Lookup(params, names[0]);
      assert Lookup(p2, names[1]) == Lookup(params, names[1]);
      assert Lookup(p2, names[2]) == Lookup(params, names[2]);
      assert Lookup(p2, names[3]) == Lookup(params, names[3]);
    }
  }

  /** Matching is case-insensitive: a query differing only in letter case gives the same answer. */
  lemma RouteIgnoresCase(books: seq<Book>, params: seq<Entry>, q1: string, q2: string)
    requires Lower(q1) == Lower(q2)
    ensures Respond(books, ReadCriteria(SetEntry(params, "q", q1))) == Respond(books, ReadCriteria(SetEntry(params, "q", q2)))
  {
    var others := ["maxResults", "author", "category"];
    forall i | 0 <= i < |others|
      ensures Lookup(SetEntry(params, "q", q1), others[i]) == Lookup(SetEntry(params, "q", q2), others[i])
    {
      SetEntryFacts(params, "q", q1, others[i]);
      SetEntryFacts(params, "q", q2, others[i]);
    }
    SetEntryFacts(params, "q", q1, "");
    SetEntryFacts(params, "q", q2, "");
    assert others[0] == "maxResults" && others[1] == "author" && others[2] == "category";
  }

  // ---------------------------------------------------------------------------
  // The demonstration records

  /** Every demonstration record has a description, so the query test never throws on them. */
  lemma MockBooksNeverFail(params: seq<Entry>)
    ensures Respond(MockBooks, ReadCriteria(params)).status == 200
  {
  }

  /** A request with no truthy `q`, `author`, `category` or `maxResults` answers the first 20 books unfiltered. */
  lemma UnfilteredRequest(books: seq<Book>, params: seq<Entry>)
    requires !Truthy(Lookup(params, "q")) && !Truthy(Lookup(params, "maxResults"))
    requires !Truthy(Lookup(params, "author")) && !Truthy(Lookup(params, "category"))
    ensures Respond(books, ReadCriteria(params))
      == HttpResponse(200, BooksPayload(books[..if |books| < 20 then |books| else 20]))
  {
    ParseIntOfIntToString(20);
    assert IntToString(20) == "20";
    LowerLength(Lookup(params, "q").GetOr(""));
    LowerLength(Lookup(params, "author").GetOr(""));
    LowerLength(Lookup(params, "category").GetOr(""));
    assert ActiveStages(ReadCriteria(params)) == [];
    KeepAllNothing(books);
  }

  /** With only the defaults, all six demonstration records come back in list order. */
  lemma DefaultSearch()
    ensures Respond(MockBooks, ReadCriteria([])) == HttpResponse(200, BooksPayload(MockBooks))
  {
    UnfilteredRequest(MockBooks, []);
    assert MockBooks[..6] == MockBooks;
  }

  /** A book none of whose categories is as long as `c` fails the category filter `c`. */
  lemma CategoriesTooShort(b: Book, c: string)
    requires forall j | 0 <= j < |b.categories| :: |b.categories[j]| < |c|
    ensures !Matches(b, ByCategory(c))
  {
    forall j | 0 <= j < |b.categories| ensures !Contains(Lower(b.categories[j]), c) {
      LowerLength(b.categories[j]);
      NotContainsLonger(Lower(b.categories[j]), c);
    }
  }

  lemma LowerProgrammingLanguages()
    ensures Lower("Programming Languages") == "programming languages"
  {
  }

  /** Which demonstration records have a category containing "programming languages". */
  lemma CategoryMatches()
    ensures KeepAll(MockBooks, [ByCategory("programming languages")]) == [MockBook1, MockBook3]
  {
    var c := "programming languages";
    var st := [ByCategory(c)];
    LowerProgrammingLanguages();
    assert Matches(MockBook1, ByCategory(c)) by {
      assert MockBook1.categories[1] == "Programming Languages";
      assert OccursAt(Lower(MockBook1.categories[1]), c, 0);
    }
    assert Matches(MockBook3, ByCategory(c)) by {
      assert MockBook3.categories[1] == "Programming Languages";
      assert OccursAt(Lower(MockBook3.categories[1]), c, 0);
    }
    CategoriesTooShort(MockBook2, c);
    CategoriesTooShort(MockBook4, c);
    CategoriesTooShort(MockBook5, c);
    CategoriesTooShort(MockBook6, c);
    assert PassesAll(MockBook1, st) && !PassesAll(MockBook2, st) && PassesAll(MockBook3, st);
    assert !PassesAll(MockBook4, st) && !PassesAll(MockBook5, st) && !PassesAll(MockBook6, st);
    assert KeepAll(MockBooks[5..], st) == [];
    assert KeepAll(MockBooks[4..], st) == [];
    assert KeepAll(MockBooks[3..], st) == [];
    assert KeepAll(MockBooks[2..], st) == [MockBook3];
    assert KeepAll(MockBooks[1..], st) == [MockBook3];
  }

  /** The answer to a category search for "programming languages", whatever the truncation. */
  lemma CategoryAnswer(m: Option<int>)
    ensures Respond(MockBooks, Criteria("", m, None, Some("programming languages")))
      == HttpResponse(200, BooksPayload(Slice([MockBook1, MockBook3], m)))
  {
    var c := Criteria("", m, None, Some("programming languages"));
    assert ActiveStages(c) == [ByCategory("programming languages")];
    CategoryMatches();
  }

  /** The category "Programming Languages" selects the first and third records. */
  lemma CategorySearch()
    ensures Respond(MockBooks, ReadCriteria([("category", "Programming Languages")]))
      == HttpResponse(200, BooksPayload([MockBook1, MockBook3]))
  {
    var p := [("category", "Programming Languages")];
    ParseIntOfIntToString(20);
    assert IntToString(20) == "20";
    LowerProgrammingLanguages();
    assert Lookup(p, "q") == None && Lookup(p, "maxResults") == None && Lookup(p, "author") == None;
    assert Lookup(p, "category") == Some("Programming Languages");
    assert ReadCriteria(p) == Criteria("", Some(20), None, Some("programming languages"));
    CategoryAnswer(Some(20));
    assert Slice([MockBook1, MockBook3], Some(20)) == [MockBook1, MockBook3];
  }

  /** `maxResults=1` keeps only the first match. */
  lemma CategorySearchFirstOnly()
    ensures Respond(MockBooks, ReadCriteria([("category", "Programming Languages"), ("maxResults", "1")]))
      == HttpResponse(200, BooksPayload([MockBook1]))
  {
    var p := [("category", "Programming Languages"), ("maxResults", "1")];
    ParseIntOfIntToString(1);
    assert IntToString(1) == "1";
    LowerProgrammingLanguages();
    assert Lookup(p, "q") == None && Lookup(p, "author") == None;
    assert Lookup(p, "maxResults") == Some("1");
    assert Lookup(p, "category") == Some("Programming Languages");
    assert ReadCriteria(p) == Criteria("", Some(1), None, Some("programming languages"));
    CategoryAnswer(Some(1));
    assert Slice([MockBook1, MockBook3], Some(1)) == [MockBook1];
  }

  /** A `maxResults` that is not a number makes `slice(0, NaN)`, which is empty. */
  lemma NonNumericMaxResults()
    ensures Respond(MockBooks, ReadCriteria([("maxResults", "abc")])) == HttpResponse(200, BooksPayload([]))
  {
    assert ParseInt("abc") == None;
  }

  /** A negative `maxResults` counts from the back: `-1` drops the last record. */
  lemma NegativeMaxResults()
    ensures Respond(MockBooks, ReadCriteria([("maxResults", "-1")])) == HttpResponse(200, BooksPayload(MockBooks[..5]))
  {
    ParseIntOfIntToString(-1);
    assert IntToString(-1) == "-1";
    KeepAllNothing(MockBooks);
  }

  /** Every record has the category "Computers", so that query finds all six. */
  lemma QuerySearch()
    ensures Respond(MockBooks, ReadCriteria([("q", "Computers")])) == HttpResponse(200, BooksPayload(MockBooks))
  {
    var p := [("q", "Computers")];
    var q := "computers";
    ParseIntOfIntToString(20);
    assert IntToString(20) == "20";
    assert Lower("Computers") == q;
    assert ReadCriteria(p) == Criteria(q, Some(20), None, None);
    assert ActiveStages(ReadCriteria(p)) == [ByQuery(q)];
    forall i | 0 <= i < |MockBooks| ensures PassesAll(MockBooks[i], [ByQuery(q)]) {
      assert MockBooks[i].categories[0] == "Computers";
      assert OccursAt(Lower(MockBooks[i].categories[0]), q, 0);
      assert Matches(MockBooks[i], ByQuery(q));
    }
    KeepAllEvery(MockBooks, [ByQuery(q)]);
    assert MockBooks[..6] == MockBooks;
  }

  /** When every book passes, the filter keeps them all. */
  lemma {:induction false} KeepAllEvery(books: seq<Book>, stages: seq<Stage>)
    requires forall i | 0 <= i < |books| :: PassesAll(books[i], stages)
    ensures KeepAll(books, stages) == books
    decreases |books|
  {
    if books != [] {
      assert PassesAll(books[0], stages);
      KeepAllEvery(books[1..], stages);
    }
  }
}
