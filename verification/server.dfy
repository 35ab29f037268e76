/** The route handlers of the backend. Each handler validates the fields it
    needs, invokes at most one adapter, and turns the adapter's result into
    a status and a JSON envelope. Adapters are parameters here; `Serve`
    wires in the adapter models of this project. */
module Server {
  import opened Js
  import opened Http
  import OpenLibrary
  import AniList
  import Kapowarr
  import Readarr

  type BookResult = OpenLibrary.BookResult
  type ComicResult = AniList.ComicResult
  type BookSubmission = Readarr.BookSubmission

  const StatusOk := 200
  const BadRequest := 400
  const ServerError := 500

  const BookTitleRequired := "Book title is required."
  const ComicTitleRequired := "Comic title is required."
  const BookFieldsRequired := "Book title and author are required."
  const BooksFailed := "Failed to fetch books."
  const TopComicsFailed := "Failed to fetch top comics."
  const SearchComicsFailed := "Failed to fetch comics by search."
  const AddComicFailed := "Failed to add comic to Kapowarr."
  const AddBookFailed := "Failed to add book to Readarr."

  /** Every error text a route can send; none of them comes from an adapter. */
  const ErrorTexts := {BookTitleRequired, ComicTitleRequired, BookFieldsRequired, BooksFailed,
                       TopComicsFailed, SearchComicsFailed, AddComicFailed, AddBookFailed}

  const ComicAddedPrefix := "Comic \""
  const ComicAddedSuffix := "\" added successfully to Kapowarr."
  const BookRequestedPrefix := "Book \""
  const BookRequestedSuffix := "\" requested successfully in Readarr."

  /** The JSON object a route sends back. */
  datatype Envelope =
    | Books(books: seq<BookResult>)
    | Comics(comics: seq<ComicResult>)
    | Acknowledged(message: string, field: string, upstream: Json)
    | Error(error: string)

  datatype Response = Response(status: int, body: Envelope)

  /** An inbound request with the fields its route reads from the query
      string or the JSON body. */
  datatype Request =
    | SearchBooks(title: Option<string>)
    | TopComics
    | SearchComics(title: Option<string>)
    | AddComic(title: Option<string>)
    | AddBook(title: Option<string>, author: Option<string>, isbn: Option<string>)

  /** An adapter invocation and the argument it was given. */
  datatype AdapterCall =
    | CallSearchBooks(title: string)
    | CallTopComics
    | CallSearchComics(title: string)
    | CallAddComic(comic: ComicResult)
    | CallAddBook(book: BookSubmission)

  /** What each adapter returns for a given argument. */
  datatype Adapters = Adapters(
    searchBooks: string -> Result<seq<BookResult>>,
    topComics: Result<seq<ComicResult>>,
    searchComics: string -> Result<seq<ComicResult>>,
    addComic: ComicResult -> Result<Json>,
    addBook: BookSubmission -> Result<Json>)

  /** A handled request: the response and the adapter calls made, in order. */
  datatype Handled = Handled(response: Response, calls: seq<AdapterCall>)

  function ComicAdded(title: string): string {
    Fill(ComicAddedPrefix, title, ComicAddedSuffix)
  }

  function BookRequested(title: string): string {
    Fill(BookRequestedPrefix, title, BookRequestedSuffix)
  }

  /** The client can read the requested title back out of the success message. */
  lemma BookRequestedNamesTitle(title: string)
    ensures Unfill(BookRequestedPrefix, BookRequestedSuffix, BookRequested(title)) == Some(title)
  {
  }

  function Fail(message: string): Response {
    Response(ServerError, Error(message))
  }

  function Reject(message: string): Response {
    Response(BadRequest, Error(message))
  }

  /** GET /search-books. */
  function HandleSearchBooks(title: Option<string>, searchBooks: string -> Result<seq<BookResult>>): (h: Handled)
    ensures !Truthy(title) ==> h == Handled(Reject(BookTitleRequired), [])
    ensures Truthy(title) ==> h.calls == [CallSearchBooks(title.value)]
    ensures Truthy(title) && searchBooks(title.value).Success? ==>
              h.response == Response(StatusOk, Books(searchBooks(title.value).value))
    ensures Truthy(title) && searchBooks(title.value).Failure? ==> h.response == Fail(BooksFailed)
  {
    if !Truthy(title) then Handled(Reject(BookTitleRequired), [])
    else
      var response := match searchBooks(title.value)
        case Success(books) => Response(StatusOk, Books(books))
        case Failure(_) => Fail(BooksFailed);
      Handled(response, [CallSearchBooks(title.value)])
  }

  /** GET /top-comics: no input to check. */
  function HandleTopComics(topComics: Result<seq<ComicResult>>): (h: Handled)
    ensures h.calls == [CallTopComics]
    ensures topComics.Success? ==> h.response == Response(StatusOk, Comics(topComics.value))
    ensures topComics.Failure? ==> h.response == Fail(TopComicsFailed)
  {
    var response := match topComics
      case Success(comics) => Response(StatusOk, Comics(comics))
      case Failure(_) => Fail(TopComicsFailed);
    Handled(response, [CallTopComics])
  }

  /** GET /search-comics. */
  function HandleSearchComics(title: Option<string>, searchComics: string -> Result<seq<ComicResult>>): (h: Handled)
    ensures !Truthy(title) ==> h == Handled(Reject(ComicTitleRequired), [])
    ensures Truthy(title) ==> h.calls == [CallSearchComics(title.value)]
    ensures Truthy(title) && searchComics(title.value).Success? ==>
              h.response == Response(StatusOk, Comics(searchComics(title.value).value))
    ensures Truthy(title) && searchComics(title.value).Failure? ==> h.response == Fail(SearchComicsFailed)
  {
    if !Truthy(title) then Handled(Reject(ComicTitleRequired), [])
    else
      var response := match searchComics(title.value)
        case Success(comics) => Response(StatusOk, Comics(comics))
        case Failure(_) => Fail(SearchComicsFailed);
      Handled(response, [CallSearchComics(title.value)])
  }

  /** POST /add-comic as written: the route calls `searchComics`, which no
      module declares, so every request that passes the title check throws
      a ReferenceError inside the `try` and gets the generic 500; Kapowarr
      is never reached. */
  function HandleAddComic(title: Option<string>): (h: Handled)
    ensures !Truthy(title) ==> h.response == Reject(ComicTitleRequired)
    ensures Truthy(title) ==> h.response == Fail(AddComicFailed)
    ensures h.calls == []
  {
    if !Truthy(title) then Handled(Reject(ComicTitleRequired), [])
    else Handled(Fail(AddComicFailed), [])
  }

  /** CORRECTED /add-comic, not the deployed behaviour: fetch the comic
      through the title search, then submit the first match to Kapowarr.
      An empty search result is answered like a failure, without submitting. */
  function AddComicFetchThenSubmit(title: Option<string>, searchComics: string -> Result<seq<ComicResult>>,
                                   addComic: ComicResult -> Result<Json>): (h: Handled)
    ensures !Truthy(title) ==> h == Handled(Reject(ComicTitleRequired), [])
    ensures Truthy(title) ==> |h.calls| >= 1 && h.calls[0] == CallSearchComics(title.value)
    ensures |h.calls| == 2 <==> Truthy(title) && searchComics(title.value).Success? && |searchComics(title.value).value| > 0
    ensures |h.calls| == 2 ==> h.calls[1] == CallAddComic(searchComics(title.value).value[0])
    ensures h.response.status == StatusOk <==> |h.calls| == 2 && addComic(searchComics(title.value).value[0]).Success?
    ensures h.response.status == StatusOk ==>
              var comic := searchComics(title.value).value[0];
              h.response.body == Acknowledged(ComicAdded(comic.title), "kapowarrResponse", addComic(comic).value)
    ensures Truthy(title) && h.response.status != StatusOk ==> h.response == Fail(AddComicFailed)
  {
    if !Truthy(title) then Handled(Reject(ComicTitleRequired), [])
    else
      var search := CallSearchComics(title.value);
      match searchComics(title.value)
      case Failure(_) => Handled(Fail(AddComicFailed), [search])
      case Success(comics) =>
        if |comics| == 0 then Handled(Fail(AddComicFailed), [search])
        else
          var comic := comics[0];
          var response := match addComic(comic)
            case Success(ack) => Response(StatusOk, Acknowledged(ComicAdded(comic.title), "kapowarrResponse", ack))
            case Failure(_) => Fail(AddComicFailed);
          Handled(response, [search, CallAddComic(comic)])
  }

  /** POST /add-book. */
  function HandleAddBook(title: Option<string>, author: Option<string>, isbn: Option<string>,
                         addBook: BookSubmission -> Result<Json>): (h: Handled)
    ensures !Truthy(title) || !Truthy(author) ==> h == Handled(Reject(BookFieldsRequired), [])
    ensures Truthy(title) && Truthy(author) ==>
              h.calls == [CallAddBook(Readarr.BookSubmission(title, author, isbn))]
    ensures h.response.status == StatusOk ==>
              h.response.body.Acknowledged? && h.response.body.field == "readarrResponse"
              && Unfill(BookRequestedPrefix, BookRequestedSuffix, h.response.body.message) == title
              && addBook(Readarr.BookSubmission(title, author, isbn)).Success?
              && h.response.body.upstream == addBook(Readarr.BookSubmission(title, author, isbn)).value
    ensures Truthy(title) && Truthy(author) ==>
              (h.response.status == StatusOk <==> addBook(Readarr.BookSubmission(title, author, isbn)).Success?)
    ensures Truthy(title) && Truthy(author) && h.response.status != StatusOk ==> h.response == Fail(AddBookFailed)
  {
    if !Truthy(title) || !Truthy(author) then Handled(Reject(BookFieldsRequired), [])
    else
      var book := Readarr.BookSubmission(title, author, isbn);
      BookRequestedNamesTitle(title.value);
      var response := match addBook(book)
        case Success(ack) => Response(StatusOk, Acknowledged(BookRequested(title.value), "readarrResponse", ack))
        case Failure(_) => Fail(AddBookFailed);
      Handled(response, [CallAddBook(book)])
  }

  /** The deployed routing table. Which adapters a route calls, and with
      what, never depends on what the adapters answer; a request is
      rejected with 400 exactly when a field its route needs is missing. */
  function Handle(req: Request, adapters: Adapters): (h: Handled)
    ensures h.calls == CallsFor(req)
    ensures h.response.status == BadRequest <==> !RequiredFieldsPresent(req)
  {
    match req
    case SearchBooks(title) => HandleSearchBooks(title, adapters.searchBooks)
    case TopComics => HandleTopComics(adapters.topComics)
    case SearchComics(title) => HandleSearchComics(title, adapters.searchComics)
    case AddComic(title) => HandleAddComic(title)
    case AddBook(title, author, isbn) => HandleAddBook(title, author, isbn, adapters.addBook)
  }

  /** The fields each route insists on, present and non-empty. */
  predicate RequiredFieldsPresent(req: Request) {
    match req
    case SearchBooks(title) => Truthy(title)
    case TopComics => true
    case SearchComics(title) => Truthy(title)
    case AddComic(title) => Truthy(title)
    case AddBook(title, author, _) => Truthy(title) && Truthy(author)
  }

  /** The adapter calls each route makes, read off the request alone. */
  function CallsFor(req: Request): seq<AdapterCall> {
    match req
    case SearchBooks(title) => if Truthy(title) then [CallSearchBooks(title.value)] else []
    case TopComics => [CallTopComics]
    case SearchComics(title) => if Truthy(title) then [CallSearchComics(title.value)] else []
    case AddComic(_) => []
    case AddBook(title, author, isbn) =>
      if Truthy(title) && Truthy(author) then [CallAddBook(Readarr.BookSubmission(title, author, isbn))] else []
  }

  /** A request is rejected with 400 exactly when a required field is missing
      or empty, and a rejected request reaches no adapter. Every other
      request makes at most one adapter call. */
  lemma ValidationBeforeAdapters(req: Request, adapters: Adapters)
    ensures Handle(req, adapters).response.status == BadRequest <==> !RequiredFieldsPresent(req)
    ensures !RequiredFieldsPresent(req) ==> Handle(req, adapters).calls == []
    ensures |Handle(req, adapters).calls| <= 1
  {
  }

  /** Every response is 200, 400 or 500; the error envelope goes with the
      error statuses only, and its text is one of the routes' own. */
  lemma ResponsesAreWellFormed(req: Request, adapters: Adapters)
    ensures Handle(req, adapters).response.status in {StatusOk, BadRequest, ServerError}
    ensures Handle(req, adapters).response.body.Error? <==> Handle(req, adapters).response.status != StatusOk
    ensures Handle(req, adapters).response.body.Error? ==> Handle(req, adapters).response.body.error in ErrorTexts
  {
  }

  /** Two adapter results that are both failures, or are the same success. */
  predicate SameUpToDetail<T(==)>(a: Result<T>, b: Result<T>) {
    (a.Failure? && b.Failure?) || a == b
  }

  /** Two adapter sets that differ at most in their failure messages. */
  ghost predicate AgreeUpToDetail(a: Adapters, b: Adapters) {
    && (forall t :: SameUpToDetail(a.searchBooks(t), b.searchBooks(t)))
    && SameUpToDetail(a.topComics, b.topComics)
    && (forall t :: SameUpToDetail(a.searchComics(t), b.searchComics(t)))
    && (forall c :: SameUpToDetail(a.addComic(c), b.addComic(c)))
    && (forall k :: SameUpToDetail(a.addBook(k), b.addBook(k)))
  }

  /** The client never learns an adapter's error detail: adapters that fail
      with different messages produce identical responses. */
  lemma ErrorDetailNeverLeaks(req: Request, a: Adapters, b: Adapters)
    requires AgreeUpToDetail(a, b)
    ensures Handle(req, a) == Handle(req, b)
  {
  }

  /** As written, /add-comic can never succeed: whatever Kapowarr and the
      media catalog would answer, a titled request gets 500 and no adapter
      is called. */
  lemma AddComicAsWrittenNeverSubmits(title: string, adapters: Adapters)
    requires title != ""
    ensures Handle(AddComic(Some(title)), adapters).response == Fail(AddComicFailed)
    ensures Handle(AddComic(Some(title)), adapters).calls == []
  {
  }

  /** The corrected flow reaches Kapowarr with the record the search
      returned, and its success message names that record's title. */
  lemma FetchThenSubmitSucceeds(title: string, adapters: Adapters)
    requires title != ""
    requires adapters.searchComics(title).Success? && |adapters.searchComics(title).value| > 0
    requires adapters.addComic(adapters.searchComics(title).value[0]).Success?
    ensures var h := AddComicFetchThenSubmit(Some(title), adapters.searchComics, adapters.addComic);
            var comic := adapters.searchComics(title).value[0];
            && h.response.status == StatusOk
            && h.calls == [CallSearchComics(title), CallAddComic(comic)]
            && Unfill(ComicAddedPrefix, ComicAddedSuffix, h.response.body.message) == Some(comic.title)
  {
  }

  /** Deployment configuration, one entry per acquisition service. */
  datatype Configs = Configs(readarr: ServiceConfig, kapowarr: ServiceConfig)

  /** What each upstream answers to this request's outbound call, if any. */
  datatype Upstreams = Upstreams(
    catalog: Outcome<OpenLibrary.SearchResponse>,
    media: Outcome<AniList.MediaPage>,
    readarr: Outcome<Json>,
    kapowarr: Outcome<Json>)

  datatype Served = Served(response: Response, sent: seq<Outbound>)

  /** The adapter models of this project, run against the given upstreams. */
  function Wired(cfg: Configs, ups: Upstreams): Adapters {
    Adapters(
      t => OpenLibrary.SearchBooks(t, ups.catalog).result,
      AniList.FetchTopComics(ups.media).result,
      t => AniList.FetchComicsBySearch(t, ups.media).result,
      c => Kapowarr.AddComicToKapowarr(cfg.kapowarr, c, ups.kapowarr).result,
      k => Readarr.AddBookToReadarr(cfg.readarr, k, ups.readarr).result)
  }

  /** The outbound requests one adapter call sends: at most one, and none
      from an acquisition adapter whose service is not configured. */
  function Perform(call: AdapterCall, cfg: Configs, ups: Upstreams): (sent: seq<Outbound>)
    ensures |sent| <= 1
    ensures call.CallAddBook? && !Configured(cfg.readarr) ==> sent == []
    ensures call.CallAddComic? && !Configured(cfg.kapowarr) ==> sent == []
  {
    match call
    case CallSearchBooks(t) => OpenLibrary.SearchBooks(t, ups.catalog).sent
    case CallTopComics => AniList.FetchTopComics(ups.media).sent
    case CallSearchComics(t) => AniList.FetchComicsBySearch(t, ups.media).sent
    case CallAddComic(c) => Kapowarr.AddComicToKapowarr(cfg.kapowarr, c, ups.kapowarr).sent
    case CallAddBook(k) => Readarr.AddBookToReadarr(cfg.readarr, k, ups.readarr).sent
  }

  /** The outbound requests of a sequence of adapter calls, in call order:
      no more requests than calls, and none when no call sends any. */
  function PerformAll(calls: seq<AdapterCall>, cfg: Configs, ups: Upstreams): (sent: seq<Outbound>)
    ensures calls == [] ==> sent == []
    ensures |calls| == 1 ==> sent == Perform(calls[0], cfg, ups)
    ensures |sent| <= |calls|
    ensures (forall i | 0 <= i < |calls| :: Perform(calls[i], cfg, ups) == []) ==> sent == []
  {
    if |calls| == 0 then [] else Perform(calls[0], cfg, ups) + PerformAll(calls[1..], cfg, ups)
  }

  /** One request through the deployed server, end to end: the handler's
      response, and the outbound requests of the adapter calls it made.
      Validation happens before any outbound request, and a request sends
      at most one. */
  function Serve(req: Request, cfg: Configs, ups: Upstreams): (s: Served)
    ensures s.response.status == BadRequest <==> !RequiredFieldsPresent(req)
    ensures s.response.status == BadRequest ==> s.sent == []
    ensures |s.sent| <= 1
    ensures req.AddComic? ==> s.sent == []
    ensures req.AddBook? && RequiredFieldsPresent(req) && !Configured(cfg.readarr) ==>
              s.response == Fail(AddBookFailed) && s.sent == []
  {
    var adapters := Wired(cfg, ups);
    assert !Configured(cfg.readarr) ==> forall k :: adapters.addBook(k).Failure?;
    RouteFacts(req, adapters, cfg.readarr);
    SentFacts(req, cfg, ups);
    Served(Handle(req, adapters).response, PerformAll(CallsFor(req), cfg, ups))
  }

  /** The response half of `Serve`, for any adapters whose book submission
      fails whenever Readarr is unconfigured. */
  lemma RouteFacts(req: Request, adapters: Adapters, readarr: ServiceConfig)
    requires !Configured(readarr) ==> forall k :: adapters.addBook(k).Failure?
    ensures Handle(req, adapters).response.status == BadRequest <==> !RequiredFieldsPresent(req)
    ensures req.AddBook? && RequiredFieldsPresent(req) && !Configured(readarr) ==>
              Handle(req, adapters).response == Fail(AddBookFailed)
  {
    ValidationBeforeAdapters(req, adapters);
    if req.AddBook? && RequiredFieldsPresent(req) && !Configured(readarr) {
      var book := Readarr.BookSubmission(req.title, req.author, req.isbn);
      assert adapters.addBook(book).Failure?;
      AddBookFailureIsGeneric(req.title.value, req.author.value, req.isbn, adapters);
    }
  }

  /** The outbound half of `Serve`. */
  lemma SentFacts(req: Request, cfg: Configs, ups: Upstreams)
    ensures !RequiredFieldsPresent(req) ==> PerformAll(CallsFor(req), cfg, ups) == []
    ensures |PerformAll(CallsFor(req), cfg, ups)| <= 1
    ensures req.AddComic? ==> PerformAll(CallsFor(req), cfg, ups) == []
    ensures req.AddBook? && !Configured(cfg.readarr) ==> PerformAll(CallsFor(req), cfg, ups) == []
  {
  }

  /** Whatever its adapters answer, a book submission they fail gets the generic 500. */
  lemma AddBookFailureIsGeneric(title: string, author: string, isbn: Option<string>, adapters: Adapters)
    requires title != "" && author != ""
    requires adapters.addBook(Readarr.BookSubmission(Some(title), Some(author), isbn)).Failure?
    ensures Handle(AddBook(Some(title), Some(author), isbn), adapters).response == Fail(AddBookFailed)
  {
  }

  /** A titled book search the catalog answers with a `docs` array sends
      exactly the catalog query and answers 200 with every document
      normalised, in upstream order. */
  lemma SearchBooksServed(title: Option<string>, cfg: Configs, ups: Upstreams)
    requires Truthy(title) && ups.catalog.Ok? && ups.catalog.body.docs.Some?
    ensures Serve(SearchBooks(title), cfg, ups) ==
              Served(Response(StatusOk, Books(OpenLibrary.NormaliseAll(ups.catalog.body.docs.value))),
                     [OpenLibrary.SearchRequest(title.value)])
  {
    var x := OpenLibrary.SearchBooks(title.value, ups.catalog);
    assert Wired(cfg, ups).searchBooks(title.value) == x.result;
    assert x.result == Success(OpenLibrary.NormaliseAll(ups.catalog.body.docs.value));
    assert PerformAll(CallsFor(SearchBooks(title)), cfg, ups) == x.sent;
  }

  /** A complete book request with Readarr configured sends exactly one
      authorised POST of the submission. */
  lemma AddBookServedSends(title: Option<string>, author: Option<string>, isbn: Option<string>,
                           cfg: Configs, ups: Upstreams)
    requires Truthy(title) && Truthy(author) && Configured(cfg.readarr)
    ensures Serve(AddBook(title, author, isbn), cfg, ups).sent ==
              [AuthorisedPost(cfg.readarr, Readarr.BookPath, Readarr.Payload(Readarr.BookSubmission(title, author, isbn)))]
  {
    var x := Readarr.AddBookToReadarr(cfg.readarr, Readarr.BookSubmission(title, author, isbn), ups.readarr);
    assert PerformAll(CallsFor(AddBook(title, author, isbn)), cfg, ups) == x.sent;
  }

  /** A complete book request with Readarr configured is answered 200
      exactly when Readarr accepts the submission. */
  lemma AddBookServedAnswers(title: Option<string>, author: Option<string>, isbn: Option<string>,
                             cfg: Configs, ups: Upstreams)
    requires Truthy(title) && Truthy(author) && Configured(cfg.readarr)
    ensures Serve(AddBook(title, author, isbn), cfg, ups).response.status == StatusOk <==> ups.readarr.Ok?
  {
    var req := AddBook(title, author, isbn);
    var adapters := Wired(cfg, ups);
    assert Serve(req, cfg, ups).response == Handle(req, adapters).response;
    var x := Readarr.AddBookToReadarr(cfg.readarr, Readarr.BookSubmission(title, author, isbn), ups.readarr);
    assert adapters.addBook(Readarr.BookSubmission(title, author, isbn)) == x.result;
    AddBookAnswer(title, author, isbn, adapters);
  }

  /** For any adapters, a complete book request is answered 200 exactly
      when the submission succeeds. */
  lemma AddBookAnswer(title: Option<string>, author: Option<string>, isbn: Option<string>, adapters: Adapters)
    requires Truthy(title) && Truthy(author)
    ensures Handle(AddBook(title, author, isbn), adapters).response.status == StatusOk <==>
              adapters.addBook(Readarr.BookSubmission(title, author, isbn)).Success?
  {
  }

  /** Served comic lists never carry an empty title, whichever mode produced them. */
  lemma ComicTitlesNonEmpty(req: Request, cfg: Configs, ups: Upstreams)
    requires req.SearchComics? || req.TopComics?
    ensures var r := Serve(req, cfg, ups).response;
            r.status == StatusOk ==>
              r.body.Comics? && forall i | 0 <= i < |r.body.comics| :: r.body.comics[i].title != ""
  {
    var r := Serve(req, cfg, ups).response;
    if r.status != StatusOk { return; }
    var x := if req.TopComics? then AniList.FetchTopComics(ups.media)
             else AniList.FetchComicsBySearch(req.title.value, ups.media);
    assert x.result.Success? && r.body.comics == x.result.value;
    var ms := ups.media.body.media.value;
    forall i | 0 <= i < |r.body.comics| ensures r.body.comics[i].title != "" {
      assert AniList.Normalise(ms[i]) == Some(r.body.comics[i]);
    }
  }

  /** Served book lists never carry an empty author. */
  lemma BookAuthorsNonEmpty(title: Option<string>, cfg: Configs, ups: Upstreams)
    ensures var r := Serve(SearchBooks(title), cfg, ups).response;
            r.status == StatusOk ==>
              r.body.Books? && forall i | 0 <= i < |r.body.books| :: r.body.books[i].author != ""
  {
    var r := Serve(SearchBooks(title), cfg, ups).response;
    if r.status != StatusOk { return; }
    var x := OpenLibrary.SearchBooks(title.value, ups.catalog);
    assert x.result.Success? && r.body.books == x.result.value;
  }
}
