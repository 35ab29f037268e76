# OrcaHub backend: normalisation, validation and routing, in Dafny

OrcaHub is a small media-discovery application. Its Express backend exposes
five routes; each checks the fields it needs, calls one adapter, and wraps the
adapter's result in a JSON envelope. The adapters talk to four upstreams:

- the OpenLibrary book catalog, searched by title;
- the AniList GraphQL media catalog, queried for a top list or by title;
- the Kapowarr comic manager, which receives acquisition requests;
- the Readarr book manager, which receives acquisition requests.

This project models that layer as pure functions over immutable datatypes,
and proves what each piece promises.

- `Js` (`js.dfy`) holds the JavaScript semantics the code relies on.
  - `Option` stands for a field that may be `undefined` or `null`.
  - `Truthy` is string truthiness: absent, `null` and `""` are falsy.
  - `First` is `xs?.[0]`, and `Coalesce` and `Default` are `||` chains.
  - `Fill` and `Unfill` are one-hole template literals.
  - `Json` is a JSON document.
- `Http` (`http.dfy`) holds outbound requests as values and the upstream's answer as an `Outcome`.
  - An `Outcome` is a parsed 2xx body, or a failure with its detail.
  - A `Result` is what an adapter returns or the message it throws.
  - An `Exchange` is the requests an adapter sent plus its result.
  - It also holds the acquisition services' configuration guard and their authorised POST.
- `OpenLibrary`, `AniList`, `Kapowarr` and `Readarr` hold the four adapters.
  - Each adapter takes the upstream's answer as a parameter.
  - Each returns what it sent and what it produced.
- `Server` holds the five route handlers.
  - Each handler takes its adapter as a function and returns the response plus the list of adapter calls it made.
  - `Handle` is the deployed routing table.
  - `Serve` wires in the adapter models and the upstream outcomes, and gives the outbound requests of one inbound request.

## Behaviours worth noting

- Whitespace-only titles are accepted. The server tests only `!title` (server/index.js:21, 102), so `"  "` passes validation. `RequiredFieldsPresent` is truthiness. The trim happens only in the browser.
- A media item without a `title` object throws. `comic.title.english` is read without `?.` (server/api/Anilist.js:37). The throw happens inside the adapter's `try`, so the whole list fails with the mode's message. `AniList.Normalise` returns `None` for such an item.
- A missing array also throws. When `response.data.docs` or `data.Page.media` is absent, `.map` throws inside the `try`, and the adapter reports its usual failure.
- Book titles are copied as they are, absent included, so `BookResult.title` is an `Option`.
- `/add-comic` cannot succeed as written. See Findings.

## Model

| member | source | states |
|---|---|---|
| Js.First | server/api/OpenLibrary.js:12 | `xs?.[0]` is absent exactly when the array is absent or empty, else its first element |
| Js.Coalesce | server/api/Anilist.js:37 | an `a \|\| b \|\| …` chain yields a truthy value, and it is the first truthy candidate; it yields null exactly when every candidate is falsy |
| Js.OrNull | server/api/OpenLibrary.js:12 | `x \|\| null` keeps a truthy value and turns `undefined`, `null` and `""` into null |
| Js.ChainNeverEmpty | server/api/Anilist.js:37 | a fallback chain ending in a non-empty literal never yields the empty string |
| Js.UnfillFill | server/api/OpenLibrary.js:18 | a one-hole template literal loses nothing: the hole can be read back from the filled string |
| Js.FillInjective | server/index.js:111 | a template gives distinct strings for distinct holes |
| Http.AuthorisedPost | server/api/Kapowarr.js:23-31 | the acquisition POST goes to base URL followed by the path, and carries exactly the `X-Api-Key` header (the configured key) and the JSON content type |
| Http.Submit | server/api/Readarr.js:8-36 | the shared shape of both acquisition adapters: an absent or empty key or base URL sends nothing and fails with the configuration message; otherwise exactly one authorised POST is sent, and the upstream's body is returned on success, or the adapter's fixed failure message on any upstream error |
| OpenLibrary.CoverUrl | server/api/OpenLibrary.js:18 | the cover URL is the covers host's `olid` path, then the edition id, then `-M.jpg` |
| OpenLibrary.CoverUrlRoundTrip | server/api/OpenLibrary.js:17-19 | the edition id can be read back out of its cover URL |
| OpenLibrary.CoverUrlInjective | server/api/OpenLibrary.js:17-19 | distinct editions get distinct cover URLs |
| OpenLibrary.Normalise | server/api/OpenLibrary.js:11-21 | title copied unchanged; author is the first `author_name` entry when truthy, else "Unknown Author", so never empty; olid is the first `edition_key` entry when it is truthy, else null (a falsy first entry gives null even when a later entry is truthy); cover URL is null iff olid is null, else the `-M.jpg` cover URL of that olid |
| OpenLibrary.NormaliseAll | server/api/OpenLibrary.js:11 | one result per document, same length, element i normalises document i |
| OpenLibrary.NormaliseAllAppend | server/api/OpenLibrary.js:11 | normalising a concatenation concatenates the normalised parts: no reordering, dropping or merging |
| OpenLibrary.SearchRequest | server/api/OpenLibrary.js:6-8 | one GET to the catalog's search URL with exactly the parameters `title` (the caller's) and `limit` = 5 |
| OpenLibrary.SearchBooks | server/api/OpenLibrary.js:4-26 | sends the one search request; succeeds iff the upstream answered with a `docs` array, then with that array normalised in order; any failure is "Failed to fetch books from OpenLibrary", with no partial list |
| AniList.Normalise | server/api/Anilist.js:35-40 | fails iff the item has no `title` object; otherwise the id is copied and the title is English if truthy, else romaji if truthy, else "Unknown Title" (never empty); the cover URL is `coverImage.large` when present and truthy, else null; the description is the upstream's when truthy, else "No description available." |
| AniList.NormaliseAll | server/api/Anilist.js:76-81 | succeeds iff every item has a title object, and then gives one result per item, element i normalising item i |
| AniList.NormaliseAllAppend | server/api/Anilist.js:35 | normalising a concatenation succeeds iff both parts do, and concatenates their results |
| AniList.FetchComics | server/api/Anilist.js:27-44 | one request; succeeds iff the upstream answered with a media list whose items all have titles, and then returns exactly its normalisation; otherwise the mode's message |
| AniList.FetchTopComics | server/api/Anilist.js:8-45 | one POST to the GraphQL endpoint with page size 20 and no search variable; fails with "Failed to fetch top comics." |
| AniList.FetchComicsBySearch | server/api/Anilist.js:50-86 | one POST with page size 10 and `variables.search` equal to the title; fails with "Failed to fetch comics by search." |
| AniList.ModesAgree | server/api/Anilist.js:76-84 | both modes succeed on the same upstream answers with identical lists; on failure their messages differ |
| AniList.WatchmenSearch | server/api/Anilist.js:69-81 | a search for "Watchmen" answered by one item titled "Watchmen" in English yields exactly one comic titled "Watchmen" with the item's id |
| Kapowarr.Payload | server/api/Kapowarr.js:14-20 | the payload has exactly the fields title, description, coverUrl, externalId and source, in that order; `externalId` is the comic's id; `source` is "Anilist" |
| Kapowarr.PayloadRoundTrip | server/api/Kapowarr.js:14-20 | decoding the payload gives back the whole comic, so title, description and cover URL are copied unchanged |
| Kapowarr.AddComicToKapowarr | server/api/Kapowarr.js:7-39 | with the API key or base URL absent or empty, nothing is sent and the result is the configuration error; otherwise one POST to base URL + `/api/comics` with the key in `X-Api-Key` and the payload as body; a 2xx body is returned unchanged, a failure becomes "Failed to add comic to Kapowarr" |
| Kapowarr.ConfigErrorIsDistinct | server/api/Kapowarr.js:8-10 | the result is the configuration error exactly when the guard fails, never for an upstream failure |
| Readarr.Payload | server/api/Readarr.js:14-18 | the payload has exactly the fields title, author and foreignId; foreignId is the ISBN when truthy, else null |
| Readarr.PayloadRoundTrip | server/api/Readarr.js:14-18 | decoding the payload gives back title and author unchanged, and the ISBN when truthy or absent |
| Readarr.AddBookToReadarr | server/api/Readarr.js:7-37 | with the API key or base URL absent or empty, nothing is sent and the result is the configuration error; otherwise one POST to base URL + `/api/v1/book` with the key in `X-Api-Key`; a 2xx body is returned unchanged, a failure becomes "Failed to add book to Readarr" |
| Readarr.ConfigErrorIsDistinct | server/api/Readarr.js:8-10 | the result is the configuration error exactly when the guard fails |
| Server.BookRequestedNamesTitle | server/index.js:111 | the title can be read back out of the book success message |
| Server.HandleSearchBooks | server/index.js:18-32 | an absent or empty title gives 400 "Book title is required." and no adapter call; otherwise exactly one call with the title; success gives 200 `{books}` with the adapter's list unchanged; failure gives 500 "Failed to fetch books." whatever the adapter's message |
| Server.HandleTopComics | server/index.js:39-47 | no input check; exactly one call; 200 `{comics}` with the adapter's list, or 500 "Failed to fetch top comics." |
| Server.HandleSearchComics | server/index.js:52-66 | an absent or empty title gives 400 and no call; otherwise one call with the title; the adapter's list goes back unchanged, or 500 "Failed to fetch comics by search." |
| Server.HandleAddComic | server/index.js:72-94 | as written: an absent or empty title gives 400; any other request gives 500 "Failed to add comic to Kapowarr."; no adapter is ever called |
| Server.AddComicFetchThenSubmit | server/index.js:79-89 | corrected flow (not deployed): search by title first, then submit the first match to Kapowarr unchanged; 200 iff both succeed, with a message naming the comic's title and Kapowarr's body; otherwise 400 or the route's 500 |
| Server.HandleAddBook | server/index.js:99-118 | 400 when title or author is absent or empty, with no call; otherwise exactly one call with `{title, author, isbn}`; 200 iff the adapter succeeds, with a message from which the title reads back and Readarr's body unchanged; else 500 "Failed to add book to Readarr." |
| Server.Handle | server/index.js:18-118 | the routing table: which adapter each route calls, and with what argument, depends on the request alone (`CallsFor`); 400 exactly when a field the route needs is absent or empty |
| Server.ValidationBeforeAdapters | server/index.js:18-118 | 400 exactly when a required field is absent or empty; a rejected request calls no adapter; every request makes at most one adapter call |
| Server.ResponsesAreWellFormed | server/index.js:18-118 | every status is 200, 400 or 500; an error envelope goes with exactly the non-200 statuses; its text is one of the routes' fixed messages |
| Server.ErrorDetailNeverLeaks | server/index.js:18-118 | adapters that differ only in their failure messages yield identical responses, so adapter detail never reaches the client |
| Server.AddComicAsWrittenNeverSubmits | server/index.js:79-93 | whatever the upstreams would answer, a titled /add-comic request gets 500 and reaches no adapter |
| Server.FetchThenSubmitSucceeds | server/index.js:79-89 | in the corrected flow, when search and submission succeed, the response is 200, the calls are the search then the submission of the found record, and the message names its title |
| Server.AddBookFailureIsGeneric | server/index.js:114-117 | a failed book submission gives the route's generic 500, whatever the adapter said |
| Server.Perform | server/index.js:26 | one adapter call sends at most one outbound request, and none from an unconfigured acquisition service |
| Server.PerformAll | server/index.js:26 | a handler's adapter calls send no more outbound requests than there are calls, and none when no call sends any |
| Server.Serve | server/index.js:18-118 | end to end: 400 iff a required field is missing, and then nothing is sent; at most one outbound request per inbound request; /add-comic sends nothing; /add-book with Readarr unconfigured gives 500 and sends nothing |
| Server.SearchBooksServed | server/index.js:18-31 | end to end: a titled book search that the catalog answers with a `docs` array sends exactly the catalog query and answers 200 `{books}` with every document normalised, in order |
| Server.AddBookServedSends | server/index.js:99-118 | end to end: a complete book request with Readarr configured sends exactly one authorised POST of `{title, author, isbn}` to Readarr |
| Server.AddBookServedAnswers | server/index.js:106-117 | end to end: with Readarr configured, a complete book request is answered 200 exactly when Readarr accepts the submission |
| Server.ComicTitlesNonEmpty | server/index.js:59-61 | a comic list the server sends never has an empty title |
| Server.BookAuthorsNonEmpty | server/index.js:25-27 | a book list the server sends never has an empty author |

## Left out

- HTTP transport is not modelled: axios, Express, `cors`, JSON body parsing and `app.listen`. Each outbound call is a request value plus an abstract `Outcome`.
- Startup configuration is not modelled: `dotenv` loading, the `PORT` default, and reading keys from `process.env`. Configuration is a parameter.
- `console.error` logging and async scheduling are left out. They carry no behaviour the client can see.
- Only two parts of the GraphQL query are modelled: the page size and the `search` variable. The query text is left out, and so is the upstream's popularity sort and adult filter, since AniList does those.
- The React frontend and the Vite build configuration are left out. That includes the browser-side trim of search titles.
- Truthiness is modelled for string-valued fields only. A body field sent as a number, a boolean or an array is not modelled, and neither is a repeated query parameter.
- A `null` entry in `docs` or `media` is not modelled. Reading a field of it would throw inside the adapter. A `null` first entry of `author_name` or `edition_key` is not modelled either. It would behave like an empty string: "Unknown Author" and a null olid.
- Outbound payloads do not tell `undefined` from `null`. `JSON.stringify` drops a key whose value is `undefined`, but the model sends `null` for it.
- Typed error kinds and request timeouts are not modelled, because the code has neither. A configuration error and an upstream error reach the client as the same 500.

## Findings

| source | as written | input that shows it | evidently intended | confidence | as-written member | corrected member |
|---|---|---|---|---|---|---|
| server/index.js:81 | `/add-comic` calls `searchComics(title)`, which is neither imported nor defined; in an ES module this throws a ReferenceError inside the `try` | POST /add-comic with body `{"title": "Watchmen"}` gets 500 "Failed to add comic to Kapowarr." and Kapowarr is never contacted | fetch the comic through the title search (`fetchComicsBySearch`), then submit the record found to Kapowarr | high; not executed | Server.AddComicAsWrittenNeverSubmits | Server.AddComicFetchThenSubmit |

`Handle` and `Serve` keep the as-written `/add-comic`, because they model the
deployed server. The corrected flow is the separate
`Server.AddComicFetchThenSubmit`. `Server.FetchThenSubmitSucceeds` proves its
success path. The corrected flow makes two adapter calls, so it is the one
route outside the at-most-one-call property.
