/** The book acquisition adapter: a configuration guard, then one
    authorised POST of the title, author and ISBN. */
module Readarr {
  import opened Js
  import opened Http

  const BookPath := "/api/v1/book"
  const ConfigMissing := "Readarr API key or base URL is missing."
  const AddFailed := "Failed to add book to Readarr"
  const PayloadKeys := ["title", "author", "foreignId"]

  /** The `book` argument: the three fields the route takes from the body. */
  datatype BookSubmission = BookSubmission(title: Option<string>, author: Option<string>, isbn: Option<string>)

  /** The submitted JSON; the ISBN becomes `foreignId`, null unless truthy. */
  function Payload(book: BookSubmission): (j: Json)
    ensures j.Obj? && Keys(j.fields) == PayloadKeys
    ensures Truthy(book.isbn) ==> Field(j.fields, "foreignId") == Some(Str(book.isbn.value))
    ensures !Truthy(book.isbn) ==> Field(j.fields, "foreignId") == Some(Null)
  {
    var fs := [("title", OfNullable(book.title)),
               ("author", OfNullable(book.author)),
               ("foreignId", OfNullable(OrNull(book.isbn)))];
    FieldAt(fs, "foreignId", 2);
    Obj(fs)
  }

  /** Reads a payload back into a submission; None for any JSON that does
      not have exactly the payload's shape. */
  function SubmissionOfPayload(j: Json): Option<BookSubmission> {
    match j
    case Obj(fs) =>
      if Keys(fs) != PayloadKeys then None
      else
        (match (Field(fs, "title"), Field(fs, "author"), Field(fs, "foreignId"))
         case (Some(t), Some(a), Some(f)) =>
           if AsNullable(t).Some? && AsNullable(a).Some? && AsNullable(f).Some?
           then Some(BookSubmission(AsNullable(t).value, AsNullable(a).value, AsNullable(f).value))
           else None
         case _ => None)
    case _ => None
  }

  /** Title and author survive the payload unchanged; the ISBN survives
      when it is truthy and collapses to null otherwise. */
  lemma PayloadRoundTrip(book: BookSubmission)
    ensures SubmissionOfPayload(Payload(book)) == Some(book.(isbn := OrNull(book.isbn)))
    ensures book.isbn.None? || Truthy(book.isbn) ==> SubmissionOfPayload(Payload(book)) == Some(book)
  {
    var fs := Payload(book).fields;
    FieldAt(fs, "title", 0);
    FieldAt(fs, "author", 1);
  }

  /** `addBookToReadarr(book)` with the environment's configuration and the
      upstream's answer as parameters. */
  function AddBookToReadarr(config: ServiceConfig, book: BookSubmission, upstream: Outcome<Json>): (x: Exchange<Json>)
    ensures x.sent == [] <==> !Configured(config)
    ensures !Configured(config) ==> x.result == Failure(ConfigMissing)
    ensures Configured(config) ==> |x.sent| == 1 && x.sent[0].Post?
    ensures Configured(config) ==> x.sent[0].url == config.baseUrl.value + BookPath
    ensures Configured(config) ==> Header(ApiKeyHeader, config.apiKey.value) in x.sent[0].headers
    ensures Configured(config) ==> x.sent[0].body == JsonBody(Payload(book))
    ensures Configured(config) && upstream.Ok? ==> x.result == Success(upstream.body)
    ensures Configured(config) && upstream.Failed? ==> x.result == Failure(AddFailed)
  {
    Submit(config, BookPath, Payload(book), upstream, ConfigMissing, AddFailed)
  }

  /** A configuration error and an upstream failure are told apart: the
      result is the configuration error exactly when the guard failed. */
  lemma ConfigErrorIsDistinct(config: ServiceConfig, book: BookSubmission, upstream: Outcome<Json>)
    ensures AddBookToReadarr(config, book, upstream).result == Failure(ConfigMissing) <==> !Configured(config)
  {
  }
}
