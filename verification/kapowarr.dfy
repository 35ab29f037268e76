/** The comic acquisition adapter: a configuration guard, then one
    authorised POST of a fixed payload built from a normalised comic. */
module Kapowarr {
  import opened Js
  import opened Http
  import opened AniList

  const ComicsPath := "/api/comics"
  const SourceTag := "Anilist"
  const ConfigMissing := "Kapowarr API key or base URL is missing in environment variables."
  const AddFailed := "Failed to add comic to Kapowarr"
  const PayloadKeys := ["title", "description", "coverUrl", "externalId", "source"]

  /** The submitted JSON: four fields of the comic plus the source tag. */
  function Payload(comic: ComicResult): (j: Json)
    ensures j.Obj? && Keys(j.fields) == PayloadKeys
    ensures Field(j.fields, "externalId") == Some(Num(comic.id))
    ensures Field(j.fields, "source") == Some(Str(SourceTag))
  {
    var fs := [("title", Str(comic.title)),
               ("description", Str(comic.description)),
               ("coverUrl", OfNullable(comic.coverUrl)),
               ("externalId", Num(comic.id)),
               ("source", Str(SourceTag))];
    FieldAt(fs, "externalId", 3);
    FieldAt(fs, "source", 4);
    Obj(fs)
  }

  /** Reads a payload back into the comic it was built from; None for any
      JSON that does not have exactly the payload's shape. */
  function ComicOfPayload(j: Json): Option<ComicResult> {
    match j
    case Obj(fs) =>
      if Keys(fs) != PayloadKeys then None
      else
        (match (Field(fs, "title"), Field(fs, "description"), Field(fs, "coverUrl"),
                Field(fs, "externalId"), Field(fs, "source"))
         case (Some(Str(t)), Some(Str(d)), Some(cover), Some(Num(id)), Some(Str(src))) =>
           if src == SourceTag && AsNullable(cover).Some?
           then Some(ComicResult(id, t, AsNullable(cover).value, d))
           else None
         case _ => None)
    case _ => None
  }

  /** The payload carries the whole comic: decoding it gives the comic back. */
  lemma PayloadRoundTrip(comic: ComicResult)
    ensures ComicOfPayload(Payload(comic)) == Some(comic)
  {
    var fs := Payload(comic).fields;
    FieldAt(fs, "title", 0);
    FieldAt(fs, "description", 1);
    FieldAt(fs, "coverUrl", 2);
  }

  /** `addComicToKapowarr(comic)` with the environment's configuration and
      the upstream's answer as parameters. */
  function AddComicToKapowarr(config: ServiceConfig, comic: ComicResult, upstream: Outcome<Json>): (x: Exchange<Json>)
    ensures x.sent == [] <==> !Configured(config)
    ensures !Configured(config) ==> x.result == Failure(ConfigMissing)
    ensures Configured(config) ==> |x.sent| == 1 && x.sent[0].Post?
    ensures Configured(config) ==> x.sent[0].url == config.baseUrl.value + ComicsPath
    ensures Configured(config) ==> Header(ApiKeyHeader, config.apiKey.value) in x.sent[0].headers
    ensures Configured(config) ==> x.sent[0].body == JsonBody(Payload(comic))
    ensures Configured(config) && upstream.Ok? ==> x.result == Success(upstream.body)
    ensures Configured(config) && upstream.Failed? ==> x.result == Failure(AddFailed)
  {
    Submit(config, ComicsPath, Payload(comic), upstream, ConfigMissing, AddFailed)
  }

  /** A configuration error and an upstream failure are told apart: the
      result is the configuration error exactly when the guard failed. */
  lemma ConfigErrorIsDistinct(config: ServiceConfig, comic: ComicResult, upstream: Outcome<Json>)
    ensures AddComicToKapowarr(config, comic, upstream).result == Failure(ConfigMissing) <==> !Configured(config)
  {
  }
}
