/** Outbound HTTP requests, upstream outcomes and adapter results. The
    transport itself is not modelled: a request is a value, and what the
    upstream answered is an `Outcome` supplied by the caller. */
module Http {
  import opened Js

  datatype Header = Header(name: string, value: string)

  const ContentTypeJson := Header("Content-Type", "application/json")
  const ApiKeyHeader := "X-Api-Key"

  /** Body of an outbound POST. A `MediaQuery` stands for the media catalog's
      GraphQL document, of which only the page size and the optional
      `search` variable are modelled. */
  datatype PostBody =
    | JsonBody(json: Json)
    | MediaQuery(perPage: nat, search: Option<string>)

  datatype Outbound =
    | Get(url: string, params: seq<(string, Json)>)
    | Post(url: string, headers: seq<Header>, body: PostBody)

  /** What an upstream call produced: a parsed 2xx body, or a failure
      (network error, non-2xx status, unparsable body) with its detail. */
  datatype Outcome<+B> = Ok(body: B) | Failed(detail: string)

  /** What an adapter returns to its caller: a value, or the message of the
      Error it throws. */
  datatype Result<+T> = Success(value: T) | Failure(message: string)

  /** One adapter invocation: the requests it sent and what it returned. */
  datatype Exchange<+T> = Exchange(sent: seq<Outbound>, result: Result<T>)

  /** Configuration of an acquisition service, read from the environment. */
  datatype ServiceConfig = ServiceConfig(apiKey: Option<string>, baseUrl: Option<string>)

  /** The guard `!API_KEY || !BASE_URL` fails exactly when this is false. */
  predicate Configured(c: ServiceConfig) {
    Truthy(c.apiKey) && Truthy(c.baseUrl)
  }

  /** A JSON POST to `baseUrl + path`, authorised by the service's API key. */
  function AuthorisedPost(c: ServiceConfig, path: string, payload: Json): (q: Outbound)
    requires Configured(c)
    ensures q.Post? && q.body == JsonBody(payload)
    ensures |q.url| == |c.baseUrl.value| + |path|
    ensures q.url[..|c.baseUrl.value|] == c.baseUrl.value && q.url[|c.baseUrl.value|..] == path
    ensures Header(ApiKeyHeader, c.apiKey.value) in q.headers
    ensures ContentTypeJson in q.headers
    ensures forall h | h in q.headers :: h.name == ApiKeyHeader || h == ContentTypeJson
    ensures |q.headers| == 2
  {
    Post(c.baseUrl.value + path, [Header(ApiKeyHeader, c.apiKey.value), ContentTypeJson], JsonBody(payload))
  }

  /** The common shape of both acquisition adapters: the configuration
      guard outside the `try`, then one POST whose 2xx body is returned
      unchanged and whose failure becomes `failed`. */
  function Submit(c: ServiceConfig, path: string, payload: Json, upstream: Outcome<Json>,
                  missing: string, failed: string): (x: Exchange<Json>)
    ensures !Configured(c) ==> x == Exchange([], Failure(missing))
    ensures Configured(c) ==> x.sent == [AuthorisedPost(c, path, payload)]
    ensures Configured(c) && upstream.Ok? ==> x.result == Success(upstream.body)
    ensures Configured(c) && upstream.Failed? ==> x.result == Failure(failed)
  {
    if !Configured(c) then Exchange([], Failure(missing))
    else
      var q := AuthorisedPost(c, path, payload);
      match upstream
      case Ok(body) => Exchange([q], Success(body))
      case Failed(_) => Exchange([q], Failure(failed))
  }
}
