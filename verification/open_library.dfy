/** The catalog-search adapter: one GET to the book catalog, each returned
    document reshaped into a book result. */
module OpenLibrary {
  import opened Js
  import opened Http

  const SearchUrl := "https://openlibrary.org/search.json"
  const Limit := 5
  const CoverPrefix := "https://covers.openlibrary.org/b/olid/"
  const CoverSuffix := "-M.jpg"
  const UnknownAuthor := "Unknown Author"
  const FetchFailed := "Failed to fetch books from OpenLibrary"

  /** One entry of the catalog's `docs` array, restricted to the fields read. */
  datatype Doc = Doc(title: Option<string>, authorName: Option<seq<string>>, editionKey: Option<seq<string>>)

  /** The parsed catalog answer; `docs` is None when the body has no array there. */
  datatype SearchResponse = SearchResponse(docs: Option<seq<Doc>>)

  /** The normalised record sent to the client; `olid` is the edition id. */
  datatype BookResult = BookResult(title: Option<string>, author: string, olid: Option<string>, coverUrl: Option<string>)

  /** The medium-size cover image of an edition: the edition id between the
      covers host's `olid` path and the `-M.jpg` size suffix. */
  function CoverUrl(olid: string): (url: string)
    ensures |url| == |CoverPrefix| + |olid| + |CoverSuffix|
    ensures url[..|CoverPrefix|] == CoverPrefix
    ensures url[|CoverPrefix|..|CoverPrefix| + |olid|] == olid
    ensures url[|CoverPrefix| + |olid|..] == CoverSuffix
  {
    Fill(CoverPrefix, olid, CoverSuffix)
  }

  /** Recovers the edition id from a cover URL, when it has the cover shape. */
  function OlidOfCoverUrl(url: string): Option<string> {
    Unfill(CoverPrefix, CoverSuffix, url)
  }

  /** The edition id can always be read back out of its cover URL. */
  lemma CoverUrlRoundTrip(olid: string)
    ensures OlidOfCoverUrl(CoverUrl(olid)) == Some(olid)
  {
    UnfillFill(CoverPrefix, olid, CoverSuffix);
  }

  /** Distinct editions never share a cover URL. */
  lemma CoverUrlInjective(a: string, b: string)
    requires CoverUrl(a) == CoverUrl(b)
    ensures a == b
  {
    FillInjective(CoverPrefix, a, b, CoverSuffix);
  }

  /** The per-document mapping of `searchBooks`. */
  function Normalise(d: Doc): (b: BookResult)
    ensures b.title == d.title
    ensures b.author != ""
    ensures Truthy(First(d.authorName)) ==> b.author == d.authorName.value[0]
    ensures !Truthy(First(d.authorName)) ==> b.author == UnknownAuthor
    ensures b.olid.Some? <==> Truthy(First(d.editionKey))
    ensures b.olid.Some? ==> b.olid.value != "" && b.olid.value == d.editionKey.value[0]
    ensures b.coverUrl.None? <==> b.olid.None?
    ensures b.olid.Some? ==> b.coverUrl == Some(CoverPrefix + b.olid.value + "-M.jpg")
    ensures b.olid.Some? ==> OlidOfCoverUrl(b.coverUrl.value) == b.olid
  {
    var olid := OrNull(First(d.editionKey));
    var cover := if Truthy(olid) then Some(CoverUrl(olid.value)) else None;
    assert olid.Some? ==> OlidOfCoverUrl(CoverUrl(olid.value)) == olid by {
      if olid.Some? { CoverUrlRoundTrip(olid.value); }
    }
    BookResult(d.title, Default(OrNull(First(d.authorName)), UnknownAuthor), olid, cover)
  }

  /** `docs.map(...)`: one result per document, in upstream order. */
  function NormaliseAll(docs: seq<Doc>): (bs: seq<BookResult>)
    ensures |bs| == |docs|
    ensures forall i | 0 <= i < |docs| :: bs[i] == Normalise(docs[i])
  {
    if |docs| == 0 then [] else [Normalise(docs[0])] + NormaliseAll(docs[1..])
  }

  /** Normalising a concatenation normalises each part in place: the
      mapping never reorders, drops or merges documents. */
  lemma {:induction false} NormaliseAllAppend(a: seq<Doc>, b: seq<Doc>)
    ensures NormaliseAll(a + b) == NormaliseAll(a) + NormaliseAll(b)
  {
    var l, r := NormaliseAll(a + b), NormaliseAll(a) + NormaliseAll(b);
    assert |l| == |r|;
    forall i | 0 <= i < |l| ensures l[i] == r[i] {
      if i < |a| { assert (a + b)[i] == a[i]; } else { assert (a + b)[i] == b[i - |a|]; }
    }
  }

  /** The catalog query: the caller's title, at most `Limit` documents. */
  function SearchRequest(title: string): (q: Outbound)
    ensures q.Get? && q.url == SearchUrl
    ensures Field(q.params, "title") == Some(Str(title))
    ensures Field(q.params, "limit") == Some(Num(Limit))
    ensures Keys(q.params) == ["title", "limit"]
  {
    Get(SearchUrl, [("title", Str(title)), ("limit", Num(Limit))])
  }

  /** `searchBooks(title)` against the given upstream outcome. A missing
      `docs` array throws inside the `try` like a network failure does. */
  function SearchBooks(title: string, upstream: Outcome<SearchResponse>): (x: Exchange<seq<BookResult>>)
    ensures x.sent == [SearchRequest(title)]
    ensures x.result.Success? <==> upstream.Ok? && upstream.body.docs.Some?
    ensures x.result.Failure? ==> x.result.message == FetchFailed
    ensures x.result.Success? ==> |x.result.value| == |upstream.body.docs.value|
    ensures x.result.Success? ==> forall i | 0 <= i < |x.result.value| ::
              x.result.value[i] == Normalise(upstream.body.docs.value[i])
  {
    var result :=
      match upstream
      case Ok(SearchResponse(Some(docs))) => Success(NormaliseAll(docs))
      case _ => Failure(FetchFailed);
    Exchange([SearchRequest(title)], result)
  }
}
