/** The media-search adapter: one GraphQL POST to the media catalog, in two
    modes (top list, title search) sharing one per-item normalisation. */
module AniList {
  import opened Js
  import opened Http

  const ApiUrl := "https://graphql.anilist.co"
  const TopPerPage := 20
  const SearchPerPage := 10
  const UnknownTitle := "Unknown Title"
  const NoDescription := "No description available."
  const TopFailed := "Failed to fetch top comics."
  const SearchFailed := "Failed to fetch comics by search."

  datatype MediaTitle = MediaTitle(english: Option<string>, romaji: Option<string>)
  datatype CoverImage = CoverImage(large: Option<string>)

  /** One entry of `data.Page.media`, restricted to the fields queried. */
  datatype Media = Media(id: int, title: Option<MediaTitle>, coverImage: Option<CoverImage>, description: Option<string>)

  /** The parsed GraphQL answer; `media` is None when `data.Page.media` is not there. */
  datatype MediaPage = MediaPage(media: Option<seq<Media>>)

  /** The normalised record sent to the client. */
  datatype ComicResult = ComicResult(id: int, title: string, coverUrl: Option<string>, description: string)

  datatype Mode = Top | BySearch(search: string)

  /** `comic.coverImage?.large`. */
  function LargeCover(ci: Option<CoverImage>): Option<string> {
    match ci
    case Some(c) => c.large
    case None => None
  }

  /** The per-item mapping shared by both modes. `comic.title.english` is read
      without `?.`, so an item without a `title` object throws (None here). */
  function Normalise(m: Media): (c: Option<ComicResult>)
    ensures c.None? <==> m.title.None?
    ensures c.Some? ==> c.value.id == m.id
    ensures c.Some? ==> c.value.title != "" && c.value.description != ""
    ensures c.Some? && Truthy(m.title.value.english) ==> c.value.title == m.title.value.english.value
    ensures c.Some? && !Truthy(m.title.value.english) && Truthy(m.title.value.romaji) ==>
              c.value.title == m.title.value.romaji.value
    ensures c.Some? && !Truthy(m.title.value.english) && !Truthy(m.title.value.romaji) ==>
              c.value.title == UnknownTitle
    ensures c.Some? ==> (c.value.coverUrl.Some? <==> m.coverImage.Some? && Truthy(m.coverImage.value.large))
    ensures c.Some? && c.value.coverUrl.Some? ==> c.value.coverUrl == m.coverImage.value.large
    ensures c.Some? && Truthy(m.description) ==> c.value.description == m.description.value
    ensures c.Some? && !Truthy(m.description) ==> c.value.description == NoDescription
  {
    match m.title
    case None => None
    case Some(t) =>
      var names := [t.english, t.romaji];
      assert names[0] == t.english && names[1] == t.romaji;
      Some(ComicResult(
        m.id,
        Default(Coalesce(names), UnknownTitle),
        OrNull(LargeCover(m.coverImage)),
        Default(OrNull(m.description), NoDescription)))
  }

  /** `media.map(...)`: one result per item in upstream order, or a throw
      (None) as soon as any item cannot be normalised. */
  function NormaliseAll(ms: seq<Media>): (r: Option<seq<ComicResult>>)
    ensures r.Some? <==> forall i | 0 <= i < |ms| :: ms[i].title.Some?
    ensures r.Some? ==> |r.value| == |ms|
    ensures r.Some? ==> forall i | 0 <= i < |ms| :: Normalise(ms[i]) == Some(r.value[i])
  {
    if |ms| == 0 then Some([])
    else
      var head, tail := Normalise(ms[0]), NormaliseAll(ms[1..]);
      if head.Some? && tail.Some? then Some([head.value] + tail.value)
      else
        assert !(forall i | 0 <= i < |ms| :: ms[i].title.Some?) by {
          if head.Some? {
            var j :| 0 <= j < |ms[1..]| && ms[1..][j].title.None?;
            assert ms[j + 1].title.None?;
          }
        }
        None
  }

  /** The mapping never reorders items: normalising a concatenation
      concatenates the normalised parts, and fails exactly when a part does. */
  lemma {:induction false} NormaliseAllAppend(a: seq<Media>, b: seq<Media>)
    ensures NormaliseAll(a + b).Some? <==> NormaliseAll(a).Some? && NormaliseAll(b).Some?
    ensures NormaliseAll(a + b).Some? ==> NormaliseAll(a + b).value == NormaliseAll(a).value + NormaliseAll(b).value
  {
    var ab := a + b;
    assert forall i | 0 <= i < |a| :: ab[i] == a[i];
    assert forall i | 0 <= i < |b| :: ab[|a| + i] == b[i];
    if NormaliseAll(ab).Some? {
      var l, r := NormaliseAll(ab).value, NormaliseAll(a).value + NormaliseAll(b).value;
      forall i | 0 <= i < |l| ensures l[i] == r[i] {
        if i < |a| { assert Normalise(ab[i]) == Some(l[i]); }
        else { assert ab[i] == b[i - |a|]; }
      }
    }
  }

  function PerPage(mode: Mode): nat {
    match mode
    case Top => TopPerPage
    case BySearch(_) => SearchPerPage
  }

  function FailureMessage(mode: Mode): string {
    match mode
    case Top => TopFailed
    case BySearch(_) => SearchFailed
  }

  /** The GraphQL POST for a mode; only the search mode sends variables. */
  function Request(mode: Mode): Outbound {
    var search := match mode
      case Top => None
      case BySearch(title) => Some(title);
    Post(ApiUrl, [ContentTypeJson], MediaQuery(PerPage(mode), search))
  }

  /** The shared body of both adapters: one request, then either the
      normalised list or the mode's failure message, never a partial list. */
  function FetchComics(mode: Mode, upstream: Outcome<MediaPage>): (x: Exchange<seq<ComicResult>>)
    ensures x.sent == [Request(mode)]
    ensures x.result.Success? <==>
              upstream.Ok? && upstream.body.media.Some?
              && forall i | 0 <= i < |upstream.body.media.value| :: upstream.body.media.value[i].title.Some?
    ensures x.result.Failure? ==> x.result.message == FailureMessage(mode)
    ensures x.result.Success? ==> NormaliseAll(upstream.body.media.value) == Some(x.result.value)
  {
    var result :=
      match upstream
      case Ok(MediaPage(Some(ms))) =>
        (match NormaliseAll(ms)
         case Some(cs) => Success(cs)
         case None => Failure(FailureMessage(mode)))
      case _ => Failure(FailureMessage(mode));
    Exchange([Request(mode)], result)
  }

  /** `fetchTopComics()`: twenty items, no search variable. */
  function FetchTopComics(upstream: Outcome<MediaPage>): (x: Exchange<seq<ComicResult>>)
    ensures |x.sent| == 1 && x.sent[0].Post? && x.sent[0].url == ApiUrl
    ensures x.sent[0].body == MediaQuery(20, None)
    ensures x.result.Failure? ==> x.result.message == "Failed to fetch top comics."
    ensures upstream.Failed? ==> x.result.Failure?
  {
    FetchComics(Top, upstream)
  }

  /** `fetchComicsBySearch(title)`: ten items, `variables.search` is the title. */
  function FetchComicsBySearch(title: string, upstream: Outcome<MediaPage>): (x: Exchange<seq<ComicResult>>)
    ensures |x.sent| == 1 && x.sent[0].Post? && x.sent[0].url == ApiUrl
    ensures x.sent[0].body == MediaQuery(10, Some(title))
    ensures x.result.Failure? ==> x.result.message == "Failed to fetch comics by search."
    ensures upstream.Failed? ==> x.result.Failure?
  {
    FetchComics(BySearch(title), upstream)
  }

  /** Both modes normalise the same upstream answer identically and fail on
      the same answers; only their failure messages differ. */
  lemma ModesAgree(title: string, upstream: Outcome<MediaPage>)
    ensures FetchTopComics(upstream).result.Success? <==> FetchComicsBySearch(title, upstream).result.Success?
    ensures FetchTopComics(upstream).result.Success? ==>
              FetchTopComics(upstream).result.value == FetchComicsBySearch(title, upstream).result.value
    ensures FetchTopComics(upstream).result.Failure? ==>
              FetchTopComics(upstream).result.message != FetchComicsBySearch(title, upstream).result.message
  {
  }

  /** A search for "Watchmen" answered by one item whose English title is
      "Watchmen" yields exactly that one comic. */
  lemma WatchmenSearch(id: int, romaji: Option<string>, cover: Option<CoverImage>, description: Option<string>)
    ensures var m := Media(id, Some(MediaTitle(Some("Watchmen"), romaji)), cover, description);
            var x := FetchComicsBySearch("Watchmen", Ok(MediaPage(Some([m]))));
            x.result.Success? && |x.result.value| == 1 && x.result.value[0].title == "Watchmen"
            && x.result.value[0].id == id
  {
  }
}
