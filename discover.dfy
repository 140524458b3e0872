/**
 * The decisions the discover page makes: how a card derives its media type,
 * link, title and date, whether it is shown as a favourite and what its
 * button does, how a search submit updates `error` and `results`, and how
 * the top-rated lists are filled. Network requests are parameters: the
 * outcome the request would have.
 */
module Discover {
  import opened Wrappers
  import opened Media
  import opened Favorites
  import Json

  // ------------------------------------------------------------ movie card

  datatype MediaType = Movie | Tv

  /** `movie.title ? 'movie' : 'tv'`: the type is inferred from the presence of a title. */
  function MediaTypeOf(m: Item): (t: MediaType)
    ensures t == Movie <==> Truthy(m.title)
  {
    if Truthy(m.title) then Movie else Tv
  }

  function RouteSegment(t: MediaType): string {
    match t
    case Movie => "movie"
    case Tv => "tv"
  }

  /** How a route `/{type}/{id}` is read back: the media type from the first segment, the id from the second. */
  function ParseDetailHref(href: string): Option<(MediaType, int)> {
    if "/movie/" <= href then IdSegment(Movie, href[|"/movie/"|..])
    else if "/tv/" <= href then IdSegment(Tv, href[|"/tv/"|..])
    else None
  }

  function IdSegment(t: MediaType, s: string): Option<(MediaType, int)> {
    match Json.ParseInt(s)
    case None => None
    case Some(p) => if p.rest == [] then Some((t, p.value)) else None
  }

  /** An id segment written as JSON.stringify writes integers reads back as that id. */
  lemma IdSegmentText(t: MediaType, id: int)
    ensures IdSegment(t, Json.IntText(id)) == Some((t, id))
  {
    Json.ParseIntText(id, "");
    assert Json.IntText(id) + "" == Json.IntText(id);
  }

  /** The card's link, `/{mediaType}/{id}`: it names the card's media type and id, and both read back. */
  function DetailHref(m: Item): (href: string)
    ensures ParseDetailHref(href) == Some((MediaTypeOf(m), m.id))
  {
    var digits := Json.IntText(m.id);
    IdSegmentText(MediaTypeOf(m), m.id);
    var href := "/" + RouteSegment(MediaTypeOf(m)) + "/" + digits;
    if MediaTypeOf(m) == Movie then
      assert href == "/movie/" + digits;
      assert "/movie/" <= href && href[|"/movie/"|..] == digits;
      href
    else
      assert href == "/tv/" + digits;
      assert !("/movie/" <= href) by {
        assert href[1] == 't';
      }
      assert "/tv/" <= href && href[|"/tv/"|..] == digits;
      href
  }

  /** `movie.title || movie.name`: the title of a movie, the name of anything else. */
  function DisplayTitle(m: Item): (r: Option<string>)
    ensures Truthy(r) <==> Truthy(m.title) || Truthy(m.name)
    ensures MediaTypeOf(m) == Movie ==> r == m.title
    ensures MediaTypeOf(m) == Tv ==> r == m.name
  {
    if Truthy(m.title) then m.title else m.name
  }

  /** `movie.release_date || movie.first_air_date`. */
  function DisplayDate(m: Item): (r: Option<string>)
    ensures Truthy(r) <==> Truthy(m.releaseDate) || Truthy(m.firstAirDate)
    ensures Truthy(m.releaseDate) ==> r == m.releaseDate
    ensures !Truthy(m.releaseDate) ==> r == m.firstAirDate
  {
    if Truthy(m.releaseDate) then m.releaseDate else m.firstAirDate
  }

  /**
   * The date does not follow the inferred media type: an item with a
   * release date but no title is linked and labelled as a TV show and still
   * shows its release date.
   */
  lemma DateIndependentOfMediaType(m: Item)
    requires !Truthy(m.title) && Truthy(m.releaseDate)
    ensures MediaTypeOf(m) == Tv && DisplayTitle(m) == m.name && DisplayDate(m) == m.releaseDate
  {
  }

  /** `!!favorites.find(fav => fav.id === movie.id)`. */
  function IsFavorite(favs: seq<Item>, id: int): (b: bool)
    ensures b <==> HasId(favs, id)
  {
    FindById(favs, id).Some?
  }

  /**
   * The card's button: "Remove from Favorites" when shown as a favourite,
   * "Add to Favorites" otherwise. Pressing it flips whether the card is shown
   * as a favourite, and keeps ids unique.
   */
  function CardToggle(favs: seq<Item>, m: Item): (r: seq<Item>)
    ensures IsFavorite(r, m.id) == !IsFavorite(favs, m.id)
    ensures UniqueIds(favs) ==> UniqueIds(r)
  {
    if IsFavorite(favs, m.id) then
      RemoveMakesAbsent(favs, m.id);
      assert UniqueIds(favs) ==> UniqueIds(RemoveFavorite(favs, m.id)) by {
        if UniqueIds(favs) {
          RemovePreservesUnique(favs, m.id);
        }
      }
      RemoveFavorite(favs, m.id)
    else
      AddMakesPresent(favs, m);
      assert UniqueIds(favs) ==> UniqueIds(AddFavorite(favs, m)) by {
        if UniqueIds(favs) {
          AddPreservesUnique(favs, m);
        }
      }
      AddFavorite(favs, m)
  }

  /** Pressing the button of a card that is not a favourite and then pressing it again restores the list. */
  lemma CardToggleTwice(favs: seq<Item>, m: Item)
    requires !IsFavorite(favs, m.id)
    ensures CardToggle(CardToggle(favs, m), m) == favs
  {
    AddThenRemove(favs, m);
  }

  // -------------------------------------------------------------- top rated

  const TopCount := 5

  /** `results.slice(0, 5)`: the first five entries, or all of them when there are fewer. */
  function TopFive(s: seq<Item>): (r: seq<Item>)
    ensures |r| == if |s| < TopCount then |s| else TopCount
    ensures forall i :: 0 <= i < |r| ==> r[i] == s[i]
  {
    if |s| <= TopCount then s else s[..TopCount]
  }

  // ----------------------------------------------------------------- search

  function LowerAscii(c: char): char {
    if 'A' <= c <= 'Z' then (c as int + 32) as char else c
  }

  /** `toLowerCase`, on the letters A to Z. */
  function Lower(s: string): (r: string)
    ensures |r| == |s|
    ensures forall i :: 0 <= i < |s| ==> r[i] == LowerAscii(s[i])
  {
    seq(|s|, i requires 0 <= i < |s| => LowerAscii(s[i]))
  }

  /** `query.toLowerCase() === 'error'`: the five letters of "error", each in either case. */
  function IsErrorQuery(q: string): (b: bool)
    ensures b <==> |q| == 5 && forall i :: 0 <= i < 5 ==> q[i] == "error"[i] || q[i] == "ERROR"[i]
  {
    Lower(q) == "error"
  }

  const SimulatedApiError := "Simulated API Error"
  const StatusPrefix := "API request failed with status "

  /** The message of the error thrown for a response that is not OK: the prefix, then the status, which reads back. */
  function StatusMessage(status: int): (message: string)
    ensures StatusPrefix <= message
    ensures Json.ParseInt(message[|StatusPrefix|..]) == Some(Json.Parsed(status, ""))
  {
    var digits := Json.IntText(status);
    Json.ParseIntText(status, "");
    assert digits + "" == digits;
    var message := StatusPrefix + digits;
    assert message[|StatusPrefix|..] == digits;
    message
  }

  /** Different statuses give different messages. */
  lemma StatusMessageNamesStatus(a: int, b: int)
    requires StatusMessage(a) == StatusMessage(b)
    ensures a == b
  {
  }

  /** What `res.json()` yields: an object with or without a `results` array, or a parse error's message. */
  datatype Body = JsonBody(results: Option<seq<Item>>) | NotJson(message: string)

  /** What one `fetch` produces: a response, or the message of the error it rejects with. */
  datatype Fetched = Response(ok: bool, status: int, body: Body) | Rejected(message: string)

  /** `(await (await fetch(url)).json()).results` as the top-rated code uses it; `None` where a step throws. */
  function TopRatedResults(f: Fetched): (r: Option<seq<Item>>)
    ensures r.Some? <==> f.Response? && f.body.JsonBody? && f.body.results.Some?
    ensures r.Some? ==> f.body.results == r
  {
    match f
    case Rejected(_) => None
    case Response(_, _, body) =>
      match body
      case NotJson(_) => None
      case JsonBody(results) => results
  }

  /** The top-rated code never consults `res.ok` or the status: only the body decides. */
  lemma TopRatedIgnoresStatus(ok: bool, status: int, ok': bool, status': int, body: Body)
    ensures TopRatedResults(Response(ok, status, body)) == TopRatedResults(Response(ok', status', body))
  {
  }

  class DiscoverPage {
    var query: string
    var results: seq<Item>
    var error: Option<string>
    var topMovies: seq<Item>
    var topTvShows: seq<Item>

    /** The page's initial state. */
    constructor ()
      ensures query == "" && results == [] && error == None && topMovies == [] && topTvShows == []
    {
      query, results, error := "", [], None;
      topMovies, topTvShows := [], [];
    }

    /**
     * `searchMovies`, the form's submit handler. `fetched` is what the search
     * request would produce; `requested` says whether it is issued.
     */
    method SearchMovies(fetched: Fetched) returns (requested: bool)
      modifies this
      ensures query == old(query) && topMovies == old(topMovies) && topTvShows == old(topTvShows)
      ensures requested <==> query != "" && !IsErrorQuery(query)
      ensures query == "" ==> error == None && results == old(results)
      ensures query != "" && IsErrorQuery(query) ==> error == Some(SimulatedApiError) && results == []
      ensures requested && fetched.Rejected? ==> error == Some(fetched.message) && results == []
      ensures requested && fetched.Response? && !fetched.ok ==>
        error == Some(StatusMessage(fetched.status)) && results == []
      ensures requested && fetched.Response? && fetched.ok && fetched.body.NotJson? ==>
        error == Some(fetched.body.message) && results == []
      ensures requested && fetched.Response? && fetched.ok && fetched.body.JsonBody? ==>
        error == None && results == fetched.body.results.GetOr([])
    {
      error := None;
      if query == "" {
        return false;
      }
      if Lower(query) == "error" {
        error := Some(SimulatedApiError);
        results := [];
        return false;
      }
      requested := true;
      match fetched
      case Rejected(message) =>
        error := Some(message);
        results := [];
      case Response(ok, status, body) =>
        if !ok {
          error := Some(StatusMessage(status));
          results := [];
        } else {
          match body
          case NotJson(message) =>
            error := Some(message);
            results := [];
          case JsonBody(found) =>
            results := found.GetOr([]);
        }
    }

    /**
     * `fetchRecommendations`: nothing without an API key; otherwise the movie
     * request, then the TV request. A step that throws ends the sequence and
     * leaves the lists already set. Returns how many requests were issued.
     */
    method FetchRecommendations(apiKey: Option<string>, movies: Fetched, shows: Fetched) returns (requests: nat)
      modifies this
      ensures query == old(query) && results == old(results) && error == old(error)
      ensures !Truthy(apiKey) ==> requests == 0 && topMovies == old(topMovies) && topTvShows == old(topTvShows)
      ensures Truthy(apiKey) && TopRatedResults(movies).None? ==>
        requests == 1 && topMovies == old(topMovies) && topTvShows == old(topTvShows)
      ensures Truthy(apiKey) && TopRatedResults(movies).Some? ==>
        && requests == 2
        && topMovies == TopFive(TopRatedResults(movies).value)
        && topTvShows == (if TopRatedResults(shows).Some? then TopFive(TopRatedResults(shows).value) else old(topTvShows))
    {
      if !Truthy(apiKey) {
        return 0;
      }
      requests := 1;
      var movieResults := TopRatedResults(movies);
      if movieResults.None? {
        return;
      }
      topMovies := TopFive(movieResults.value);
      requests := 2;
      var showResults := TopRatedResults(shows);
      if showResults.None? {
        return;
      }
      topTvShows := TopFive(showResults.value);
    }
  }
}
