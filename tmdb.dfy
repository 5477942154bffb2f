/**
 * The movie-service helpers: the genre-to-mood and mood-to-genre tables, mood
 * derivation, the projection of provider records into catalogue items, the
 * list-page conversion with its fallback value, the "browse by mood" request,
 * and the extraction of director and cast from a detail record.
 * HTTP responses are inputs: a `Fetched<T>` is either the body the provider
 * returned or a failure (no response, or a non-2xx status).
 */
module Tmdb {
  import opened Wrappers
  import opened Seqs
  import opened JsString

  type Mood = string

  /** One entry of an item's `genre` list: list records carry provider ids, detail records carry genre names. */
  datatype GenreTag = GenreId(id: int) | GenreName(name: string)

  /** `genreId.toString()` */
  function GenreText(g: GenreTag): string {
    match g
    case GenreId(id) => IntToDecimal(id)
    case GenreName(n) => n
  }

  /** The provider ids among a `genre` list, in order. */
  function GenreIdsOf(tags: seq<GenreTag>): seq<int> {
    if tags == [] then []
    else (if tags[0].GenreId? then [tags[0].id] else []) + GenreIdsOf(tags[1..])
  }

  /** A release year, or 'N/A' when the provider gave no release date. */
  datatype Year = NoYear | Year(value: int)

  datatype CastMember = CastMember(id: int, name: string, character: string, image: Option<string>)

  /**
   * A catalogue item. List records leave the detail-only fields (`runtime`,
   * `language`, `budget`, `revenue`, `cast`) absent; detail records leave
   * `popularity` and `voteCount` absent.
   */
  datatype MovieItem = MovieItem(
    id: int,
    title: string,
    kind: string,
    rating: real,
    image: string,
    genre: seq<GenreTag>,
    mood: seq<Mood>,
    description: string,
    year: Year,
    director: string,
    userRating: Option<int>,
    popularity: Option<real>,
    voteCount: Option<int>,
    runtime: Option<int>,
    language: Option<string>,
    budget: Option<int>,
    revenue: Option<int>,
    cast: Option<seq<CastMember>>)

  /** A movie as the provider's list endpoints return it. */
  datatype RawMovie = RawMovie(
    id: int,
    title: string,
    voteAverage: real,
    posterPath: Option<string>,
    genreIds: seq<int>,
    overview: string,
    releaseYear: Option<int>,
    popularity: real,
    voteCount: int)

  datatype RawPage = RawPage(results: seq<RawMovie>, totalPages: int, page: int)

  /** The outcome of one HTTP request. */
  datatype Fetched<T> = Received(body: T) | Failed

  /** What the list services hand to their callers. */
  datatype MoviePage = MoviePage(movies: seq<MovieItem>, totalPages: int, currentPage: int)

  /** The value every service returns when its request fails. */
  const FallbackPage := MoviePage([], 0, 1)

  // ---------------------------------------------------------------------
  // The two tables
  // ---------------------------------------------------------------------

  /** `genreMoodMap[genreId]`: the moods of a provider genre id, none for an id outside the table. */
  function GenreMoodMap(genreId: int): Option<seq<Mood>> {
    match genreId
    case 28 => Some(["excited", "intense"])          // Action
    case 12 => Some(["excited", "adventurous"])      // Adventure
    case 16 => Some(["happy", "relaxed"])            // Animation
    case 35 => Some(["happy", "funny"])              // Comedy
    case 80 => Some(["intense", "dark"])             // Crime
    case 99 => Some(["thought-provoking", "informative"])  // Documentary
    case 18 => Some(["emotional", "reflective"])     // Drama
    case 10751 => Some(["happy", "relaxed"])         // Family
    case 14 => Some(["excited", "magical"])          // Fantasy
    case 36 => Some(["thought-provoking", "reflective"])   // History
    case 27 => Some(["intense", "dark"])             // Horror
    case 10402 => Some(["happy", "relaxed"])         // Music
    case 9648 => Some(["intense", "mysterious"])     // Mystery
    case 10749 => Some(["romantic", "emotional"])    // Romance
    case 878 => Some(["mind-bending", "excited"])    // Science Fiction
    case 53 => Some(["intense", "suspenseful"])      // Thriller
    case 10752 => Some(["intense", "emotional"])     // War
    case 37 => Some(["adventurous", "intense"])      // Western
    case _ => None
  }

  /** `moodToGenreMap`: mood to the provider genre ids browsed for it; kept apart from `GenreMoodMap`. */
  const MoodToGenreMap: map<Mood, seq<int>> := map[
    "happy" := [35, 16, 10751],
    "sad" := [18, 10749],
    "excited" := [28, 12, 878],
    "relaxed" := [35, 10751],
    "thought-provoking" := [99, 36, 18],
    "romantic" := [10749, 35],
    "intense" := [53, 27, 80],
    "mysterious" := [9648, 80],
    "magical" := [14, 16],
    "dramatic" := [18, 36],
    "funny" := [35],
    "adventurous" := [12, 28],
    "mind-bending" := [878, 9648],
    "action-packed" := [28, 53],
    "spooky" := [27, 9648]
  ]

  /** The table entry for one genre; an unknown id has none. */
  function MoodsForGenre(g: int): seq<Mood> {
    GenreMoodMap(g).GetOr([])
  }

  // ---------------------------------------------------------------------
  // Mood derivation
  // ---------------------------------------------------------------------

  /** `moods.add(m)` on an insertion-ordered set. */
  function AddMood(acc: seq<Mood>, m: Mood): seq<Mood> {
    if m in acc then acc else acc + [m]
  }

  /** Adds each of `ms`, in order. */
  function AddMoods(acc: seq<Mood>, ms: seq<Mood>): seq<Mood>
    decreases |ms|
  {
    if ms == [] then acc else AddMoods(AddMood(acc, ms[0]), ms[1..])
  }

  /** Adds the table entry of each genre of `ids`, in order. */
  function MoodsFrom(acc: seq<Mood>, ids: seq<int>): seq<Mood>
    decreases |ids|
  {
    if ids == [] then acc else MoodsFrom(AddMoods(acc, MoodsForGenre(ids[0])), ids[1..])
  }

  /** `Array.from(moods)` after the `forEach` of `getMoodFromGenres`. */
  function MoodsOf(ids: seq<int>): seq<Mood> {
    MoodsFrom([], ids)
  }

  /**
   * `getMoodFromGenres`: walks the genre ids and adds every mood of each id's
   * table entry to an insertion-ordered set.
   */
  method GetMoodFromGenres(genreIds: seq<int>) returns (moods: seq<Mood>)
    ensures moods == MoodsOf(genreIds)
  {
    moods := [];
    for i := 0 to |genreIds|
      invariant MoodsFrom(moods, genreIds[i..]) == MoodsOf(genreIds)
    {
      assert genreIds[i..][1..] == genreIds[i + 1..];
      var found := GenreMoodMap(genreIds[i]);
      if found.Some? {
        var entry := found.value;
        ghost var before := moods;
        for j := 0 to |entry|
          invariant AddMoods(moods, entry[j..]) == AddMoods(before, entry)
        {
          assert entry[j..][1..] == entry[j + 1..];
          if entry[j] !in moods {
            moods := moods + [entry[j]];
          }
        }
      }
    }
  }

  lemma {:induction false} AddMoodsFacts(acc: seq<Mood>, ms: seq<Mood>)
    ensures NoDuplicates(acc) ==> NoDuplicates(AddMoods(acc, ms))
    ensures forall m :: m in AddMoods(acc, ms) <==> m in acc || m in ms
    decreases |ms|
  {
    if ms != [] {
      var next := AddMood(acc, ms[0]);
      AddMoodsFacts(next, ms[1..]);
      assert ms == [ms[0]] + ms[1..];
    }
  }

  lemma {:induction false} MoodsFromFacts(acc: seq<Mood>, ids: seq<int>)
    ensures NoDuplicates(acc) ==> NoDuplicates(MoodsFrom(acc, ids))
    ensures forall m :: m in MoodsFrom(acc, ids) <==>
      m in acc || exists i | 0 <= i < |ids| :: m in MoodsForGenre(ids[i])
    decreases |ids|
  {
    if ids != [] {
      var next := AddMoods(acc, MoodsForGenre(ids[0]));
      AddMoodsFacts(acc, MoodsForGenre(ids[0]));
      MoodsFromFacts(next, ids[1..]);
      forall m ensures (exists i | 0 <= i < |ids| :: m in MoodsForGenre(ids[i])) <==>
        m in MoodsForGenre(ids[0]) || exists i | 0 <= i < |ids[1..]| :: m in MoodsForGenre(ids[1..][i])
      {
        if exists i | 0 <= i < |ids| :: m in MoodsForGenre(ids[i]) {
          var i :| 0 <= i < |ids| && m in MoodsForGenre(ids[i]);
          if i > 0 {
            assert ids[1..][i - 1] == ids[i];
          }
        }
        if exists i | 0 <= i < |ids[1..]| :: m in MoodsForGenre(ids[1..][i]) {
          var i :| 0 <= i < |ids[1..]| && m in MoodsForGenre(ids[1..][i]);
          assert ids[i + 1] == ids[1..][i];
        }
      }
    }
  }

  /** The derived moods hold no duplicates. */
  lemma MoodsOfNoDuplicates(ids: seq<int>)
    ensures NoDuplicates(MoodsOf(ids))
  {
    MoodsFromFacts([], ids);
  }

  /**
   * A mood is derived exactly when the table entry of some given genre lists it;
   * ids missing from the table contribute nothing, and no ids give no moods.
   */
  lemma MoodsOfMembership(ids: seq<int>, m: Mood)
    ensures m in MoodsOf(ids) <==> exists g | g in ids :: m in MoodsForGenre(g)
    ensures ids == [] ==> MoodsOf(ids) == []
  {
    MoodsFromFacts([], ids);
    if exists g | g in ids :: m in MoodsForGenre(g) {
      var g :| g in ids && m in MoodsForGenre(g);
      var i :| 0 <= i < |ids| && ids[i] == g;
      assert m in MoodsForGenre(ids[i]);
    }
  }

  /** As a set, the derived moods depend only on the set of genre ids: order and repeats do not matter. */
  lemma MoodsOfSameGenres(a: seq<int>, b: seq<int>)
    requires forall g :: g in a <==> g in b
    ensures forall m :: m in MoodsOf(a) <==> m in MoodsOf(b)
  {
    forall m ensures m in MoodsOf(a) <==> m in MoodsOf(b) {
      MoodsOfMembership(a, m);
      MoodsOfMembership(b, m);
    }
  }

  lemma {:induction false} MoodsFromAppend(acc: seq<Mood>, a: seq<int>, b: seq<int>)
    ensures MoodsFrom(acc, a + b) == MoodsFrom(MoodsFrom(acc, a), b)
    decreases |a|
  {
    if a != [] {
      assert (a + b)[1..] == a[1..] + b;
      MoodsFromAppend(AddMoods(acc, MoodsForGenre(a[0])), a[1..], b);
    } else {
      assert a + b == b;
    }
  }

  /** An id missing from the table can be dropped from any position without changing the derived moods. */
  lemma UnknownGenreIgnored(a: seq<int>, g: int, b: seq<int>)
    requires GenreMoodMap(g).None?
    ensures MoodsOf(a + [g] + b) == MoodsOf(a + b)
  {
    MoodsFromAppend([], a + [g], b);
    MoodsFromAppend([], a, [g]);
    MoodsFromAppend([], a, b);
  }

  /** The moods the forward table never produces, though the reverse table offers them. */
  const UnderivedMoods: seq<Mood> := ["sad", "dramatic", "action-packed", "spooky"]

  /**
   * 'sad', 'dramatic', 'action-packed' and 'spooky' are keys of the mood-to-genre
   * table with genres of their own, yet no genre list ever derives them; so the
   * tables are not inverses ('sad' browses genre 18, whose moods do not include 'sad').
   */
  lemma UnderivedMoodsNeverDerived(ids: seq<int>, m: Mood)
    requires m in UnderivedMoods
    ensures m in MoodToGenreMap && |MoodToGenreMap[m]| > 0
    ensures m !in MoodsOf(ids)
    ensures 18 in MoodToGenreMap["sad"] && "sad" !in MoodsForGenre(18)
  {
    MoodsOfMembership(ids, m);
  }

  // ---------------------------------------------------------------------
  // Formatting list records
  // ---------------------------------------------------------------------

  const PlaceholderImage := "/placeholder-movie.jpg"

  /** JavaScript truthiness of an optional string: present and non-empty. */
  predicate IsTruthy(s: Option<string>) {
    s.Some? && s.value != ""
  }

  /** The item's moods are the ones its provider genre ids derive. */
  predicate HasDerivedMoods(item: MovieItem) {
    item.mood == MoodsOf(GenreIdsOf(item.genre))
  }

  /** `genre: movie.genre_ids` of a list record. */
  function GenreTags(ids: seq<int>): seq<GenreTag> {
    if ids == [] then [] else [GenreId(ids[0])] + GenreTags(ids[1..])
  }

  lemma {:induction false} GenreIdsOfTags(ids: seq<int>)
    ensures GenreIdsOf(GenreTags(ids)) == ids
  {
    if ids != [] {
      GenreIdsOfTags(ids[1..]);
      assert ([GenreId(ids[0])] + GenreTags(ids[1..]))[1..] == GenreTags(ids[1..]);
      assert ids == [ids[0]] + ids[1..];
    }
  }

  /** `formatMovieData` */
  function FormatMovieData(m: RawMovie, imageBase: string): (r: MovieItem)
    ensures r.id == m.id && r.title == m.title && r.description == m.overview
    ensures r.kind == "movie" && r.userRating == None && r.director == ""
    ensures r.rating == m.voteAverage / 2.0
    ensures 0.0 <= m.voteAverage <= 10.0 ==> 0.0 <= r.rating <= 5.0
    ensures r.image == if IsTruthy(m.posterPath) then imageBase + m.posterPath.value else PlaceholderImage
    ensures GenreIdsOf(r.genre) == m.genreIds && r.mood == MoodsOf(m.genreIds)
    ensures HasDerivedMoods(r) && NoDuplicates(r.mood)
    ensures r.popularity == Some(m.popularity) && r.voteCount == Some(m.voteCount)
    ensures r.runtime.None? && r.cast.None?
  {
    GenreIdsOfTags(m.genreIds);
    MoodsOfNoDuplicates(m.genreIds);
    MovieItem(
      id := m.id,
      title := m.title,
      kind := "movie",
      rating := m.voteAverage / 2.0,
      image := if IsTruthy(m.posterPath) then imageBase + m.posterPath.value else PlaceholderImage,
      genre := GenreTags(m.genreIds),
      mood := MoodsOf(m.genreIds),
      description := m.overview,
      year := if m.releaseYear.Some? then Year(m.releaseYear.value) else NoYear,
      director := "",
      userRating := None,
      popularity := Some(m.popularity),
      voteCount := Some(m.voteCount),
      runtime := None,
      language := None,
      budget := None,
      revenue := None,
      cast := None)
  }

  /** `results.map(formatMovieData)` */
  function FormatAll(results: seq<RawMovie>, imageBase: string): seq<MovieItem> {
    seq(|results|, i requires 0 <= i < |results| => FormatMovieData(results[i], imageBase))
  }

  /**
   * `getTrendingMovies(page)` and `searchMovies(query, page)` once the provider
   * has answered: the formatted results and the provider's page counters, or
   * the fallback page when the request failed.
   */
  function ServicePage(response: Fetched<RawPage>, imageBase: string): (r: MoviePage)
    ensures response.Failed? ==> r == FallbackPage
    ensures response.Received? ==>
      |r.movies| == |response.body.results| && r.totalPages == response.body.totalPages
      && r.currentPage == response.body.page
    ensures response.Received? ==>
      forall i | 0 <= i < |r.movies| :: r.movies[i] == FormatMovieData(response.body.results[i], imageBase)
    ensures forall i | 0 <= i < |r.movies| :: HasDerivedMoods(r.movies[i])
  {
    match response
    case Failed => FallbackPage
    case Received(p) => MoviePage(FormatAll(p.results, imageBase), p.totalPages, p.page)
  }

  // ---------------------------------------------------------------------
  // Browsing by mood
  // ---------------------------------------------------------------------

  /** The query of the provider's discover endpoint. */
  datatype DiscoverRequest = DiscoverRequest(page: int, withGenres: string, sortBy: string, minVoteCount: int)

  /** `moodToGenreMap[mood] || []` */
  function MoodGenres(mood: Mood): seq<int> {
    if mood in MoodToGenreMap then MoodToGenreMap[mood] else []
  }

  function DecimalIds(ids: seq<int>): seq<string> {
    seq(|ids|, i requires 0 <= i < |ids| => IntToDecimal(ids[i]))
  }

  /** The request `getMoviesByMood` sends, or None when its guard returns before sending one. */
  function MoodRequest(mood: Mood, page: int): (r: Option<DiscoverRequest>)
    ensures r.None? <==> |MoodGenres(mood)| == 0
    ensures r.Some? ==> r.value.page == page && r.value.sortBy == "popularity.desc" && r.value.minVoteCount == 100
  {
    var genreIds := MoodGenres(mood);
    if |genreIds| == 0 then None
    else Some(DiscoverRequest(page, Join(DecimalIds(genreIds), ','), "popularity.desc", 100))
  }

  /** The `with_genres` parameter splits back into the mood's genre ids, in order. */
  lemma WithGenresRoundTrip(mood: Mood, page: int)
    requires MoodRequest(mood, page).Some?
    ensures Split(MoodRequest(mood, page).value.withGenres, ',') == DecimalIds(MoodGenres(mood))
  {
    var parts := DecimalIds(MoodGenres(mood));
    forall i | 0 <= i < |parts| ensures ',' !in parts[i] {
    }
    SplitJoin(parts, ',');
  }

  /**
   * `getMoviesByMood(mood, page)`, with `server` standing for the provider: the
   * fallback page without any request for a mood that has no genres, otherwise
   * the service page for the provider's answer.
   */
  function GetMoviesByMood(mood: Mood, page: int, server: DiscoverRequest -> Fetched<RawPage>, imageBase: string): (r: MoviePage)
    ensures MoodRequest(mood, page).None? ==> r == FallbackPage
    ensures MoodRequest(mood, page).Some? ==> r == ServicePage(server(MoodRequest(mood, page).value), imageBase)
    ensures forall i | 0 <= i < |r.movies| :: HasDerivedMoods(r.movies[i])
  {
    match MoodRequest(mood, page)
    case None => FallbackPage
    case Some(request) => ServicePage(server(request), imageBase)
  }

  /** A mood outside the reverse table gives the fallback page whatever the provider would have said. */
  lemma UnknownMoodSendsNothing(mood: Mood, page: int, s1: DiscoverRequest -> Fetched<RawPage>,
                                s2: DiscoverRequest -> Fetched<RawPage>, imageBase: string)
    requires mood !in MoodToGenreMap
    ensures GetMoviesByMood(mood, page, s1, imageBase) == GetMoviesByMood(mood, page, s2, imageBase) == FallbackPage
  {
  }

  // ---------------------------------------------------------------------
  // Detail records
  // ---------------------------------------------------------------------

  datatype GenreRef = GenreRef(id: int, name: string)

  /** A movie as the provider's detail endpoint returns it. */
  datatype RawDetails = RawDetails(
    id: int,
    title: string,
    voteAverage: real,
    posterPath: Option<string>,
    genres: seq<GenreRef>,
    overview: string,
    releaseYear: Option<int>,
    runtime: Option<int>,
    originalLanguage: string,
    budget: int,
    revenue: int)

  datatype CrewMember = CrewMember(name: string, job: string)
  datatype CastCredit = CastCredit(id: int, name: string, character: string, profilePath: Option<string>)
  datatype Credits = Credits(crew: seq<CrewMember>, cast: seq<CastCredit>)

  /** `crew.find(person => person.job === 'Director')`, as an index. */
  function FirstDirector(crew: seq<CrewMember>): (r: Option<nat>)
    ensures r.Some? ==> r.value < |crew| && crew[r.value].job == "Director"
    ensures r.Some? ==> forall j | 0 <= j < r.value :: crew[j].job != "Director"
    ensures r.None? ==> forall j | 0 <= j < |crew| :: crew[j].job != "Director"
  {
    if crew == [] then None
    else if crew[0].job == "Director" then Some(0)
    else match FirstDirector(crew[1..])
      case None => None
      case Some(k) => Some(k + 1)
  }

  /** The director's name shown for a movie: the first crew member credited as 'Director', else 'Unknown'. */
  function DirectorName(crew: seq<CrewMember>): string {
    match FirstDirector(crew)
    case None => "Unknown"
    case Some(k) => crew[k].name
  }

  function CastMemberOf(c: CastCredit, imageBase: string): CastMember {
    CastMember(c.id, c.name, c.character, if IsTruthy(c.profilePath) then Some(imageBase + c.profilePath.value) else None)
  }

  /** `credits.cast.slice(0, 5).map(...)` */
  function TopCast(cast: seq<CastCredit>, imageBase: string): (r: seq<CastMember>)
    ensures |r| == if |cast| < 5 then |cast| else 5
    ensures forall i | 0 <= i < |r| :: r[i] == CastMemberOf(cast[i], imageBase)
  {
    var n := if |cast| < 5 then |cast| else 5;
    seq(n, i requires 0 <= i < n => CastMemberOf(cast[i], imageBase))
  }

  /** `getMovieDetails`: the detail record, or None (the service's `null`) when either request failed. */
  function GetMovieDetails(movie: Fetched<RawDetails>, credits: Fetched<Credits>, imageBase: string): (r: Option<MovieItem>)
    ensures r.None? <==> movie.Failed? || credits.Failed?
    ensures r.Some? ==> r.value.userRating == None && r.value.popularity == None && r.value.voteCount == None
  {
    if movie.Failed? || credits.Failed? then None
    else
      var m := movie.body;
      var c := credits.body;
      var genreIds := seq(|m.genres|, i requires 0 <= i < |m.genres| => m.genres[i].id);
      Some(MovieItem(
        id := m.id,
        title := m.title,
        kind := "movie",
        rating := m.voteAverage / 2.0,
        image := imageBase + (if m.posterPath.Some? then m.posterPath.value else "null"),
        genre := seq(|m.genres|, i requires 0 <= i < |m.genres| => GenreName(m.genres[i].name)),
        mood := MoodsOf(genreIds),
        description := m.overview,
        year := if m.releaseYear.Some? then Year(m.releaseYear.value) else NoYear,
        director := DirectorName(c.crew),
        userRating := None,
        popularity := None,
        voteCount := None,
        runtime := m.runtime,
        language := Some(m.originalLanguage),
        budget := Some(m.budget),
        revenue := Some(m.revenue),
        cast := Some(TopCast(c.cast, imageBase))))
  }

  /**
   * The director of a detail record is the first crew member credited as
   * 'Director', or 'Unknown' when there is none; the cast is at most the first
   * five credits, in order.
   */
  lemma DetailsDirectorAndCast(m: RawDetails, c: Credits, imageBase: string)
    ensures var r := GetMovieDetails(Received(m), Received(c), imageBase).value;
      && ((forall j | 0 <= j < |c.crew| :: c.crew[j].job != "Director") ==> r.director == "Unknown")
      && (forall k | 0 <= k < |c.crew| && c.crew[k].job == "Director"
            && (forall j | 0 <= j < k :: c.crew[j].job != "Director") :: r.director == c.crew[k].name)
      && r.cast.Some? && |r.cast.value| <= 5 && |r.cast.value| <= |c.cast|
      && (forall i | 0 <= i < |r.cast.value| :: r.cast.value[i].id == c.cast[i].id && r.cast.value[i].name == c.cast[i].name)
  {
  }
}
