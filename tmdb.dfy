/**
 * The pure part of the TMDb client (apps/movies_api/services/tmdb_service.py):
 * the API-key check at construction, the mapping from a TMDb movie record to
 * the local MovieMetadata fields, and the image URL builders. The date parser
 * (`datetime.strptime(..., '%Y-%m-%d')`) is a parameter.
 */
module Tmdb {
  import opened Wrappers
  import opened JsonValue
  import opened Models

  // ---------------------------------------------------------------------------
  // __init__: the API key must be configured
  // ---------------------------------------------------------------------------

  datatype ConfigError = KeyNotConfigured

  /** The configured key, or the ValueError construction raises for a missing or empty one. */
  function Configure(apiKey: Option<string>): (r: Result<string, ConfigError>)
    ensures r.Ok? <==> apiKey.Some? && apiKey.value != ""
    ensures r.Ok? ==> r.value == apiKey.value
  {
    match apiKey
    case Some(k) => if k != "" then Ok(k) else Err(KeyNotConfigured)
    case None => Err(KeyNotConfigured)
  }

  // ---------------------------------------------------------------------------
  // normalize_movie_data
  // ---------------------------------------------------------------------------

  /** The dictionary normalize_movie_data returns; field values are passed through untyped. */
  datatype MovieData = MovieData(
    tmdbId: Json,
    title: Json,
    overview: Json,
    releaseDate: Option<Date>,
    posterPath: Json,
    backdropPath: Json,
    voteAverage: Json,
    voteCount: Json,
    popularity: Json,
    genres: Json,
    runtime: Json)

  /** The exceptions normalize_movie_data lets escape, in the order it can raise them. */
  datatype NormalizeError =
    | ReleaseDateNotText   // strptime on a truthy non-string raises TypeError
    | MalformedGenres      // a `genres` value whose entries have no 'name'
    | MissingId            // tmdb_movie['id'] raises KeyError

  /** `d.get(k, default)`: a present key keeps its value, even null. */
  function GetOr(d: map<string, Json>, k: string, default: Json): (r: Json)
    ensures k in d ==> r == d[k]
    ensures k !in d ==> r == default
  {
    if k in d then d[k] else default
  }

  /**
   * The parsed release date: None when the key is absent or its value falsy
   * or unparsable (the ValueError is swallowed); a truthy non-string raises.
   */
  function ReleaseDate(d: map<string, Json>, parse: string -> Option<Date>): (r: Result<Option<Date>, NormalizeError>)
    ensures r.Err? <==> "release_date" in d && Truthy(d["release_date"]) && !d["release_date"].JStr?
    ensures r.Ok? && r.value.Some? ==>
      "release_date" in d && d["release_date"].JStr? && r.value == parse(d["release_date"].s)
  {
    if "release_date" in d && Truthy(d["release_date"]) then
      match d["release_date"]
      case JStr(s) => Ok(parse(s))
      case _ => Err(ReleaseDateNotText)
    else Ok(None)
  }

  /** `[g['name'] for g in items]`: every entry must be an object with a 'name'. */
  function NamesOf(items: seq<Json>): (r: Option<seq<Json>>)
    ensures r.Some? <==> forall i | 0 <= i < |items| :: items[i].JObj? && "name" in items[i].fields
    ensures r.Some? ==> |r.value| == |items|
    ensures r.Some? ==> forall i | 0 <= i < |items| :: r.value[i] == items[i].fields["name"]
  {
    if items == [] then Some([])
    else if items[0].JObj? && "name" in items[0].fields then
      match NamesOf(items[1..])
      case Some(rest) => Some([items[0].fields["name"]] + rest)
      case None => None
    else None
  }

  /**
   * The comprehension over a `genres` value. Iterating an empty string or an
   * empty object yields nothing; a non-empty one yields strings, which cannot
   * be indexed by 'name'; any other non-list value is not iterable.
   */
  function GenreNames(v: Json): Option<seq<Json>> {
    match v
    case JArr(items) => NamesOf(items)
    case JStr(s) => if s == "" then Some([]) else None
    case JObj(f) => if f == map[] then Some([]) else None
    case _ => None
  }

  /** The genre list: names from `genres` when present, else `genre_ids` as given, else []. */
  function Genres(d: map<string, Json>): (r: Result<Json, NormalizeError>)
    ensures "genres" in d ==> (r.Ok? <==> GenreNames(d["genres"]).Some?)
    ensures "genres" !in d ==> r.Ok?
  {
    if "genres" in d then
      match GenreNames(d["genres"])
      case Some(names) => Ok(JArr(names))
      case None => Err(MalformedGenres)
    else if "genre_ids" in d then Ok(d["genre_ids"])
    else Ok(JArr([]))
  }

  function Normalize(d: map<string, Json>, parse: string -> Option<Date>): (r: Result<MovieData, NormalizeError>)
    ensures r.Ok? <==> ReleaseDate(d, parse).Ok? && Genres(d).Ok? && "id" in d
    ensures r.Err? ==> r.error == (if ReleaseDate(d, parse).Err? then ReleaseDateNotText
                                   else if Genres(d).Err? then MalformedGenres else MissingId)
    ensures r.Ok? ==> r.value.tmdbId == d["id"]
    ensures r.Ok? ==>
      && r.value.releaseDate == ReleaseDate(d, parse).value && r.value.genres == Genres(d).value
      && r.value.title == GetOr(d, "title", JStr(""))
      && r.value.overview == GetOr(d, "overview", JStr(""))
      && r.value.posterPath == GetOr(d, "poster_path", JStr(""))
      && r.value.backdropPath == GetOr(d, "backdrop_path", JStr(""))
      && r.value.voteAverage == GetOr(d, "vote_average", JNum(0.0))
      && r.value.voteCount == GetOr(d, "vote_count", JInt(0))
      && r.value.popularity == GetOr(d, "popularity", JNum(0.0))
      && r.value.runtime == GetOr(d, "runtime", JNull)
  {
    match ReleaseDate(d, parse)
    case Err(e) => Err(e)
    case Ok(date) =>
      match Genres(d)
      case Err(e) => Err(e)
      case Ok(genres) =>
        if "id" !in d then Err(MissingId)
        else Ok(MovieData(
          d["id"],
          GetOr(d, "title", JStr("")),
          GetOr(d, "overview", JStr("")),
          date,
          GetOr(d, "poster_path", JStr("")),
          GetOr(d, "backdrop_path", JStr("")),
          GetOr(d, "vote_average", JNum(0.0)),
          GetOr(d, "vote_count", JInt(0)),
          GetOr(d, "popularity", JNum(0.0)),
          genres,
          GetOr(d, "runtime", JNull)))
  }

  // ---------------------------------------------------------------------------
  // What normalisation guarantees
  // ---------------------------------------------------------------------------

  /** A record holding nothing but its id maps to every default. */
  lemma OnlyIdGivesDefaults(id: Json, parse: string -> Option<Date>)
    ensures Normalize(map["id" := id], parse)
      == Ok(MovieData(id, JStr(""), JStr(""), None, JStr(""), JStr(""), JNum(0.0), JInt(0), JNum(0.0), JArr([]), JNull))
  {
  }

  /** When both keys are present `genres` wins: `genre_ids` has no influence. */
  lemma GenresWinOverIds(d: map<string, Json>, parse: string -> Option<Date>, ids: Json)
    requires "genres" in d
    ensures Normalize(d["genre_ids" := ids], parse) == Normalize(d, parse)
  {
    var e := d["genre_ids" := ids];
    assert "genres" in e && e["genres"] == d["genres"];
    assert ReleaseDate(e, parse) == ReleaseDate(d, parse);
    assert Genres(e) == Genres(d);
  }

  /** Without `genres`, the `genre_ids` value is taken as it is. */
  lemma GenreIdsTakenAsGiven(d: map<string, Json>, parse: string -> Option<Date>)
    requires "genres" !in d && "genre_ids" in d
    requires Normalize(d, parse).Ok?
    ensures Normalize(d, parse).value.genres == d["genre_ids"]
  {
  }

  /** With neither key the genre list is empty; a record without an id never normalises. */
  lemma GenresDefaultAndIdRequired(d: map<string, Json>, parse: string -> Option<Date>)
    ensures "genres" !in d && "genre_ids" !in d && Normalize(d, parse).Ok? ==> Normalize(d, parse).value.genres == JArr([])
    ensures "id" !in d ==> Normalize(d, parse).Err?
  {
  }

  /** The release date is None whenever it is absent, empty or unparsable. */
  lemma ReleaseDateNoneCases(d: map<string, Json>, parse: string -> Option<Date>)
    requires Normalize(d, parse).Ok?
    requires || "release_date" !in d
             || d["release_date"] == JNull
             || d["release_date"] == JStr("")
             || (d["release_date"].JStr? && parse(d["release_date"].s).None?)
    ensures Normalize(d, parse).value.releaseDate.None?
  {
  }

  /** The genre objects a detailed TMDb response carries for a genre list. */
  function GenreObjects(gs: seq<string>): (r: seq<Json>)
    ensures |r| == |gs| && forall i | 0 <= i < |gs| :: r[i] == JObj(map["name" := JStr(gs[i])])
  {
    if gs == [] then [] else [JObj(map["name" := JStr(gs[0])])] + GenreObjects(gs[1..])
  }

  /** A detailed TMDb response describing `m`, with the date written by `format`. */
  function DetailedRecord(m: Movie, format: Date -> string): map<string, Json> {
    var base := map[
      "id" := JInt(m.tmdbId),
      "title" := JStr(m.title),
      "overview" := JStr(m.overview),
      "poster_path" := JStr(m.posterPath),
      "backdrop_path" := JStr(m.backdropPath),
      "vote_average" := JNum(m.voteAverage),
      "vote_count" := JInt(m.voteCount),
      "popularity" := JNum(m.popularity),
      "genres" := JArr(GenreObjects(m.genres)),
      "runtime" := match m.runtime case Some(n) => JInt(n) case None => JNull];
    match m.releaseDate
    case Some(date) => base["release_date" := JStr(format(date))]
    case None => base
  }

  /**
   * Normalising the detailed record of a movie gives back every field of the
   * movie, provided the parser reads what the formatter writes.
   */
  lemma NormalizeDetailedRecord(m: Movie, format: Date -> string, parse: string -> Option<Date>)
    requires m.releaseDate.Some? ==> format(m.releaseDate.value) != "" && parse(format(m.releaseDate.value)) == m.releaseDate
    ensures var r := Normalize(DetailedRecord(m, format), parse);
      && r.Ok?
      && r.value.tmdbId == JInt(m.tmdbId)
      && r.value.title == JStr(m.title)
      && r.value.overview == JStr(m.overview)
      && r.value.releaseDate == m.releaseDate
      && r.value.posterPath == JStr(m.posterPath)
      && r.value.backdropPath == JStr(m.backdropPath)
      && r.value.voteAverage == JNum(m.voteAverage)
      && r.value.voteCount == JInt(m.voteCount)
      && r.value.popularity == JNum(m.popularity)
      && r.value.genres == JArr(JStrs(m.genres))
      && (m.runtime.Some? ==> r.value.runtime == JInt(m.runtime.value))
      && (m.runtime.None? ==> r.value.runtime == JNull)
  {
    var d := DetailedRecord(m, format);
    DetailedRecordFields(m, format);
    NamesOfGenreObjects(m.genres);
    assert Genres(d) == Ok(JArr(JStrs(m.genres)));
    assert ReleaseDate(d, parse) == Ok(m.releaseDate);
  }

  /** A genre list as JSON strings. */
  function JStrs(gs: seq<string>): (r: seq<Json>)
    ensures |r| == |gs| && forall i | 0 <= i < |gs| :: r[i] == JStr(gs[i])
  {
    if gs == [] then [] else [JStr(gs[0])] + JStrs(gs[1..])
  }

  lemma {:induction false} NamesOfGenreObjects(gs: seq<string>)
    ensures NamesOf(GenreObjects(gs)) == Some(JStrs(gs))
  {
    if gs != [] {
      NamesOfGenreObjects(gs[1..]);
      var objs := GenreObjects(gs);
      assert objs[1..] == GenreObjects(gs[1..]);
      assert objs[0].fields["name"] == JStr(gs[0]);
    }
  }

  lemma DetailedRecordFields(m: Movie, format: Date -> string)
    ensures var d := DetailedRecord(m, format);
      && "id" in d && d["id"] == JInt(m.tmdbId)
      && GetOr(d, "title", JStr("")) == JStr(m.title)
      && GetOr(d, "overview", JStr("")) == JStr(m.overview)
      && GetOr(d, "poster_path", JStr("")) == JStr(m.posterPath)
      && GetOr(d, "vote_average", JNum(0.0)) == JNum(m.voteAverage)
      && GetOr(d, "vote_count", JInt(0)) == JInt(m.voteCount)
      && GetOr(d, "popularity", JNum(0.0)) == JNum(m.popularity)
      && "genres" in d && d["genres"] == JArr(GenreObjects(m.genres))
      && (m.releaseDate.None? ==> "release_date" !in d)
      && (m.releaseDate.Some? ==> "release_date" in d && d["release_date"] == JStr(format(m.releaseDate.value)))
      && GetOr(d, "backdrop_path", JStr("")) == JStr(m.backdropPath)
      && (m.runtime.Some? ==> GetOr(d, "runtime", JNull) == JInt(m.runtime.value))
      && (m.runtime.None? ==> GetOr(d, "runtime", JNull) == JNull)
  {
    DetailedRecordTextFields(m, format);
    DetailedRecordNumberFields(m, format);
    DetailedRecordOtherFields(m, format);
  }

  lemma DetailedRecordOtherFields(m: Movie, format: Date -> string)
    ensures var d := DetailedRecord(m, format);
      && GetOr(d, "backdrop_path", JStr("")) == JStr(m.backdropPath)
      && (m.runtime.Some? ==> GetOr(d, "runtime", JNull) == JInt(m.runtime.value))
      && (m.runtime.None? ==> GetOr(d, "runtime", JNull) == JNull)
  {
  }

  lemma DetailedRecordTextFields(m: Movie, format: Date -> string)
    ensures var d := DetailedRecord(m, format);
      && "id" in d && d["id"] == JInt(m.tmdbId)
      && GetOr(d, "title", JStr("")) == JStr(m.title)
      && GetOr(d, "overview", JStr("")) == JStr(m.overview)
      && GetOr(d, "poster_path", JStr("")) == JStr(m.posterPath)
      && (m.releaseDate.None? ==> "release_date" !in d)
      && (m.releaseDate.Some? ==> "release_date" in d && d["release_date"] == JStr(format(m.releaseDate.value)))
  {
  }

  lemma DetailedRecordNumberFields(m: Movie, format: Date -> string)
    ensures var d := DetailedRecord(m, format);
      && GetOr(d, "vote_average", JNum(0.0)) == JNum(m.voteAverage)
      && GetOr(d, "vote_count", JInt(0)) == JInt(m.voteCount)
      && GetOr(d, "popularity", JNum(0.0)) == JNum(m.popularity)
      && "genres" in d && d["genres"] == JArr(GenreObjects(m.genres))
  {
  }

  // ---------------------------------------------------------------------------
  // get_poster_url and get_backdrop_url
  // ---------------------------------------------------------------------------

  const ImageBaseUrl := "https://image.tmdb.org/t/p"
  const DefaultPosterSize := "w500"
  const DefaultBackdropSize := "w1280"

  /** '' for an empty path, otherwise "<IMAGE_BASE_URL>/<size><path>". */
  function ImageUrl(path: string, size: string): (r: string)
    ensures path == "" <==> r == ""
    ensures path != "" ==> ImageBaseUrl + "/" + size <= r && r[|ImageBaseUrl| + 1 + |size|..] == path
  {
    if path == "" then "" else ImageBaseUrl + "/" + size + path
  }

  /** get_poster_url with its default size. */
  function PosterUrlOf(path: string): string {
    ImageUrl(path, DefaultPosterSize)
  }

  /** get_backdrop_url with its default size. */
  function BackdropUrlOf(path: string): string {
    ImageUrl(path, DefaultBackdropSize)
  }

  /** Two different paths never give the same URL at the same size. */
  lemma ImageUrlInjective(p: string, q: string, size: string)
    requires ImageUrl(p, size) == ImageUrl(q, size)
    ensures p == q
  {
  }

  /** The service's default poster URL and the model's `poster_url` agree ('' standing for None). */
  lemma PosterUrlsAgree(m: Movie)
    ensures PosterUrlOf(m.posterPath) == PosterUrl(m).GetOr("")
    ensures BackdropUrlOf(m.backdropPath) != "" <==> m.backdropPath != ""
  {
    assert ImageBaseUrl + "/" + DefaultPosterSize == PosterBase;
  }
}
