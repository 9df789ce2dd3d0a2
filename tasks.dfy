/**
 * The background tasks of apps/movies_api/tasks.py over the movie table:
 * syncing trending movies, refreshing one movie, refreshing popularity
 * figures, and deleting old unrated movies. TMDb's answers are inputs (a
 * response, and a function from a TMDb id to what `get_movie_details`
 * returns); the clock is the `now` parameter, in seconds.
 */
module Tasks {
  import opened Wrappers
  import opened Text
  import opened JsonValue
  import opened Models
  import Tmdb
  import Signals

  // ---------------------------------------------------------------------------
  // What TMDb answers, and how a normalised record becomes table fields
  // ---------------------------------------------------------------------------

  /** `get_movie_details`: an exception, None, or a (possibly empty) dictionary. */
  datatype Fetch = Raises | NoDetails | Details(body: map<string, Json>)

  /** `if movie_details:` */
  predicate HasDetails(f: Fetch) {
    f.Details? && f.body != map[]
  }

  /** The typed `defaults` of `update_or_create`. */
  datatype Defaults = Defaults(
    tmdbId: int,
    title: string,
    overview: string,
    releaseDate: Option<Date>,
    posterPath: string,
    backdropPath: string,
    voteAverage: real,
    voteCount: int,
    popularity: real,
    genres: seq<string>,
    runtime: Option<int>)

  function TextOf(v: Json): Option<string> {
    if v.JStr? then Some(v.s) else None
  }

  /** A FloatField accepts a JSON number. */
  function RealOf(v: Json): Option<real> {
    match v
    case JNum(r) => Some(r)
    case JInt(i) => Some(i as real)
    case _ => None
  }

  /** An IntegerField accepts a JSON integer. */
  function IntOf(v: Json): Option<int> {
    if v.JInt? then Some(v.i) else None
  }

  /** The nullable runtime: null is None. */
  function RuntimeOf(v: Json): Option<Option<int>> {
    match v
    case JNull => Some(None)
    case JInt(i) => Some(Some(i))
    case _ => None
  }

  /** The genre list as stored: the pre_save hook lower-cases its strings and drops the rest. */
  function StoredGenres(v: Json): (r: Option<seq<string>>)
    ensures r.Some? <==> v.JArr?
  {
    if v.JArr? then
      var ss := Signals.StringsOf(v.items);
      Some(seq(|ss|, i requires 0 <= i < |ss| => Lower(ss[i])))
    else None
  }

  /** The stored genres are the entries of the list the signal handler writes. */
  lemma StoredGenresAreNormalized(v: Json)
    requires v.JArr?
    ensures var g := StoredGenres(v).value; var n := Signals.NormalizeGenres(v).items;
      |g| == |n| && forall i | 0 <= i < |g| :: n[i] == JStr(g[i])
  {
  }

  /**
   * The row fields a normalised record gives; None when the database would
   * refuse a value (a null title or path, a non-numeric figure, a non-list
   * genre value), which makes `update_or_create` raise.
   */
  function ToDefaults(d: Tmdb.MovieData): (r: Option<Defaults>)
    ensures r.Some? <==>
      && d.tmdbId.JInt? && d.title.JStr? && d.overview.JStr? && d.posterPath.JStr? && d.backdropPath.JStr?
      && (d.voteAverage.JNum? || d.voteAverage.JInt?) && d.voteCount.JInt?
      && (d.popularity.JNum? || d.popularity.JInt?) && d.genres.JArr? && (d.runtime.JNull? || d.runtime.JInt?)
    ensures r.Some? ==> JInt(r.value.tmdbId) == d.tmdbId && JStr(r.value.title) == d.title
    ensures r.Some? ==> JStr(r.value.overview) == d.overview && r.value.releaseDate == d.releaseDate
    ensures r.Some? ==> JStr(r.value.posterPath) == d.posterPath && JStr(r.value.backdropPath) == d.backdropPath
    ensures r.Some? ==> RealOf(d.voteAverage) == Some(r.value.voteAverage) && JInt(r.value.voteCount) == d.voteCount
    ensures r.Some? ==> RealOf(d.popularity) == Some(r.value.popularity)
    ensures r.Some? ==> StoredGenres(d.genres) == Some(r.value.genres)
    ensures r.Some? ==> (r.value.runtime.None? <==> d.runtime.JNull?)
    ensures r.Some? && r.value.runtime.Some? ==> d.runtime == JInt(r.value.runtime.value)
  {
    var id, title, overview := IntOf(d.tmdbId), TextOf(d.title), TextOf(d.overview);
    var poster, backdrop := TextOf(d.posterPath), TextOf(d.backdropPath);
    var avg, count, pop := RealOf(d.voteAverage), IntOf(d.voteCount), RealOf(d.popularity);
    var genres, runtime := StoredGenres(d.genres), RuntimeOf(d.runtime);
    if id.Some? && title.Some? && overview.Some? && poster.Some? && backdrop.Some? && avg.Some?
       && count.Some? && pop.Some? && genres.Some? && runtime.Some?
    then Some(Defaults(id.value, title.value, overview.value, d.releaseDate, poster.value, backdrop.value,
                       avg.value, count.value, pop.value, genres.value, runtime.value))
    else None
  }

  // ---------------------------------------------------------------------------
  // The movie table and update_or_create(tmdb_id=..., defaults=...)
  // ---------------------------------------------------------------------------

  /** The rows and the next primary key. */
  datatype Table = Table(movies: seq<Movie>, nextId: nat)

  /** `tmdb_id` is unique, primary keys are distinct and below the next one. */
  ghost predicate TableValid(t: Table) {
    && (forall i, j | 0 <= i < j < |t.movies| :: t.movies[i].tmdbId != t.movies[j].tmdbId)
    && (forall i, j | 0 <= i < j < |t.movies| :: t.movies[i].id != t.movies[j].id)
    && (forall i | 0 <= i < |t.movies| :: t.movies[i].id < t.nextId)
  }

  function TmdbIdOf(m: Movie): int {
    m.tmdbId
  }

  /** The row holding `tmdbId`, if any (the lookup of `update_or_create`). */
  function TmdbIndex(ms: seq<Movie>, tmdbId: int): (r: Option<nat>)
    ensures r.Some? ==> r.value < |ms| && ms[r.value].tmdbId == tmdbId
    ensures r.None? ==> forall i | 0 <= i < |ms| :: ms[i].tmdbId != tmdbId
  {
    IndexWhere(ms, TmdbIdOf, tmdbId)
  }

  /** The fields of a row that `defaults` can set. */
  function RowDefaults(m: Movie): Defaults {
    Defaults(m.tmdbId, m.title, m.overview, m.releaseDate, m.posterPath, m.backdropPath, m.voteAverage,
             m.voteCount, m.popularity, m.genres, m.runtime)
  }

  /** An existing row with every default written over it; `updated_at` is now. */
  function Overwritten(m: Movie, f: Defaults, now: int): (r: Movie)
    ensures RowDefaults(r) == f && r.id == m.id && r.createdAt == m.createdAt && r.updatedAt == now
  {
    m.(tmdbId := f.tmdbId, title := f.title, overview := f.overview, releaseDate := f.releaseDate,
       posterPath := f.posterPath, backdropPath := f.backdropPath, voteAverage := f.voteAverage,
       voteCount := f.voteCount, popularity := f.popularity, genres := f.genres, runtime := f.runtime,
       updatedAt := now)
  }

  /** A new row; both timestamps are now. */
  function NewRow(id: nat, f: Defaults, now: int): (r: Movie)
    ensures RowDefaults(r) == f && r.id == id && r.createdAt == now && r.updatedAt == now
  {
    Movie(id, f.tmdbId, f.title, f.overview, f.releaseDate, f.posterPath, f.backdropPath, f.voteAverage,
          f.voteCount, f.popularity, f.genres, f.runtime, now, now)
  }

  /**
   * update_or_create: the row holding the TMDb id is overwritten, or a new row
   * is appended; `created` says which. An overwritten row takes every default
   * and the update time, keeps its primary key and creation time, and no
   * other row changes.
   */
  function Upsert(t: Table, f: Defaults, now: int): (r: (Table, bool))
    ensures r.1 <==> forall i | 0 <= i < |t.movies| :: t.movies[i].tmdbId != f.tmdbId
    ensures r.1 ==> r.0 == Table(t.movies + [NewRow(t.nextId, f, now)], t.nextId + 1)
    ensures !r.1 ==> r.0.nextId == t.nextId && |r.0.movies| == |t.movies|
    ensures !r.1 ==> exists i | 0 <= i < |t.movies| && t.movies[i].tmdbId == f.tmdbId ::
      && RowDefaults(r.0.movies[i]) == f && r.0.movies[i].updatedAt == now
      && r.0.movies[i].id == t.movies[i].id && r.0.movies[i].createdAt == t.movies[i].createdAt
      && forall j | 0 <= j < |t.movies| && j != i :: r.0.movies[j] == t.movies[j]
  {
    match TmdbIndex(t.movies, f.tmdbId)
    case Some(i) => (Table(t.movies[i := Overwritten(t.movies[i], f, now)], t.nextId), false)
    case None => (Table(t.movies + [NewRow(t.nextId, f, now)], t.nextId + 1), true)
  }

  /** An upsert never creates a second row with the same TMDb id, and leaves exactly one row holding it. */
  lemma UpsertKeepsValid(t: Table, f: Defaults, now: int)
    requires TableValid(t)
    ensures TableValid(Upsert(t, f, now).0)
    ensures exists i | 0 <= i < |Upsert(t, f, now).0.movies| :: Upsert(t, f, now).0.movies[i].tmdbId == f.tmdbId
  {
    var r := Upsert(t, f, now).0;
    match TmdbIndex(t.movies, f.tmdbId)
    case Some(k) =>
      forall i, j | 0 <= i < j < |r.movies|
        ensures r.movies[i].tmdbId != r.movies[j].tmdbId && r.movies[i].id != r.movies[j].id
      {
        assert r.movies[i].id == t.movies[i].id && r.movies[j].id == t.movies[j].id;
        if i != k && j != k {
          assert r.movies[i] == t.movies[i] && r.movies[j] == t.movies[j];
        }
      }
      assert r.movies[k].tmdbId == f.tmdbId;
    case None =>
      assert r.movies[|t.movies|].tmdbId == f.tmdbId;
  }

  /** The movie table, updated in place by the Celery jobs. */
  class MovieStore {
    var movies: seq<Movie>
    var nextId: nat

    constructor(movies: seq<Movie>, nextId: nat)
      ensures this.movies == movies && this.nextId == nextId
    {
      this.movies := movies;
      this.nextId := nextId;
    }

    function Snapshot(): Table
      reads this
    {
      Table(movies, nextId)
    }

    /** TMDb ids and primary keys are unique, and every key is below `nextId`. */
    ghost predicate Valid()
      reads this
    {
      TableValid(Snapshot())
    }

    method UpdateOrCreate(f: Defaults, now: int) returns (created: bool)
      modifies this
      ensures (Snapshot(), created) == Upsert(old(Snapshot()), f, now)
      ensures old(Valid()) ==> Valid()
    {
      if Valid() {
        UpsertKeepsValid(Snapshot(), f, now);
      }
      var i := TmdbIndex(movies, f.tmdbId);
      if i.Some? {
        movies := movies[i.value := Overwritten(movies[i.value], f, now)];
        created := false;
      } else {
        movies := movies + [NewRow(nextId, f, now)];
        nextId := nextId + 1;
        created := true;
      }
    }
  }

  // ---------------------------------------------------------------------------
  // sync_trending_movies
  // ---------------------------------------------------------------------------

  datatype SyncResult =
    | SyncFailed           // no response, or one without 'results'
    | Synced(created: nat, updated: nat)
    | SyncRetry            // an exception escaped, and Celery is asked to retry

  /**
   * The entries `for tmdb_movie in movies` visits. An empty string or object
   * yields nothing; the first entry of any other string or object is a
   * string, whose error handler itself raises; anything else is not iterable.
   */
  function ResultEntries(results: Json): Option<seq<Json>> {
    match results
    case JArr(items) => Some(items)
    case JStr(s) => if s == "" then Some([]) else None
    case JObj(f) => if f == map[] then Some([]) else None
    case _ => None
  }

  /** The loop's state: the table, the two counters, and whether an exception escaped. */
  datatype SyncState = SyncState(table: Table, created: nat, updated: nat, aborted: bool)

  /**
   * One entry. A non-object entry makes the error handler's `tmdb_movie.get`
   * raise, which ends the job; an object without an id, a fetch that raises
   * or returns nothing, a record that does not normalise and a row the
   * database refuses are skipped; anything else is upserted and counted.
   */
  function SyncStep(st: SyncState, entry: Json, fetch: Json -> Fetch, parse: string -> Option<Date>, now: int): SyncState {
    if st.aborted then st
    else if !entry.JObj? then st.(aborted := true)
    else match EntryDefaults(entry.fields, fetch, parse)
      case None => st
      case Some(defaults) =>
        var (t, created) := Upsert(st.table, defaults, now);
        if created then st.(table := t, created := st.created + 1) else st.(table := t, updated := st.updated + 1)
  }

  /** An entry's row fields: its id fetched, the details normalised and typed; None when any step skips it. */
  function EntryDefaults(entry: map<string, Json>, fetch: Json -> Fetch, parse: string -> Option<Date>): Option<Defaults> {
    if "id" !in entry then None
    else
      var f := fetch(entry["id"]);
      if !HasDetails(f) then None
      else match Tmdb.Normalize(f.body, parse)
        case Err(_) => None
        case Ok(data) => ToDefaults(data)
  }

  /** The state after the first |entries| entries. */
  function SyncRun(st: SyncState, entries: seq<Json>, fetch: Json -> Fetch, parse: string -> Option<Date>, now: int): SyncState {
    if entries == [] then st
    else SyncStep(SyncRun(st, entries[..|entries| - 1], fetch, parse, now), entries[|entries| - 1], fetch, parse, now)
  }

  /** Once an exception has escaped, later entries change nothing. */
  lemma {:induction false} AbortedStays(st: SyncState, entries: seq<Json>, n: nat, fetch: Json -> Fetch,
                                        parse: string -> Option<Date>, now: int)
    requires n <= |entries| && SyncRun(st, entries[..n], fetch, parse, now).aborted
    ensures SyncRun(st, entries, fetch, parse, now) == SyncRun(st, entries[..n], fetch, parse, now)
    decreases |entries|
  {
    if n < |entries| {
      var front := entries[..|entries| - 1];
      assert front[..n] == entries[..n];
      AbortedStays(st, front, n, fetch, parse, now);
    } else {
      assert entries[..n] == entries;
    }
  }

  /** Each entry adds at most one to the counters, and the table stays valid. */
  lemma {:induction false} SyncRunCounts(st: SyncState, entries: seq<Json>, fetch: Json -> Fetch,
                                         parse: string -> Option<Date>, now: int)
    requires TableValid(st.table)
    ensures var r := SyncRun(st, entries, fetch, parse, now);
      && r.created + r.updated <= st.created + st.updated + |entries|
      && r.created >= st.created && r.updated >= st.updated
      && TableValid(r.table)
    decreases |entries|
  {
    if entries != [] {
      var front := entries[..|entries| - 1];
      SyncRunCounts(st, front, fetch, parse, now);
      var mid := SyncRun(st, front, fetch, parse, now);
      var entry := entries[|entries| - 1];
      if !mid.aborted && entry.JObj? && EntryDefaults(entry.fields, fetch, parse).Some? {
        UpsertKeepsValid(mid.table, EntryDefaults(entry.fields, fetch, parse).value, now);
      }
    }
  }

  /** What the Celery job returns for a response: failed, retried, or the two counts. */
  function SyncOutcome(t: Table, response: Option<map<string, Json>>, fetch: Json -> Fetch,
                       parse: string -> Option<Date>, now: int): (Table, SyncResult) {
    if response.None? || response.value == map[] || "results" !in response.value then (t, SyncFailed)
    else match ResultEntries(response.value["results"])
      case None => (t, SyncRetry)
      case Some(entries) =>
        var r := SyncRun(SyncState(t, 0, 0, false), entries, fetch, parse, now);
        (r.table, if r.aborted then SyncRetry else Synced(r.created, r.updated))
  }

  /** A missing response, or one without results, fails and leaves the table alone; counts never exceed the entries. */
  lemma SyncOutcomeProperties(t: Table, response: Option<map<string, Json>>, fetch: Json -> Fetch,
                              parse: string -> Option<Date>, now: int)
    requires TableValid(t)
    ensures var (t', res) := SyncOutcome(t, response, fetch, parse, now);
      && (response.None? || "results" !in response.value ==> res == SyncFailed && t' == t)
      && TableValid(t')
      && (res.Synced? ==> ResultEntries(response.value["results"]).Some?
                          && res.created + res.updated <= |ResultEntries(response.value["results"]).value|)
  {
    if response.Some? && response.value != map[] && "results" in response.value {
      var entries := ResultEntries(response.value["results"]);
      if entries.Some? {
        SyncRunCounts(SyncState(t, 0, 0, false), entries.value, fetch, parse, now);
      }
    }
  }

  /** The `for movie_data in movies` loop, run against the store. */
  method SyncEntries(s: MovieStore, movies: seq<Json>, fetch: Json -> Fetch, parse: string -> Option<Date>, now: int)
    returns (res: SyncResult)
    modifies s
    ensures var r := SyncRun(SyncState(old(s.Snapshot()), 0, 0, false), movies, fetch, parse, now);
      s.Snapshot() == r.table && res == (if r.aborted then SyncRetry else Synced(r.created, r.updated))
  {
    ghost var start := SyncState(s.Snapshot(), 0, 0, false);
    var createdCount, updatedCount := 0, 0;
    var i := 0;
    while i < |movies|
      invariant 0 <= i <= |movies|
      invariant SyncRun(start, movies[..i], fetch, parse, now) == SyncState(s.Snapshot(), createdCount, updatedCount, false)
    {
      assert movies[..i + 1][..i] == movies[..i];
      var entry := movies[i];
      assert SyncRun(start, movies[..i + 1], fetch, parse, now)
          == SyncStep(SyncState(s.Snapshot(), createdCount, updatedCount, false), entry, fetch, parse, now);
      if !entry.JObj? {
        AbortedStays(start, movies, i + 1, fetch, parse, now);
        return SyncRetry;
      }
      var defaults := EntryDefaults(entry.fields, fetch, parse);
      if defaults.Some? {
        var created := s.UpdateOrCreate(defaults.value, now);
        if created {
          createdCount := createdCount + 1;
        } else {
          updatedCount := updatedCount + 1;
        }
      }
      i := i + 1;
    }
    assert movies[..|movies|] == movies;
    res := Synced(createdCount, updatedCount);
  }

  method SyncTrendingMovies(s: MovieStore, response: Option<map<string, Json>>, fetch: Json -> Fetch,
                            parse: string -> Option<Date>, now: int) returns (res: SyncResult)
    modifies s
    ensures (s.Snapshot(), res) == SyncOutcome(old(s.Snapshot()), response, fetch, parse, now)
    ensures old(s.Valid()) ==> s.Valid()
  {
    if response.None? || response.value == map[] || "results" !in response.value {
      return SyncFailed;
    }
    var entries := ResultEntries(response.value["results"]);
    if entries.None? {
      return SyncRetry;
    }
    ghost var before := s.Snapshot();
    res := SyncEntries(s, entries.value, fetch, parse, now);
    if TableValid(before) {
      SyncRunCounts(SyncState(before, 0, 0, false), entries.value, fetch, parse, now);
    }
  }

  // ---------------------------------------------------------------------------
  // update_movie_metadata
  // ---------------------------------------------------------------------------

  datatype UpdateResult =
    | UpdateFailed         // 'Movie not found on TMDb'
    | UpdateRetry          // an exception escaped the job body
    | UpdateDone(movieId: nat, tmdbId: int, created: bool, title: string)

  function UpdateOutcome(t: Table, tmdbId: int, details: Fetch, parse: string -> Option<Date>, now: int)
    : (r: (Table, UpdateResult))
    ensures r.1.UpdateDone? ==> HasDetails(details) && r.1.tmdbId == tmdbId
    ensures !HasDetails(details) ==> r.0 == t
  {
    if !HasDetails(details) then (t, if details.Raises? then UpdateRetry else UpdateFailed)
    else match Tmdb.Normalize(details.body, parse)
      case Err(_) => (t, UpdateRetry)
      case Ok(data) =>
        match ToDefaults(data)
        case None => (t, UpdateRetry)
        case Some(f) =>
          var id := match TmdbIndex(t.movies, f.tmdbId) case Some(k) => t.movies[k].id case None => t.nextId;
          var (t', created) := Upsert(t, f, now);
          (t', UpdateDone(id, tmdbId, created, f.title))
  }

  /**
   * Absent details fail without a change; otherwise `created` holds exactly
   * when no row had the record's TMDb id, the reported title is the record's,
   * and the reported row holds the record's fields, updated now.
   */
  lemma UpdateOutcomeProperties(t: Table, tmdbId: int, details: Fetch, parse: string -> Option<Date>, now: int)
    requires TableValid(t)
    ensures var (t', res) := UpdateOutcome(t, tmdbId, details, parse, now);
      && (details == NoDetails ==> res == UpdateFailed && t' == t)
      && TableValid(t')
      && (res.UpdateDone? ==>
            var f := ToDefaults(Tmdb.Normalize(details.body, parse).value).value;
            && (res.created <==> forall i | 0 <= i < |t.movies| :: t.movies[i].tmdbId != f.tmdbId)
            && res.title == f.title && res.tmdbId == tmdbId
            && exists i | 0 <= i < |t'.movies| ::
                 t'.movies[i].id == res.movieId && RowDefaults(t'.movies[i]) == f && t'.movies[i].updatedAt == now)
  {
    if HasDetails(details) && Tmdb.Normalize(details.body, parse).Ok? {
      var data := Tmdb.Normalize(details.body, parse).value;
      if ToDefaults(data).Some? {
        var f := ToDefaults(data).value;
        UpsertKeepsValid(t, f, now);
        var r := Upsert(t, f, now).0;
        match TmdbIndex(t.movies, f.tmdbId)
        case Some(k) => assert r.movies[k] == Overwritten(t.movies[k], f, now);
        case None => assert r.movies[|t.movies|] == NewRow(t.nextId, f, now);
      }
    }
  }

  method UpdateMovieMetadata(s: MovieStore, tmdbId: int, details: Fetch, parse: string -> Option<Date>, now: int)
    returns (res: UpdateResult)
    modifies s
    ensures (s.Snapshot(), res) == UpdateOutcome(old(s.Snapshot()), tmdbId, details, parse, now)
    ensures old(s.Valid()) ==> s.Valid()
  {
    if s.Valid() {
      UpdateOutcomeProperties(s.Snapshot(), tmdbId, details, parse, now);
    }
    if details.Raises? {
      return UpdateRetry;
    }
    if !HasDetails(details) {
      return UpdateFailed;
    }
    var data := Tmdb.Normalize(details.body, parse);
    if data.Err? {
      return UpdateRetry;
    }
    var defaults := ToDefaults(data.value);
    if defaults.None? {
      return UpdateRetry;
    }
    var f := defaults.value;
    var existing := TmdbIndex(s.movies, f.tmdbId);
    var id := if existing.Some? then s.movies[existing.value].id else s.nextId;
    var created := s.UpdateOrCreate(f, now);
    res := UpdateDone(id, tmdbId, created, f.title);
  }

  // ---------------------------------------------------------------------------
  // bulk_update_popularity
  // ---------------------------------------------------------------------------

  /** What happens to one row: untouched, refreshed, or counted as failed. */
  datatype RowOutcome = Untouched | Refreshed(m: Movie) | RowFailed

  /**
   * A fetch that raises, or a value the database refuses, counts as failed;
   * absent details leave the row as it is; otherwise the three figures are
   * taken from the details, each keeping its value when its key is missing.
   */
  function RefreshRow(m: Movie, f: Fetch, now: int): RowOutcome {
    if f.Raises? then RowFailed
    else if !HasDetails(f) then Untouched
    else
      var pop := RealOf(Tmdb.GetOr(f.body, "popularity", JNum(m.popularity)));
      var avg := RealOf(Tmdb.GetOr(f.body, "vote_average", JNum(m.voteAverage)));
      var count := IntOf(Tmdb.GetOr(f.body, "vote_count", JInt(m.voteCount)));
      if pop.Some? && avg.Some? && count.Some? then
        Refreshed(m.(popularity := pop.value, voteAverage := avg.value, voteCount := count.value, updatedAt := now))
      else RowFailed
  }

  function AfterRefresh(m: Movie, f: Fetch, now: int): Movie {
    if RefreshRow(m, f, now).Refreshed? then RefreshRow(m, f, now).m else m
  }

  /** Only popularity, vote average, vote count and updated_at change, and a missing key keeps its figure. */
  lemma RefreshChangesOnlyFigures(m: Movie, f: Fetch, now: int)
    ensures var n := AfterRefresh(m, f, now);
      && n.(popularity := m.popularity, voteAverage := m.voteAverage, voteCount := m.voteCount, updatedAt := m.updatedAt) == m
      && (f.Details? && "popularity" !in f.body ==> n.popularity == m.popularity)
      && (f.Details? && "vote_average" !in f.body ==> n.voteAverage == m.voteAverage)
      && (f.Details? && "vote_count" !in f.body ==> n.voteCount == m.voteCount)
  {
  }

  /** A figure the response sends with a type its field refuses. */
  predicate Mistyped(body: map<string, Json>, key: string, isInt: bool) {
    key in body && (if isInt then !body[key].JInt? else !(body[key].JNum? || body[key].JInt?))
  }

  /** The rows `bulk_update_popularity` counts as failed: the fetch raises, or a sent figure is mistyped. */
  predicate RowFails(f: Fetch) {
    || f.Raises?
    || (HasDetails(f) && (Mistyped(f.body, "popularity", false) || Mistyped(f.body, "vote_average", false)
                          || Mistyped(f.body, "vote_count", true)))
  }

  /**
   * One row of `bulk_update_popularity`: a raising fetch fails; empty details
   * leave the row as it is; otherwise the row is refreshed unless a figure is
   * mistyped, and a refreshed row takes each figure the response sends,
   * keeps each one it leaves out, and is updated now.
   */
  lemma RefreshRowOutcome(m: Movie, f: Fetch, now: int)
    ensures f.Raises? ==> RefreshRow(m, f, now) == RowFailed
    ensures !f.Raises? && !HasDetails(f) ==> RefreshRow(m, f, now) == Untouched && AfterRefresh(m, f, now) == m
    ensures RefreshRow(m, f, now).RowFailed? <==> RowFails(f)
    ensures RefreshRow(m, f, now).Refreshed? <==> HasDetails(f) && !RowFails(f)
    ensures RefreshRow(m, f, now).Refreshed? ==> var n := RefreshRow(m, f, now).m;
      && n.updatedAt == now && n == AfterRefresh(m, f, now)
      && ("popularity" in f.body ==> RealOf(f.body["popularity"]) == Some(n.popularity))
      && ("vote_average" in f.body ==> RealOf(f.body["vote_average"]) == Some(n.voteAverage))
      && ("vote_count" in f.body ==> f.body["vote_count"] == JInt(n.voteCount))
      && ("popularity" !in f.body ==> n.popularity == m.popularity)
      && ("vote_average" !in f.body ==> n.voteAverage == m.voteAverage)
      && ("vote_count" !in f.body ==> n.voteCount == m.voteCount)
  {
  }

  /** The rows after the loop has visited all of `ms`. */
  function RefreshAll(ms: seq<Movie>, fetch: int -> Fetch, now: int): (r: seq<Movie>)
    ensures |r| == |ms|
  {
    if ms == [] then []
    else RefreshAll(ms[..|ms| - 1], fetch, now) + [AfterRefresh(ms[|ms| - 1], fetch(ms[|ms| - 1].tmdbId), now)]
  }

  function CountRefreshed(ms: seq<Movie>, fetch: int -> Fetch, now: int): nat {
    if ms == [] then 0
    else CountRefreshed(ms[..|ms| - 1], fetch, now)
         + (if RefreshRow(ms[|ms| - 1], fetch(ms[|ms| - 1].tmdbId), now).Refreshed? then 1 else 0)
  }

  function CountFailed(ms: seq<Movie>, fetch: int -> Fetch, now: int): nat {
    if ms == [] then 0
    else CountFailed(ms[..|ms| - 1], fetch, now)
         + (if RefreshRow(ms[|ms| - 1], fetch(ms[|ms| - 1].tmdbId), now).RowFailed? then 1 else 0)
  }

  /** The number of rows of `ms` that fail. */
  function NumFailing(ms: seq<Movie>, fetch: int -> Fetch): nat {
    if ms == [] then 0
    else NumFailing(ms[..|ms| - 1], fetch) + (if RowFails(fetch(ms[|ms| - 1].tmdbId)) then 1 else 0)
  }

  /** The number of rows of `ms` whose fetch gives details and does not fail. */
  function NumRefreshable(ms: seq<Movie>, fetch: int -> Fetch): nat {
    if ms == [] then 0
    else NumRefreshable(ms[..|ms| - 1], fetch)
         + (if HasDetails(fetch(ms[|ms| - 1].tmdbId)) && !RowFails(fetch(ms[|ms| - 1].tmdbId)) then 1 else 0)
  }

  /**
   * The reported counts: `failed` is the number of rows whose fetch raises or
   * sends a mistyped figure, and `updated` the number of the other rows with
   * non-empty details.
   */
  lemma {:induction false} CountsMeaning(ms: seq<Movie>, fetch: int -> Fetch, now: int)
    ensures CountFailed(ms, fetch, now) == NumFailing(ms, fetch)
    ensures CountRefreshed(ms, fetch, now) == NumRefreshable(ms, fetch)
    decreases |ms|
  {
    if ms != [] {
      var last := ms[|ms| - 1];
      CountsMeaning(ms[..|ms| - 1], fetch, now);
      RefreshRowOutcome(last, fetch(last.tmdbId), now);
    }
  }

  /** Every row is refreshed, failed or untouched, so the two counts add up to at most the row count. */
  lemma {:induction false} BulkCounts(ms: seq<Movie>, fetch: int -> Fetch, now: int)
    ensures CountRefreshed(ms, fetch, now) + CountFailed(ms, fetch, now) <= |ms|
    decreases |ms|
  {
    if ms != [] {
      BulkCounts(ms[..|ms| - 1], fetch, now);
    }
  }

  /** Row by row, the result is that row refreshed; the TMDb ids, and so the table's invariant, are kept. */
  lemma {:induction false} RefreshAllRows(ms: seq<Movie>, fetch: int -> Fetch, now: int)
    ensures forall i | 0 <= i < |ms| :: RefreshAll(ms, fetch, now)[i] == AfterRefresh(ms[i], fetch(ms[i].tmdbId), now)
    ensures forall i | 0 <= i < |ms| ::
      RefreshAll(ms, fetch, now)[i].tmdbId == ms[i].tmdbId && RefreshAll(ms, fetch, now)[i].id == ms[i].id
    decreases |ms|
  {
    if ms != [] {
      var front := ms[..|ms| - 1];
      RefreshAllRows(front, fetch, now);
      forall i | 0 <= i < |front|
        ensures front[i] == ms[i]
      {
      }
    }
  }

  lemma RefreshKeepsValid(t: Table, fetch: int -> Fetch, now: int)
    requires TableValid(t)
    ensures TableValid(Table(RefreshAll(t.movies, fetch, now), t.nextId))
  {
    RefreshAllRows(t.movies, fetch, now);
  }

  datatype BulkResult = BulkResult(updated: nat, failed: nat)

  /** Writing the first element of `b` in `a + b`. */
  lemma ReplaceAt(a: seq<Movie>, b: seq<Movie>, x: Movie)
    requires |b| > 0
    ensures (a + b)[|a| := x] == (a + [x]) + b[1..]
    ensures b[0] == x ==> a + b == (a + [x]) + b[1..]
  {
  }

  method BulkUpdatePopularity(s: MovieStore, fetch: int -> Fetch, now: int) returns (res: BulkResult)
    modifies s
    ensures s.movies == RefreshAll(old(s.movies), fetch, now) && s.nextId == old(s.nextId)
    ensures res == BulkResult(CountRefreshed(old(s.movies), fetch, now), CountFailed(old(s.movies), fetch, now))
    ensures res == BulkResult(NumRefreshable(old(s.movies), fetch), NumFailing(old(s.movies), fetch))
    ensures old(s.Valid()) ==> s.Valid()
  {
    ghost var before := s.Snapshot();
    var movies := s.movies;
    var updatedCount, failedCount := 0, 0;
    var i := 0;
    while i < |movies|
      invariant 0 <= i <= |movies| && s.nextId == old(s.nextId) && movies == old(s.movies)
      invariant s.movies == RefreshAll(movies[..i], fetch, now) + movies[i..]
      invariant updatedCount == CountRefreshed(movies[..i], fetch, now)
      invariant failedCount == CountFailed(movies[..i], fetch, now)
    {
      assert movies[..i + 1][..i] == movies[..i];
      var movie := movies[i];
      var outcome := RefreshRow(movie, fetch(movie.tmdbId), now);
      assert RefreshAll(movies[..i + 1], fetch, now)
          == RefreshAll(movies[..i], fetch, now) + [AfterRefresh(movie, fetch(movie.tmdbId), now)];
      ReplaceAt(RefreshAll(movies[..i], fetch, now), movies[i..], AfterRefresh(movie, fetch(movie.tmdbId), now));
      match outcome {
        case Refreshed(m) =>
          s.movies := s.movies[i := m];
          updatedCount := updatedCount + 1;
        case RowFailed =>
          failedCount := failedCount + 1;
        case Untouched =>
      }
      i := i + 1;
    }
    assert movies[..|movies|] == movies;
    if TableValid(before) {
      RefreshKeepsValid(before, fetch, now);
    }
    CountsMeaning(movies, fetch, now);
    res := BulkResult(updatedCount, failedCount);
  }

  // ---------------------------------------------------------------------------
  // cleanup_old_movies
  // ---------------------------------------------------------------------------

  const SecondsPerDay := 86400
  const CleanupAgeDays := 90
  const CleanupMaxPopularity := 10.0

  /** Created more than 90 days ago, popularity below 10, and no rating refers to it. */
  predicate Stale(m: Movie, ratings: seq<Rating>, now: int) {
    && m.createdAt < now - CleanupAgeDays * SecondsPerDay
    && m.popularity < CleanupMaxPopularity
    && forall r | r in ratings :: r.movie != m.id
  }

  /** The rows that are kept, in table order. */
  function Kept(ms: seq<Movie>, ratings: seq<Rating>, now: int): (r: seq<Movie>)
    ensures forall m | m in r :: m in ms && !Stale(m, ratings, now)
    ensures forall m | m in ms && !Stale(m, ratings, now) :: m in r
  {
    if ms == [] then []
    else (if Stale(ms[0], ratings, now) then [] else [ms[0]]) + Kept(ms[1..], ratings, now)
  }

  /** `old_unrated_movies.count()`. */
  function StaleCount(ms: seq<Movie>, ratings: seq<Rating>, now: int): nat {
    if ms == [] then 0
    else (if Stale(ms[0], ratings, now) then 1 else 0) + StaleCount(ms[1..], ratings, now)
  }

  /** What is deleted and what is kept add up to the table. */
  lemma {:induction false} KeptPlusStale(ms: seq<Movie>, ratings: seq<Rating>, now: int)
    ensures |Kept(ms, ratings, now)| + StaleCount(ms, ratings, now) == |ms|
  {
    if ms != [] {
      KeptPlusStale(ms[1..], ratings, now);
    }
  }

  /** A valid table stays valid without its first row. */
  lemma TailValid(t: Table)
    requires TableValid(t) && |t.movies| > 0
    ensures TableValid(Table(t.movies[1..], t.nextId))
  {
    var r := t.movies[1..];
    forall i, j | 0 <= i < j < |r|
      ensures r[i].tmdbId != r[j].tmdbId && r[i].id != r[j].id
    {
      assert r[i] == t.movies[i + 1] && r[j] == t.movies[j + 1];
    }
  }

  /** A row distinct from every row of a valid table can be put in front of it. */
  lemma ConsValid(x: Movie, k: seq<Movie>, nextId: nat)
    requires TableValid(Table(k, nextId)) && x.id < nextId
    requires forall j | 0 <= j < |k| :: k[j].tmdbId != x.tmdbId && k[j].id != x.id
    ensures TableValid(Table([x] + k, nextId))
  {
    var r := [x] + k;
    forall a, b | 0 <= a < b < |r|
      ensures r[a].tmdbId != r[b].tmdbId && r[a].id != r[b].id
    {
      assert r[b] == k[b - 1];
      if a > 0 {
        assert r[a] == k[a - 1];
      }
    }
  }

  /** Deleting rows keeps the table's invariant. */
  lemma {:induction false} KeptKeepsValid(t: Table, ratings: seq<Rating>, now: int)
    requires TableValid(t)
    ensures TableValid(Table(Kept(t.movies, ratings, now), t.nextId))
    decreases |t.movies|
  {
    if t.movies != [] {
      var rest := Table(t.movies[1..], t.nextId);
      TailValid(t);
      KeptKeepsValid(rest, ratings, now);
      var k := Kept(rest.movies, ratings, now);
      if !Stale(t.movies[0], ratings, now) {
        forall j | 0 <= j < |k|
          ensures k[j].tmdbId != t.movies[0].tmdbId && k[j].id != t.movies[0].id
        {
          assert k[j] in rest.movies;
          var i :| 0 <= i < |rest.movies| && rest.movies[i] == k[j];
          assert t.movies[i + 1] == k[j];
        }
        ConsValid(t.movies[0], k, t.nextId);
      }
    }
  }

  datatype CleanupResult = Cleaned(deleted: nat)

  /** Counts the stale rows, then deletes them; every other row remains, in order. */
  method CleanupOldMovies(s: MovieStore, ratings: seq<Rating>, now: int) returns (res: CleanupResult)
    modifies s
    ensures s.movies == Kept(old(s.movies), ratings, now) && s.nextId == old(s.nextId)
    ensures res.deleted == StaleCount(old(s.movies), ratings, now)
    ensures res.deleted == |old(s.movies)| - |s.movies|
    ensures old(s.Valid()) ==> s.Valid()
  {
    if s.Valid() {
      KeptKeepsValid(s.Snapshot(), ratings, now);
    }
    var count := StaleCount(s.movies, ratings, now);
    KeptPlusStale(s.movies, ratings, now);
    s.movies := Kept(s.movies, ratings, now);
    res := Cleaned(count);
  }
}
