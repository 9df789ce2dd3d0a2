/**
 * The records of apps/movies_api/models.py and the rules the model layer
 * declares: a rating's score range, one rating per (user, movie), playlist
 * access, the poster URL and the movie's display string.
 */
module Models {
  import opened Wrappers
  import opened Text

  /** A calendar date; only the year is ever read by the core. */
  datatype Date = Date(year: int, month: int, day: int)

  /** A row of MovieMetadata. Timestamps are integer seconds. */
  datatype Movie = Movie(
    id: nat,
    tmdbId: int,
    title: string,
    overview: string,
    releaseDate: Option<Date>,
    posterPath: string,
    backdropPath: string,
    voteAverage: real,
    voteCount: int,
    popularity: real,
    genres: seq<string>,
    runtime: Option<int>,
    createdAt: int,
    updatedAt: int)

  /** A row of UserProfile, keyed by its user. */
  datatype Profile = Profile(user: nat, favoriteGenres: seq<string>, bio: string, avatarUrl: string)

  /** A row of Rating. */
  datatype Rating = Rating(id: nat, user: nat, movie: nat, score: int, review: string, createdAt: int)

  datatype Visibility = Public | Private

  /** A row of Playlist with its many-to-many membership as a set of movie ids. */
  datatype Playlist = Playlist(
    id: nat,
    owner: nat,
    name: string,
    description: string,
    visibility: Visibility,
    movies: set<nat>)

  /** Who makes a request: Django's AnonymousUser or an authenticated User. */
  datatype Requester = Anonymous | Member(id: nat, isStaff: bool)

  /** A snapshot of the tables the recommendation service reads. */
  datatype Catalog = Catalog(movies: seq<Movie>, ratings: seq<Rating>, profiles: map<nat, Profile>)

  /**
   * The database backend (`connection.vendor`). JSON containment lookups
   * (`genres__contains`) are not supported on SQLite.
   */
  datatype Vendor = Sqlite | Postgresql

  // ---------------------------------------------------------------------------
  // MovieMetadata.__str__ and poster_url
  // ---------------------------------------------------------------------------

  const PosterBase := "https://image.tmdb.org/t/p/w500"

  /** "title (year)", or "title (N/A)" without a release date. */
  function MovieStr(m: Movie): (r: string)
    ensures m.releaseDate.None? ==> r == m.title + " (N/A)"
    ensures m.releaseDate.Some? ==> r == m.title + " (" + IntToString(m.releaseDate.value.year) + ")"
    ensures m.title <= r && r[|r| - 1] == ')'
  {
    var year := match m.releaseDate
      case Some(d) => IntToString(d.year)
      case None => "N/A";
    m.title + " (" + year + ")"
  }

  /** None for an empty poster path, the w500 image URL otherwise. */
  function PosterUrl(m: Movie): (r: Option<string>)
    ensures r.None? <==> m.posterPath == ""
    ensures r.Some? ==> PosterBase <= r.value && r.value[|PosterBase|..] == m.posterPath
  {
    if m.posterPath != "" then Some(PosterBase + m.posterPath) else None
  }

  // ---------------------------------------------------------------------------
  // Playlist.is_accessible_by and movie_count
  // ---------------------------------------------------------------------------

  predicate IsOwner(p: Playlist, u: Requester) {
    u.Member? && u.id == p.owner
  }

  /** A playlist is readable when it is public or the requester owns it. */
  predicate IsAccessibleBy(p: Playlist, u: Requester) {
    p.visibility == Public || IsOwner(p, u)
  }

  /** The number of distinct movies in the playlist. */
  function MovieCount(p: Playlist): nat {
    |p.movies|
  }

  // ---------------------------------------------------------------------------
  // Rating: score validators (1..5) and unique_together = ('user', 'movie')
  // ---------------------------------------------------------------------------

  predicate ScoreInRange(score: int) {
    1 <= score <= 5
  }

  predicate RatedBy(rs: seq<Rating>, user: nat, movie: nat) {
    exists i | 0 <= i < |rs| :: rs[i].user == user && rs[i].movie == movie
  }

  /** The table's invariant: scores in range and at most one rating per (user, movie). */
  ghost predicate RatingsValid(rs: seq<Rating>) {
    && (forall i | 0 <= i < |rs| :: ScoreInRange(rs[i].score))
    && (forall i, j | 0 <= i < j < |rs| :: (rs[i].user, rs[i].movie) != (rs[j].user, rs[j].movie))
  }

  datatype RatingError = ScoreOutOfRange | DuplicateRating

  /**
   * Inserting a rating through validation: a score outside [1, 5] is refused by
   * the field validators, a second rating for the same (user, movie) by the
   * unique constraint; otherwise the row is appended.
   */
  function AddRating(rs: seq<Rating>, r: Rating): (res: Result<seq<Rating>, RatingError>)
    ensures res.Ok? <==> ScoreInRange(r.score) && !RatedBy(rs, r.user, r.movie)
    ensures res.Ok? ==> res.value == rs + [r]
    ensures res.Err? && !ScoreInRange(r.score) ==> res.error == ScoreOutOfRange
  {
    if !ScoreInRange(r.score) then Err(ScoreOutOfRange)
    else if RatedBy(rs, r.user, r.movie) then Err(DuplicateRating)
    else Ok(rs + [r])
  }

  lemma AddRatingKeepsValid(rs: seq<Rating>, r: Rating)
    requires RatingsValid(rs)
    requires AddRating(rs, r).Ok?
    ensures RatingsValid(AddRating(rs, r).value)
  {
    var t := rs + [r];
    forall i, j | 0 <= i < j < |t|
      ensures (t[i].user, t[i].movie) != (t[j].user, t[j].movie)
    {
      if j == |rs| {
        assert t[i] == rs[i] && t[j] == r;
        assert !RatedBy(rs, r.user, r.movie);
      }
    }
  }

  /** A second insert of the same (user, movie) is always refused. */
  lemma DuplicateRatingRefused(rs: seq<Rating>, r: Rating, again: Rating)
    requires AddRating(rs, r).Ok?
    requires again.user == r.user && again.movie == r.movie
    ensures AddRating(AddRating(rs, r).value, again).Err?
  {
    var t := rs + [r];
    assert t[|rs|] == r;
    assert RatedBy(t, again.user, again.movie);
  }

  // ---------------------------------------------------------------------------
  // Lookups used by the services: rating.movie and user.profile
  // ---------------------------------------------------------------------------

  ghost predicate UniqueMovieIds(ms: seq<Movie>) {
    forall i, j | 0 <= i < j < |ms| :: ms[i].id != ms[j].id
  }

  /**
   * A lookup on a unique key (`objects.get(<key>=k)` inside a query set):
   * the position of a row whose key is `k`, or none when no row has it.
   */
  function IndexWhere<T>(s: seq<T>, key: T -> int, k: int): (r: Option<nat>)
    ensures r.Some? ==> r.value < |s| && key(s[r.value]) == k
    ensures r.None? ==> forall i | 0 <= i < |s| :: key(s[i]) != k
  {
    if s == [] then None
    else if key(s[|s| - 1]) == k then Some(|s| - 1)
    else IndexWhere(s[..|s| - 1], key, k)
  }

  /** The movie with primary key `id`, if the table holds one. */
  function MovieById(ms: seq<Movie>, id: nat): (r: Option<Movie>)
    ensures r.Some? ==> r.value in ms && r.value.id == id
    ensures r.None? ==> forall m | m in ms :: m.id != id
  {
    if ms == [] then None
    else if ms[0].id == id then Some(ms[0])
    else MovieById(ms[1..], id)
  }

  /** `rating.movie.genres`; a dangling foreign key (impossible in the database) reads as no genres. */
  function GenresOf(ms: seq<Movie>, id: nat): seq<string> {
    match MovieById(ms, id)
    case Some(m) => m.genres
    case None => []
  }

  /** `Rating.objects.filter(user=user)`, in table order. */
  function RatingsOf(rs: seq<Rating>, user: nat): (r: seq<Rating>)
    ensures forall x | x in r :: x in rs && x.user == user
    ensures forall x | x in rs && x.user == user :: x in r
    ensures |r| <= |rs|
  {
    if rs == [] then []
    else (if rs[0].user == user then [rs[0]] else []) + RatingsOf(rs[1..], user)
  }

  /** `.filter(score__gte=4)`. */
  function HighlyRated(rs: seq<Rating>): (r: seq<Rating>)
    ensures forall x | x in r :: x in rs && x.score >= 4
    ensures forall x | x in rs && x.score >= 4 :: x in r
    ensures |r| <= |rs|
  {
    if rs == [] then []
    else (if rs[0].score >= 4 then [rs[0]] else []) + HighlyRated(rs[1..])
  }

  /** The set of a genre list, Python's `set(list)`. */
  function ToSet(s: seq<string>): (r: set<string>)
    ensures forall g :: g in r <==> g in s
  {
    set g | g in s
  }

  /** A set built from a list is never larger than the list. */
  lemma {:induction false} ToSetSize(s: seq<string>)
    ensures |ToSet(s)| <= |s|
    ensures |s| > 0 ==> |ToSet(s)| > 0
  {
    if s != [] {
      ToSetSize(s[1..]);
      assert ToSet(s) == ToSet(s[1..]) + {s[0]};
      assert s[0] in ToSet(s);
    }
  }
}
