/**
 * RecommendationService (apps/movies_api/services/recommendation_service.py):
 * the match score, the personalised ranking, similar movies, trending by
 * genre and per-user statistics, over a snapshot of the tables.
 *
 * Scores are reals; Python's final `round(…, 2)` is not applied.
 */
module Recommendation {
  import opened Wrappers
  import opened Models
  import opened Sorting

  // ---------------------------------------------------------------------------
  // The four score terms
  // ---------------------------------------------------------------------------

  /** _anonymous_score: half from the vote average, half (capped) from popularity. */
  function AnonymousScore(m: Movie): real {
    (m.voteAverage / 10.0) * 50.0 + Min(50.0, (m.popularity / 100.0) * 50.0)
  }

  /** Genre match: the share of the favourites list found in the movie, out of 40. */
  function GenreTerm(fav: seq<string>, genres: seq<string>): real {
    if |fav| > 0 && |genres| > 0 then
      Min(40.0, (|ToSet(fav) * ToSet(genres)| as real / |fav| as real) * 40.0)
    else 0.0
  }

  /** Rating history: the share of distinct liked genres found in the movie, out of 30. */
  function HistoryTerm(rated: seq<string>, genres: seq<string>): real {
    if |rated| > 0 && |genres| > 0 then
      ToSetSize(rated);
      Min(30.0, (|ToSet(rated) * ToSet(genres)| as real / |ToSet(rated)| as real) * 30.0)
    else 0.0
  }

  function QualityTerm(m: Movie): real {
    (m.voteAverage / 10.0) * 20.0
  }

  function PopularityTerm(m: Movie): real {
    Min(10.0, (m.popularity / 100.0) * 10.0)
  }

  /** The genres of the rated movies, concatenated in rating order (`rated_genres.extend`). */
  function GenresOfRatings(ms: seq<Movie>, rs: seq<Rating>): seq<string>
    decreases |rs|
  {
    if rs == [] then []
    else GenresOfRatings(ms, rs[..|rs| - 1]) + GenresOf(ms, rs[|rs| - 1].movie)
  }

  /** The genres the history term compares against: those of the user's ratings of 4 or more. */
  function LikedGenres(cat: Catalog, user: nat): seq<string> {
    GenresOfRatings(cat.movies, HighlyRated(RatingsOf(cat.ratings, user)))
  }

  /** True when the requester gets the quality-only score. */
  predicate UsesAnonymousScore(cat: Catalog, u: Requester) {
    u.Anonymous? || u.id !in cat.profiles
  }

  /** calculate_match_score, without the final rounding. */
  function MatchScore(cat: Catalog, u: Requester, m: Movie): real {
    if UsesAnonymousScore(cat, u) then AnonymousScore(m)
    else
      GenreTerm(cat.profiles[u.id].favoriteGenres, m.genres)
      + HistoryTerm(LikedGenres(cat, u.id), m.genres)
      + QualityTerm(m)
      + PopularityTerm(m)
  }

  /** The loop gathering `rated_genres` from the liked ratings' movies. */
  method CollectGenres(ms: seq<Movie>, high: seq<Rating>) returns (rated: seq<string>)
    ensures rated == GenresOfRatings(ms, high)
  {
    rated := [];
    var i := 0;
    while i < |high|
      invariant 0 <= i <= |high|
      invariant rated == GenresOfRatings(ms, high[..i])
    {
      assert high[..i + 1][..i] == high[..i];
      rated := rated + GenresOf(ms, high[i].movie);
      i := i + 1;
    }
    assert high[..|high|] == high;
  }

  /** The rating-history block of the calculation: the points it adds to the score. */
  method HistoryPoints(cat: Catalog, user: nat, genres: seq<string>) returns (points: real)
    ensures points == HistoryTerm(LikedGenres(cat, user), genres)
  {
    points := 0.0;
    var userRatings := RatingsOf(cat.ratings, user);
    if |userRatings| > 0 {
      var high := HighlyRated(userRatings);
      if |high| > 0 {
        var rated := CollectGenres(cat.movies, high);
        if |rated| > 0 && |genres| > 0 {
          ToSetSize(rated);
          var common := |ToSet(rated) * ToSet(genres)|;
          points := Min(30.0, (common as real / |ToSet(rated)| as real) * 30.0);
        }
      }
    }
  }

  /** The imperative calculation: terms accumulated into `score`, liked genres gathered in a loop. */
  method CalculateMatchScore(cat: Catalog, u: Requester, m: Movie) returns (score: real)
    ensures score == MatchScore(cat, u, m)
  {
    if u.Anonymous? || u.id !in cat.profiles {
      return AnonymousScore(m);
    }
    var profile := cat.profiles[u.id];
    score := 0.0;

    var fav := profile.favoriteGenres;
    if |fav| > 0 && |m.genres| > 0 {
      var matches := |ToSet(fav) * ToSet(m.genres)|;
      score := score + Min(40.0, (matches as real / |fav| as real) * 40.0);
    }
    assert score == GenreTerm(fav, m.genres);

    var history := HistoryPoints(cat, u.id, m.genres);
    score := score + history;

    score := score + (m.voteAverage / 10.0) * 20.0;
    score := score + Min(10.0, (m.popularity / 100.0) * 10.0);
  }

  // ---------------------------------------------------------------------------
  // Properties of the score
  // ---------------------------------------------------------------------------

  /** A quality-only requester's score depends on the movie alone, never on ratings. */
  lemma AnonymousScoreIgnoresHistory(cat: Catalog, u: Requester, m: Movie, ratings: seq<Rating>)
    requires UsesAnonymousScore(cat, u)
    ensures MatchScore(cat, u, m)
         == (m.voteAverage / 10.0) * 50.0 + Min(50.0, (m.popularity / 100.0) * 50.0)
    ensures MatchScore(cat.(ratings := ratings), u, m) == MatchScore(cat, u, m)
  {
  }

  /** |set(a) ∩ set(b)| never exceeds the size of set(a), nor the length of a. */
  lemma IntersectionSize(a: seq<string>, b: seq<string>)
    ensures |ToSet(a) * ToSet(b)| <= |ToSet(a)| <= |a|
  {
    ToSetSize(a);
    SubsetSize(ToSet(a) * ToSet(b), ToSet(a));
  }

  lemma {:induction false} SubsetSize(x: set<string>, y: set<string>)
    requires x <= y
    ensures |x| <= |y|
    ensures |x| == |y| ==> x == y
    decreases |y|
  {
    if x != {} {
      var e :| e in x;
      SubsetSize(x - {e}, y - {e});
      assert |x| == |x - {e}| + 1;
      assert |y| == |y - {e}| + 1;
      assert x == (x - {e}) + {e};
      assert y == (y - {e}) + {e};
    } else if |y| != 0 {
      var e :| e in y;
      assert e !in x;
    }
  }

  /** The cap of 40 never binds: the term is exactly the matched share of the favourites list. */
  lemma GenreTermShare(fav: seq<string>, genres: seq<string>)
    requires |fav| > 0 && |genres| > 0
    ensures GenreTerm(fav, genres) == (|ToSet(fav) * ToSet(genres)| as real / |fav| as real) * 40.0
    ensures 0.0 <= GenreTerm(fav, genres) <= 40.0
  {
    IntersectionSize(fav, genres);
  }

  /** Full genre marks exactly when the favourites are distinct and all among the movie's genres. */
  lemma GenreTermFull(fav: seq<string>, genres: seq<string>)
    requires |fav| > 0 && |genres| > 0
    ensures GenreTerm(fav, genres) == 40.0
        <==> ToSet(fav) <= ToSet(genres) && |ToSet(fav)| == |fav|
  {
    GenreTermShare(fav, genres);
    IntersectionSize(fav, genres);
    SubsetSize(ToSet(fav) * ToSet(genres), ToSet(fav));
    var k := |ToSet(fav) * ToSet(genres)|;
    assert ToSet(fav) * ToSet(genres) == ToSet(fav) <==> ToSet(fav) <= ToSet(genres);
    FullShare(k, |fav|, 40.0);
  }

  /** A share of a positive cap reaches the cap exactly when the part is the whole. */
  lemma FullShare(k: nat, n: nat, cap: real)
    requires n > 0 && cap > 0.0
    ensures (k as real / n as real) * cap == cap <==> k == n
  {
    var q := k as real / n as real;
    assert q * n as real == k as real;
    if q * cap == cap {
      assert q == 1.0;
    }
  }

  /** The history cap of 30 never binds either, because its denominator counts distinct genres. */
  lemma HistoryTermShare(rated: seq<string>, genres: seq<string>)
    requires |rated| > 0 && |genres| > 0
    ensures |ToSet(rated)| > 0
    ensures HistoryTerm(rated, genres)
         == (|ToSet(rated) * ToSet(genres)| as real / |ToSet(rated)| as real) * 30.0
    ensures 0.0 <= HistoryTerm(rated, genres) <= 30.0
  {
    ToSetSize(rated);
    IntersectionSize(rated, genres);
  }

  /** Full history marks exactly when every liked genre is one of the movie's. */
  lemma HistoryTermFull(rated: seq<string>, genres: seq<string>)
    requires |rated| > 0 && |genres| > 0
    ensures HistoryTerm(rated, genres) == 30.0 <==> ToSet(rated) <= ToSet(genres)
  {
    HistoryTermShare(rated, genres);
    SubsetSize(ToSet(rated) * ToSet(genres), ToSet(rated));
    var k := |ToSet(rated) * ToSet(genres)|;
    var d := |ToSet(rated)|;
    assert ToSet(rated) * ToSet(genres) == ToSet(rated) <==> ToSet(rated) <= ToSet(genres);
    assert HistoryTerm(rated, genres) == 30.0 <==> k == d by {
      assert (k as real / d as real) * 30.0 == 30.0 <==> k as real == d as real;
    }
  }

  lemma {:induction false} HighlyRatedConcat(a: seq<Rating>, b: seq<Rating>)
    ensures HighlyRated(a + b) == HighlyRated(a) + HighlyRated(b)
    decreases |a|
  {
    if a == [] {
      assert a + b == b;
    } else {
      assert (a + b)[0] == a[0];
      assert (a + b)[1..] == a[1..] + b;
      HighlyRatedConcat(a[1..], b);
    }
  }

  lemma {:induction false} RatingsOfConcat(a: seq<Rating>, b: seq<Rating>, user: nat)
    ensures RatingsOf(a + b, user) == RatingsOf(a, user) + RatingsOf(b, user)
    decreases |a|
  {
    if a == [] {
      assert a + b == b;
    } else {
      assert (a + b)[0] == a[0];
      assert (a + b)[1..] == a[1..] + b;
      RatingsOfConcat(a[1..], b, user);
    }
  }

  lemma {:induction false} HighlyRatedFirst(rs: seq<Rating>, user: nat)
    ensures HighlyRated(RatingsOf(HighlyRated(rs), user)) == HighlyRated(RatingsOf(rs, user))
    decreases |rs|
  {
    if rs != [] {
      var x, t := rs[0], rs[1..];
      assert rs == [x] + t;
      HighlyRatedFirst(t, user);
      RatingsOfConcat([x], t, user);
      HighlyRatedConcat(RatingsOf([x], user), RatingsOf(t, user));
      if x.score >= 4 {
        assert HighlyRated(rs) == [x] + HighlyRated(t);
        RatingsOfConcat([x], HighlyRated(t), user);
        HighlyRatedConcat(RatingsOf([x], user), RatingsOf(HighlyRated(t), user));
      } else {
        assert HighlyRated(rs) == HighlyRated(t);
        assert HighlyRated(RatingsOf([x], user)) == [];
      }
    }
  }

  /** Ratings below 4 never affect a score: dropping them from the table changes nothing. */
  lemma OnlyLikedRatingsCount(cat: Catalog, u: Requester, m: Movie)
    ensures MatchScore(cat.(ratings := HighlyRated(cat.ratings)), u, m) == MatchScore(cat, u, m)
  {
    if u.Member? {
      HighlyRatedFirst(cat.ratings, u.id);
    }
  }

  /** Without a rating of 4 or more the history term is 0. */
  lemma HistoryNeedsLikedRatings(cat: Catalog, user: nat, m: Movie)
    requires forall r | r in cat.ratings && r.user == user :: r.score < 4
    ensures HistoryTerm(LikedGenres(cat, user), m.genres) == 0.0
  {
  }

  /** The history term is 0 for a movie without genres, and the genre term likewise. */
  lemma TermsNeedGenres(fav: seq<string>, rated: seq<string>, genres: seq<string>)
    requires genres == []
    ensures GenreTerm(fav, genres) == 0.0 && HistoryTerm(rated, genres) == 0.0
  {
  }

  /** With a vote average in [0, 10] and a non-negative popularity, every score lies in [0, 100]. */
  lemma ScoreBounds(cat: Catalog, u: Requester, m: Movie)
    requires 0.0 <= m.voteAverage <= 10.0 && m.popularity >= 0.0
    ensures 0.0 <= MatchScore(cat, u, m) <= 100.0
  {
    if !UsesAnonymousScore(cat, u) {
      var fav := cat.profiles[u.id].favoriteGenres;
      if |fav| > 0 && |m.genres| > 0 {
        GenreTermShare(fav, m.genres);
      }
      var rated := LikedGenres(cat, u.id);
      if |rated| > 0 && |m.genres| > 0 {
        HistoryTermShare(rated, m.genres);
      }
    }
  }

  /** A movie in the anonymous example: 43.5 from the vote average plus 44.85 from popularity. */
  lemma AnonymousExample(cat: Catalog, m: Movie)
    requires m.voteAverage == 8.7 && m.popularity == 89.7
    ensures MatchScore(cat, Anonymous, m) == 88.35
  {
  }

  /** Two favourites both matched, no history, vote 9.0, popularity 200: 40 + 0 + 18 + 10. */
  lemma MemberExample(cat: Catalog, id: nat, m: Movie)
    requires id in cat.profiles && cat.profiles[id].favoriteGenres == ["action", "thriller"]
    requires forall r | r in cat.ratings :: r.user != id
    requires m.genres == ["action", "thriller"] && m.voteAverage == 9.0 && m.popularity == 200.0
    ensures MatchScore(cat, Member(id, false), m) == 68.0
  {
    var s := ToSet(["action", "thriller"]);
    assert s == {"action", "thriller"};
    assert s * s == s;
    assert |s| == 2;
    assert GenreTerm(cat.profiles[id].favoriteGenres, m.genres) == 40.0;
    HistoryNeedsLikedRatings(cat, id, m);
    assert QualityTerm(m) == 18.0;
    assert PopularityTerm(m) == 10.0;
  }

  // ---------------------------------------------------------------------------
  // get_recommendations_for_user
  // ---------------------------------------------------------------------------

  /** One entry of the result: `{'movie': movie, 'match_score': score}`. */
  datatype Recommended = Recommended(movie: Movie, matchScore: real)

  function PopularityKey(m: Movie): Key {
    Key(m.popularity, 0.0)
  }

  function ScoreKey(e: Recommended): Key {
    Key(e.matchScore, 0.0)
  }

  /** `MovieMetadata.objects.exclude(id__in=rated_movie_ids)`, or every movie for an anonymous requester. */
  function Unrated(cat: Catalog, u: Requester): (r: seq<Movie>)
    ensures forall m | m in r :: m in cat.movies
    ensures u.Member? ==> forall m | m in r :: !RatedBy(cat.ratings, u.id, m.id)
    ensures forall m | m in cat.movies && (u.Anonymous? || !RatedBy(cat.ratings, u.id, m.id)) :: m in r
  {
    if u.Anonymous? then cat.movies
    else Filter(cat.movies, (m: Movie) => !RatedBy(cat.ratings, u.id, m.id))
  }

  /** `.order_by('-popularity')[:100]`. */
  function Candidates(cat: Catalog, u: Requester): seq<Movie> {
    Take(SortDesc(Unrated(cat, u), PopularityKey), 100)
  }

  /** Each movie paired with its match score, in the same order. */
  function ScoreAll(cat: Catalog, u: Requester, ms: seq<Movie>): (r: seq<Recommended>)
    ensures |r| == |ms|
    ensures forall i | 0 <= i < |ms| :: r[i] == Recommended(ms[i], MatchScore(cat, u, ms[i]))
  {
    seq(|ms|, i requires 0 <= i < |ms| => Recommended(ms[i], MatchScore(cat, u, ms[i])))
  }

  lemma ScoreAllSnoc(cat: Catalog, u: Requester, ms: seq<Movie>, i: nat)
    requires i < |ms|
    ensures ScoreAll(cat, u, ms[..i + 1]) == ScoreAll(cat, u, ms[..i]) + [Recommended(ms[i], MatchScore(cat, u, ms[i]))]
  {
    var a := ScoreAll(cat, u, ms[..i + 1]);
    var b := ScoreAll(cat, u, ms[..i]) + [Recommended(ms[i], MatchScore(cat, u, ms[i]))];
    assert |a| == |b|;
    forall k | 0 <= k < |a|
      ensures a[k] == b[k]
    {
      assert ms[..i + 1][k] == ms[k];
    }
  }

  /** The scored candidates, stably sorted by score (highest first), then `[:limit]`. */
  function Recommendations(cat: Catalog, u: Requester, limit: int): seq<Recommended> {
    PyPrefix(SortDesc(ScoreAll(cat, u, Candidates(cat, u)), ScoreKey), limit)
  }

  method GetRecommendationsForUser(cat: Catalog, u: Requester, limit: int) returns (recs: seq<Recommended>)
    ensures recs == Recommendations(cat, u, limit)
  {
    var movies := Candidates(cat, u);
    var recommendations: seq<Recommended> := [];
    for i := 0 to |movies|
      invariant recommendations == ScoreAll(cat, u, movies[..i])
    {
      var score := CalculateMatchScore(cat, u, movies[i]);
      ScoreAllSnoc(cat, u, movies, i);
      recommendations := recommendations + [Recommended(movies[i], score)];
    }
    assert movies[..|movies|] == movies;
    recommendations := SortDesc(recommendations, ScoreKey);
    recs := PyPrefix(recommendations, limit);
  }

  /**
   * The candidates are the (at most) 100 most popular unrated movies: sorted by
   * popularity, and no unrated movie left out is more popular than one kept.
   */
  lemma CandidatesAreMostPopular(cat: Catalog, u: Requester)
    ensures |Candidates(cat, u)| == if |Unrated(cat, u)| < 100 then |Unrated(cat, u)| else 100
    ensures forall m | m in Candidates(cat, u) :: m in Unrated(cat, u)
    ensures Descending(Candidates(cat, u), PopularityKey)
    ensures forall m, c | m in Unrated(cat, u) && m !in Candidates(cat, u) && c in Candidates(cat, u)
              :: m.popularity <= c.popularity
  {
    var s := Unrated(cat, u);
    var r := Take(SortDesc(s, PopularityKey), 100);
    assert r == Candidates(cat, u);
    TopN(s, PopularityKey, 100);
    forall m, c | m in s && m !in r && c in r
      ensures m.popularity <= c.popularity
    {
      assert !Above(PopularityKey(m), PopularityKey(c));
    }
  }

  /**
   * What a caller receives: only candidates with their own match score, never a
   * movie the member has rated, at most min(limit, 100) entries, scores
   * non-increasing, and equal scores in the candidates' popularity order. For
   * a non-negative limit the result is the top N: exactly min(limit, number of
   * candidates) entries, and no candidate left out scores above one kept.
   */
  lemma RecommendationsProperties(cat: Catalog, u: Requester, limit: int)
    ensures forall e | e in Recommendations(cat, u, limit)
              :: e.movie in Candidates(cat, u) && e.matchScore == MatchScore(cat, u, e.movie)
    ensures u.Member? ==> forall e | e in Recommendations(cat, u, limit) :: !RatedBy(cat.ratings, u.id, e.movie.id)
    ensures |Recommendations(cat, u, limit)| <= 100
    ensures limit >= 0 ==> |Recommendations(cat, u, limit)| <= limit
    ensures forall i, j | 0 <= i < j < |Recommendations(cat, u, limit)|
              :: Recommendations(cat, u, limit)[j].matchScore <= Recommendations(cat, u, limit)[i].matchScore
    ensures forall k :: WithKey(Recommendations(cat, u, limit), ScoreKey, k)
                     <= WithKey(ScoreAll(cat, u, Candidates(cat, u)), ScoreKey, k)
    ensures limit >= 0 ==>
      |Recommendations(cat, u, limit)| == if limit < |Candidates(cat, u)| then limit else |Candidates(cat, u)|
    ensures limit >= 0 ==> forall y, x | y in ScoreAll(cat, u, Candidates(cat, u))
              && y !in Recommendations(cat, u, limit) && x in Recommendations(cat, u, limit)
              :: y.matchScore <= x.matchScore
  {
    var cands := Candidates(cat, u);
    var scored := ScoreAll(cat, u, cands);
    var sorted := SortDesc(scored, ScoreKey);
    var r := Recommendations(cat, u, limit);
    CandidatesAreMostPopular(cat, u);
    forall e | e in r
      ensures e.movie in cands && e.matchScore == MatchScore(cat, u, e.movie)
    {
      assert e in multiset(sorted);
      var i :| 0 <= i < |scored| && scored[i] == e;
    }
    SortDescDescending(scored, ScoreKey);
    DescendingPrefix(r, sorted, ScoreKey);
    forall k
      ensures WithKey(r, ScoreKey, k) <= WithKey(scored, ScoreKey, k)
    {
      WithKeyPrefix(r, sorted, ScoreKey, k);
      SortDescStable(scored, ScoreKey, k);
    }
    if limit >= 0 {
      RecommendationsTop(scored, limit);
    }
  }

  /** A non-negative slice of the sorted scores keeps the highest scores. */
  lemma RecommendationsTop(scored: seq<Recommended>, limit: nat)
    ensures forall y, x | y in scored && y !in PyPrefix(SortDesc(scored, ScoreKey), limit)
              && x in PyPrefix(SortDesc(scored, ScoreKey), limit) :: y.matchScore <= x.matchScore
  {
    var sorted := SortDesc(scored, ScoreKey);
    assert PyPrefix(sorted, limit) == Take(sorted, limit);
    TopN(scored, ScoreKey, limit);
    forall y, x | y in scored && y !in Take(sorted, limit) && x in Take(sorted, limit)
      ensures y.matchScore <= x.matchScore
    {
      assert !Above(ScoreKey(y), ScoreKey(x));
    }
  }

  // ---------------------------------------------------------------------------
  // get_similar_movies
  // ---------------------------------------------------------------------------

  /** `len(set(a) & set(b))`. */
  function Overlap(a: seq<string>, b: seq<string>): nat {
    |ToSet(a) * ToSet(b)|
  }

  /** `(overlap, movie.vote_average)`, compared as a tuple. */
  function SimilarKey(p: (Movie, nat)): Key {
    Key(p.1 as real, p.0.voteAverage)
  }

  /** `MovieMetadata.objects.exclude(id=movie.id)` in the model's default order (popularity, highest first). */
  function Others(ms: seq<Movie>, source: Movie): (r: seq<Movie>)
    ensures forall m | m in r :: m in ms && m.id != source.id
    ensures forall m | m in ms && m.id != source.id :: m in r
  {
    var pool := Filter(ms, (m: Movie) => m.id != source.id);
    SortDescMembers(pool, PopularityKey);
    SortDesc(pool, PopularityKey)
  }

  /** The pairs the loop appends: each movie with genres that shares one with `g`, with the overlap. */
  function SimilarPairs(pool: seq<Movie>, g: seq<string>): (r: seq<(Movie, nat)>)
    ensures forall p | p in r :: p.0 in pool && p.1 == Overlap(g, p.0.genres) && p.1 > 0
    ensures forall m | m in pool && |m.genres| > 0 && Overlap(g, m.genres) > 0 :: (m, Overlap(g, m.genres)) in r
    decreases |pool|
  {
    if pool == [] then []
    else
      var m := pool[|pool| - 1];
      var init := pool[..|pool| - 1];
      assert forall x | x in pool :: x in init || x == m;
      SimilarPairs(init, g)
      + (if |m.genres| > 0 && Overlap(g, m.genres) > 0 then [(m, Overlap(g, m.genres))] else [])
  }

  function Firsts(ps: seq<(Movie, nat)>): (r: seq<Movie>)
    ensures |r| == |ps|
    ensures forall i | 0 <= i < |ps| :: r[i] == ps[i].0
  {
    seq(|ps|, i requires 0 <= i < |ps| => ps[i].0)
  }

  function SimilarMovies(ms: seq<Movie>, source: Movie, limit: int): seq<Movie> {
    if |source.genres| == 0 then []
    else Firsts(PyPrefix(SortDesc(SimilarPairs(Others(ms, source), source.genres), SimilarKey), limit))
  }

  /** The loop over the other movies, keeping those that share a genre, with the overlap. */
  method CollectSimilar(pool: seq<Movie>, g: seq<string>) returns (similar: seq<(Movie, nat)>)
    ensures similar == SimilarPairs(pool, g)
  {
    similar := [];
    for i := 0 to |pool|
      invariant similar == SimilarPairs(pool[..i], g)
    {
      var m := pool[i];
      assert pool[..i + 1][..i] == pool[..i];
      if |m.genres| > 0 && ToSet(g) * ToSet(m.genres) != {} {
        var overlap := |ToSet(g) * ToSet(m.genres)|;
        similar := similar + [(m, overlap)];
      }
    }
    assert pool[..|pool|] == pool;
  }

  method GetSimilarMovies(ms: seq<Movie>, source: Movie, limit: int) returns (r: seq<Movie>)
    ensures r == SimilarMovies(ms, source, limit)
  {
    if |source.genres| == 0 {
      return [];
    }
    var pool := Others(ms, source);
    var similar := CollectSimilar(pool, source.genres);
    similar := SortDesc(similar, SimilarKey);
    r := Firsts(PyPrefix(similar, limit));
  }

  /** The sorted, truncated pairs behind `SimilarMovies` (for a source with genres). */
  function SimilarKept(ms: seq<Movie>, source: Movie, limit: int): seq<(Movie, nat)> {
    PyPrefix(SortDesc(SimilarPairs(Others(ms, source), source.genres), SimilarKey), limit)
  }

  lemma SimilarKeptFromPairs(ms: seq<Movie>, source: Movie, limit: int)
    ensures forall p | p in SimilarKept(ms, source, limit) :: p in SimilarPairs(Others(ms, source), source.genres)
  {
    var pairs := SimilarPairs(Others(ms, source), source.genres);
    SortDescMembers(pairs, SimilarKey);
  }

  /**
   * Similar movies: none without source genres; never the source itself; each
   * shares a genre with it; at most `limit` of them, and for a source with
   * genres exactly min(limit, number of movies sharing a genre).
   */
  lemma SimilarMoviesMembers(ms: seq<Movie>, source: Movie, limit: int)
    ensures |source.genres| == 0 ==> SimilarMovies(ms, source, limit) == []
    ensures forall m | m in SimilarMovies(ms, source, limit)
              :: m in ms && m.id != source.id && exists g :: g in m.genres && g in source.genres
    ensures limit >= 0 ==> |SimilarMovies(ms, source, limit)| <= limit
    ensures limit >= 0 && |source.genres| > 0 ==>
      var n := |SimilarPairs(Others(ms, source), source.genres)|;
      |SimilarMovies(ms, source, limit)| == if limit < n then limit else n
  {
    if |source.genres| > 0 {
      var kept := SimilarKept(ms, source, limit);
      var r := Firsts(kept);
      assert r == SimilarMovies(ms, source, limit);
      SimilarKeptFromPairs(ms, source, limit);
      forall m | m in r
        ensures m in ms && m.id != source.id && exists e :: e in m.genres && e in source.genres
      {
        var i :| 0 <= i < |r| && r[i] == m;
        assert kept[i] in kept;
        var e :| e in ToSet(source.genres) * ToSet(m.genres);
        assert e in m.genres && e in source.genres;
      }
    }
  }

  /** The results are sorted by (genre overlap, vote average), highest first. */
  lemma SimilarMoviesOrdered(ms: seq<Movie>, source: Movie, limit: int)
    ensures forall i, j | 0 <= i < j < |SimilarMovies(ms, source, limit)|
              :: !Above(
                   Key(Overlap(source.genres, SimilarMovies(ms, source, limit)[j].genres) as real,
                       SimilarMovies(ms, source, limit)[j].voteAverage),
                   Key(Overlap(source.genres, SimilarMovies(ms, source, limit)[i].genres) as real,
                       SimilarMovies(ms, source, limit)[i].voteAverage))
  {
    if |source.genres| > 0 {
      var g := source.genres;
      var pairs := SimilarPairs(Others(ms, source), g);
      var sorted := SortDesc(pairs, SimilarKey);
      var kept := SimilarKept(ms, source, limit);
      var r := Firsts(kept);
      assert r == SimilarMovies(ms, source, limit);
      SimilarKeptFromPairs(ms, source, limit);
      SortDescDescending(pairs, SimilarKey);
      DescendingPrefix(kept, sorted, SimilarKey);
      forall i, j | 0 <= i < j < |r|
        ensures !Above(Key(Overlap(g, r[j].genres) as real, r[j].voteAverage),
                       Key(Overlap(g, r[i].genres) as real, r[i].voteAverage))
      {
        assert kept[i] in kept && kept[j] in kept;
        assert !Above(SimilarKey(kept[j]), SimilarKey(kept[i]));
      }
    }
  }

  /** No other movie sharing a genre is left out while ranking above a result. */
  lemma SimilarMoviesTop(ms: seq<Movie>, source: Movie, limit: nat)
    ensures forall m, x | m in ms && m.id != source.id && Overlap(source.genres, m.genres) > 0
                          && m !in SimilarMovies(ms, source, limit) && x in SimilarMovies(ms, source, limit)
              :: !Above(Key(Overlap(source.genres, m.genres) as real, m.voteAverage),
                        Key(Overlap(source.genres, x.genres) as real, x.voteAverage))
  {
    if |source.genres| > 0 {
      var g := source.genres;
      var pairs := SimilarPairs(Others(ms, source), g);
      var kept := SimilarKept(ms, source, limit);
      var r := Firsts(kept);
      assert r == SimilarMovies(ms, source, limit);
      assert kept == Take(SortDesc(pairs, SimilarKey), limit);
      SimilarKeptFromPairs(ms, source, limit);
      TopN(pairs, SimilarKey, limit);
      forall m, x | m in ms && m.id != source.id && Overlap(g, m.genres) > 0 && m !in r && x in r
        ensures !Above(Key(Overlap(g, m.genres) as real, m.voteAverage),
                       Key(Overlap(g, x.genres) as real, x.voteAverage))
      {
        var pm := (m, Overlap(g, m.genres));
        assert m in Others(ms, source);
        assert |m.genres| > 0;
        assert pm in pairs;
        var i :| 0 <= i < |r| && r[i] == x;
        var px := kept[i];
        assert px in kept;
        assert !Above(SimilarKey(pm), SimilarKey(px));
      }
    }
  }

  // ---------------------------------------------------------------------------
  // get_trending_by_genre
  // ---------------------------------------------------------------------------

  /** `order_by('-popularity', '-vote_average')`. */
  function TrendingKey(m: Movie): Key {
    Key(m.popularity, m.voteAverage)
  }

  /** Why the trending query raises instead of returning movies. */
  datatype QueryError =
    | NegativeLimit          // slicing a query set with a negative bound fails
    | ContainsNotSupported   // NotSupportedError: no JSON containment on SQLite

  /**
   * The movies whose genre list contains `genre` (compared as written, without
   * lower-casing), by popularity then vote average, first `limit`. Slicing
   * with a negative limit fails at once; otherwise, on SQLite, evaluating
   * the `genres__contains` lookup fails.
   */
  function TrendingByGenre(vendor: Vendor, ms: seq<Movie>, genre: string, limit: int): (r: Result<seq<Movie>, QueryError>)
    ensures r.Ok? <==> limit >= 0 && vendor == Postgresql
    ensures limit < 0 ==> r == Err(NegativeLimit)
    ensures limit >= 0 && vendor == Sqlite ==> r == Err(ContainsNotSupported)
  {
    if limit < 0 then Err(NegativeLimit)
    else if vendor.Sqlite? then Err(ContainsNotSupported)
    else Ok(Take(SortDesc(Filter(ms, (m: Movie) => genre in m.genres), TrendingKey), limit))
  }

  /**
   * Only movies of the genre, ordered by (popularity, vote average) from highest,
   * exactly min(limit, number of movies of the genre), and no movie of the
   * genre left out ranks above one kept.
   */
  lemma TrendingByGenreProperties(ms: seq<Movie>, genre: string, limit: nat)
    ensures forall m | m in TrendingByGenre(Postgresql, ms, genre, limit).value :: m in ms && genre in m.genres
    ensures Descending(TrendingByGenre(Postgresql, ms, genre, limit).value, TrendingKey)
    ensures |TrendingByGenre(Postgresql, ms, genre, limit).value| <= limit
    ensures var n := |Filter(ms, (m: Movie) => genre in m.genres)|;
      |TrendingByGenre(Postgresql, ms, genre, limit).value| == if limit < n then limit else n
    ensures forall m, x | m in ms && genre in m.genres && m !in TrendingByGenre(Postgresql, ms, genre, limit).value
                         && x in TrendingByGenre(Postgresql, ms, genre, limit).value
              :: !Above(TrendingKey(m), TrendingKey(x))
  {
    TopN(Filter(ms, (m: Movie) => genre in m.genres), TrendingKey, limit);
  }

  /** The genre filter of the trending example keeps the two dramas, in table order. */
  lemma TrendingExampleFilter(a: Movie, b: Movie, c: Movie)
    requires a.genres == ["drama"] && b.genres == ["action"] && c.genres == ["drama", "action"]
    ensures Filter([a, b, c], (m: Movie) => "drama" in m.genres) == [a, c]
  {
    var ms := [a, b, c];
    var p := (m: Movie) => "drama" in m.genres;
    assert "drama" != "action" by {
      assert "drama"[0] != "action"[0];
    }
    assert !p(b) && p(a) && p(c);
    assert ms[1..] == [b, c] && ms[1..][1..] == [c] && [c][1..] == [];
    assert Filter([c], p) == [c];
    assert Filter([b, c], p) == [c];
  }

  /** Drama at popularity 90, action at 95, drama-and-action at 80: the two dramas, 90 first. */
  lemma TrendingExample(a: Movie, b: Movie, c: Movie)
    requires a.genres == ["drama"] && a.popularity == 90.0
    requires b.genres == ["action"] && b.popularity == 95.0
    requires c.genres == ["drama", "action"] && c.popularity == 80.0
    ensures TrendingByGenre(Postgresql, [a, b, c], "drama", 10) == Ok([a, c])
  {
    TrendingExampleFilter(a, b, c);
    assert [a, c][1..] == [c];
    assert SortDesc([c], TrendingKey) == [c];
    assert SortDesc([a, c], TrendingKey) == Insert(a, [c], TrendingKey) == [a, c];
  }

  // ---------------------------------------------------------------------------
  // get_user_statistics
  // ---------------------------------------------------------------------------

  /**
   * The statistics dictionary: `{}` for an anonymous requester, the all-zero
   * dictionary for a member without ratings, the full summary otherwise.
   */
  datatype UserStats =
    | NoStats
    | EmptyStats
    | Summary(
        totalRatings: nat,
        averageRating: real,
        highestRated: Rating,
        lowestRated: Rating,
        favoriteGenres: seq<string>,
        totalWatchTime: int,
        totalWatchTimeHours: real)

  /** Rating's default ordering, newest first. */
  function CreatedKey(r: Rating): Key {
    Key(r.createdAt as real, 0.0)
  }

  /** `order_by('-score')`. */
  function ScoreDescKey(r: Rating): Key {
    Key(r.score as real, 0.0)
  }

  /** `order_by('score')`, as a descending sort on the negated score. */
  function ScoreAscKey(r: Rating): Key {
    Key(-(r.score as real), 0.0)
  }

  function Score(r: Rating): int {
    r.score
  }

  /** `Rating.objects.filter(user=user)` in the default ordering. */
  function UserRatings(cat: Catalog, user: nat): (r: seq<Rating>)
    ensures |r| == |RatingsOf(cat.ratings, user)|
  {
    SortDesc(RatingsOf(cat.ratings, user), CreatedKey)
  }

  /** How many times `g` occurs in `s`. */
  function Occurrences(s: seq<string>, g: string): nat
    decreases |s|
  {
    if s == [] then 0
    else Occurrences(s[..|s| - 1], g) + (if s[|s| - 1] == g then 1 else 0)
  }

  /** The distinct entries of `s`, in order of first occurrence: the key order of a dict filled from `s`. */
  function Dedup(s: seq<string>): (r: seq<string>)
    ensures forall g | g in r :: g in s
    ensures forall g | g in s :: g in r
    ensures forall i, j | 0 <= i < j < |r| :: r[i] != r[j]
    decreases |s|
  {
    if s == [] then []
    else
      var d := Dedup(s[..|s| - 1]);
      var g := s[|s| - 1];
      assert forall x | x in s :: x in s[..|s| - 1] || x == g;
      if g in d then d else d + [g]
  }

  lemma {:induction false} OccurrencesPositive(s: seq<string>, g: string)
    ensures Occurrences(s, g) > 0 <==> g in s
    decreases |s|
  {
    if s != [] {
      OccurrencesPositive(s[..|s| - 1], g);
      assert s == s[..|s| - 1] + [s[|s| - 1]];
    }
  }

  /** `genre_counts.items()`: each distinct genre with its number of occurrences. */
  function GenreCounts(s: seq<string>): (r: seq<(string, nat)>)
    ensures |r| == |Dedup(s)|
    ensures forall i | 0 <= i < |r| :: r[i] == (Dedup(s)[i], Occurrences(s, Dedup(s)[i]))
  {
    var d := Dedup(s);
    seq(|d|, i requires 0 <= i < |d| => (d[i], Occurrences(s, d[i])))
  }

  function CountKey(p: (string, nat)): Key {
    Key(p.1 as real, 0.0)
  }

  function Names(ps: seq<(string, nat)>): (r: seq<string>)
    ensures |r| == |ps|
    ensures forall i | 0 <= i < |ps| :: r[i] == ps[i].0
  {
    seq(|ps|, i requires 0 <= i < |ps| => ps[i].0)
  }

  /** The counted genres sorted by count (stable, highest first), first five. */
  function FavoriteGenres(s: seq<string>): seq<string> {
    Names(Take(SortDesc(GenreCounts(s), CountKey), 5))
  }

  /** What a rating adds to the watch time: its movie's runtime when that is set and non-zero. */
  function WatchedMinutes(ms: seq<Movie>, r: Rating): int {
    match MovieById(ms, r.movie)
    case Some(m) => if m.runtime.Some? && m.runtime.value != 0 then m.runtime.value else 0
    case None => 0
  }

  /** A rating's movie runtime, 0 when it is null. */
  function RuntimeOrZero(ms: seq<Movie>, r: Rating): int {
    match MovieById(ms, r.movie)
    case Some(m) => m.runtime.GetOr(0)
    case None => 0
  }

  function UserStatistics(cat: Catalog, u: Requester): UserStats {
    if u.Anonymous? then NoStats
    else
      var rs := UserRatings(cat, u.id);
      if rs == [] then EmptyStats
      else
        var minutes := SumOf(rs, (r: Rating) => WatchedMinutes(cat.movies, r));
        Summary(
          |rs|,
          SumOf(rs, Score) as real / |rs| as real,
          SortDesc(rs, ScoreDescKey)[0],
          SortDesc(rs, ScoreAscKey)[0],
          FavoriteGenres(GenresOfRatings(cat.movies, HighlyRated(rs))),
          minutes,
          minutes as real / 60.0)
  }

  lemma DedupSnoc(s: seq<string>, g: string)
    ensures Dedup(s + [g]) == if g in s then Dedup(s) else Dedup(s) + [g]
  {
    assert (s + [g])[..|s|] == s;
  }

  lemma OccurrencesSnoc(s: seq<string>, g: string, x: string)
    ensures Occurrences(s + [g], x) == Occurrences(s, x) + (if g == x then 1 else 0)
  {
    assert (s + [g])[..|s|] == s;
  }

  /** `genre_counts` and its key order describe exactly the genres seen so far. */
  ghost predicate CountsFor(counts: map<string, nat>, order: seq<string>, seen: seq<string>) {
    && order == Dedup(seen)
    && (forall g :: g in counts <==> g in seen)
    && (forall g | g in counts :: counts[g] == Occurrences(seen, g))
  }

  /** One `genre_counts[genre] = genre_counts.get(genre, 0) + 1` keeps the description. */
  lemma CountStep(counts: map<string, nat>, order: seq<string>, seen: seq<string>, g: string)
    requires CountsFor(counts, order, seen)
    ensures CountsFor(counts[g := (if g in counts then counts[g] else 0) + 1],
                      if g in counts then order else order + [g], seen + [g])
  {
    DedupSnoc(seen, g);
    assert (if g in counts then order else order + [g]) == Dedup(seen + [g]);
    CountStepKeys(counts, seen, g);
    CountStepValues(counts, seen, g);
  }

  /** Counting `g` adds `g` to the keys and nothing else. */
  lemma CountStepKeys(counts: map<string, nat>, seen: seq<string>, g: string)
    requires forall x :: x in counts <==> x in seen
    ensures forall x :: x in counts[g := 0] <==> x in seen + [g]
  {
    assert forall x | x in seen + [g] :: x in seen || x == g;
  }

  /** Counting `g` raises its count by one and leaves the others. */
  lemma CountStepValues(counts: map<string, nat>, seen: seq<string>, g: string)
    requires forall x :: x in counts <==> x in seen
    requires forall x | x in counts :: counts[x] == Occurrences(seen, x)
    ensures forall x | x in counts[g := (if g in counts then counts[g] else 0) + 1]
              :: counts[g := (if g in counts then counts[g] else 0) + 1][x] == Occurrences(seen + [g], x)
  {
    var counts' := counts[g := (if g in counts then counts[g] else 0) + 1];
    forall x | x in counts'
      ensures counts'[x] == Occurrences(seen + [g], x)
    {
      OccurrencesSnoc(seen, g, x);
      if x == g && g !in counts {
        OccurrencesPositive(seen, g);
      }
    }
  }

  /** The items of a dict that describes `seen` are the genre counts of `seen`. */
  lemma CountsItems(counts: map<string, nat>, order: seq<string>, seen: seq<string>)
    requires CountsFor(counts, order, seen)
    ensures forall k | 0 <= k < |order| :: order[k] in counts
    ensures seq(|order|, k requires 0 <= k < |order| && order[k] in counts => (order[k], counts[order[k]]))
         == GenreCounts(seen)
  {
  }

  /** The inner loop: count each genre of one movie into `genre_counts`. */
  method CountInto(counts: map<string, nat>, order: seq<string>, ghost seen: seq<string>, genres: seq<string>)
    returns (counts': map<string, nat>, order': seq<string>)
    requires CountsFor(counts, order, seen)
    ensures CountsFor(counts', order', seen + genres)
  {
    counts', order' := counts, order;
    ghost var now := seen;
    for j := 0 to |genres|
      invariant now == seen + genres[..j]
      invariant CountsFor(counts', order', now)
    {
      var g := genres[j];
      CountStep(counts', order', now, g);
      var nextOrder := if g in counts' then order' else order' + [g];
      var nextCounts := counts'[g := (if g in counts' then counts'[g] else 0) + 1];
      assert seen + genres[..j + 1] == now + [g] by {
        assert genres[..j + 1] == genres[..j] + [g];
      }
      counts', order', now := nextCounts, nextOrder, now + [g];
    }
    assert genres[..|genres|] == genres;
  }

  /** The genre-counting loop: `genre_counts[genre] = genre_counts.get(genre, 0) + 1`. */
  method CountGenres(ms: seq<Movie>, high: seq<Rating>) returns (items: seq<(string, nat)>)
    ensures items == GenreCounts(GenresOfRatings(ms, high))
  {
    var counts: map<string, nat> := map[];
    var order: seq<string> := [];
    ghost var seen: seq<string> := [];
    for i := 0 to |high|
      invariant seen == GenresOfRatings(ms, high[..i])
      invariant CountsFor(counts, order, seen)
    {
      assert high[..i + 1][..i] == high[..i];
      var genres := GenresOf(ms, high[i].movie);
      counts, order := CountInto(counts, order, seen, genres);
      seen := seen + genres;
    }
    assert high[..|high|] == high;
    CountsItems(counts, order, seen);
    items := seq(|order|, k requires 0 <= k < |order| && order[k] in counts => (order[k], counts[order[k]]));
  }

  method GetUserStatistics(cat: Catalog, u: Requester) returns (st: UserStats)
    ensures st == UserStatistics(cat, u)
  {
    if u.Anonymous? {
      return NoStats;
    }
    var ratings := UserRatings(cat, u.id);
    if |ratings| == 0 {
      return EmptyStats;
    }
    var items := CountGenres(cat.movies, HighlyRated(ratings));
    var favorites := Names(Take(SortDesc(items, CountKey), 5));
    var minutes := SumOf(ratings, (r: Rating) => WatchedMinutes(cat.movies, r));
    st := Summary(
      |ratings|,
      SumOf(ratings, Score) as real / |ratings| as real,
      SortDesc(ratings, ScoreDescKey)[0],
      SortDesc(ratings, ScoreAscKey)[0],
      favorites,
      minutes,
      minutes as real / 60.0);
  }

  /** Zero runtimes add nothing, so the watch time is the sum of every non-null runtime. */
  lemma {:induction false} WatchTimeIsRuntimeSum(ms: seq<Movie>, rs: seq<Rating>)
    ensures SumOf(rs, (r: Rating) => WatchedMinutes(ms, r)) == SumOf(rs, (r: Rating) => RuntimeOrZero(ms, r))
    decreases |rs|
  {
    if rs != [] {
      WatchTimeIsRuntimeSum(ms, rs[1..]);
    }
  }

  /**
   * The three shapes of the result, and the summary's counts: the number of the
   * member's ratings, their mean score and the sum of their movies' non-null
   * runtimes, in minutes and hours.
   */
  lemma UserStatisticsCounts(cat: Catalog, u: Requester)
    ensures u.Anonymous? <==> UserStatistics(cat, u) == NoStats
    ensures UserStatistics(cat, u) == EmptyStats <==> u.Member? && RatingsOf(cat.ratings, u.id) == []
    ensures UserStatistics(cat, u).Summary? ==>
      var rs := RatingsOf(cat.ratings, u.id);
      var st := UserStatistics(cat, u);
      && st.totalRatings == |rs| > 0
      && st.averageRating == SumOf(rs, Score) as real / |rs| as real
      && st.totalWatchTime == SumOf(rs, (r: Rating) => RuntimeOrZero(cat.movies, r))
      && st.totalWatchTimeHours == st.totalWatchTime as real / 60.0
  {
    if u.Member? {
      var rs := RatingsOf(cat.ratings, u.id);
      SumOfSortDesc(rs, CreatedKey, Score);
      SumOfSortDesc(rs, CreatedKey, (r: Rating) => WatchedMinutes(cat.movies, r));
      WatchTimeIsRuntimeSum(cat.movies, rs);
    }
  }

  /** The highest and lowest rated entries are ratings of the member with the maximal and minimal score. */
  lemma UserStatisticsExtremes(cat: Catalog, u: Requester)
    requires UserStatistics(cat, u).Summary?
    ensures UserStatistics(cat, u).highestRated in RatingsOf(cat.ratings, u.id)
    ensures UserStatistics(cat, u).lowestRated in RatingsOf(cat.ratings, u.id)
    ensures forall r | r in RatingsOf(cat.ratings, u.id)
              :: UserStatistics(cat, u).lowestRated.score <= r.score <= UserStatistics(cat, u).highestRated.score
  {
    var rs := UserRatings(cat, u.id);
    var hi := SortDesc(rs, ScoreDescKey);
    var lo := SortDesc(rs, ScoreAscKey);
    SortDescMembers(RatingsOf(cat.ratings, u.id), CreatedKey);
    SortDescMembers(rs, ScoreDescKey);
    SortDescMembers(rs, ScoreAscKey);
    SortDescDescending(rs, ScoreDescKey);
    SortDescDescending(rs, ScoreAscKey);
    assert hi[0] in hi && lo[0] in lo;
    forall r | r in RatingsOf(cat.ratings, u.id)
      ensures lo[0].score <= r.score <= hi[0].score
    {
      assert r in hi && r in lo;
      var i :| 0 <= i < |hi| && hi[i] == r;
      var j :| 0 <= j < |lo| && lo[j] == r;
      if i > 0 {
        assert !Above(ScoreDescKey(hi[i]), ScoreDescKey(hi[0]));
      }
      if j > 0 {
        assert !Above(ScoreAscKey(lo[j]), ScoreAscKey(lo[0]));
      }
    }
  }

  /** Every counted pair carries its genre's number of occurrences. */
  lemma KeptCounts(s: seq<string>)
    ensures forall p | p in Take(SortDesc(GenreCounts(s), CountKey), 5) :: p.1 == Occurrences(s, p.0) && p.0 in s
  {
    var items := GenreCounts(s);
    TopN(items, CountKey, 5);
    assert forall p | p in items :: p.1 == Occurrences(s, p.0) && p.0 in s;
  }

  /** Counting the distinct entries of a list gives the size of its set. */
  lemma {:induction false} DedupSize(s: seq<string>)
    ensures |Dedup(s)| == |ToSet(s)|
    decreases |s|
  {
    if s != [] {
      var init := s[..|s| - 1];
      var g := s[|s| - 1];
      DedupSize(init);
      assert ToSet(s) == ToSet(init) + {g};
      if g in Dedup(init) {
        assert Dedup(s) == Dedup(init);
        assert g in ToSet(init);
        assert ToSet(s) == ToSet(init);
      } else {
        assert Dedup(s) == Dedup(init) + [g];
        assert g !in ToSet(init);
        assert |ToSet(s)| == |ToSet(init)| + 1;
      }
    }
  }

  /**
   * The favourite genres are distinct genres of the liked movies: five of
   * them, or all of them when fewer than five distinct genres were liked.
   */
  lemma FavoriteGenresDistinct(s: seq<string>)
    ensures |FavoriteGenres(s)| <= 5
    ensures |FavoriteGenres(s)| == if |ToSet(s)| < 5 then |ToSet(s)| else 5
    ensures forall g | g in FavoriteGenres(s) :: g in s
    ensures forall i, j | 0 <= i < j < |FavoriteGenres(s)| :: FavoriteGenres(s)[i] != FavoriteGenres(s)[j]
  {
    var items := GenreCounts(s);
    var sorted := SortDesc(items, CountKey);
    var kept := Take(sorted, 5);
    var r := Names(kept);
    assert r == FavoriteGenres(s);
    DedupSize(s);
    KeptCounts(s);
    forall g | g in r
      ensures g in s
    {
      var i :| 0 <= i < |r| && r[i] == g;
      assert kept[i] in kept;
    }
    assert Distinct(items);
    SortDescDistinct(items, CountKey);
    forall i, j | 0 <= i < j < |r|
      ensures r[i] != r[j]
    {
      assert kept[i] in kept && kept[j] in kept;
      assert kept[i] == sorted[i] && kept[j] == sorted[j];
    }
  }

  /** The favourite genres are ordered by count, highest first. */
  lemma FavoriteGenresOrdered(s: seq<string>)
    ensures forall i, j | 0 <= i < j < |FavoriteGenres(s)|
              :: Occurrences(s, FavoriteGenres(s)[j]) <= Occurrences(s, FavoriteGenres(s)[i])
  {
    var kept := Take(SortDesc(GenreCounts(s), CountKey), 5);
    var r := Names(kept);
    assert r == FavoriteGenres(s);
    KeptCounts(s);
    TopN(GenreCounts(s), CountKey, 5);
    forall i, j | 0 <= i < j < |r|
      ensures Occurrences(s, r[j]) <= Occurrences(s, r[i])
    {
      assert kept[i] in kept && kept[j] in kept;
      assert !Above(CountKey(kept[j]), CountKey(kept[i]));
    }
  }

  /** No liked genre left out of the favourites is counted more often than one kept. */
  lemma FavoriteGenresTop(s: seq<string>)
    ensures forall g, x | g in s && g !in FavoriteGenres(s) && x in FavoriteGenres(s)
              :: Occurrences(s, g) <= Occurrences(s, x)
  {
    var items := GenreCounts(s);
    var kept := Take(SortDesc(items, CountKey), 5);
    var r := Names(kept);
    assert r == FavoriteGenres(s);
    KeptCounts(s);
    TopN(items, CountKey, 5);
    forall g, x | g in s && g !in r && x in r
      ensures Occurrences(s, g) <= Occurrences(s, x)
    {
      var k :| 0 <= k < |Dedup(s)| && Dedup(s)[k] == g;
      var pg := items[k];
      assert pg in items;
      assert pg !in kept;
      var i :| 0 <= i < |r| && r[i] == x;
      assert kept[i] in kept;
      assert !Above(CountKey(pg), CountKey(kept[i]));
    }
  }
}
