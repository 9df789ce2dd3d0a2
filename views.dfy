/**
 * The access rules and store updates of apps/movies_api/views.py: the
 * querysets each viewset exposes, the owner-or-staff checks on rating and
 * playlist changes, playlist membership changes, and the three fixed movie
 * listings. Each endpoint's decision is a function; the tables it changes are
 * classes whose methods follow that decision.
 */
module Views {
  import opened Wrappers
  import opened Models
  import opened Sorting
  import Serializers
  import Text

  /** How a request ends. `Done` is the endpoint's success response. */
  datatype Status =
    | Done
    | BadRequest        // 400
    | NotAuthenticated  // refused by the permission class before the view runs
    | Forbidden         // 403
    | NotFound          // 404
    | ServerError       // an exception escapes the view (500)

  // ---------------------------------------------------------------------------
  // MovieMetadataViewSet: trending, recent, top_rated
  // ---------------------------------------------------------------------------

  const ListingSize: nat := 20
  const TopRatedMinVotes := 100

  function PopularityOrder(m: Movie): Key { Key(m.popularity, 0.0) }
  function CreatedOrder(m: Movie): Key { Key(m.createdAt as real, 0.0) }
  function VoteAverageOrder(m: Movie): Key { Key(m.voteAverage, 0.0) }

  /** `order_by('-popularity')[:20]`. */
  function Trending(ms: seq<Movie>): seq<Movie> {
    Take(SortDesc(ms, PopularityOrder), ListingSize)
  }

  /** `order_by('-created_at')[:20]`. */
  function Recent(ms: seq<Movie>): seq<Movie> {
    Take(SortDesc(ms, CreatedOrder), ListingSize)
  }

  predicate EnoughVotes(m: Movie) {
    m.voteCount >= TopRatedMinVotes
  }

  /** `filter(vote_count__gte=100).order_by('-vote_average')[:20]`. */
  function TopRated(ms: seq<Movie>): seq<Movie> {
    Take(SortDesc(Filter(ms, EnoughVotes), VoteAverageOrder), ListingSize)
  }

  /** 20 movies of the table (all of a smaller one), most popular first, and none left out is more popular than one shown. */
  lemma TrendingIsTopTwenty(ms: seq<Movie>)
    ensures |Trending(ms)| <= ListingSize
    ensures |Trending(ms)| == if |ms| < ListingSize then |ms| else ListingSize
    ensures multiset(Trending(ms)) <= multiset(ms)
    ensures Descending(Trending(ms), PopularityOrder)
    ensures forall y, x | y in ms && y !in Trending(ms) && x in Trending(ms) :: y.popularity <= x.popularity
  {
    var r := Trending(ms);
    TopN(ms, PopularityOrder, ListingSize);
    forall y, x | y in ms && y !in r && x in r
      ensures y.popularity <= x.popularity
    {
      assert !Above(PopularityOrder(y), PopularityOrder(x));
    }
  }

  /** The 20 newest movies (all of a smaller table), newest first. */
  lemma RecentIsNewestTwenty(ms: seq<Movie>)
    ensures |Recent(ms)| <= ListingSize
    ensures |Recent(ms)| == if |ms| < ListingSize then |ms| else ListingSize
    ensures multiset(Recent(ms)) <= multiset(ms)
    ensures Descending(Recent(ms), CreatedOrder)
    ensures forall y, x | y in ms && y !in Recent(ms) && x in Recent(ms) :: y.createdAt <= x.createdAt
  {
    var r := Recent(ms);
    TopN(ms, CreatedOrder, ListingSize);
    forall y, x | y in ms && y !in r && x in r
      ensures y.createdAt <= x.createdAt
    {
      assert !Above(CreatedOrder(y), CreatedOrder(x));
    }
  }

  /** Only movies with at least 100 votes, highest average first, 20 of them or all when fewer qualify. */
  lemma TopRatedIsBestVoted(ms: seq<Movie>)
    ensures |TopRated(ms)| <= ListingSize
    ensures |TopRated(ms)| == if |Filter(ms, EnoughVotes)| < ListingSize then |Filter(ms, EnoughVotes)| else ListingSize
    ensures forall m | m in TopRated(ms) :: m in ms && m.voteCount >= TopRatedMinVotes
    ensures Descending(TopRated(ms), VoteAverageOrder)
    ensures forall y, x | y in ms && y.voteCount >= TopRatedMinVotes && y !in TopRated(ms) && x in TopRated(ms)
              :: y.voteAverage <= x.voteAverage
  {
    var pool := Filter(ms, EnoughVotes);
    var r := TopRated(ms);
    TopN(pool, VoteAverageOrder, ListingSize);
    forall y, x | y in ms && y.voteCount >= TopRatedMinVotes && y !in r && x in r
      ensures y.voteAverage <= x.voteAverage
    {
      assert EnoughVotes(y) && y in pool;
      assert !Above(VoteAverageOrder(y), VoteAverageOrder(x));
    }
    forall m | m in r
      ensures m in ms && m.voteCount >= TopRatedMinVotes
    {
      assert m in pool;
    }
  }

  /** Fewer than 20 movies: trending shows all of them. */
  lemma TrendingShowsSmallTable(ms: seq<Movie>)
    requires |ms| <= ListingSize
    ensures multiset(Trending(ms)) == multiset(ms)
  {
  }

  // ---------------------------------------------------------------------------
  // get_queryset visibility rules
  // ---------------------------------------------------------------------------

  /** UserProfileViewSet: staff see every profile, anyone else their own; anonymous requests are refused. */
  function VisibleProfiles(ps: seq<Profile>, u: Requester): (r: Option<seq<Profile>>)
    ensures r.None? <==> u.Anonymous?
  {
    match u
    case Anonymous => None
    case Member(id, isStaff) => if isStaff then Some(ps) else Some(Filter(ps, (p: Profile) => p.user == id))
  }

  lemma VisibleProfilesRule(ps: seq<Profile>, u: Requester)
    requires u.Member?
    ensures u.isStaff ==> VisibleProfiles(ps, u) == Some(ps)
    ensures !u.isStaff ==> forall p :: p in VisibleProfiles(ps, u).value <==> p in ps && p.user == u.id
  {
  }

  /** PlaylistViewSet: `public | owner=user` for members, public only otherwise, in table order. */
  function VisiblePlaylists(ps: seq<Playlist>, u: Requester): seq<Playlist> {
    match u
    case Anonymous => Filter(ps, (p: Playlist) => p.visibility == Public)
    case Member(id, _) => Filter(ps, (p: Playlist) => p.visibility == Public || p.owner == id)
  }

  /** The queryset holds exactly the playlists `is_accessible_by` admits. */
  lemma VisiblePlaylistsAreAccessible(ps: seq<Playlist>, u: Requester)
    ensures forall p :: p in VisiblePlaylists(ps, u) <==> p in ps && IsAccessibleBy(p, u)
  {
  }

  // ---------------------------------------------------------------------------
  // RatingViewSet.update and destroy
  // ---------------------------------------------------------------------------

  function RatingIdOf(r: Rating): int {
    r.id
  }

  /** The position of the rating with primary key `id`. */
  function RatingIndex(rs: seq<Rating>, id: nat): (r: Option<nat>)
    ensures r.Some? ==> r.value < |rs| && rs[r.value].id == id
    ensures r.None? ==> forall i | 0 <= i < |rs| :: rs[i].id != id
  {
    IndexWhere(rs, RatingIdOf, id)
  }

  /** The requester may change the rating: its author, or staff. */
  predicate MayChangeRating(r: Rating, u: Requester) {
    u.Member? && (r.user == u.id || u.isStaff)
  }

  /** IsAuthenticated, then get_object, then the owner-or-staff check. */
  function RatingCheck(rs: seq<Rating>, u: Requester, id: nat): Status {
    if u.Anonymous? then NotAuthenticated
    else match RatingIndex(rs, id)
      case None => NotFound
      case Some(i) => if rs[i].user != u.id && !u.isStaff then Forbidden else Done
  }

  /**
   * RatingSerializer's field validation on a full update: `movie_id` is
   * required and names an existing movie, the score passes `validate_score`,
   * and the review passes as the model's text field.
   */
  predicate RatingFieldsValid(movies: set<nat>, movieId: Option<int>, score: int, review: Option<string>) {
    && movieId.Some? && movieId.value >= 0 && movieId.value as nat in movies
    && Serializers.ValidateScore(score).Ok?
    && Serializers.CleanText(Serializers.ReviewField, review).Ok?
  }

  /**
   * Another rating by the author of `rs[i]` is already for `movie`. The
   * serializer does not include `user`, so it has no unique-together
   * validator, and saving such a change violates the unique constraint.
   */
  predicate Clashes(rs: seq<Rating>, i: nat, movie: nat)
    requires i < |rs|
  {
    exists j | 0 <= j < |rs| && j != i :: rs[j].user == rs[i].user && rs[j].movie == movie
  }

  /** update: after the check, the serializer's validation (400), then the save. */
  function RatingUpdateOutcome(rs: seq<Rating>, movies: set<nat>, u: Requester, id: nat,
                               movieId: Option<int>, score: int, review: Option<string>): Status {
    var c := RatingCheck(rs, u, id);
    if c != Done then c
    else if !RatingFieldsValid(movies, movieId, score, review) then BadRequest
    else if Clashes(rs, RatingIndex(rs, id).value, movieId.value as nat) then ServerError
    else Done
  }

  /**
   * A found rating may be changed exactly by its author or by staff; anyone
   * else gets 403. An allowed update succeeds exactly when it names an
   * existing movie the author has not rated elsewhere, with a score in 1..5
   * and a review of at most 1000 characters once stripped. A missing
   * `movie_id` and an overlong review are both refused with 400.
   */
  lemma RatingChangeRule(rs: seq<Rating>, movies: set<nat>, u: Requester, id: nat,
                         movieId: Option<int>, score: int, review: Option<string>)
    requires RatingIndex(rs, id).Some?
    ensures var i := RatingIndex(rs, id).value; var r := rs[i];
      && (u.Member? ==> (RatingCheck(rs, u, id) == Done <==> MayChangeRating(r, u)))
      && (u.Member? && !MayChangeRating(r, u) ==> RatingCheck(rs, u, id) == Forbidden)
      && (RatingUpdateOutcome(rs, movies, u, id, movieId, score, review) == Done <==>
            && MayChangeRating(r, u)
            && movieId.Some? && movieId.value >= 0 && movieId.value as nat in movies
            && ScoreInRange(score)
            && (review.Some? ==> |Text.Strip(review.value)| <= Serializers.ReviewField.maxLength)
            && !Clashes(rs, i, movieId.value as nat))
      && (MayChangeRating(r, u) && movieId.None? ==> RatingUpdateOutcome(rs, movies, u, id, movieId, score, review) == BadRequest)
      && (var tooLong := review.Some? && |Text.Strip(review.value)| > Serializers.ReviewField.maxLength;
          MayChangeRating(r, u) && tooLong ==> RatingUpdateOutcome(rs, movies, u, id, movieId, score, review) == BadRequest)
  {
  }

  /** The rating table behind the viewset, and the ids of the movie table. */
  class RatingTable {
    var ratings: seq<Rating>
    var movies: set<nat>

    constructor(ratings: seq<Rating>, movies: set<nat>)
      ensures this.ratings == ratings && this.movies == movies
    {
      this.ratings := ratings;
      this.movies := movies;
    }

    /** The rating at `i` for a new movie with a new score, and a new review when one was sent. */
    static function Updated(rs: seq<Rating>, i: nat, movie: nat, score: int, review: Option<string>): (r: seq<Rating>)
      requires i < |rs|
      ensures |r| == |rs| && r[i].movie == movie && r[i].score == score
      ensures r[i].review == if review.Some? then review.value else rs[i].review
      ensures r[i].id == rs[i].id && r[i].user == rs[i].user && r[i].createdAt == rs[i].createdAt
      ensures forall j | 0 <= j < |rs| && j != i :: r[j] == rs[j]
    {
      rs[i := rs[i].(movie := movie, score := score, review := review.GetOr(rs[i].review))]
    }

    /** update: a refused request leaves the table as it was; a stored review is the stripped one. */
    method Update(u: Requester, id: nat, movieId: Option<int>, score: int, review: Option<string>) returns (st: Status)
      modifies this
      ensures st == RatingUpdateOutcome(old(ratings), movies, u, id, movieId, score, review)
      ensures movies == old(movies)
      ensures st != Done ==> ratings == old(ratings)
      ensures st == Done ==> ratings == Updated(old(ratings), RatingIndex(old(ratings), id).value, movieId.value as nat, score,
                                                Serializers.CleanText(Serializers.ReviewField, review).value)
    {
      st := RatingCheck(ratings, u, id);
      if st != Done {
        return;
      }
      var v := Serializers.ValidateScore(score);
      var cleaned := Serializers.CleanText(Serializers.ReviewField, review);
      if movieId.None? || movieId.value < 0 || movieId.value as nat !in movies || v.Err? || cleaned.Err? {
        return BadRequest;
      }
      var i := RatingIndex(ratings, id).value;
      var movie := movieId.value as nat;
      if Clashes(ratings, i, movie) {
        return ServerError;
      }
      ratings := ratings[i := ratings[i].(movie := movie, score := score, review := cleaned.value.GetOr(ratings[i].review))];
    }

    /** destroy: only the author or staff remove the rating; a refused request leaves it in place. */
    method Destroy(u: Requester, id: nat) returns (st: Status)
      modifies this
      ensures st == RatingCheck(old(ratings), u, id)
      ensures movies == old(movies)
      ensures st != Done ==> ratings == old(ratings)
      ensures st == Done ==> var i := RatingIndex(old(ratings), id).value;
        ratings == old(ratings)[..i] + old(ratings)[i + 1..]
    {
      st := RatingCheck(ratings, u, id);
      if st == Done {
        var i := RatingIndex(ratings, id).value;
        ratings := ratings[..i] + ratings[i + 1..];
      }
    }
  }

  /** A successful update keeps the table's invariant: scores in range, one rating per (user, movie). */
  lemma UpdatedKeepsValid(rs: seq<Rating>, i: nat, movie: nat, score: int, review: Option<string>)
    requires RatingsValid(rs) && i < |rs| && ScoreInRange(score) && !Clashes(rs, i, movie)
    ensures RatingsValid(RatingTable.Updated(rs, i, movie, score, review))
  {
    var t := RatingTable.Updated(rs, i, movie, score, review);
    forall a, b | 0 <= a < b < |t|
      ensures (t[a].user, t[a].movie) != (t[b].user, t[b].movie)
    {
      if a != i && b != i {
        assert (t[a].user, t[a].movie) == (rs[a].user, rs[a].movie);
        assert (t[b].user, t[b].movie) == (rs[b].user, rs[b].movie);
      } else if a == i {
        assert t[b] == rs[b];
      } else {
        assert t[a] == rs[a];
      }
    }
  }

  /** Every successful update leaves a valid table valid. */
  lemma UpdateKeepsValid(rs: seq<Rating>, movies: set<nat>, u: Requester, id: nat,
                         movieId: Option<int>, score: int, review: Option<string>)
    requires RatingsValid(rs) && RatingUpdateOutcome(rs, movies, u, id, movieId, score, review) == Done
    ensures RatingsValid(RatingTable.Updated(rs, RatingIndex(rs, id).value, movieId.value as nat, score,
                                              Serializers.CleanText(Serializers.ReviewField, review).value))
  {
    UpdatedKeepsValid(rs, RatingIndex(rs, id).value, movieId.value as nat, score,
                      Serializers.CleanText(Serializers.ReviewField, review).value);
  }

  // ---------------------------------------------------------------------------
  // PlaylistViewSet: update, destroy, add_movie, remove_movie
  // ---------------------------------------------------------------------------

  /** IsAuthenticatedOrReadOnly on a write, then get_object on the visible queryset. */
  function PlaylistLookup(ps: map<nat, Playlist>, u: Requester, pk: nat): Status {
    if u.Anonymous? then NotAuthenticated
    else if pk !in ps || !IsAccessibleBy(ps[pk], u) then NotFound
    else Done
  }

  predicate MayChangePlaylist(p: Playlist, u: Requester) {
    u.Member? && (p.owner == u.id || u.isStaff)
  }

  /** PlaylistSerializer's field validation on a full update of the name and description. */
  predicate PlaylistFieldsValid(name: Option<string>, description: Option<string>) {
    && Serializers.CleanText(Serializers.PlaylistNameField, name).Ok?
    && Serializers.CleanText(Serializers.DescriptionField, description).Ok?
  }

  /** update: owner or staff, else 403; then the serializer's validation, else 400. */
  function PlaylistUpdateOutcome(ps: map<nat, Playlist>, u: Requester, pk: nat,
                                 name: Option<string>, description: Option<string>): Status {
    var c := PlaylistLookup(ps, u, pk);
    if c != Done then c
    else if ps[pk].owner != u.id && !u.isStaff then Forbidden
    else if !PlaylistFieldsValid(name, description) then BadRequest
    else Done
  }

  /**
   * destroy: owner or staff; for anyone else the view names a status constant
   * DRF does not define, so the refusal is an AttributeError, not a 403.
   */
  function PlaylistDestroyOutcome(ps: map<nat, Playlist>, u: Requester, pk: nat): Status {
    var c := PlaylistLookup(ps, u, pk);
    if c != Done then c
    else if ps[pk].owner != u.id && !u.isStaff then ServerError
    else Done
  }

  /** A `movie_id` that is absent or falsy. */
  predicate MissingMovieId(movieId: Option<int>) {
    movieId.None? || movieId.value == 0
  }

  /** add_movie and remove_movie: owner only (no staff exception), then `movie_id`, then the movie lookup. */
  function MembershipOutcome(ps: map<nat, Playlist>, movies: set<nat>, u: Requester, pk: nat, movieId: Option<int>): Status {
    var c := PlaylistLookup(ps, u, pk);
    if c != Done then c
    else if ps[pk].owner != u.id then Forbidden
    else if MissingMovieId(movieId) then BadRequest
    else if movieId.value < 0 || movieId.value as nat !in movies then NotFound
    else Done
  }

  /**
   * For a playlist the member can see, destroy proceeds exactly for its owner
   * or staff. Update does too, provided a name is sent that is non-blank and
   * at most 200 characters once stripped, and any description sent is at
   * most 500 characters once stripped.
   */
  lemma PlaylistChangeRule(ps: map<nat, Playlist>, u: Requester, pk: nat, name: Option<string>, description: Option<string>)
    requires u.Member? && pk in ps && IsAccessibleBy(ps[pk], u)
    ensures PlaylistUpdateOutcome(ps, u, pk, name, description) == Done <==>
      && MayChangePlaylist(ps[pk], u)
      && name.Some? && Text.Strip(name.value) != "" && |Text.Strip(name.value)| <= Serializers.PlaylistNameField.maxLength
      && (description.Some? ==> |Text.Strip(description.value)| <= Serializers.DescriptionField.maxLength)
    ensures PlaylistDestroyOutcome(ps, u, pk) == Done <==> MayChangePlaylist(ps[pk], u)
    ensures !MayChangePlaylist(ps[pk], u) ==> PlaylistUpdateOutcome(ps, u, pk, name, description) == Forbidden
    ensures MayChangePlaylist(ps[pk], u) && (name.None? || Text.AllSpace(name.value))
      ==> PlaylistUpdateOutcome(ps, u, pk, name, description) == BadRequest
    ensures !MayChangePlaylist(ps[pk], u) ==> PlaylistDestroyOutcome(ps, u, pk) == ServerError
  {
  }

  /** The staff exception stops at the queryset: another user's private playlist is not found, even for staff. */
  lemma PrivatePlaylistHidden(ps: map<nat, Playlist>, u: Requester, pk: nat, movies: set<nat>, movieId: Option<int>,
                              name: Option<string>, description: Option<string>)
    requires u.Member? && pk in ps && ps[pk].visibility == Private && ps[pk].owner != u.id
    ensures PlaylistUpdateOutcome(ps, u, pk, name, description) == NotFound
    ensures PlaylistDestroyOutcome(ps, u, pk) == NotFound
    ensures MembershipOutcome(ps, movies, u, pk, movieId) == NotFound
  {
  }

  /** Membership changes succeed only for the owner, and only for a movie that exists. */
  lemma MembershipRule(ps: map<nat, Playlist>, movies: set<nat>, u: Requester, pk: nat, movieId: Option<int>)
    ensures MembershipOutcome(ps, movies, u, pk, movieId) == Done <==>
      && pk in ps && IsOwner(ps[pk], u)
      && movieId.Some? && movieId.value > 0 && movieId.value as nat in movies
    ensures u.Member? && u.isStaff && pk in ps && ps[pk].visibility == Public && ps[pk].owner != u.id
      ==> MembershipOutcome(ps, movies, u, pk, movieId) == Forbidden
  {
  }

  /** The playlist table and the ids of the movie table. */
  class PlaylistTable {
    var playlists: map<nat, Playlist>
    var movies: set<nat>

    constructor(playlists: map<nat, Playlist>, movies: set<nat>)
      ensures this.playlists == playlists && this.movies == movies
    {
      this.playlists := playlists;
      this.movies := movies;
    }

    /** The playlist with a new name, and a new description and visibility when they were sent. */
    static function Edited(p: Playlist, name: string, description: Option<string>, visibility: Option<Visibility>): (r: Playlist)
      ensures r.name == name
      ensures r.description == if description.Some? then description.value else p.description
      ensures r.visibility == if visibility.Some? then visibility.value else p.visibility
      ensures r.id == p.id && r.owner == p.owner && r.movies == p.movies
    {
      p.(name := name, description := description.GetOr(p.description), visibility := visibility.GetOr(p.visibility))
    }

    /**
     * update of the name, description and visibility: the name is required,
     * the other two keep their stored values when not sent, and the texts
     * are stored stripped.
     */
    method Update(u: Requester, pk: nat, name: Option<string>, description: Option<string>, visibility: Option<Visibility>)
      returns (st: Status)
      modifies this
      ensures st == PlaylistUpdateOutcome(old(playlists), u, pk, name, description)
      ensures movies == old(movies)
      ensures st != Done ==> playlists == old(playlists)
      ensures st == Done ==>
        playlists == old(playlists)[pk := Edited(old(playlists)[pk], Text.Strip(name.value),
                                                 Serializers.CleanText(Serializers.DescriptionField, description).value, visibility)]
    {
      st := PlaylistUpdateOutcome(playlists, u, pk, name, description);
      if st == Done {
        var cleanName := Serializers.CleanText(Serializers.PlaylistNameField, name).value.value;
        var cleanDescription := Serializers.CleanText(Serializers.DescriptionField, description).value;
        var p := playlists[pk];
        playlists := playlists[pk := p.(name := cleanName, description := cleanDescription.GetOr(p.description),
                                        visibility := visibility.GetOr(p.visibility))];
      }
    }

    method Destroy(u: Requester, pk: nat) returns (st: Status)
      modifies this
      ensures st == PlaylistDestroyOutcome(old(playlists), u, pk)
      ensures movies == old(movies)
      ensures st != Done ==> playlists == old(playlists)
      ensures st == Done ==> playlists == old(playlists) - {pk}
    {
      st := PlaylistDestroyOutcome(playlists, u, pk);
      if st == Done {
        playlists := playlists - {pk};
      }
    }

    /** add_movie: `playlist.movies.add(movie)`; other playlists and other members are unchanged. */
    method AddMovie(u: Requester, pk: nat, movieId: Option<int>) returns (st: Status)
      modifies this
      ensures st == MembershipOutcome(old(playlists), movies, u, pk, movieId)
      ensures movies == old(movies)
      ensures st != Done ==> playlists == old(playlists)
      ensures st == Done ==> pk in old(playlists) && movieId.Some? && movieId.value > 0
      ensures st == Done ==>
        playlists == old(playlists)[pk := old(playlists)[pk].(movies := old(playlists)[pk].movies + {movieId.value as nat})]
    {
      st := MembershipOutcome(playlists, movies, u, pk, movieId);
      if st == Done {
        var p := playlists[pk];
        playlists := playlists[pk := p.(movies := p.movies + {movieId.value as nat})];
      }
    }

    /** remove_movie: `playlist.movies.remove(movie)`; removing a non-member changes nothing. */
    method RemoveMovie(u: Requester, pk: nat, movieId: Option<int>) returns (st: Status)
      modifies this
      ensures st == MembershipOutcome(old(playlists), movies, u, pk, movieId)
      ensures movies == old(movies)
      ensures st != Done ==> playlists == old(playlists)
      ensures st == Done ==> pk in old(playlists) && movieId.Some? && movieId.value > 0
      ensures st == Done ==>
        playlists == old(playlists)[pk := old(playlists)[pk].(movies := old(playlists)[pk].movies - {movieId.value as nat})]
    {
      st := MembershipOutcome(playlists, movies, u, pk, movieId);
      if st == Done {
        var p := playlists[pk];
        playlists := playlists[pk := p.(movies := p.movies - {movieId.value as nat})];
      }
    }
  }

  /** Adding a movie raises `movie_count` by one unless it was already there; removing lowers it the same way. */
  lemma MovieCountAfterMembership(p: Playlist, id: nat)
    ensures MovieCount(p.(movies := p.movies + {id})) == MovieCount(p) + (if id in p.movies then 0 else 1)
    ensures MovieCount(p.(movies := p.movies - {id})) == MovieCount(p) - (if id in p.movies then 1 else 0)
  {
    if id in p.movies {
      assert p.movies + {id} == p.movies;
      assert |p.movies| == |p.movies - {id}| + 1 by {
        assert p.movies == (p.movies - {id}) + {id};
      }
    } else {
      assert p.movies - {id} == p.movies;
    }
  }

  /** Adding then removing the same movie leaves the playlist as it was when the movie was not a member. */
  lemma AddThenRemove(p: Playlist, id: nat)
    requires id !in p.movies
    ensures (p.movies + {id}) - {id} == p.movies
  {
  }
}
