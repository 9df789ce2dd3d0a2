/**
 * The application-level cache helpers (apps/movies_api/cache.py): a key
 * generator that keeps None arguments, a `cached_query` decorator and a
 * `get_or_set` working on raw keys, and pattern invalidation that puts the
 * hard-coded "nexus_movie:" in front of every pattern.
 */
module AppCache {
  import opened Text
  import opened KeyArgs
  import opened CacheStore
  import RootCache

  /** The prefix invalidate_pattern writes in front of every pattern. */
  const RedisPrefix: string := "nexus_movie:"

  /** It is the same text the project-level helpers namespace keys with. */
  lemma RedisPrefixIsNamespace()
    ensures RedisPrefix == RootCache.Namespace
  {
  }

  // ---------------------------------------------------------------------------
  // cache_key_generator: every positional argument counts, None included
  // ---------------------------------------------------------------------------

  /** `[str(arg) for arg in args]`. */
  function AllPositionalParts(args: seq<Arg>): (r: seq<string>)
    ensures |r| == |args|
    ensures forall i | 0 <= i < |args| :: r[i] == Str(args[i])
  {
    if args == [] then [] else [Str(args[0])] + AllPositionalParts(args[1..])
  }

  function AppKeyString(args: seq<Arg>, kwargs: seq<(string, Arg)>): string {
    Join(AllPositionalParts(args) + KwargParts(kwargs), ":")
  }

  function AppCacheKeyGenerator(md5: string -> string, args: seq<Arg>, kwargs: seq<(string, Arg)>): string {
    md5(AppKeyString(args, kwargs))
  }

  /**
   * A lone None argument: the project-level generator drops it and hashes the
   * same text as for no arguments, this one hashes the text "None".
   */
  lemma NoneArgKept()
    ensures RootCache.KeyString([NoneArg], []) == RootCache.KeyString([], [])
    ensures AppKeyString([NoneArg], []) == "None"
    ensures AppKeyString([], []) == ""
  {
    assert [NoneArg][1..] == [];
    assert RootCache.PositionalParts([NoneArg]) == [];
    assert AllPositionalParts([NoneArg]) == ["None"];
    assert KwargParts([]) == [];
  }

  /** The order in which keyword arguments are passed does not change the key. */
  lemma AppKwargsOrderIgnored(md5: string -> string, args: seq<Arg>, ka: seq<(string, Arg)>, kb: seq<(string, Arg)>)
    requires DistinctNames(ka) && DistinctNames(kb)
    requires multiset(ka) == multiset(kb)
    ensures AppCacheKeyGenerator(md5, args, ka) == AppCacheKeyGenerator(md5, args, kb)
  {
    KwargPartsIgnoreOrder(ka, kb);
  }

  // ---------------------------------------------------------------------------
  // cached_query and get_or_set, on raw keys
  // ---------------------------------------------------------------------------

  /** "<key_prefix>:<function name>:<hash>", with no namespace. */
  function AppCachedQueryKey(md5: string -> string, keyPrefix: string, funcName: string, args: seq<Arg>,
                             kwargs: seq<(string, Arg)>): (r: string)
    ensures keyPrefix + ":" <= r
  {
    keyPrefix + ":" + funcName + ":" + AppCacheKeyGenerator(md5, args, kwargs)
  }

  /** A `cached_query`-wrapped call; `result` is what the function would return. */
  method AppCachedQueryCall(s: Store, md5: string -> string, keyPrefix: string, funcName: string, args: seq<Arg>,
                            kwargs: seq<(string, Arg)>, result: Value)
    returns (v: Value, invoked: bool)
    modifies s
    ensures s.reachable == old(s.reachable)
    ensures var key := AppCachedQueryKey(md5, keyPrefix, funcName, args, kwargs);
      && (invoked <==> old(s.Lookup(key)) == Null)
      && (!invoked ==> v == old(s.Lookup(key)) && s.entries == old(s.entries))
      && (invoked ==> v == result && s.entries == old(s.entries)[key := result])
  {
    var key := AppCachedQueryKey(md5, keyPrefix, funcName, args, kwargs);
    v, invoked := s.GetOrCompute(key, result);
  }

  /**
   * Two calls with the same arguments: once the first has stored a non-None
   * result, the second returns it without running the function.
   */
  method RepeatedQuery(s: Store, md5: string -> string, keyPrefix: string, funcName: string, args: seq<Arg>,
                       kwargs: seq<(string, Arg)>, first: Value, second: Value)
    returns (v1: Value, v2: Value, invoked2: bool)
    requires first != Null
    modifies s
    ensures !invoked2 && v2 == v1
    ensures v1 == first || v1 == old(s.Lookup(AppCachedQueryKey(md5, keyPrefix, funcName, args, kwargs)))
  {
    var invoked1;
    v1, invoked1 := AppCachedQueryCall(s, md5, keyPrefix, funcName, args, kwargs, first);
    v2, invoked2 := AppCachedQueryCall(s, md5, keyPrefix, funcName, args, kwargs, second);
  }

  /** get_or_set: the raw key, no prefix; a stored None counts as a miss. */
  method AppGetOrSet(s: Store, key: string, computed: Value) returns (v: Value, invoked: bool)
    modifies s
    ensures s.reachable == old(s.reachable)
    ensures invoked <==> old(s.Lookup(key)) == Null
    ensures !invoked ==> v == old(s.Lookup(key)) && s.entries == old(s.entries)
    ensures invoked ==> v == computed && s.entries == old(s.entries)[key := computed]
  {
    v, invoked := s.GetOrCompute(key, computed);
  }

  /** A second get_or_set after a miss returns the first value and does not call the new callback. */
  method GetOrSetTwice(s: Store, key: string, first: Value, second: Value)
    returns (v1: Value, v2: Value, invoked1: bool, invoked2: bool)
    requires first != Null
    modifies s
    ensures invoked1 <==> old(s.Lookup(key)) == Null
    ensures invoked1 ==> v1 == first
    ensures !invoked2 && v2 == v1
  {
    v1, invoked1 := AppGetOrSet(s, key, first);
    v2, invoked2 := AppGetOrSet(s, key, second);
  }

  // ---------------------------------------------------------------------------
  // CacheManager invalidation
  // ---------------------------------------------------------------------------

  /** The glob Redis receives for a pattern: the hard-coded prefix, then the pattern. */
  function AppGlob(pattern: string): Glob {
    ParseGlob(RedisPrefix + pattern)
  }

  function AppGlobs(patterns: seq<string>): (gs: seq<Glob>)
    ensures |gs| == |patterns|
    ensures forall i | 0 <= i < |gs| :: gs[i] == AppGlob(patterns[i])
  {
    if patterns == [] then [] else [AppGlob(patterns[0])] + AppGlobs(patterns[1..])
  }

  /** invalidate_pattern: delete what "nexus_movie:" + pattern matches and count it; 0 on an error. */
  method AppInvalidatePattern(s: Store, pattern: string) returns (n: nat)
    modifies s
    ensures s.reachable == old(s.reachable)
    ensures old(s.reachable) ==>
      var g := AppGlob(pattern);
      s.entries == Keep(old(s.entries), [g]) && n == |set k | k in old(s.entries) && Matches(g, k)|
    ensures !old(s.reachable) ==> s.entries == old(s.entries) && n == 0
  {
    n := s.DeleteMatching(AppGlob(pattern));
  }

  /** The four patterns of invalidate_movie, in order. */
  function AppMoviePatterns(id: int): seq<string> {
    var i := IntToString(id);
    [Wild("movie:" + i + ":"), "movie_detail:" + i, Wild("movie_list:"), Wild("recommendations:")]
  }

  /** The three patterns of invalidate_user_cache, in order. */
  function AppUserPatterns(id: int): seq<string> {
    var i := IntToString(id);
    [Wild("user:" + i + ":"), "recommendations:user:" + i, "ratings:user:" + i]
  }

  /**
   * invalidate_movie: the four patterns, one deletion each, in order; the total
   * is the number of keys deleted. Without a connection nothing changes.
   */
  method AppInvalidateMovie(s: Store, id: int) returns (total: nat)
    modifies s
    ensures s.reachable == old(s.reachable)
    ensures old(s.reachable) ==>
      s.entries == Keep(old(s.entries), AppGlobs(AppMoviePatterns(id)))
      && total == |old(s.entries).Keys| - |s.entries.Keys|
    ensures !old(s.reachable) ==> s.entries == old(s.entries) && total == 0
  {
    total := s.DeleteEach(AppGlobs(AppMoviePatterns(id)));
  }

  /** invalidate_user_cache: the same for the three user patterns. */
  method AppInvalidateUserCache(s: Store, id: int) returns (total: nat)
    modifies s
    ensures s.reachable == old(s.reachable)
    ensures old(s.reachable) ==>
      s.entries == Keep(old(s.entries), AppGlobs(AppUserPatterns(id)))
      && total == |old(s.entries).Keys| - |s.entries.Keys|
    ensures !old(s.reachable) ==> s.entries == old(s.entries) && total == 0
  {
    total := s.DeleteEach(AppGlobs(AppUserPatterns(id)));
  }

  // ---------------------------------------------------------------------------
  // CacheKeys
  // ---------------------------------------------------------------------------

  function AppMovieDetailKey(id: int): string { "movie:detail:" + IntToString(id) }
  function AppMovieListKey(filtersHash: string): string { "movie:list:" + filtersHash }
  function AppRecommendationsKey(userId: int): string { "recommendations:user:" + IntToString(userId) }
  function UserRatingsKey(userId: int): string { "ratings:user:" + IntToString(userId) }
  function TrendingMoviesKey(): string { "movies:trending" }
  function TopRatedMoviesKey(): string { "movies:top_rated" }

  // ---------------------------------------------------------------------------
  // Which keys an invalidation reaches
  // ---------------------------------------------------------------------------

  lemma AppPrefixGlob(stem: string)
    ensures AppGlob(Wild(stem)) == Prefix(RedisPrefix + stem)
  {
    var f := RedisPrefix + (stem + "*");
    assert f[|f| - 1] == '*';
    assert f[..|f| - 1] == RedisPrefix + stem;
  }

  lemma AppNumberedGlob(stem: string, i: string)
    requires |i| > 0 && IsDigit(i[|i| - 1])
    ensures AppGlob(stem + i) == Exact(RedisPrefix + (stem + i))
  {
    var f := RedisPrefix + (stem + i);
    assert f[|f| - 1] == i[|i| - 1];
  }

  lemma AppMovieGlobsAre(id: int)
    ensures var gs, i := AppGlobs(AppMoviePatterns(id)), IntToString(id);
      && |gs| == 4
      && gs[0] == Prefix(RedisPrefix + ("movie:" + i + ":"))
      && gs[1] == Exact(RedisPrefix + ("movie_detail:" + i))
      && gs[2] == Prefix(RedisPrefix + "movie_list:")
      && gs[3] == Prefix(RedisPrefix + "recommendations:")
  {
    var i := IntToString(id);
    AppPrefixGlob("movie:" + i + ":");
    AppNumberedGlob("movie_detail:", i);
    AppPrefixGlob("movie_list:");
    AppPrefixGlob("recommendations:");
  }

  lemma AppUserGlobsAre(id: int)
    ensures var gs, i := AppGlobs(AppUserPatterns(id)), IntToString(id);
      && |gs| == 3
      && gs[0] == Prefix(RedisPrefix + ("user:" + i + ":"))
      && gs[1] == Exact(RedisPrefix + ("recommendations:user:" + i))
      && gs[2] == Exact(RedisPrefix + ("ratings:user:" + i))
  {
    var i := IntToString(id);
    AppPrefixGlob("user:" + i + ":");
    AppNumberedGlob("recommendations:user:", i);
    AppNumberedGlob("ratings:user:", i);
  }

  /** The keys invalidate_movie reaches for a movie whose id renders as `i`. */
  predicate AppMovieHit(i: string, k: string) {
    || RedisPrefix + ("movie:" + i + ":") <= k
    || k == RedisPrefix + ("movie_detail:" + i)
    || RedisPrefix + "movie_list:" <= k
    || RedisPrefix + "recommendations:" <= k
  }

  /** The keys invalidate_user_cache reaches for a user whose id renders as `i`. */
  predicate AppUserHit(i: string, k: string) {
    || RedisPrefix + ("user:" + i + ":") <= k
    || k == RedisPrefix + ("recommendations:user:" + i)
    || k == RedisPrefix + ("ratings:user:" + i)
  }

  /** invalidate_movie deletes exactly the keys `AppMovieHit` names. */
  lemma AppMovieInvalidationReach(id: int, k: string)
    ensures MatchesAny(AppGlobs(AppMoviePatterns(id)), k) <==> AppMovieHit(IntToString(id), k)
  {
    AppMovieGlobsAre(id);
    MatchesAnyOfFour(AppGlobs(AppMoviePatterns(id)), k);
  }

  /** invalidate_user_cache deletes exactly the keys `AppUserHit` names. */
  lemma AppUserInvalidationReach(id: int, k: string)
    ensures MatchesAny(AppGlobs(AppUserPatterns(id)), k) <==> AppUserHit(IntToString(id), k)
  {
    AppUserGlobsAre(id);
    MatchesAnyOfThree(AppGlobs(AppUserPatterns(id)), k);
  }

  /** Every key either invalidation reaches starts with "nexus_movie:". */
  lemma ReachedKeysArePrefixed(movieId: int, userId: int, k: string)
    requires MatchesAny(AppGlobs(AppMoviePatterns(movieId)), k) || MatchesAny(AppGlobs(AppUserPatterns(userId)), k)
    ensures RedisPrefix <= k
  {
    AppMovieInvalidationReach(movieId, k);
    AppUserInvalidationReach(userId, k);
  }

  /**
   * get_or_set and cached_query store their raw keys, which never start with
   * "nexus_movie:" when built from CacheKeys: no invalidation ever removes them.
   */
  lemma RawDetailKeySurvives(movieId: int, id: int, userId: int)
    ensures !MatchesAny(AppGlobs(AppMoviePatterns(id)), AppMovieDetailKey(movieId))
    ensures !MatchesAny(AppGlobs(AppUserPatterns(userId)), AppMovieDetailKey(movieId))
  {
    var k := AppMovieDetailKey(movieId);
    Mismatch(RedisPrefix, k, 0);
    if MatchesAny(AppGlobs(AppMoviePatterns(id)), k) || MatchesAny(AppGlobs(AppUserPatterns(userId)), k) {
      ReachedKeysArePrefixed(id, userId, k);
    }
  }

  /** Even with the prefix in front, a movie's detail key "movie:detail:<id>" escapes invalidate_movie. */
  lemma PrefixedDetailKeySurvives(id: int)
    ensures !MatchesAny(AppGlobs(AppMoviePatterns(id)), RedisPrefix + AppMovieDetailKey(id))
  {
    var i := IntToString(id);
    var k := RedisPrefix + AppMovieDetailKey(id);
    IntStart(id);
    Mismatch(RedisPrefix + ("movie:" + i + ":"), k, 18);
    Mismatch(RedisPrefix + ("movie_detail:" + i), k, 17);
    Mismatch(RedisPrefix + "movie_list:", k, 17);
    Mismatch(RedisPrefix + "recommendations:", k, 12);
    AppMovieInvalidationReach(id, k);
  }

  /** The prefixed movie list and listing keys escape invalidate_movie too. */
  lemma PrefixedListingKeysSurvive(id: int, filtersHash: string)
    ensures var gs := AppGlobs(AppMoviePatterns(id));
      && !MatchesAny(gs, RedisPrefix + AppMovieListKey(filtersHash))
      && !MatchesAny(gs, RedisPrefix + TrendingMoviesKey())
      && !MatchesAny(gs, RedisPrefix + TopRatedMoviesKey())
  {
    var i := IntToString(id);
    IntStart(id);
    var l, tr, top := RedisPrefix + AppMovieListKey(filtersHash), RedisPrefix + TrendingMoviesKey(),
                      RedisPrefix + TopRatedMoviesKey();
    Mismatch(RedisPrefix + ("movie:" + i + ":"), l, 18);
    Mismatch(RedisPrefix + ("movie_detail:" + i), l, 17);
    Mismatch(RedisPrefix + "movie_list:", l, 17);
    Mismatch(RedisPrefix + "recommendations:", l, 12);
    Mismatch(RedisPrefix + ("movie:" + i + ":"), tr, 17);
    Mismatch(RedisPrefix + ("movie_detail:" + i), tr, 17);
    Mismatch(RedisPrefix + "movie_list:", tr, 17);
    Mismatch(RedisPrefix + "recommendations:", tr, 12);
    Mismatch(RedisPrefix + ("movie:" + i + ":"), top, 17);
    Mismatch(RedisPrefix + ("movie_detail:" + i), top, 17);
    Mismatch(RedisPrefix + "movie_list:", top, 17);
    Mismatch(RedisPrefix + "recommendations:", top, 12);
    AppMovieInvalidationReach(id, l);
    AppMovieInvalidationReach(id, tr);
    AppMovieInvalidationReach(id, top);
  }

  /** invalidate_movie reaches the movie's "movie_detail:<id>" key, its "movie:<id>:" keys and all recommendations. */
  lemma AppMovieKeysDeleted(id: int, userId: int, suffix: string)
    ensures var gs, i := AppGlobs(AppMoviePatterns(id)), IntToString(id);
      && MatchesAny(gs, RedisPrefix + ("movie_detail:" + i))
      && MatchesAny(gs, RedisPrefix + ("movie:" + i + ":") + suffix)
      && MatchesAny(gs, RedisPrefix + AppRecommendationsKey(userId))
  {
    var i := IntToString(id);
    PrefixExtends(RedisPrefix, "recommendations:", AppRecommendationsKey(userId));
    AppMovieInvalidationReach(id, RedisPrefix + ("movie_detail:" + i));
    AppMovieInvalidationReach(id, RedisPrefix + ("movie:" + i + ":") + suffix);
    AppMovieInvalidationReach(id, RedisPrefix + AppRecommendationsKey(userId));
  }

  /** invalidate_user_cache reaches the user's prefixed recommendations and ratings keys. */
  lemma AppUserKeysDeleted(id: int, suffix: string)
    ensures var gs, i := AppGlobs(AppUserPatterns(id)), IntToString(id);
      && MatchesAny(gs, RedisPrefix + AppRecommendationsKey(id))
      && MatchesAny(gs, RedisPrefix + UserRatingsKey(id))
      && MatchesAny(gs, RedisPrefix + ("user:" + i + ":") + suffix)
  {
    AppUserInvalidationReach(id, RedisPrefix + AppRecommendationsKey(id));
    AppUserInvalidationReach(id, RedisPrefix + UserRatingsKey(id));
    AppUserInvalidationReach(id, RedisPrefix + ("user:" + IntToString(id) + ":") + suffix);
  }

  /** Unlike the project-level invalidate_user, this one leaves the user's playlist key alone. */
  lemma PlaylistKeySurvivesUserInvalidation(id: int)
    ensures !MatchesAny(AppGlobs(AppUserPatterns(id)), RedisPrefix + ("playlist:user:" + IntToString(id)))
  {
    var i := IntToString(id);
    var k := RedisPrefix + ("playlist:user:" + i);
    Mismatch(RedisPrefix + ("user:" + i + ":"), k, 12);
    Mismatch(RedisPrefix + ("recommendations:user:" + i), k, 12);
    Mismatch(RedisPrefix + ("ratings:user:" + i), k, 12);
    AppUserInvalidationReach(id, k);
  }
}
