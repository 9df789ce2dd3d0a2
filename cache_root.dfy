/**
 * The project-level cache helpers (Movie-Recommendation-BE/cache.py): keys
 * namespaced under KEY_PREFIX, argument hashing, the caching decorators,
 * pattern invalidation, key builders, tag sets and counters.
 *
 * Keys are stored exactly as this module hands them to the cache; the hash
 * function is a parameter.
 */
module RootCache {
  import opened Wrappers
  import opened Text
  import opened KeyArgs
  import opened CacheStore

  /** The default KEY_PREFIX. */
  const KeyPrefix: string := "nexus_movie"

  /** What every full key starts with. */
  const Namespace: string := KeyPrefix + ":"

  // ---------------------------------------------------------------------------
  // make_full_key
  // ---------------------------------------------------------------------------

  /**
   * A full key starts with the namespace; a key that already has it is left
   * alone, any other gets it in front.
   */
  function MakeFullKey(k: string): (r: string)
    ensures Namespace <= r
    ensures Namespace <= k <==> r == k
    ensures !(Namespace <= k) ==> r[|Namespace|..] == k
  {
    if Namespace <= k then k else Namespace + k
  }

  lemma MakeFullKeyIdempotent(k: string)
    ensures MakeFullKey(MakeFullKey(k)) == MakeFullKey(k)
  {
  }

  /** A bare key and the same key already namespaced address the same entry. */
  lemma MakeFullKeyMerges(k: string)
    ensures MakeFullKey(Namespace + k) == MakeFullKey(k) <==> !(Namespace <= k)
  {
    assert Namespace <= Namespace + k;
    if Namespace <= k {
      assert |Namespace + k| != |k|;
    }
  }

  /** A key that does not start with 'n' gets the namespace prepended. */
  lemma FullKeyOfBare(k: string)
    requires |k| > 0 && k[0] != 'n'
    ensures MakeFullKey(k) == Namespace + k
  {
    assert Namespace[0] == 'n';
  }

  // ---------------------------------------------------------------------------
  // cache_key_generator: None positional arguments are skipped
  // ---------------------------------------------------------------------------

  /** `[str(arg) for arg in args if arg is not None]`. */
  function PositionalParts(args: seq<Arg>): (r: seq<string>)
    ensures |r| <= |args|
  {
    if args == [] then []
    else (if args[0].NoneArg? then [] else [Str(args[0])]) + PositionalParts(args[1..])
  }

  function KeyString(args: seq<Arg>, kwargs: seq<(string, Arg)>): string {
    Join(PositionalParts(args) + KwargParts(kwargs), ":")
  }

  function CacheKeyGenerator(md5: string -> string, args: seq<Arg>, kwargs: seq<(string, Arg)>): string {
    md5(KeyString(args, kwargs))
  }

  lemma {:induction false} PositionalPartsConcat(a: seq<Arg>, b: seq<Arg>)
    ensures PositionalParts(a + b) == PositionalParts(a) + PositionalParts(b)
    decreases |a|
  {
    if a == [] {
      assert a + b == b;
    } else {
      assert (a + b)[0] == a[0];
      assert (a + b)[1..] == a[1..] + b;
      PositionalPartsConcat(a[1..], b);
    }
  }

  /** A None positional argument, wherever it appears, does not change the key. */
  lemma NoneArgIgnored(md5: string -> string, a: seq<Arg>, b: seq<Arg>, kwargs: seq<(string, Arg)>)
    ensures CacheKeyGenerator(md5, a + [NoneArg] + b, kwargs) == CacheKeyGenerator(md5, a + b, kwargs)
  {
    PositionalPartsConcat(a + [NoneArg], b);
    PositionalPartsConcat(a, [NoneArg]);
    PositionalPartsConcat(a, b);
    assert [NoneArg][1..] == [];
    assert PositionalParts([NoneArg]) == [];
    assert PositionalParts(a + [NoneArg] + b) == PositionalParts(a + b);
  }

  /** The order in which keyword arguments are passed does not change the key. */
  lemma KwargsOrderIgnored(md5: string -> string, args: seq<Arg>, ka: seq<(string, Arg)>, kb: seq<(string, Arg)>)
    requires DistinctNames(ka) && DistinctNames(kb)
    requires multiset(ka) == multiset(kb)
    ensures CacheKeyGenerator(md5, args, ka) == CacheKeyGenerator(md5, args, kb)
  {
    KwargPartsIgnoreOrder(ka, kb);
  }

  // ---------------------------------------------------------------------------
  // cached_view and cached_query keys, and the decorated call
  // ---------------------------------------------------------------------------

  /** The view key's parts before the optional user part. */
  function ViewParts(md5: string -> string, keyPrefix: string, funcName: string, args: seq<Arg>,
                     kwargs: seq<(string, Arg)>, query: seq<(string, Arg)>): seq<string>
  {
    [keyPrefix, funcName, CacheKeyGenerator(md5, args, kwargs), CacheKeyGenerator(md5, [], query)]
  }

  predicate EndsWith(s: string, tail: string) {
    |tail| <= |s| && s[|s| - |tail|..] == tail
  }

  lemma FullKeyKeepsEnding(k: string, tail: string)
    requires EndsWith(k, tail)
    ensures EndsWith(MakeFullKey(k), tail)
  {
    if !(Namespace <= k) {
      var r := Namespace + k;
      assert r[|r| - |tail|..] == k[|k| - |tail|..];
    }
  }

  lemma JoinEndsWith(base: seq<string>, u: string)
    requires |base| > 0
    ensures EndsWith(Join(base + [u], ":"), ":" + u)
  {
    JoinSnoc(base, u, ":");
    EndsWithSeparated(Join(base, ":"), u);
  }

  lemma EndsWithSeparated(j: string, u: string)
    ensures EndsWith(j + ":" + u, ":" + u)
  {
    var t := ":" + u;
    assert j + ":" + u == j + t;
    assert (j + t)[|j|..] == t;
  }

  /** The ":user:<id>" part an authenticated request adds. */
  function UserPart(id: nat): string {
    ":user:" + NatToString(id)
  }

  /** Joins the parts, adds the user part when there is one, and namespaces the result. */
  function ViewKeyOf(base: seq<string>, user: Option<nat>): (r: string)
    requires |base| > 0
    ensures Namespace <= r
    ensures user.Some? ==> EndsWith(r, UserPart(user.value))
  {
    if user.Some? then
      var u := "user:" + NatToString(user.value);
      assert ":" + u == UserPart(user.value);
      JoinEndsWith(base, u);
      FullKeyKeepsEnding(Join(base + [u], ":"), ":" + u);
      MakeFullKey(Join(base + [u], ":"))
    else MakeFullKey(Join(base, ":"))
  }

  /** The view key: namespaced, and ending in ":user:<id>" for an authenticated request. */
  function CachedViewKey(md5: string -> string, keyPrefix: string, funcName: string, args: seq<Arg>,
                         kwargs: seq<(string, Arg)>, query: seq<(string, Arg)>, user: Option<nat>): (r: string)
    ensures Namespace <= r
    ensures user.Some? ==> EndsWith(r, UserPart(user.value))
  {
    ViewKeyOf(ViewParts(md5, keyPrefix, funcName, args, kwargs, query), user)
  }

  /** The order of the query-string parameters does not change the view key. */
  lemma ViewKeyIgnoresQueryOrder(md5: string -> string, keyPrefix: string, funcName: string, args: seq<Arg>,
                                 kwargs: seq<(string, Arg)>, qa: seq<(string, Arg)>, qb: seq<(string, Arg)>,
                                 user: Option<nat>)
    requires DistinctNames(qa) && DistinctNames(qb) && multiset(qa) == multiset(qb)
    ensures CachedViewKey(md5, keyPrefix, funcName, args, kwargs, qa, user)
         == CachedViewKey(md5, keyPrefix, funcName, args, kwargs, qb, user)
  {
    KwargsOrderIgnored(md5, [], qa, qb);
  }

  function CachedQueryKey(md5: string -> string, keyPrefix: string, funcName: string, args: seq<Arg>,
                          kwargs: seq<(string, Arg)>): (r: string)
    ensures Namespace <= r
  {
    MakeFullKey(keyPrefix + ":" + funcName + ":" + CacheKeyGenerator(md5, args, kwargs))
  }

  /** A `cached_view`-wrapped call; `response` is what the view would return. */
  method CachedViewCall(s: Store, md5: string -> string, keyPrefix: string, funcName: string, args: seq<Arg>,
                        kwargs: seq<(string, Arg)>, query: seq<(string, Arg)>, user: Option<nat>, response: Value)
    returns (v: Value, invoked: bool)
    modifies s
    ensures var key := CachedViewKey(md5, keyPrefix, funcName, args, kwargs, query, user);
      && (invoked <==> old(s.Lookup(key)) == Null)
      && (!invoked ==> v == old(s.Lookup(key)) && s.entries == old(s.entries))
      && (invoked ==> v == response && s.entries == old(s.entries)[key := response])
  {
    var key := CachedViewKey(md5, keyPrefix, funcName, args, kwargs, query, user);
    v, invoked := s.GetOrCompute(key, response);
  }

  /** A `cached_query`-wrapped call; `result` is what the function would return. */
  method CachedQueryCall(s: Store, md5: string -> string, keyPrefix: string, funcName: string, args: seq<Arg>,
                         kwargs: seq<(string, Arg)>, result: Value)
    returns (v: Value, invoked: bool)
    modifies s
    ensures var key := CachedQueryKey(md5, keyPrefix, funcName, args, kwargs);
      && (invoked <==> old(s.Lookup(key)) == Null)
      && (!invoked ==> v == old(s.Lookup(key)) && s.entries == old(s.entries))
      && (invoked ==> v == result && s.entries == old(s.entries)[key := result])
  {
    var key := CachedQueryKey(md5, keyPrefix, funcName, args, kwargs);
    v, invoked := s.GetOrCompute(key, result);
  }

  // ---------------------------------------------------------------------------
  // CacheManager
  // ---------------------------------------------------------------------------

  function PatternGlob(pattern: string, prefix: bool): Glob {
    ParseGlob(if prefix then MakeFullKey(pattern) else pattern)
  }

  /** invalidate_pattern: delete what the (by default namespaced) pattern matches and count it. */
  method InvalidatePattern(s: Store, pattern: string, prefix: bool) returns (n: nat)
    modifies s
    ensures s.reachable == old(s.reachable)
    ensures old(s.reachable) ==>
      var g := PatternGlob(pattern, prefix);
      s.entries == Keep(old(s.entries), [g]) && n == |set k | k in old(s.entries) && Matches(g, k)|
    ensures !old(s.reachable) ==> s.entries == old(s.entries) && n == 0
  {
    n := s.DeleteMatching(PatternGlob(pattern, prefix));
  }


  /** The patterns of invalidate_movie, in order. */
  function MoviePatterns(id: int): seq<string> {
    var i := IntToString(id);
    ["movie:detail:" + i, "movie:similar:" + i, "movie:avg_rating:" + i, Wild("movie:" + i + ":"),
     Wild("movie_list:"), Wild("recommendations:")]
  }

  /** The patterns of invalidate_user, in order. */
  function UserPatterns(id: int): seq<string> {
    var i := IntToString(id);
    [Wild("user:" + i + ":"), "recommendations:user:" + i, "playlist:user:" + i, "ratings:user:" + i]
  }

  function Globs(patterns: seq<string>): (gs: seq<Glob>)
    ensures |gs| == |patterns|
    ensures forall i | 0 <= i < |gs| :: gs[i] == PatternGlob(patterns[i], true)
  {
    if patterns == [] then [] else [PatternGlob(patterns[0], true)] + Globs(patterns[1..])
  }

  /**
   * invalidate_movie: every key matching one of the six namespaced patterns is
   * deleted, every other key is kept, and the total counts the deletions.
   */
  method InvalidateMovie(s: Store, id: int) returns (total: nat)
    modifies s
    ensures s.reachable == old(s.reachable)
    ensures old(s.reachable) ==>
      s.entries == Keep(old(s.entries), Globs(MoviePatterns(id)))
      && total == |old(s.entries).Keys| - |s.entries.Keys|
    ensures !old(s.reachable) ==> s.entries == old(s.entries) && total == 0
  {
    total := s.DeleteEach(Globs(MoviePatterns(id)));
  }

  /** invalidate_user: the same for the four user patterns. */
  method InvalidateUser(s: Store, id: int) returns (total: nat)
    modifies s
    ensures s.reachable == old(s.reachable)
    ensures old(s.reachable) ==>
      s.entries == Keep(old(s.entries), Globs(UserPatterns(id)))
      && total == |old(s.entries).Keys| - |s.entries.Keys|
    ensures !old(s.reachable) ==> s.entries == old(s.entries) && total == 0
  {
    total := s.DeleteEach(Globs(UserPatterns(id)));
  }

  /** get_or_set: under the full key, a stored None counts as a miss. */
  method GetOrSet(s: Store, key: string, computed: Value) returns (v: Value, invoked: bool)
    modifies s
    ensures var full := MakeFullKey(key);
      && (invoked <==> old(s.Lookup(full)) == Null)
      && (!invoked ==> v == old(s.Lookup(full)) && s.entries == old(s.entries))
      && (invoked ==> v == computed && s.entries == old(s.entries)[full := computed])
  {
    v, invoked := s.GetOrCompute(MakeFullKey(key), computed);
  }

  // ---------------------------------------------------------------------------
  // CacheKeys
  // ---------------------------------------------------------------------------

  function MovieDetailKey(id: int): string { "movie:detail:" + IntToString(id) }
  function MovieSimilarKey(id: int): string { "movie:similar:" + IntToString(id) }
  function RecommendationsKey(userId: int): string { "recommendations:user:" + IntToString(userId) }
  function MovieListKey(filtersHash: string): string { "movie:list:" + filtersHash }
  function GenreMoviesKey(genreId: int): string { "movie:genre:" + IntToString(genreId) }
  function TrendingKey(): string { "movie:trending" }
  function PopularKey(): string { "movie:popular" }

  // ---------------------------------------------------------------------------
  // Which keys an invalidation reaches
  // ---------------------------------------------------------------------------

  /** A bare key ending in a digit becomes the literal namespaced key. */
  lemma LiteralGlobOf(p: string)
    requires |p| > 0 && p[0] != 'n' && IsDigit(p[|p| - 1])
    ensures PatternGlob(p, true) == Exact(Namespace + p)
  {
    FullKeyOfBare(p);
    var f := Namespace + p;
    assert f[|f| - 1] == p[|p| - 1];
  }

  /** A bare pattern `stem*` becomes the namespaced prefix. */
  lemma PrefixGlobOf(stem: string)
    requires |stem| > 0 && stem[0] != 'n'
    ensures PatternGlob(Wild(stem), true) == Prefix(Namespace + stem)
  {
    FullKeyOfBare(stem + "*");
    var f := Namespace + (stem + "*");
    assert f[|f| - 1] == '*';
    assert f[..|f| - 1] == Namespace + stem;
  }

  /** A pattern naming one numbered key is that namespaced key. */
  lemma NumberedGlob(stem: string, i: string)
    requires |stem| > 0 && stem[0] != 'n'
    requires |i| > 0 && IsDigit(i[|i| - 1])
    ensures PatternGlob(stem + i, true) == Exact(Namespace + (stem + i))
  {
    var p := stem + i;
    assert p[|p| - 1] == i[|i| - 1];
    LiteralGlobOf(p);
  }

  lemma MovieLiteralGlobs(id: int)
    ensures var gs, i := Globs(MoviePatterns(id)), IntToString(id);
      && |gs| == 6
      && gs[0] == Exact(Namespace + ("movie:detail:" + i))
      && gs[1] == Exact(Namespace + ("movie:similar:" + i))
      && gs[2] == Exact(Namespace + ("movie:avg_rating:" + i))
  {
    var i := IntToString(id);
    NumberedGlob("movie:detail:", i);
    NumberedGlob("movie:similar:", i);
    NumberedGlob("movie:avg_rating:", i);
  }

  lemma MoviePrefixGlobs(id: int)
    ensures var gs, i := Globs(MoviePatterns(id)), IntToString(id);
      && |gs| == 6
      && gs[3] == Prefix(Namespace + ("movie:" + i + ":"))
      && gs[4] == Prefix(Namespace + "movie_list:")
      && gs[5] == Prefix(Namespace + "recommendations:")
  {
    var i := IntToString(id);
    PrefixGlobOf("movie:" + i + ":");
    PrefixGlobOf("movie_list:");
    PrefixGlobOf("recommendations:");
  }

  /** The six movie patterns as the globs Redis receives. */
  lemma MovieGlobsAre(id: int)
    ensures var gs, i := Globs(MoviePatterns(id)), IntToString(id);
      && |gs| == 6
      && gs[0] == Exact(Namespace + ("movie:detail:" + i))
      && gs[1] == Exact(Namespace + ("movie:similar:" + i))
      && gs[2] == Exact(Namespace + ("movie:avg_rating:" + i))
      && gs[3] == Prefix(Namespace + ("movie:" + i + ":"))
      && gs[4] == Prefix(Namespace + "movie_list:")
      && gs[5] == Prefix(Namespace + "recommendations:")
  {
    MovieLiteralGlobs(id);
    MoviePrefixGlobs(id);
  }

  lemma UserLiteralGlobs(id: int)
    ensures var gs, i := Globs(UserPatterns(id)), IntToString(id);
      && |gs| == 4
      && gs[1] == Exact(Namespace + ("recommendations:user:" + i))
      && gs[2] == Exact(Namespace + ("playlist:user:" + i))
      && gs[3] == Exact(Namespace + ("ratings:user:" + i))
  {
    var i := IntToString(id);
    NumberedGlob("recommendations:user:", i);
    NumberedGlob("playlist:user:", i);
    NumberedGlob("ratings:user:", i);
  }

  /** The four user patterns as the globs Redis receives. */
  lemma UserGlobsAre(id: int)
    ensures var gs, i := Globs(UserPatterns(id)), IntToString(id);
      && |gs| == 4
      && gs[0] == Prefix(Namespace + ("user:" + i + ":"))
      && gs[1] == Exact(Namespace + ("recommendations:user:" + i))
      && gs[2] == Exact(Namespace + ("playlist:user:" + i))
      && gs[3] == Exact(Namespace + ("ratings:user:" + i))
  {
    UserLiteralGlobs(id);
    PrefixGlobOf("user:" + IntToString(id) + ":");
  }





  /**
   * The keys invalidate_movie reaches for a movie whose id renders as `i`:
   * its detail, similar and average-rating keys, anything under its own
   * "movie:<id>:" prefix, and anything under "movie_list:" or "recommendations:".
   */
  predicate MovieHit(i: string, k: string) {
    || k == Namespace + ("movie:detail:" + i)
    || k == Namespace + ("movie:similar:" + i)
    || k == Namespace + ("movie:avg_rating:" + i)
    || Namespace + ("movie:" + i + ":") <= k
    || Namespace + "movie_list:" <= k
    || Namespace + "recommendations:" <= k
  }

  /** The keys invalidate_user reaches for a user whose id renders as `i`. */
  predicate UserHit(i: string, k: string) {
    || Namespace + ("user:" + i + ":") <= k
    || k == Namespace + ("recommendations:user:" + i)
    || k == Namespace + ("playlist:user:" + i)
    || k == Namespace + ("ratings:user:" + i)
  }



  /** invalidate_movie deletes exactly the keys `MovieHit` names. */
  lemma MovieInvalidationReach(id: int, k: string)
    ensures MatchesAny(Globs(MoviePatterns(id)), k) <==> MovieHit(IntToString(id), k)
  {
    MovieGlobsAre(id);
    var gs := Globs(MoviePatterns(id));
    MatchesAnyOfSix(gs, k);
  }

  /** invalidate_user deletes exactly the keys `UserHit` names. */
  lemma UserInvalidationReach(id: int, k: string)
    ensures MatchesAny(Globs(UserPatterns(id)), k) <==> UserHit(IntToString(id), k)
  {
    UserGlobsAre(id);
    var gs := Globs(UserPatterns(id));
    MatchesAnyOfFour(gs, k);
  }

  /**
   * A namespaced "movie:..." key whose third segment starts with a letter
   * other than 'd', 's' or 'a' is never a movie hit.
   */
  lemma MovieMissByShape(i: string, k: string)
    requires IdStart(i)
    requires |k| > 18 && k[12] == 'm' && k[17] == ':'
    requires k[18] != 'd' && k[18] != 's' && k[18] != 'a' && k[18] != '-' && !IsDigit(k[18])
    ensures !MovieHit(i, k)
  {
    Mismatch(Namespace + ("movie:detail:" + i), k, 18);
    Mismatch(Namespace + ("movie:similar:" + i), k, 18);
    Mismatch(Namespace + ("movie:avg_rating:" + i), k, 18);
    Mismatch(Namespace + ("movie:" + i + ":"), k, 18);
    Mismatch(Namespace + "movie_list:", k, 17);
    Mismatch(Namespace + "recommendations:", k, 12);
  }

  /** A movie list key, "movie:list:<hash>", is never reached by invalidate_movie. */
  lemma MovieListKeySurvives(id: int, filtersHash: string)
    ensures !MatchesAny(Globs(MoviePatterns(id)), MakeFullKey(MovieListKey(filtersHash)))
  {
    var k := MakeFullKey(MovieListKey(filtersHash));
    FullKeyOfBare(MovieListKey(filtersHash));
    assert k[12] == 'm' && k[17] == ':' && k[18] == 'l';
    IntStart(id);
    MovieMissByShape(IntToString(id), k);
    MovieInvalidationReach(id, k);
  }

  /** The genre, trending and popular listing keys survive invalidate_movie. */
  lemma ListingKeysSurvive(id: int, genreId: int)
    ensures var gs := Globs(MoviePatterns(id));
      && !MatchesAny(gs, MakeFullKey(GenreMoviesKey(genreId)))
      && !MatchesAny(gs, MakeFullKey(TrendingKey()))
      && !MatchesAny(gs, MakeFullKey(PopularKey()))
  {
    var i := IntToString(id);
    IntStart(id);
    var g, tr, po := MakeFullKey(GenreMoviesKey(genreId)), MakeFullKey(TrendingKey()), MakeFullKey(PopularKey());
    FullKeyOfBare(GenreMoviesKey(genreId));
    FullKeyOfBare(TrendingKey());
    FullKeyOfBare(PopularKey());
    assert g[12] == 'm' && g[17] == ':' && g[18] == 'g';
    assert tr[12] == 'm' && tr[17] == ':' && tr[18] == 't';
    assert po[12] == 'm' && po[17] == ':' && po[18] == 'p';
    MovieMissByShape(i, g);
    MovieMissByShape(i, tr);
    MovieMissByShape(i, po);
    MovieInvalidationReach(id, g);
    MovieInvalidationReach(id, tr);
    MovieInvalidationReach(id, po);
  }

  /** invalidate_movie reaches the movie's own detail and similar keys. */
  lemma MovieKeysDeleted(id: int)
    ensures var gs := Globs(MoviePatterns(id));
      && MatchesAny(gs, MakeFullKey(MovieDetailKey(id)))
      && MatchesAny(gs, MakeFullKey(MovieSimilarKey(id)))
  {
    FullKeyOfBare(MovieDetailKey(id));
    FullKeyOfBare(MovieSimilarKey(id));
    MovieInvalidationReach(id, MakeFullKey(MovieDetailKey(id)));
    MovieInvalidationReach(id, MakeFullKey(MovieSimilarKey(id)));
  }

  /** invalidate_movie reaches every user's recommendations and every "movie:<id>:..." key. */
  lemma MovieWideKeysDeleted(id: int, userId: int, suffix: string)
    ensures var gs := Globs(MoviePatterns(id));
      && MatchesAny(gs, MakeFullKey(RecommendationsKey(userId)))
      && MatchesAny(gs, Namespace + ("movie:" + IntToString(id) + ":") + suffix)
  {
    var r := "recommendations:user:" + IntToString(userId);
    FullKeyOfBare(RecommendationsKey(userId));
    assert "recommendations:" <= r;
    PrefixExtends(Namespace, "recommendations:", r);
    MovieInvalidationReach(id, MakeFullKey(RecommendationsKey(userId)));
    MovieInvalidationReach(id, Namespace + ("movie:" + IntToString(id) + ":") + suffix);
  }


  /** The detail and similar keys of another movie than `id`, as rendered ids `i != j`, are no hits. */
  lemma OtherMovieMisses(i: string, j: string)
    requires IdStart(i) && IdStart(j) && i != j
    ensures !MovieHit(i, Namespace + ("movie:detail:" + j))
    ensures !MovieHit(i, Namespace + ("movie:similar:" + j))
  {
    var d, s := Namespace + ("movie:detail:" + j), Namespace + ("movie:similar:" + j);
    if d == Namespace + ("movie:detail:" + i) {
      CancelPrefix(Namespace, "movie:detail:" + j, "movie:detail:" + i);
      CancelPrefix("movie:detail:", j, i);
    }
    if s == Namespace + ("movie:similar:" + i) {
      CancelPrefix(Namespace, "movie:similar:" + j, "movie:similar:" + i);
      CancelPrefix("movie:similar:", j, i);
    }
    OtherMovieShapes(i, d);
    OtherMovieShapes(i, s);
  }

  /** The remaining movie-hit cases fail for any key "movie:d..." or "movie:s...". */
  lemma OtherMovieShapes(i: string, k: string)
    requires IdStart(i)
    requires |k| > 18 && k[12] == 'm' && k[17] == ':' && (k[18] == 'd' || k[18] == 's')
    requires k[18] == 'd' ==> k != Namespace + ("movie:detail:" + i)
    requires k[18] == 's' ==> k != Namespace + ("movie:similar:" + i)
    ensures !MovieHit(i, k)
  {
    var dk, sk := Namespace + ("movie:detail:" + i), Namespace + ("movie:similar:" + i);
    if k[18] == 'd' {
      Mismatch(sk, k, 18);
    } else {
      Mismatch(dk, k, 18);
    }
    Mismatch(Namespace + ("movie:avg_rating:" + i), k, 18);
    Mismatch(Namespace + ("movie:" + i + ":"), k, 18);
    Mismatch(Namespace + "movie_list:", k, 17);
    Mismatch(Namespace + "recommendations:", k, 12);
  }

  /** Another movie's detail and similar keys survive invalidate_movie. */
  lemma OtherMovieKeysSurvive(id: int, other: int)
    requires other != id
    ensures var gs := Globs(MoviePatterns(id));
      && !MatchesAny(gs, MakeFullKey(MovieDetailKey(other)))
      && !MatchesAny(gs, MakeFullKey(MovieSimilarKey(other)))
  {
    FullKeyOfBare(MovieDetailKey(other));
    FullKeyOfBare(MovieSimilarKey(other));
    IntStart(id);
    IntStart(other);
    if IntToString(id) == IntToString(other) {
      IntToStringInjective(id, other);
    }
    OtherMovieMisses(IntToString(id), IntToString(other));
    MovieInvalidationReach(id, MakeFullKey(MovieDetailKey(other)));
    MovieInvalidationReach(id, MakeFullKey(MovieSimilarKey(other)));
  }

  /** invalidate_user reaches the user's recommendations, playlist and ratings keys and "user:<id>:..." keys. */
  lemma UserKeysDeleted(id: int, suffix: string)
    ensures var gs, i := Globs(UserPatterns(id)), IntToString(id);
      && MatchesAny(gs, MakeFullKey(RecommendationsKey(id)))
      && MatchesAny(gs, Namespace + ("playlist:user:" + i))
      && MatchesAny(gs, Namespace + ("ratings:user:" + i))
      && MatchesAny(gs, Namespace + ("user:" + i + ":") + suffix)
  {
    var i := IntToString(id);
    FullKeyOfBare(RecommendationsKey(id));
    UserInvalidationReach(id, MakeFullKey(RecommendationsKey(id)));
    UserInvalidationReach(id, Namespace + ("playlist:user:" + i));
    UserInvalidationReach(id, Namespace + ("ratings:user:" + i));
    UserInvalidationReach(id, Namespace + ("user:" + i + ":") + suffix);
  }

  /** A namespaced key whose first segment starts with neither 'u', 'r' nor 'p' is never a user hit. */
  lemma UserMissByShape(i: string, k: string)
    requires |k| > 12 && k[12] != 'u' && k[12] != 'r' && k[12] != 'p'
    ensures !UserHit(i, k)
  {
    Mismatch(Namespace + ("user:" + i + ":"), k, 12);
    Mismatch(Namespace + ("recommendations:user:" + i), k, 12);
    Mismatch(Namespace + ("playlist:user:" + i), k, 12);
    Mismatch(Namespace + ("ratings:user:" + i), k, 12);
  }

  /** Every CacheKeys movie key survives invalidate_user. */
  lemma MovieKeysSurviveUserInvalidation(id: int, movieId: int, filtersHash: string)
    ensures var gs := Globs(UserPatterns(id));
      && !MatchesAny(gs, MakeFullKey(MovieDetailKey(movieId)))
      && !MatchesAny(gs, MakeFullKey(MovieSimilarKey(movieId)))
      && !MatchesAny(gs, MakeFullKey(MovieListKey(filtersHash)))
  {
    var i := IntToString(id);
    var d, s, l := MakeFullKey(MovieDetailKey(movieId)), MakeFullKey(MovieSimilarKey(movieId)),
                   MakeFullKey(MovieListKey(filtersHash));
    FullKeyOfBare(MovieDetailKey(movieId));
    FullKeyOfBare(MovieSimilarKey(movieId));
    FullKeyOfBare(MovieListKey(filtersHash));
    assert d[12] == 'm' && s[12] == 'm' && l[12] == 'm';
    UserMissByShape(i, d);
    UserMissByShape(i, s);
    UserMissByShape(i, l);
    UserInvalidationReach(id, d);
    UserInvalidationReach(id, s);
    UserInvalidationReach(id, l);
  }

  lemma OtherUserMisses(i: string, j: string)
    requires i != j
    ensures !UserHit(i, Namespace + ("recommendations:user:" + j))
  {
    var k := Namespace + ("recommendations:user:" + j);
    if k == Namespace + ("recommendations:user:" + i) {
      CancelPrefix(Namespace, "recommendations:user:" + j, "recommendations:user:" + i);
      CancelPrefix("recommendations:user:", j, i);
    }
    Mismatch(Namespace + ("user:" + i + ":"), k, 12);
    Mismatch(Namespace + ("playlist:user:" + i), k, 12);
    Mismatch(Namespace + ("ratings:user:" + i), k, 13);
  }

  /** Another user's recommendations survive invalidate_user. */
  lemma OtherUserRecommendationsSurvive(id: int, other: int)
    requires other != id
    ensures !MatchesAny(Globs(UserPatterns(id)), MakeFullKey(RecommendationsKey(other)))
  {
    FullKeyOfBare(RecommendationsKey(other));
    if IntToString(id) == IntToString(other) {
      IntToStringInjective(id, other);
    }
    OtherUserMisses(IntToString(id), IntToString(other));
    UserInvalidationReach(id, MakeFullKey(RecommendationsKey(other)));
  }

  // ---------------------------------------------------------------------------
  // RedisCacheBackend: tag sets and counters
  // ---------------------------------------------------------------------------

  /** The full key of a tag's set. */
  function TagKey(tag: string): string {
    MakeFullKey("tag:" + tag)
  }

  lemma TagKeyIs(tag: string)
    ensures TagKey(tag) == Namespace + ("tag:" + tag)
  {
    FullKeyOfBare("tag:" + tag);
  }

  /** Different tags have different set keys. */
  lemma TagKeyInjective(a: string, b: string)
    requires TagKey(a) == TagKey(b)
    ensures a == b
  {
    TagKeyIs(a);
    TagKeyIs(b);
    CancelPrefix(Namespace, "tag:" + a, "tag:" + b);
    CancelPrefix("tag:", a, b);
  }

  function Get(m: map<string, Value>, k: string): Value {
    if k in m then m[k] else Null
  }

  /**
   * One step of set_with_tags: `cache.get(tag_key) or set()`, then `.add(full_key)`
   * and store it back. A truthy value that is not a set has no `add`: the step raises.
   */
  function AddToTag(m: map<string, Value>, full: string, tag: string): (r: Option<map<string, Value>>)
    ensures r.Some? <==> !Truthy(Get(m, TagKey(tag))) || Get(m, TagKey(tag)).Members?
    ensures r.Some? ==> r.value.Keys == m.Keys + {TagKey(tag)}
    ensures r.Some? ==> r.value[TagKey(tag)].Members? && full in r.value[TagKey(tag)].keys
    ensures r.Some? ==> forall k | k in m && k != TagKey(tag) :: r.value[k] == m[k]
  {
    var tk := TagKey(tag);
    var current := Get(m, tk);
    if !Truthy(current) then Some(m[tk := Members({full})])
    else if current.Members? then Some(m[tk := Members(current.keys + {full})])
    else None
  }

  /** How set_with_tags ends: every tag recorded, or raised at `tag` with the store as it then is. */
  datatype TagOutcome = Tagged(entries: map<string, Value>) | Raised(entries: map<string, Value>, tag: string)

  /** The tag loop, tag by tag in order, stopping at the first one that raises. */
  function TagAll(m: map<string, Value>, full: string, tags: seq<string>): TagOutcome
    decreases |tags|
  {
    if tags == [] then Tagged(m)
    else match AddToTag(m, full, tags[0])
      case None => Raised(m, tags[0])
      case Some(m') => TagAll(m', full, tags[1..])
  }

  lemma TagAllUnfold(m: map<string, Value>, full: string, tags: seq<string>, i: nat)
    requires i < |tags|
    ensures AddToTag(m, full, tags[i]).None? ==> TagAll(m, full, tags[i..]) == Raised(m, tags[i])
    ensures AddToTag(m, full, tags[i]).Some? ==>
      TagAll(m, full, tags[i..]) == TagAll(AddToTag(m, full, tags[i]).value, full, tags[i + 1..])
  {
    assert tags[i..][0] == tags[i] && tags[i..][1..] == tags[i + 1..];
  }

  /** After a successful set_with_tags, every tag's set holds the full key. */
  lemma {:induction false} TagAllRecords(m: map<string, Value>, full: string, tags: seq<string>)
    requires TagAll(m, full, tags).Tagged?
    ensures var r := TagAll(m, full, tags).entries;
      forall t | t in tags :: TagKey(t) in r && r[TagKey(t)].Members? && full in r[TagKey(t)].keys
    decreases |tags|
  {
    if tags != [] {
      var m' := AddToTag(m, full, tags[0]).value;
      TagAllRecords(m', full, tags[1..]);
      TagAllKeeps(m', full, tags[1..], TagKey(tags[0]));
    }
  }

  /** A set that already holds the full key still holds it after further tagging. */
  lemma {:induction false} TagAllKeeps(m: map<string, Value>, full: string, tags: seq<string>, tk: string)
    requires tk in m && m[tk].Members? && full in m[tk].keys
    ensures var r := TagAll(m, full, tags).entries;
      tk in r && r[tk].Members? && full in r[tk].keys
    decreases |tags|
  {
    if tags != [] {
      var step := AddToTag(m, full, tags[0]);
      if step.Some? {
        TagAllKeeps(step.value, full, tags[1..], tk);
      }
    }
  }

  /** Tagging only ever writes tag sets: every other entry keeps its value. */
  lemma {:induction false} TagAllTouchesOnlyTags(m: map<string, Value>, full: string, tags: seq<string>, k: string)
    requires k in m && forall t | t in tags :: k != TagKey(t)
    ensures var r := TagAll(m, full, tags).entries; k in r && r[k] == m[k]
    decreases |tags|
  {
    if tags != [] {
      var step := AddToTag(m, full, tags[0]);
      if step.Some? {
        TagAllTouchesOnlyTags(step.value, full, tags[1..], k);
      }
    }
  }

  /**
   * set_with_tags: store the value under its full key, then add that key to
   * each tag's set; `ok` is false when a tag's stored value is not a set.
   */
  method SetWithTags(s: Store, key: string, value: Value, tags: seq<string>) returns (ok: bool)
    modifies s
    ensures var out := TagAll(old(s.entries)[MakeFullKey(key) := value], MakeFullKey(key), tags);
      s.entries == out.entries && (ok <==> out.Tagged?)
  {
    var full := MakeFullKey(key);
    s.Put(full, value);
    ghost var target := TagAll(s.entries, full, tags);
    for i := 0 to |tags|
      invariant TagAll(s.entries, full, tags[i..]) == target
    {
      TagAllUnfold(s.entries, full, tags, i);
      var tk := TagKey(tags[i]);
      var current := s.Lookup(tk);
      if Truthy(current) && !current.Members? {
        return false;
      }
      if Truthy(current) {
        s.Put(tk, Members(current.keys + {full}));
      } else {
        s.Put(tk, Members({full}));
      }
    }
    assert tags[|tags|..] == [];
    ok := true;
  }

  /** The full key of a successfully tagged entry is in every tag's set. */
  lemma SetWithTagsRecords(m: map<string, Value>, key: string, value: Value, tags: seq<string>)
    requires TagAll(m[MakeFullKey(key) := value], MakeFullKey(key), tags).Tagged?
    ensures var r := TagAll(m[MakeFullKey(key) := value], MakeFullKey(key), tags).entries;
      forall t | t in tags :: TagKey(t) in r && r[TagKey(t)].Members? && MakeFullKey(key) in r[TagKey(t)].keys
  {
    TagAllRecords(m[MakeFullKey(key) := value], MakeFullKey(key), tags);
  }

  datatype CacheError = NoLength | NotAnInteger

  /** The keys `delete_many` receives when it iterates a stored tag value. */
  function TaggedKeys(v: Value): set<string> {
    match v
    case Members(ks) => ks
    case Payload(s) => set c | c in s :: [c]
    case _ => {}
  }

  /**
   * invalidate_by_tag: a missing or empty tag gives 0; a set of keys is
   * deleted together with the tag key and its size returned. A stored string
   * is iterated character by character, as Python does; a number has no length.
   */
  method InvalidateByTag(s: Store, tag: string) returns (r: Result<nat, CacheError>)
    modifies s
    ensures var v := old(s.Lookup(TagKey(tag)));
      && (!Truthy(v) ==> r == Ok(0) && s.entries == old(s.entries))
      && (Truthy(v) && v.Count? ==> r == Err(NoLength) && s.entries == old(s.entries))
      && (Truthy(v) && v.Members? ==> r == Ok(|v.keys|))
      && (Truthy(v) && v.Payload? ==> r == Ok(|v.s|))
      && (Truthy(v) && !v.Count? ==>
            s.entries == map k | k in old(s.entries) && k !in TaggedKeys(v) + {TagKey(tag)} :: old(s.entries)[k])
  {
    var tk := TagKey(tag);
    var v := s.Lookup(tk);
    if !Truthy(v) {
      return Ok(0);
    }
    var count: nat;
    match v {
      case Members(ks) => count := |ks|;
      case Payload(text) => count := |text|;
      case Count(_) => return Err(NoLength);
    }
    s.DeleteAll(TaggedKeys(v));
    s.DeleteAll({tk});
    r := Ok(count);
  }

  /** After invalidate_by_tag on a set, none of its keys and not the tag key itself remain. */
  lemma InvalidateByTagClears(m: map<string, Value>, tag: string, ks: set<string>)
    requires TagKey(tag) in m && m[TagKey(tag)] == Members(ks) && ks != {}
    ensures var after := map k | k in m && k !in TaggedKeys(Members(ks)) + {TagKey(tag)} :: m[k];
      && TagKey(tag) !in after
      && (forall k | k in ks :: k !in after)
      && (forall k | k in m && k !in ks && k != TagKey(tag) :: k in after && after[k] == m[k])
  {
  }

  /**
   * increment_counter: an integer counter grows by `amount`; a missing key is
   * set to `amount` (Django's incr raises ValueError for it); any other stored
   * value cannot be incremented.
   */
  method IncrementCounter(s: Store, key: string, amount: int) returns (r: Result<int, CacheError>)
    modifies s
    ensures var full := MakeFullKey(key);
      && (full !in old(s.entries) ==> r == Ok(amount) && s.entries == old(s.entries)[full := Count(amount)])
      && (full in old(s.entries) && old(s.entries)[full].Count? ==>
            var n := old(s.entries)[full].n;
            r == Ok(n + amount) && s.entries == old(s.entries)[full := Count(n + amount)])
      && (full in old(s.entries) && !old(s.entries)[full].Count? ==>
            r == Err(NotAnInteger) && s.entries == old(s.entries))
  {
    var full := MakeFullKey(key);
    if full !in s.entries {
      s.Put(full, Count(amount));
      return Ok(amount);
    }
    var v := s.entries[full];
    if !v.Count? {
      return Err(NotAnInteger);
    }
    s.Put(full, Count(v.n + amount));
    r := Ok(v.n + amount);
  }
}
