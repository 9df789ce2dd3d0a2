/**
 * The key-value store both cache modules write to (Django's cache on Redis),
 * with the two kinds of Redis KEYS pattern the repository uses: a literal key
 * and a key prefix followed by a single trailing '*'.
 */
module CacheStore {

  /** A cached value, as far as the cache code inspects it. */
  datatype Value =
    | Null                    // Python None: `cache.get` returns it for a missing key
    | Payload(s: string)      // a string; any other value is taken by its text too
    | Members(keys: set<string>)  // a tag's set of full keys
    | Count(n: int)           // an integer counter

  /** Python truthiness of a cached value. */
  predicate Truthy(v: Value) {
    match v
    case Null => false
    case Payload(s) => s != ""
    case Members(ks) => ks != {}
    case Count(n) => n != 0
  }

  datatype Glob = Exact(text: string) | Prefix(stem: string)

  /** The pattern text of a glob: a prefix is written with its trailing '*'. */
  function GlobText(g: Glob): string {
    match g
    case Exact(t) => t
    case Prefix(stem) => stem + "*"
  }

  /** A literal pattern's text does not end in '*'. */
  predicate WellFormed(g: Glob) {
    g.Exact? ==> !(|g.text| > 0 && g.text[|g.text| - 1] == '*')
  }

  /** A pattern ending in '*' matches every key that starts with the rest; any other is literal. */
  function ParseGlob(p: string): (g: Glob)
    ensures |p| > 0 && p[|p| - 1] == '*' ==> g == Prefix(p[..|p| - 1])
    ensures !(|p| > 0 && p[|p| - 1] == '*') ==> g == Exact(p)
  {
    if |p| > 0 && p[|p| - 1] == '*' then Prefix(p[..|p| - 1]) else Exact(p)
  }

  /** Every pattern reads as a well-formed glob whose text is the pattern. */
  lemma GlobTextOfParse(p: string)
    ensures WellFormed(ParseGlob(p)) && GlobText(ParseGlob(p)) == p
  {
    if |p| > 0 && p[|p| - 1] == '*' {
      assert p[..|p| - 1] + "*" == p;
    }
  }

  /** Reading a well-formed glob's text gives the glob back. */
  lemma ParseGlobText(g: Glob)
    requires WellFormed(g)
    ensures ParseGlob(GlobText(g)) == g
  {
    if g.Prefix? {
      assert (g.stem + "*")[..|g.stem|] == g.stem;
    }
  }

  predicate Matches(g: Glob, key: string) {
    match g
    case Exact(t) => key == t
    case Prefix(s) => s <= key
  }

  predicate MatchesAny(gs: seq<Glob>, key: string) {
    exists i | 0 <= i < |gs| :: Matches(gs[i], key)
  }

  /** The pattern `stem*`. */
  function Wild(stem: string): string {
    stem + "*"
  }

  lemma MatchesAnyOfSix(gs: seq<Glob>, k: string)
    requires |gs| == 6
    ensures MatchesAny(gs, k) <==>
      Matches(gs[0], k) || Matches(gs[1], k) || Matches(gs[2], k) ||
      Matches(gs[3], k) || Matches(gs[4], k) || Matches(gs[5], k)
  {
    if MatchesAny(gs, k) {
      var j :| 0 <= j < |gs| && Matches(gs[j], k);
      assert j == 0 || j == 1 || j == 2 || j == 3 || j == 4 || j == 5;
    }
  }

  lemma MatchesAnyOfFour(gs: seq<Glob>, k: string)
    requires |gs| == 4
    ensures MatchesAny(gs, k) <==> Matches(gs[0], k) || Matches(gs[1], k) || Matches(gs[2], k) || Matches(gs[3], k)
  {
    if MatchesAny(gs, k) {
      var j :| 0 <= j < |gs| && Matches(gs[j], k);
      assert j == 0 || j == 1 || j == 2 || j == 3;
    }
  }


  lemma MatchesAnyOfThree(gs: seq<Glob>, k: string)
    requires |gs| == 3
    ensures MatchesAny(gs, k) <==> Matches(gs[0], k) || Matches(gs[1], k) || Matches(gs[2], k)
  {
    if MatchesAny(gs, k) {
      var j :| 0 <= j < |gs| && Matches(gs[j], k);
      assert j == 0 || j == 1 || j == 2;
    }
  }

  /** The keys of `m` that match none of `gs`, with their values. */
  function Keep(m: map<string, Value>, gs: seq<Glob>): (r: map<string, Value>)
    ensures forall k :: k in r <==> k in m && !MatchesAny(gs, k)
    ensures forall k | k in r :: r[k] == m[k]
  {
    map k | k in m && !MatchesAny(gs, k) :: m[k]
  }

  /** Deleting with one more pattern keeps what neither deletion touched. */
  lemma KeepSnoc(m: map<string, Value>, gs: seq<Glob>, g: Glob)
    ensures Keep(Keep(m, gs), [g]) == Keep(m, gs + [g])
  {
    forall k
      ensures MatchesAny(gs + [g], k) <==> MatchesAny(gs, k) || Matches(g, k)
    {
      if MatchesAny(gs + [g], k) {
        var i :| 0 <= i < |gs + [g]| && Matches((gs + [g])[i], k);
        if i < |gs| {
          assert gs[i] == (gs + [g])[i];
        }
      }
      if MatchesAny(gs, k) {
        var i :| 0 <= i < |gs| && Matches(gs[i], k);
        assert (gs + [g])[i] == gs[i];
      }
      if Matches(g, k) {
        assert (gs + [g])[|gs|] == g;
      }
    }
    assert forall k :: MatchesAny([g], k) <==> Matches(g, k) by {
      forall k
        ensures MatchesAny([g], k) <==> Matches(g, k)
      {
        if Matches(g, k) {
          assert [g][0] == g;
        }
      }
    }
  }

  /** The keys one pattern deletes and the keys it keeps partition the store. */
  lemma KeepCount(m: map<string, Value>, g: Glob)
    ensures |m.Keys| == |Keep(m, [g]).Keys| + |set k | k in m && Matches(g, k)|
  {
    var doomed := set k | k in m && Matches(g, k);
    var kept := Keep(m, [g]).Keys;
    forall k
      ensures MatchesAny([g], k) <==> Matches(g, k)
    {
      if Matches(g, k) {
        assert [g][0] == g;
      }
    }
    assert kept + doomed == m.Keys;
    assert kept * doomed == {};
  }

  lemma DeleteStep(start: map<string, Value>, gs: seq<Glob>, i: nat, before: map<string, Value>,
                   after: map<string, Value>, n: nat)
    requires i < |gs|
    requires before == Keep(start, gs[..i])
    requires after == Keep(before, [gs[i]])
    requires n == |set k | k in before && Matches(gs[i], k)|
    ensures after == Keep(start, gs[..i + 1])
    ensures |start.Keys| - |before.Keys| + n == |start.Keys| - |after.Keys|
  {
    KeepCount(before, gs[i]);
    KeepSnoc(start, gs[..i], gs[i]);
    assert gs[..i + 1] == gs[..i] + [gs[i]];
  }

  /** The shared cache, and whether the raw Redis connection is available. */
  class Store {
    var entries: map<string, Value>
    var reachable: bool

    constructor(entries: map<string, Value>, reachable: bool)
      ensures this.entries == entries && this.reachable == reachable
    {
      this.entries := entries;
      this.reachable := reachable;
    }

    /** `cache.get(key)`: None for a key that is not stored. */
    function Lookup(key: string): (v: Value)
      reads this
      ensures key !in entries ==> v == Null
      ensures key in entries ==> v == entries[key]
    {
      if key in entries then entries[key] else Null
    }

    /** `cache.set(key, value)`. */
    method Put(key: string, value: Value)
      modifies this
      ensures entries == old(entries)[key := value]
      ensures reachable == old(reachable)
    {
      entries := entries[key := value];
    }

    /** `cache.delete_many(keys)`. */
    method DeleteAll(keys: set<string>)
      modifies this
      ensures entries == map k | k in old(entries) && k !in keys :: old(entries)[k]
      ensures reachable == old(reachable)
    {
      entries := map k | k in entries && k !in keys :: entries[k];
    }

    /**
     * `keys = conn.keys(pattern); conn.delete(*keys); return len(keys)`, or 0
     * when the connection fails.
     */
    method DeleteMatching(g: Glob) returns (n: nat)
      modifies this
      ensures reachable == old(reachable)
      ensures old(reachable) ==>
                entries == Keep(old(entries), [g]) && n == |set k | k in old(entries) && Matches(g, k)|
      ensures !old(reachable) ==> entries == old(entries) && n == 0
    {
      if !reachable {
        return 0;
      }
      var keys := set k | k in entries && Matches(g, k);
      n := |keys|;
      entries := Keep(entries, [g]);
    }

    /**
     * `cache.get(key)`, and on a miss (None) the callback's value, stored under
     * `key`. `computed` is what the callback returns; `invoked` says whether it ran.
     */
    method GetOrCompute(key: string, computed: Value) returns (v: Value, invoked: bool)
      modifies this
      ensures reachable == old(reachable)
      ensures invoked <==> old(Lookup(key)) == Null
      ensures !invoked ==> v == old(Lookup(key)) && entries == old(entries)
      ensures invoked ==> v == computed && entries == old(entries)[key := computed]
    {
      v := Lookup(key);
      if v != Null {
        return v, false;
      }
      invoked := true;
      v := computed;
      entries := entries[key := computed];
    }

    /**
     * One deletion per pattern, in order, summing the counts: the loop of
     * `invalidate_movie` and `invalidate_user`.
     */
    method DeleteEach(gs: seq<Glob>) returns (total: nat)
      modifies this
      ensures reachable == old(reachable)
      ensures old(reachable) ==>
                entries == Keep(old(entries), gs) && total == |old(entries).Keys| - |entries.Keys|
      ensures !old(reachable) ==> entries == old(entries) && total == 0
    {
      ghost var start := entries;
      total := 0;
      assert gs[..0] == [];
      if reachable {
        assert Keep(start, []) == start;
      }
      for i := 0 to |gs|
        invariant reachable == old(reachable)
        invariant reachable ==> entries == Keep(start, gs[..i])
        invariant reachable ==> total == |start.Keys| - |entries.Keys|
        invariant !reachable ==> entries == start && total == 0
      {
        ghost var before := entries;
        var n := DeleteMatching(gs[i]);
        if reachable {
          DeleteStep(start, gs, i, before, entries, n);
        }
        total := total + n;
      }
      if reachable {
        assert gs[..|gs|] == gs;
      }
    }
  }
}
