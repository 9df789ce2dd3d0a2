/**
 * MovieMetadataFilter.filter_by_genre (apps/movies_api/filters.py): on SQLite
 * the queryset is scanned in Python and re-filtered by the collected ids; on
 * other databases the JSON containment lookup `genres__contains=[value]` is
 * used. Both select the same movies. The genre query is case-sensitive.
 */
module Filters {
  import opened Models

  /** The JSON containment test: the genre list holds `value`. */
  predicate ContainsGenre(m: Movie, value: string) {
    value in m.genres
  }

  /** The Python test of the SQLite branch: a non-empty genre list holding `value`. */
  predicate ScanTest(m: Movie, value: string) {
    |m.genres| > 0 && value in m.genres
  }

  /** `queryset.filter(genres__contains=[value])`, in queryset order. */
  function NativeFilter(qs: seq<Movie>, value: string): (r: seq<Movie>)
    ensures forall m | m in r :: m in qs && ContainsGenre(m, value)
    ensures forall m | m in qs && ContainsGenre(m, value) :: m in r
    ensures |r| <= |qs|
  {
    if qs == [] then []
    else (if ContainsGenre(qs[0], value) then [qs[0]] else []) + NativeFilter(qs[1..], value)
  }

  /** `queryset.filter(id__in=ids)`, in queryset order. */
  function WithIds(qs: seq<Movie>, ids: seq<nat>): (r: seq<Movie>)
    ensures forall m | m in r :: m in qs && m.id in ids
    ensures forall m | m in qs && m.id in ids :: m in r
  {
    if qs == [] then []
    else (if qs[0].id in ids then [qs[0]] else []) + WithIds(qs[1..], ids)
  }

  /** The ids the SQLite loop collects, in scan order. */
  function ScannedIds(qs: seq<Movie>, value: string): (r: seq<nat>)
    ensures forall id | id in r :: exists m | m in qs :: m.id == id && ScanTest(m, value)
    ensures forall m | m in qs && ScanTest(m, value) :: m.id in r
  {
    if qs == [] then []
    else
      var rest := ScannedIds(qs[..|qs| - 1], value);
      var last := qs[|qs| - 1];
      assert forall m | m in qs :: m in qs[..|qs| - 1] || m == last;
      if ScanTest(last, value) then rest + [last.id] else rest
  }

  /** The SQLite branch: the loop collecting `movie_ids`, then the id filter. */
  method FilterByGenreScan(qs: seq<Movie>, value: string) returns (r: seq<Movie>)
    ensures r == WithIds(qs, ScannedIds(qs, value))
  {
    var movieIds: seq<nat> := [];
    var i := 0;
    while i < |qs|
      invariant 0 <= i <= |qs|
      invariant movieIds == ScannedIds(qs[..i], value)
    {
      assert qs[..i + 1][..i] == qs[..i];
      if |qs[i].genres| > 0 && value in qs[i].genres {
        movieIds := movieIds + [qs[i].id];
      }
      i := i + 1;
    }
    assert qs[..|qs|] == qs;
    r := WithIds(qs, movieIds);
  }

  /** Which branch runs is decided by `connection.vendor == 'sqlite'`. */
  method FilterByGenre(vendor: Vendor, qs: seq<Movie>, value: string) returns (r: seq<Movie>)
    requires UniqueMovieIds(qs)
    ensures r == NativeFilter(qs, value)
  {
    if vendor == Sqlite {
      r := FilterByGenreScan(qs, value);
      ScanAgreesWithNative(qs, value);
    } else {
      r := NativeFilter(qs, value);
    }
  }

  // ---------------------------------------------------------------------------
  // The two branches agree
  // ---------------------------------------------------------------------------

  /** Within a table with distinct ids, a movie's id is in the scanned ids exactly when it passes the test. */
  lemma ScannedIdOf(qs: seq<Movie>, value: string, m: Movie)
    requires UniqueMovieIds(qs) && m in qs
    ensures m.id in ScannedIds(qs, value) <==> ContainsGenre(m, value)
  {
    if m.id in ScannedIds(qs, value) {
      var m' :| m' in qs && m'.id == m.id && ScanTest(m', value);
      var i :| 0 <= i < |qs| && qs[i] == m;
      var j :| 0 <= j < |qs| && qs[j] == m';
      assert i == j;
    }
  }

  /** The scan-and-refilter branch selects the same movies, in the same order, as containment. */
  lemma {:induction false} ScanAgreesWithNative(qs: seq<Movie>, value: string)
    requires UniqueMovieIds(qs)
    ensures WithIds(qs, ScannedIds(qs, value)) == NativeFilter(qs, value)
  {
    ScanAgreesFrom(qs, ScannedIds(qs, value), value, qs);
  }

  /** Induction over a suffix `part` of `qs`, the id list fixed to the whole scan. */
  lemma {:induction false} ScanAgreesFrom(qs: seq<Movie>, ids: seq<nat>, value: string, part: seq<Movie>)
    requires UniqueMovieIds(qs) && ids == ScannedIds(qs, value)
    requires forall m | m in part :: m in qs
    ensures WithIds(part, ids) == NativeFilter(part, value)
  {
    if part != [] {
      ScannedIdOf(qs, value, part[0]);
      assert forall m | m in part[1..] :: m in part;
      ScanAgreesFrom(qs, ids, value, part[1..]);
    }
  }

  /** A movie with no genres is never selected, and every selected movie really has the genre. */
  lemma FilterByGenreSelects(qs: seq<Movie>, value: string)
    ensures forall m | m in NativeFilter(qs, value) :: |m.genres| > 0 && value in m.genres && m in qs
    ensures forall m | m in qs && value in m.genres :: m in NativeFilter(qs, value)
  {
  }
}
