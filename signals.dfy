/**
 * The model layer's signal handlers (apps/movies_api/signals.py): genre lists
 * are lower-cased and stripped of non-strings before a movie or a profile is
 * written, and saving a new user creates its profile.
 */
module Signals {
  import opened Text
  import opened JsonValue
  import opened Models

  /** The string entries of a JSON list, in order. */
  function StringsOf(items: seq<Json>): (r: seq<string>)
    ensures |r| <= |items|
  {
    if items == [] then []
    else (if items[0].JStr? then [items[0].s] else []) + StringsOf(items[1..])
  }

  /** `[g.lower() for g in items if isinstance(g, str)]`. */
  function NormalizeList(items: seq<Json>): (r: seq<Json>)
    ensures |r| == |StringsOf(items)|
    ensures forall i | 0 <= i < |r| :: r[i] == JStr(Lower(StringsOf(items)[i]))
  {
    var ss := StringsOf(items);
    seq(|ss|, i requires 0 <= i < |ss| => JStr(Lower(ss[i])))
  }

  /** The pre_save rule: a list is normalised, any other value is left as it is. */
  function NormalizeGenres(v: Json): (r: Json)
    ensures !v.JArr? ==> r == v
    ensures v.JArr? ==> r == JArr(NormalizeList(v.items))
  {
    if v.JArr? then JArr(NormalizeList(v.items)) else v
  }

  // ---------------------------------------------------------------------------
  // What the normalisation guarantees
  // ---------------------------------------------------------------------------

  /** `StringsOf` keeps exactly the string entries and their relative order. */
  lemma {:induction false} StringsOfConcat(a: seq<Json>, b: seq<Json>)
    ensures StringsOf(a + b) == StringsOf(a) + StringsOf(b)
    decreases |a|
  {
    if a == [] {
      assert a + b == b;
    } else {
      assert (a + b)[0] == a[0];
      assert (a + b)[1..] == a[1..] + b;
      StringsOfConcat(a[1..], b);
    }
  }

  lemma StringsOfSingle(x: Json)
    ensures StringsOf([x]) == if x.JStr? then [x.s] else []
  {
    assert [x][1..] == [];
  }

  /** After normalisation every entry of a list is a lower-case string. */
  lemma NormalizedIsLower(v: Json)
    requires v.JArr?
    ensures forall e | e in NormalizeGenres(v).items :: e.JStr? && IsLower(e.s)
  {
    var r := NormalizeGenres(v).items;
    forall e | e in r
      ensures e.JStr? && IsLower(e.s)
    {
      var i :| 0 <= i < |r| && r[i] == e;
      LowerIsLower(StringsOf(v.items)[i]);
    }
  }

  /** A list of strings is its own `StringsOf`. */
  lemma {:induction false} StringsOfAllStrings(items: seq<Json>)
    requires forall i | 0 <= i < |items| :: items[i].JStr?
    ensures StringsOf(items) == seq(|items|, i requires 0 <= i < |items| => items[i].s)
    decreases |items|
  {
    if items != [] {
      StringsOfAllStrings(items[1..]);
    }
  }

  /** Normalising twice is the same as normalising once. */
  lemma NormalizeIdempotent(v: Json)
    ensures NormalizeGenres(NormalizeGenres(v)) == NormalizeGenres(v)
  {
    if v.JArr? {
      var r := NormalizeList(v.items);
      StringsOfAllStrings(r);
      var rr := NormalizeList(r);
      assert |rr| == |r|;
      forall i | 0 <= i < |r|
        ensures rr[i] == r[i]
      {
        LowerIdempotent(StringsOf(v.items)[i]);
      }
    }
  }

  // ---------------------------------------------------------------------------
  // The pre_save hooks on MovieMetadata and UserProfile
  // ---------------------------------------------------------------------------

  /** A MovieMetadata instance as far as its `genres` JSONField. */
  class MovieInstance {
    var genres: Json

    constructor(genres: Json)
      ensures this.genres == genres
    {
      this.genres := genres;
    }

    /** normalize_movie_genres */
    method PreSave()
      modifies this
      ensures genres == NormalizeGenres(old(genres))
    {
      if genres.JArr? {
        genres := JArr(NormalizeList(genres.items));
      }
    }
  }

  /** A UserProfile instance as far as its `favorite_genres` JSONField. */
  class ProfileInstance {
    var favoriteGenres: Json

    constructor(favoriteGenres: Json)
      ensures this.favoriteGenres == favoriteGenres
    {
      this.favoriteGenres := favoriteGenres;
    }

    /** normalize_profile_genres: the same rule as for movies. */
    method PreSave()
      modifies this
      ensures favoriteGenres == NormalizeGenres(old(favoriteGenres))
    {
      if favoriteGenres.JArr? {
        favoriteGenres := JArr(NormalizeList(favoriteGenres.items));
      }
    }
  }

  // ---------------------------------------------------------------------------
  // post_save on User: create_user_profile, then save_user_profile
  // ---------------------------------------------------------------------------

  /** A profile with every field at its default, as `UserProfile.objects.create(user=...)` makes it. */
  function DefaultProfile(user: nat): (p: Profile)
    ensures p.user == user && p.favoriteGenres == [] && p.bio == "" && p.avatarUrl == ""
  {
    Profile(user, [], "", "")
  }

  /** Re-saving a profile runs its pre_save hook on the stored genre list. */
  function Resaved(p: Profile): (r: Profile)
    ensures r.user == p.user && r.bio == p.bio && r.avatarUrl == p.avatarUrl
    ensures |r.favoriteGenres| == |p.favoriteGenres|
    ensures forall i | 0 <= i < |r.favoriteGenres| :: r.favoriteGenres[i] == Lower(p.favoriteGenres[i])
  {
    p.(favoriteGenres := seq(|p.favoriteGenres|, i requires 0 <= i < |p.favoriteGenres| => Lower(p.favoriteGenres[i])))
  }

  /** The user and profile tables. */
  class Accounts {
    var users: set<nat>
    var profiles: map<nat, Profile>

    /** Every user has exactly one profile, and it belongs to that user. */
    ghost predicate Valid()
      reads this
    {
      profiles.Keys == users && forall u | u in profiles :: profiles[u].user == u
    }

    constructor()
      ensures Valid() && users == {}
    {
      users := {};
      profiles := map[];
    }

    /**
     * Saving user `id`: a new user gets one profile with default fields; an
     * existing user's profile is saved again, which re-normalises its genres.
     */
    method SaveUser(id: nat) returns (created: bool)
      requires Valid()
      modifies this
      ensures Valid()
      ensures created <==> id !in old(users)
      ensures users == old(users) + {id}
      ensures created ==> profiles == old(profiles)[id := DefaultProfile(id)]
      ensures !created ==> profiles == old(profiles)[id := Resaved(old(profiles)[id])]
    {
      created := id !in users;
      users := users + {id};
      if created {
        profiles := profiles[id := DefaultProfile(id)];
      } else {
        profiles := profiles[id := Resaved(profiles[id])];
      }
    }
  }

  /** Saving a new user adds exactly one profile; saving an existing user adds none. */
  method ProfileCountAfterSave(a: Accounts, id: nat) returns (created: bool)
    requires a.Valid()
    modifies a
    ensures a.Valid()
    ensures created ==> |a.profiles| == |old(a.profiles)| + 1
    ensures !created ==> |a.profiles| == |old(a.profiles)|
  {
    created := a.SaveUser(id);
    if created {
      assert a.profiles.Keys == old(a.profiles).Keys + {id};
    } else {
      assert a.profiles.Keys == old(a.profiles).Keys;
    }
  }
}
