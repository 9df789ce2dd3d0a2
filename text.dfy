/**
 * String helpers that the Python code gets from its standard library:
 * `str.lower`, `str.join`, `str(int)` and the ordering `sorted` uses on
 * strings (code-point lexicographic order).
 */
module Text {

  // ---------------------------------------------------------------------------
  // Lower-casing (ASCII letters only; see README "Left out")
  // ---------------------------------------------------------------------------

  function LowerChar(c: char): char {
    if 'A' <= c <= 'Z' then (c as int + 32) as char else c
  }

  function Lower(s: string): (r: string)
    ensures |r| == |s|
  {
    seq(|s|, i requires 0 <= i < |s| => LowerChar(s[i]))
  }

  /** No upper-case ASCII letter occurs in `s`. */
  predicate IsLower(s: string) {
    forall i | 0 <= i < |s| :: !('A' <= s[i] <= 'Z')
  }

  /** `Lower` produces lower-case text, and lower-case text is a fixed point. */
  lemma LowerIsLower(s: string)
    ensures IsLower(Lower(s))
    ensures IsLower(s) ==> Lower(s) == s
  {
  }

  lemma LowerIdempotent(s: string)
    ensures Lower(Lower(s)) == Lower(s)
  {
    LowerIsLower(s);
    LowerIsLower(Lower(s));
  }

  // ---------------------------------------------------------------------------
  // str.strip() (ASCII whitespace only; see README "Left out")
  // ---------------------------------------------------------------------------

  /** The ASCII characters `str.isspace` accepts: space, \t \n \v \f \r and \x1c-\x1f. */
  predicate IsSpace(c: char) {
    c == ' ' || 9 <= c as int <= 13 || 28 <= c as int <= 31
  }

  predicate AllSpace(s: string) {
    forall i | 0 <= i < |s| :: IsSpace(s[i])
  }

  /** How many whitespace characters `s` starts with. */
  function LeadingSpaces(s: string): (n: nat)
    ensures n <= |s|
    ensures forall i | 0 <= i < n :: IsSpace(s[i])
    ensures n < |s| ==> !IsSpace(s[n])
  {
    if s != [] && IsSpace(s[0]) then 1 + LeadingSpaces(s[1..]) else 0
  }

  /** How many whitespace characters `s` ends with. */
  function TrailingSpaces(s: string): (n: nat)
    ensures n <= |s|
    ensures forall i | |s| - n <= i < |s| :: IsSpace(s[i])
    ensures n < |s| ==> !IsSpace(s[|s| - 1 - n])
  {
    if s != [] && IsSpace(s[|s| - 1]) then 1 + TrailingSpaces(s[..|s| - 1]) else 0
  }

  /** `str.strip()`: the text between the leading and the trailing whitespace. */
  function Strip(s: string): (r: string)
    ensures |r| <= |s|
    ensures r == [] || (!IsSpace(r[0]) && !IsSpace(r[|r| - 1]))
    ensures r == [] <==> AllSpace(s)
  {
    var t := s[LeadingSpaces(s)..];
    var r := t[..|t| - TrailingSpaces(t)];
    assert r != [] ==> r[0] == s[LeadingSpaces(s)];
    r
  }

  /** Whitespace before a text that starts with a non-blank is exactly the leading run. */
  lemma {:induction false} LeadingOf(pre: string, s: string)
    requires AllSpace(pre) && s != [] && !IsSpace(s[0])
    ensures LeadingSpaces(pre + s) == |pre|
  {
    if pre != [] {
      assert (pre + s)[1..] == pre[1..] + s;
      LeadingOf(pre[1..], s);
    } else {
      assert pre + s == s;
    }
  }

  /** Whitespace after a text that ends with a non-blank is exactly the trailing run. */
  lemma {:induction false} TrailingOf(s: string, post: string)
    requires AllSpace(post) && s != [] && !IsSpace(s[|s| - 1])
    ensures TrailingSpaces(s + post) == |post|
  {
    if post != [] {
      assert (s + post)[..|s + post| - 1] == s + post[..|post| - 1];
      TrailingOf(s, post[..|post| - 1]);
    } else {
      assert s + post == s;
    }
  }

  /** Any whitespace around a text with non-blank ends is removed, and nothing else. */
  lemma StripSurrounded(pre: string, x: string, post: string)
    requires AllSpace(pre) && AllSpace(post)
    requires x == [] || (!IsSpace(x[0]) && !IsSpace(x[|x| - 1]))
    ensures Strip(pre + x + post) == x
  {
    var s := pre + x + post;
    if x == [] {
      assert forall i | 0 <= i < |s| :: s[i] == if i < |pre| then pre[i] else post[i - |pre|];
    } else {
      assert s == pre + (x + post);
      LeadingOf(pre, x + post);
      assert s[|pre|..] == x + post;
      TrailingOf(x, post);
      assert (x + post)[..|x|] == x;
    }
  }

  lemma AllSpaceConcat(a: string, b: string)
    requires AllSpace(a) && AllSpace(b)
    ensures AllSpace(a + b)
  {
    assert forall i | 0 <= i < |a + b| :: (a + b)[i] == if i < |a| then a[i] else b[i - |a|];
  }

  lemma SliceSpaces(s: string, i: nat, j: nat)
    requires i <= j <= |s|
    requires forall k | i <= k < j :: IsSpace(s[k])
    ensures AllSpace(s[i..j])
  {
  }

  /** Every text is its stripped form with whitespace around it. */
  lemma StripSplit(s: string) returns (pre: string, post: string)
    ensures AllSpace(pre) && AllSpace(post)
    ensures s == pre + Strip(s) + post
  {
    var n := LeadingSpaces(s);
    var t := s[n..];
    var m := TrailingSpaces(t);
    SliceSpaces(s, 0, n);
    SliceSpaces(t, |t| - m, |t|);
    pre, post := s[0..n], t[|t| - m..|t|];
    Recompose(s, n, m);
  }

  lemma Recompose(s: string, n: nat, m: nat)
    requires n <= |s| && m <= |s| - n
    ensures s == s[0..n] + s[n..][..|s| - n - m] + s[n..][|s| - n - m..|s| - n]
  {
    var t := s[n..];
    assert t[..|t| - m] + t[|t| - m..|t|] == t;
    assert s[0..n] + t == s;
  }

  /** Whitespace added around a text does not change what `strip` returns. */
  lemma StripPadded(pre: string, s: string, post: string)
    requires AllSpace(pre) && AllSpace(post)
    ensures Strip(pre + s + post) == Strip(s)
  {
    var a, b := StripSplit(s);
    var x := Strip(s);
    if x == [] {
      AllSpaceConcat(pre, s);
      AllSpaceConcat(pre + s, post);
    } else {
      AllSpaceConcat(pre, a);
      AllSpaceConcat(b, post);
      Regroup(pre, a, x, b, post);
      StripSurrounded(pre + a, x, b + post);
    }
  }

  lemma Regroup(pre: string, a: string, x: string, b: string, post: string)
    ensures pre + (a + x + b) + post == (pre + a) + x + (b + post)
  {
  }

  /** Stripping twice equals stripping once. */
  lemma StripIdempotent(s: string)
    ensures Strip(Strip(s)) == Strip(s)
  {
    StripSurrounded([], Strip(s), []);
    assert [] + Strip(s) + [] == Strip(s);
  }

  // ---------------------------------------------------------------------------
  // ":".join(parts)
  // ---------------------------------------------------------------------------

  function Join(parts: seq<string>, sep: string): (r: string)
    ensures parts == [] ==> r == ""
    ensures |parts| == 1 ==> r == parts[0]
  {
    if |parts| == 0 then ""
    else if |parts| == 1 then parts[0]
    else parts[0] + sep + Join(parts[1..], sep)
  }

  /** Joining one more part appends the separator and that part. */
  lemma {:induction false} JoinSnoc(parts: seq<string>, x: string, sep: string)
    requires |parts| > 0
    ensures Join(parts + [x], sep) == Join(parts, sep) + sep + x
    decreases |parts|
  {
    if |parts| > 1 {
      assert (parts + [x])[1..] == parts[1..] + [x];
      JoinSnoc(parts[1..], x, sep);
    } else {
      assert (parts + [x])[1..] == [x];
    }
  }

  // ---------------------------------------------------------------------------
  // str(n) for a non-negative integer
  // ---------------------------------------------------------------------------

  predicate IsDigit(c: char) {
    '0' <= c <= '9'
  }

  function DigitChar(d: nat): (c: char)
    requires d < 10
    ensures IsDigit(c)
  {
    (48 + d) as char
  }

  /** Decimal rendering of `n`: a non-empty string of digits. */
  function NatToString(n: nat): (r: string)
    ensures |r| > 0
    ensures forall i | 0 <= i < |r| :: IsDigit(r[i])
    decreases n
  {
    if n < 10 then [DigitChar(n)] else NatToString(n / 10) + [DigitChar(n % 10)]
  }

  /** Decimal rendering of any integer, with a leading '-' when negative. */
  function IntToString(n: int): (r: string)
    ensures |r| > 0
    ensures n >= 0 ==> r == NatToString(n)
    ensures n < 0 ==> r == "-" + NatToString(-n)
    ensures IsDigit(r[0]) <==> n >= 0
    ensures IsDigit(r[|r| - 1])
  {
    if n >= 0 then NatToString(n) else "-" + NatToString(-n)
  }

  lemma {:induction false} NatToStringLength(n: nat)
    ensures n >= 10 ==> |NatToString(n)| >= 2
  {
  }

  /** Different numbers render differently. */
  lemma {:induction false} NatToStringInjective(a: nat, b: nat)
    requires NatToString(a) == NatToString(b)
    ensures a == b
    decreases a
  {
    var s := NatToString(a);
    if a < 10 && b < 10 {
      assert s[0] == DigitChar(a) && s[0] == DigitChar(b);
    } else if a >= 10 && b >= 10 {
      var p := NatToString(a / 10);
      var q := NatToString(b / 10);
      assert s == p + [DigitChar(a % 10)] && s == q + [DigitChar(b % 10)];
      assert s[|s| - 1] == DigitChar(a % 10) == DigitChar(b % 10);
      assert p == s[..|s| - 1] == q;
      NatToStringInjective(a / 10, b / 10);
    } else {
      NatToStringLength(a);
      NatToStringLength(b);
    }
  }

  lemma IntToStringInjective(a: int, b: int)
    requires IntToString(a) == IntToString(b)
    ensures a == b
  {
    var s := IntToString(a);
    if a >= 0 && b >= 0 {
      NatToStringInjective(a, b);
    } else if a < 0 && b < 0 {
      assert NatToString(-a) == s[1..] == NatToString(-b);
      NatToStringInjective(-a, -b);
    }
  }

  // ---------------------------------------------------------------------------
  // Comparing strings position by position
  // ---------------------------------------------------------------------------

  /** Two strings that differ at position `j` are different, and neither is a prefix of the other. */
  lemma Mismatch(a: string, b: string, j: nat)
    requires j < |a| && j < |b| && a[j] != b[j]
    ensures a != b && !(a <= b)
  {
  }

  /** `a + x == a + y` only when `x == y`. */
  lemma CancelPrefix(a: string, x: string, y: string)
    requires a + x == a + y
    ensures x == y
  {
    assert x == (a + x)[|a|..];
    assert y == (a + y)[|a|..];
  }

  lemma PrefixExtends(n: string, a: string, b: string)
    requires a <= b
    ensures n + a <= n + b
  {
    assert (n + b)[..|n + a|] == n + a;
  }

  /** The id text of an integer starts with a digit or a minus sign. */
  predicate IdStart(i: string) {
    |i| > 0 && (i[0] == '-' || IsDigit(i[0]))
  }

  lemma IntStart(n: int)
    ensures IdStart(IntToString(n))
  {
  }


  // ---------------------------------------------------------------------------
  // Lexicographic order on strings, as Python compares `str` values
  // ---------------------------------------------------------------------------

  predicate Less(a: string, b: string)
    decreases |a|
  {
    if a == [] then b != []
    else if b == [] then false
    else a[0] < b[0] || (a[0] == b[0] && Less(a[1..], b[1..]))
  }

  lemma {:induction false} LessIrreflexive(a: string)
    ensures !Less(a, a)
    decreases |a|
  {
    if a != [] {
      LessIrreflexive(a[1..]);
    }
  }

  lemma {:induction false} LessAsymmetric(a: string, b: string)
    ensures Less(a, b) ==> !Less(b, a)
    decreases |a|
  {
    if a != [] && b != [] {
      LessAsymmetric(a[1..], b[1..]);
    }
  }

  lemma {:induction false} LessTransitive(a: string, b: string, c: string)
    requires Less(a, b) && Less(b, c)
    ensures Less(a, c)
    decreases |a|
  {
    if a != [] && a[0] == b[0] && b[0] == c[0] {
      LessTransitive(a[1..], b[1..], c[1..]);
    }
  }

  lemma {:induction false} LessTotal(a: string, b: string)
    ensures a == b || Less(a, b) || Less(b, a)
    decreases |a|
  {
    if a != [] && b != [] && a[0] == b[0] {
      LessTotal(a[1..], b[1..]);
      if a[1..] == b[1..] {
        assert a == [a[0]] + a[1..] && b == [b[0]] + b[1..];
      }
    }
  }

  // ---------------------------------------------------------------------------
  // sorted(d.items()) for a dict with string keys: sort (name, value) pairs
  // by name. Python keyword-argument names are distinct.
  // ---------------------------------------------------------------------------

  ghost predicate DistinctNames<V>(s: seq<(string, V)>) {
    forall i, j | 0 <= i < j < |s| :: s[i].0 != s[j].0
  }

  ghost predicate StrictlyByName<V>(s: seq<(string, V)>) {
    forall i, j | 0 <= i < j < |s| :: Less(s[i].0, s[j].0)
  }

  function InsertByName<V>(x: (string, V), s: seq<(string, V)>): (r: seq<(string, V)>)
    ensures multiset(r) == multiset(s) + multiset{x}
  {
    if s == [] then [x]
    else if Less(s[0].0, x.0) then
      assert s == [s[0]] + s[1..];
      [s[0]] + InsertByName(x, s[1..])
    else [x] + s
  }

  function SortByName<V>(s: seq<(string, V)>): (r: seq<(string, V)>)
    ensures multiset(r) == multiset(s)
  {
    if s == [] then []
    else
      assert s == [s[0]] + s[1..];
      InsertByName(s[0], SortByName(s[1..]))
  }

  lemma {:induction false} InsertByNameStrict<V>(x: (string, V), s: seq<(string, V)>)
    requires StrictlyByName(s)
    requires forall i | 0 <= i < |s| :: s[i].0 != x.0
    ensures StrictlyByName(InsertByName(x, s))
    decreases |s|
  {
    if s == [] {
    } else if Less(s[0].0, x.0) {
      InsertByNameStrict(x, s[1..]);
      var r := InsertByName(x, s);
      var t := InsertByName(x, s[1..]);
      assert r == [s[0]] + t;
      forall k | 0 <= k < |t|
        ensures Less(s[0].0, t[k].0)
      {
        assert t[k] in multiset(t);
        assert t[k] in multiset(s[1..]) + multiset{x};
        if t[k] != x {
          assert t[k] in s[1..];
          var m :| 0 <= m < |s[1..]| && s[1..][m] == t[k];
          assert s[m + 1] == t[k];
        }
      }
    } else {
      var r := InsertByName(x, s);
      assert r == [x] + s;
      LessTotal(s[0].0, x.0);
      forall k | 0 < k < |r|
        ensures Less(x.0, r[k].0)
      {
        if k > 1 {
          LessTransitive(x.0, s[0].0, s[k - 1].0);
        }
      }
    }
  }

  lemma {:induction false} SortByNameStrict<V>(s: seq<(string, V)>)
    requires DistinctNames(s)
    ensures StrictlyByName(SortByName(s))
    decreases |s|
  {
    if s != [] {
      SortByNameStrict(s[1..]);
      var t := SortByName(s[1..]);
      forall i | 0 <= i < |t|
        ensures t[i].0 != s[0].0
      {
        assert t[i] in multiset(s[1..]);
        var m :| 0 <= m < |s[1..]| && s[1..][m] == t[i];
        assert s[m + 1] == t[i];
      }
      InsertByNameStrict(s[0], t);
    }
  }

  lemma TailMultiset<T>(s: seq<T>)
    requires s != []
    ensures multiset(s[1..]) == multiset(s) - multiset{s[0]}
  {
    assert s == [s[0]] + s[1..];
  }

  lemma HeadsByNameEqual<V>(a: seq<(string, V)>, b: seq<(string, V)>)
    requires a != [] && b != []
    requires StrictlyByName(a) && StrictlyByName(b)
    requires multiset(a) == multiset(b)
    ensures a[0] == b[0]
  {
    assert b[0] in multiset(a);
    var i :| 0 <= i < |a| && a[i] == b[0];
    assert a[0] in multiset(b);
    var j :| 0 <= j < |b| && b[j] == a[0];
    if i != 0 && j != 0 {
      assert Less(a[0].0, b[0].0) && Less(b[0].0, a[0].0);
      LessAsymmetric(a[0].0, b[0].0);
    }
  }

  /** Two name-sorted sequences with the same elements are identical. */
  lemma {:induction false} StrictlyByNameUnique<V>(a: seq<(string, V)>, b: seq<(string, V)>)
    requires StrictlyByName(a) && StrictlyByName(b)
    requires multiset(a) == multiset(b)
    ensures a == b
    decreases |a|
  {
    assert |multiset(a)| == |a| && |multiset(b)| == |b|;
    if a != [] {
      HeadsByNameEqual(a, b);
      TailMultiset(a);
      TailMultiset(b);
      StrictlyByNameUnique(a[1..], b[1..]);
      assert a == [a[0]] + a[1..] && b == [b[0]] + b[1..];
    }
  }

  /** The order in which keyword arguments are passed never changes the sorted items. */
  lemma SortByNameIgnoresOrder<V>(a: seq<(string, V)>, b: seq<(string, V)>)
    requires DistinctNames(a) && DistinctNames(b)
    requires multiset(a) == multiset(b)
    ensures SortByName(a) == SortByName(b)
  {
    SortByNameStrict(a);
    SortByNameStrict(b);
    StrictlyByNameUnique(SortByName(a), SortByName(b));
  }
}
