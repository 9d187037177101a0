/**
 * Ruby's ordering of strings (`String#<=>`), `Array#sort` on strings and
 * `Array#join`.
 *
 * `String#<=>` compares byte by byte; for UTF-8 text that is the same as
 * comparing character codes, with a proper prefix sorting first.
 */
module RubyString {

  /**
   * `a <= b` under `String#<=>`: `a` is a prefix of `b`, or at the first
   * position where they differ `a` has the smaller character.
   */
  predicate LessOrEqual(a: string, b: string): (r: bool)
    ensures r <==> a <= b || exists k :: 0 <= k < |a| && k < |b| && a[..k] == b[..k] && a[k] < b[k]
    decreases |a|
  {
    if a == [] then true
    else if b == [] then false
    else if a[0] != b[0] then
      assert a[..0] == b[..0];
      a[0] < b[0]
    else
      FirstDifferenceOfTails(a, b);
      LessOrEqual(a[1..], b[1..])
  }

  /** Past a common first character, a first difference of the tails is one of the whole strings. */
  lemma FirstDifferenceOfTails(a: string, b: string)
    requires a != [] && b != [] && a[0] == b[0]
    ensures a <= b <==> a[1..] <= b[1..]
    ensures (exists k :: 0 <= k < |a| && k < |b| && a[..k] == b[..k] && a[k] < b[k]) <==>
      (exists k :: 0 <= k < |a| - 1 && k < |b| - 1 && a[1..][..k] == b[1..][..k] && a[1..][k] < b[1..][k])
  {
    assert a == [a[0]] + a[1..] && b == [b[0]] + b[1..];
    if k :| 0 <= k < |a| && k < |b| && a[..k] == b[..k] && a[k] < b[k] {
      assert k != 0 by {
        if k == 0 { assert a[0] == b[0]; }
      }
      assert a[1..][..k - 1] == a[..k][1..] && b[1..][..k - 1] == b[..k][1..];
      assert a[1..][k - 1] == a[k];
    }
    if k :| 0 <= k < |a| - 1 && k < |b| - 1 && a[1..][..k] == b[1..][..k] && a[1..][k] < b[1..][k] {
      assert a[..k + 1] == [a[0]] + a[1..][..k] && b[..k + 1] == [b[0]] + b[1..][..k];
      assert a[k + 1] == a[1..][k];
    }
  }

  lemma {:induction false} LessOrEqualReflexive(a: string)
    ensures LessOrEqual(a, a)
    decreases |a|
  {
    if a != [] {
      LessOrEqualReflexive(a[1..]);
    }
  }

  lemma {:induction false} LessOrEqualTotal(a: string, b: string)
    ensures LessOrEqual(a, b) || LessOrEqual(b, a)
    decreases |a|
  {
    if a != [] && b != [] && a[0] == b[0] {
      LessOrEqualTotal(a[1..], b[1..]);
    }
  }

  lemma {:induction false} LessOrEqualAntisymmetric(a: string, b: string)
    requires LessOrEqual(a, b) && LessOrEqual(b, a)
    ensures a == b
    decreases |a|
  {
    if a != [] && b != [] {
      LessOrEqualAntisymmetric(a[1..], b[1..]);
      assert a == [a[0]] + a[1..] && b == [b[0]] + b[1..];
    }
  }

  lemma {:induction false} LessOrEqualTransitive(a: string, b: string, c: string)
    requires LessOrEqual(a, b) && LessOrEqual(b, c)
    ensures LessOrEqual(a, c)
    decreases |a|
  {
    if a != [] && b != [] && c != [] && a[0] == b[0] && b[0] == c[0] {
      LessOrEqualTransitive(a[1..], b[1..], c[1..]);
    }
  }

  /** Ascending under `String#<=>`. */
  predicate Sorted(s: seq<string>)
  {
    forall i, j :: 0 <= i < j < |s| ==> LessOrEqual(s[i], s[j])
  }

  /** Places `x` in front of the first element it does not sort after. */
  function Insert(x: string, s: seq<string>): (r: seq<string>)
    ensures multiset(r) == multiset(s) + multiset{x}
    ensures Sorted(s) ==> Sorted(r)
  {
    if s == [] then [x]
    else if LessOrEqual(x, s[0]) then
      InsertFrontSorted(x, s);
      [x] + s
    else
      var tail := Insert(x, s[1..]);
      assert s == [s[0]] + s[1..];
      InsertBehindSorted(x, s, tail);
      [s[0]] + tail
  }

  lemma InsertFrontSorted(x: string, s: seq<string>)
    requires s != [] && LessOrEqual(x, s[0])
    ensures Sorted(s) ==> Sorted([x] + s)
  {
    if Sorted(s) {
      forall i, j | 0 <= i < j < |[x] + s| ensures LessOrEqual(([x] + s)[i], ([x] + s)[j]) {
        if i == 0 && j > 1 {
          LessOrEqualTransitive(x, s[0], s[j - 1]);
        }
      }
    }
  }

  lemma InsertBehindSorted(x: string, s: seq<string>, tail: seq<string>)
    requires s != [] && !LessOrEqual(x, s[0])
    requires multiset(tail) == multiset(s[1..]) + multiset{x}
    requires Sorted(s[1..]) ==> Sorted(tail)
    ensures Sorted(s) ==> Sorted([s[0]] + tail)
  {
    if Sorted(s) {
      assert Sorted(s[1..]) by {
        forall i, j | 0 <= i < j < |s[1..]| ensures LessOrEqual(s[1..][i], s[1..][j]) {
          assert s[1..][i] == s[i + 1] && s[1..][j] == s[j + 1];
        }
      }
      LessOrEqualTotal(x, s[0]);
      forall k | 0 <= k < |tail| ensures LessOrEqual(s[0], tail[k]) {
        assert tail[k] in multiset(tail);
        if tail[k] != x {
          assert tail[k] in multiset(s[1..]);
          var m :| 0 <= m < |s[1..]| && s[1..][m] == tail[k];
          assert s[1..][m] == s[m + 1];
        }
      }
    }
  }

  /** `Array#sort` on strings: an ascending permutation of the input. */
  function Sort(s: seq<string>): (r: seq<string>)
    ensures Sorted(r)
    ensures multiset(r) == multiset(s)
  {
    if s == [] then []
    else
      assert s == [s[0]] + s[1..];
      Insert(s[0], Sort(s[1..]))
  }

  /**
   * Sorting has a single outcome: two ascending sequences with the same
   * elements, counted with multiplicity, are equal.
   */
  lemma {:induction false} SortedUnique(a: seq<string>, b: seq<string>)
    requires Sorted(a) && Sorted(b)
    requires multiset(a) == multiset(b)
    ensures a == b
    decreases |a|
  {
    if a == [] {
      assert |b| == |multiset(b)| == 0;
    } else {
      assert |b| == |multiset(b)| == |multiset(a)| == |a|;
      SortedSameFirst(a, b);
      SameFirstTails(a, b);
      SortedTail(a);
      SortedTail(b);
      SortedUnique(a[1..], b[1..]);
      assert a == [a[0]] + a[1..] && b == [b[0]] + b[1..];
    }
  }

  /** Two ascending sequences with the same elements start alike. */
  lemma SortedSameFirst(a: seq<string>, b: seq<string>)
    requires Sorted(a) && Sorted(b) && a != [] && b != []
    requires multiset(a) == multiset(b)
    ensures a[0] == b[0]
  {
    assert a[0] in multiset(b) && b[0] in multiset(a);
    var p :| 0 <= p < |b| && b[p] == a[0];
    var q :| 0 <= q < |a| && a[q] == b[0];
    if p == 0 { LessOrEqualReflexive(b[0]); }
    if q == 0 { LessOrEqualReflexive(a[0]); }
    LessOrEqualAntisymmetric(a[0], b[0]);
  }

  /** Taking away the same first element leaves the same elements. */
  lemma SameFirstTails(a: seq<string>, b: seq<string>)
    requires a != [] && b != [] && a[0] == b[0]
    requires multiset(a) == multiset(b)
    ensures multiset(a[1..]) == multiset(b[1..])
  {
    assert a == [a[0]] + a[1..] && b == [b[0]] + b[1..];
    assert multiset(a) == multiset{a[0]} + multiset(a[1..]);
    assert multiset(b) == multiset{b[0]} + multiset(b[1..]);
    forall y ensures multiset(a[1..])[y] == multiset(b[1..])[y] {
      assert multiset(a)[y] == multiset{a[0]}[y] + multiset(a[1..])[y];
      assert multiset(b)[y] == multiset{b[0]}[y] + multiset(b[1..])[y];
    }
  }

  /** The rest of an ascending sequence is ascending. */
  lemma SortedTail(s: seq<string>)
    requires Sorted(s) && s != []
    ensures Sorted(s[1..])
  {
    forall i, j | 0 <= i < j < |s[1..]| ensures LessOrEqual(s[1..][i], s[1..][j]) {
      assert s[1..][i] == s[i + 1] && s[1..][j] == s[j + 1];
    }
  }

  /** The number of characters of all the strings together. */
  function TotalLength(parts: seq<string>): nat
  {
    if parts == [] then 0 else |parts[0]| + TotalLength(parts[1..])
  }

  /**
   * `Array#join(separator)`: the parts in order, one separator between each
   * two neighbours and none at either end.
   */
  function Join(parts: seq<string>, separator: string): (r: string)
    ensures parts == [] ==> r == ""
    ensures |parts| == 1 ==> r == parts[0]
    ensures parts != [] ==> parts[0] <= r
    ensures parts != [] ==> |r| == TotalLength(parts) + (|parts| - 1) * |separator|
    ensures |parts| >= 2 ==> r[|parts[0]|..|parts[0]| + |separator|] == separator
  {
    if parts == [] then ""
    else if |parts| == 1 then parts[0]
    else parts[0] + separator + Join(parts[1..], separator)
  }

  /**
   * Joining one more part appends a separator and that part. With the empty and
   * single-part cases of `Join`'s contract, this places every part, in order, with one
   * separator between each two neighbours.
   */
  lemma {:induction false} JoinAppend(parts: seq<string>, last: string, separator: string)
    requires parts != []
    ensures Join(parts + [last], separator) == Join(parts, separator) + separator + last
    decreases |parts|
  {
    if |parts| == 1 {
      assert (parts + [last])[1..] == [last];
    } else {
      assert (parts + [last])[1..] == parts[1..] + [last];
      JoinAppend(parts[1..], last, separator);
    }
  }
}
