/**
 * The parts of Ruby's Hash, Set and Array that the module-instance rules use.
 *
 * A Ruby Hash keeps its entries in insertion order, so it is modelled as a
 * list of key/value pairs; `Hash#fetch` is a search for the first entry with
 * the key. A Ruby `::Set` also enumerates in insertion order and holds no
 * element twice, so it is modelled as a duplicate-free sequence.
 */
module RubyCollections {
  import opened Wrappers

  /** A Ruby Hash literal: its entries in insertion order. */
  type Hash<K, V> = seq<(K, V)>

  predicate UniqueKeys<K(==), V>(h: Hash<K, V>)
  {
    forall i, j :: 0 <= i < j < |h| ==> h[i].0 != h[j].0
  }

  /**
   * `Hash#fetch(key)`: the value of the entry for `key`; None where Ruby
   * raises KeyError because no entry has that key.
   */
  function Fetch<K(==), V>(h: Hash<K, V>, key: K): (r: Option<V>)
    ensures r.None? <==> forall i :: 0 <= i < |h| ==> h[i].0 != key
    ensures r.Some? ==> exists i :: 0 <= i < |h| && h[i] == (key, r.value)
  {
    if h == [] then None
    else if h[0].0 == key then Some(h[0].1)
    else Fetch(h[1..], key)
  }

  /** In a hash without repeated keys, fetching the key of an entry gives that entry's value. */
  lemma {:induction false} FetchEntry<K, V>(h: Hash<K, V>, i: nat)
    requires UniqueKeys(h) && i < |h|
    ensures Fetch(h, h[i].0) == Some(h[i].1)
  {
    if i > 0 {
      assert h[0].0 != h[i].0;
      assert UniqueKeys(h[1..]) by {
        forall p, q | 0 <= p < q < |h[1..]| ensures h[1..][p].0 != h[1..][q].0 {
          assert h[1..][p] == h[p + 1] && h[1..][q] == h[q + 1];
        }
      }
      FetchEntry(h[1..], i - 1);
    }
  }

  /** Ruby `::Set` contents: no element occurs twice. */
  predicate NoDuplicates<T(==)>(s: seq<T>)
  {
    forall i, j :: 0 <= i < j < |s| ==> s[i] != s[j]
  }

  /** `Set#add`: appends `x` unless it is already an element. */
  function Add<T(==,!new)>(s: seq<T>, x: T): (r: seq<T>)
    ensures NoDuplicates(s) ==> NoDuplicates(r)
    ensures forall y :: y in r <==> y in s || y == x
    ensures s <= r
  {
    if x in s then s else s + [x]
  }

  /** Adding every element of `xs` in turn, as a loop of `Set#add` calls does. */
  function AddAll<T(==,!new)>(s: seq<T>, xs: seq<T>): (r: seq<T>)
    ensures NoDuplicates(s) ==> NoDuplicates(r)
    ensures forall y :: y in r <==> y in s || y in xs
    decreases |xs|
  {
    if xs == [] then s
    else Add(AddAll(s, xs[..|xs| - 1]), xs[|xs| - 1])
  }

  /** A loop `xs.each { |x| set.add x }`: adds the elements of `xs` one at a time. */
  method AddEach<T(==,!new)>(s: seq<T>, xs: seq<T>) returns (r: seq<T>)
    ensures r == AddAll(s, xs)
  {
    r := s;
    var j := 0;
    while j < |xs|
      invariant 0 <= j <= |xs|
      invariant r == AddAll(s, xs[..j])
    {
      assert xs[..j + 1][..j] == xs[..j];
      r := Add(r, xs[j]);
      j := j + 1;
    }
    assert xs[..j] == xs;
  }

  /** `Set.new(array)`: the distinct elements of `xs` in order of first occurrence. */
  function SetNew<T(==,!new)>(xs: seq<T>): (r: seq<T>)
    ensures NoDuplicates(r)
    ensures forall y :: y in r <==> y in xs
  {
    AddAll([], xs)
  }

  /** The set of one element. */
  lemma SetNewSingleton<T(!new)>(x: T)
    ensures SetNew([x]) == [x]
  {
    assert [x][..0] == [];
    assert AddAll([], [x]) == Add(AddAll([], []), x);
  }

  /** Adding the elements of `xs + ys` is adding those of `xs`, then those of `ys`. */
  lemma {:induction false} AddAllAppend<T(!new)>(s: seq<T>, xs: seq<T>, ys: seq<T>)
    ensures AddAll(s, xs + ys) == AddAll(AddAll(s, xs), ys)
    decreases |ys|
  {
    if ys == [] {
      assert xs + ys == xs;
    } else {
      assert (xs + ys)[..|xs + ys| - 1] == xs + ys[..|ys| - 1];
      AddAllAppend(s, xs, ys[..|ys| - 1]);
    }
  }

  /** `Set#-`: the elements of `a` that are not in `b`, in the order of `a`. */
  function Difference<T(==,!new)>(a: seq<T>, b: seq<T>): (r: seq<T>)
    ensures NoDuplicates(a) ==> NoDuplicates(r)
    ensures forall y :: y in r <==> y in a && y !in b
  {
    if a == [] then []
    else if a[0] in b then Difference(a[1..], b)
    else [a[0]] + Difference(a[1..], b)
  }

  /** `a - b` is empty exactly when every element of `a` is in `b`. */
  lemma DifferenceEmpty<T(!new)>(a: seq<T>, b: seq<T>)
    ensures Difference(a, b) == [] <==> forall x :: x in a ==> x in b
  {
    var r := Difference(a, b);
    if r != [] {
      assert r[0] in a && r[0] !in b;
    }
  }

  /** `Array#map` (and `Set#map`, which returns an Array). */
  function Map<T, U>(s: seq<T>, f: T -> U): (r: seq<U>)
    ensures |r| == |s|
    ensures forall i :: 0 <= i < |s| ==> r[i] == f(s[i])
  {
    if s == [] then [] else [f(s[0])] + Map(s[1..], f)
  }

  /** In a duplicate-free sequence every element occurs exactly once. */
  lemma {:induction false} NoDuplicatesMultiplicity<T>(s: seq<T>, y: T)
    requires NoDuplicates(s)
    ensures multiset(s)[y] == if y in s then 1 else 0
  {
    if s != [] {
      assert s == [s[0]] + s[1..];
      assert NoDuplicates(s[1..]) by {
        forall p, q | 0 <= p < q < |s[1..]| ensures s[1..][p] != s[1..][q] {
          assert s[1..][p] == s[p + 1] && s[1..][q] == s[q + 1];
        }
      }
      assert s[0] !in s[1..] by {
        forall k | 0 <= k < |s[1..]| ensures s[1..][k] != s[0] {
          assert s[1..][k] == s[k + 1];
        }
      }
      NoDuplicatesMultiplicity(s[1..], y);
    }
  }

  /**
   * Two duplicate-free sequences with the same elements are permutations of
   * each other: a set does not depend on the order it was built in.
   */
  lemma SameElementsPermutation<T>(a: seq<T>, b: seq<T>)
    requires NoDuplicates(a) && NoDuplicates(b)
    requires forall y :: y in a <==> y in b
    ensures multiset(a) == multiset(b)
  {
    forall y ensures multiset(a)[y] == multiset(b)[y] {
      NoDuplicatesMultiplicity(a, y);
      NoDuplicatesMultiplicity(b, y);
    }
  }

  /** `Map` distributes over concatenation. */
  lemma MapAppend<T, U>(a: seq<T>, b: seq<T>, f: T -> U)
    ensures Map(a + b, f) == Map(a, f) + Map(b, f)
  {
    assert forall i :: 0 <= i < |a + b| ==> Map(a + b, f)[i] == (Map(a, f) + Map(b, f))[i];
  }

  /** Mapping a permutation gives a permutation of the mapped sequence. */
  lemma {:induction false} MapPermutation<T, U>(a: seq<T>, b: seq<T>, f: T -> U)
    requires multiset(a) == multiset(b)
    ensures multiset(Map(a, f)) == multiset(Map(b, f))
    decreases |a|
  {
    if a == [] {
      assert |b| == |multiset(b)| == 0;
    } else {
      var x := a[0];
      assert x in multiset(b);
      var k :| 0 <= k < |b| && b[k] == x;
      var rest := b[..k] + b[k + 1..];
      RemoveFirstMatch(a, b, k);
      MapPermutation(a[1..], rest, f);
      MapAppend([x], a[1..], f);
      MapSplice(b, k, f);
    }
  }

  /** Taking away `a`'s first element from `a` and one copy of it from `b` leaves the same elements. */
  lemma RemoveFirstMatch<T>(a: seq<T>, b: seq<T>, k: nat)
    requires multiset(a) == multiset(b)
    requires a != [] && k < |b| && b[k] == a[0]
    ensures multiset(a[1..]) == multiset(b[..k] + b[k + 1..])
  {
    var x := a[0];
    assert b == b[..k] + [x] + b[k + 1..];
    assert a == [x] + a[1..];
    assert multiset(b) == multiset(b[..k]) + multiset{x} + multiset(b[k + 1..]);
    assert multiset(a) == multiset{x} + multiset(a[1..]);
    var rest := b[..k] + b[k + 1..];
    assert multiset(rest) == multiset(b[..k]) + multiset(b[k + 1..]);
    forall y ensures multiset(a[1..])[y] == multiset(rest)[y] {
      assert multiset(a)[y] == multiset{x}[y] + multiset(a[1..])[y];
    }
  }

  /** Mapping `b` maps its `k`-th element and the rest. */
  lemma MapSplice<T, U>(b: seq<T>, k: nat, f: T -> U)
    requires k < |b|
    ensures multiset(Map(b, f)) == multiset{f(b[k])} + multiset(Map(b[..k] + b[k + 1..], f))
  {
    var mapped := Map(b, f);
    MapTake(b, k, f);
    MapDrop(b, k + 1, f);
    MapAppend(b[..k], b[k + 1..], f);
    MultisetSplice(mapped, k);
  }

  /** A sequence holds its `k`-th element and the elements around it. */
  lemma MultisetSplice<T>(s: seq<T>, k: nat)
    requires k < |s|
    ensures multiset(s) == multiset{s[k]} + multiset(s[..k] + s[k + 1..])
  {
    assert s == s[..k] + [s[k]] + s[k + 1..];
  }

  /** Mapping a prefix gives the prefix of the mapped sequence. */
  lemma MapTake<T, U>(b: seq<T>, k: nat, f: T -> U)
    requires k <= |b|
    ensures Map(b[..k], f) == Map(b, f)[..k]
  {
  }

  /** Mapping a suffix gives the suffix of the mapped sequence. */
  lemma MapDrop<T, U>(b: seq<T>, k: nat, f: T -> U)
    requires k <= |b|
    ensures Map(b[k..], f) == Map(b, f)[k..]
  {
  }
}
