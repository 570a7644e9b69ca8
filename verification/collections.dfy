/** Sequence helpers shared by the scopes, the goal ordering and the ranking:
    a stable insertion sort by a real-valued key, a filter and a counter. */
module Collections {

  function Min(a: int, b: int): int {
    if a <= b then a else b
  }

  /** The elements of `s` appear in non-decreasing `key` order. */
  ghost predicate SortedBy<T>(s: seq<T>, key: T -> real) {
    forall i, j | 0 <= i < j < |s| :: key(s[i]) <= key(s[j])
  }

  /** Inserts `x` in front of the first element whose key is not smaller, so an
      element inserted later lands before the equal-keyed ones already there. */
  function Insert<T>(x: T, s: seq<T>, key: T -> real): (r: seq<T>)
    requires SortedBy(s, key)
    ensures SortedBy(r, key)
    ensures multiset(r) == multiset(s) + multiset{x}
    ensures |r| == |s| + 1
    ensures forall y | y in r :: y == x || y in s
  {
    if |s| == 0 || key(x) <= key(s[0]) then
      [x] + s
    else
      var tail := Insert(x, s[1..], key);
      assert forall k | 0 <= k < |tail| :: key(s[0]) <= key(tail[k]) by {
        forall k | 0 <= k < |tail|
          ensures key(s[0]) <= key(tail[k])
        {
          assert tail[k] in tail;
          if tail[k] != x {
            var j :| 1 <= j < |s| && s[j] == tail[k];
          }
        }
      }
      assert s == [s[0]] + s[1..];
      [s[0]] + tail
  }

  /** Stable insertion sort: sorts `s` by `key`, keeping equal keys in input order. */
  function SortBy<T>(s: seq<T>, key: T -> real): (r: seq<T>)
    ensures SortedBy(r, key)
    ensures multiset(r) == multiset(s)
    ensures |r| == |s|
  {
    if |s| == 0 then []
    else
      assert s == [s[0]] + s[1..];
      Insert(s[0], SortBy(s[1..], key), key)
  }

  /** Sorting an already sorted sequence changes nothing. */
  lemma {:induction false} SortSortedIsIdentity<T>(s: seq<T>, key: T -> real)
    requires SortedBy(s, key)
    ensures SortBy(s, key) == s
  {
    if |s| > 0 {
      assert SortedBy(s[1..], key);
      SortSortedIsIdentity(s[1..], key);
      assert s == [s[0]] + s[1..];
    }
  }

  /** A prefix of a sorted sequence is sorted. */
  lemma PrefixSorted<T>(s: seq<T>, n: nat, key: T -> real)
    requires SortedBy(s, key) && n <= |s|
    ensures SortedBy(s[..n], key)
  {
  }

  /** The elements of `s` whose key is `v`, in their original order. */
  function KeyedAs<T>(s: seq<T>, key: T -> real, v: real): seq<T> {
    if |s| == 0 then []
    else (if key(s[0]) == v then [s[0]] else []) + KeyedAs(s[1..], key, v)
  }

  /** `KeyedAs` of a sequence with a first element put in front. */
  lemma KeyedAsCons<T>(a: T, s: seq<T>, key: T -> real, v: real)
    ensures KeyedAs([a] + s, key, v) == (if key(a) == v then [a] else []) + KeyedAs(s, key, v)
  {
    assert ([a] + s)[1..] == s;
  }

  /** Inserting `x` puts it in front of the elements sharing its key and
      leaves every other key's elements as they were. */
  lemma {:induction false} InsertKeyedAs<T>(x: T, s: seq<T>, key: T -> real, v: real)
    requires SortedBy(s, key)
    ensures KeyedAs(Insert(x, s, key), key, v)
      == (if key(x) == v then [x] else []) + KeyedAs(s, key, v)
    decreases |s|, 1
  {
    if |s| == 0 || key(x) <= key(s[0]) {
      KeyedAsCons(x, s, key, v);
    } else {
      InsertBehindKeyedAs(x, s, key, v);
    }
  }

  /** The case of `InsertKeyedAs` where `x` goes behind the first element. */
  lemma {:induction false} InsertBehindKeyedAs<T>(x: T, s: seq<T>, key: T -> real, v: real)
    requires SortedBy(s, key) && |s| > 0 && key(s[0]) < key(x)
    ensures KeyedAs(Insert(x, s, key), key, v)
      == (if key(x) == v then [x] else []) + KeyedAs(s, key, v)
    decreases |s|, 0
  {
    var tail := Insert(x, s[1..], key);
    assert Insert(x, s, key) == [s[0]] + tail;
    KeyedAsCons(s[0], tail, key, v);
    InsertKeyedAs(x, s[1..], key, v);
    assert s == [s[0]] + s[1..];
    KeyedAsCons(s[0], s[1..], key, v);
    if key(s[0]) == v {
      assert key(x) != v;
    } else {
      assert KeyedAs(s, key, v) == KeyedAs(s[1..], key, v);
      assert KeyedAs([s[0]] + tail, key, v) == KeyedAs(tail, key, v);
    }
  }

  /** The sort is stable: the elements sharing a key keep their order. */
  lemma {:induction false} SortByKeepsTies<T>(s: seq<T>, key: T -> real, v: real)
    ensures KeyedAs(SortBy(s, key), key, v) == KeyedAs(s, key, v)
  {
    if |s| > 0 {
      SortByKeepsTies(s[1..], key, v);
      InsertKeyedAs(s[0], SortBy(s[1..], key), key, v);
    }
  }

  /** The elements of a prefix sharing a key are a prefix of those of the
      whole sequence. */
  lemma {:induction false} PrefixKeyedAs<T>(s: seq<T>, n: nat, key: T -> real, v: real)
    requires n <= |s|
    ensures KeyedAs(s[..n], key, v) <= KeyedAs(s, key, v)
  {
    if n > 0 {
      PrefixKeyedAs(s[1..], n - 1, key, v);
      assert s[..n][0] == s[0] && s[..n][1..] == s[1..][..n - 1];
    }
  }

  /** The first `n` elements after sorting hold, for every key, the first
      of the elements with that key, in their original order. */
  lemma SortedPrefixKeepsTies<T>(s: seq<T>, n: nat, key: T -> real)
    requires n <= |s|
    ensures forall v :: KeyedAs(SortBy(s, key)[..n], key, v) <= KeyedAs(s, key, v)
  {
    forall v
      ensures KeyedAs(SortBy(s, key)[..n], key, v) <= KeyedAs(s, key, v)
    {
      SortByKeepsTies(s, key, v);
      PrefixKeyedAs(SortBy(s, key), n, key, v);
    }
  }

  /** When every element has key `v`, `KeyedAs` keeps them all. */
  lemma {:induction false} KeyedAsAll<T>(s: seq<T>, key: T -> real, v: real)
    requires forall i | 0 <= i < |s| :: key(s[i]) == v
    ensures KeyedAs(s, key, v) == s
  {
    if |s| > 0 {
      KeyedAsAll(s[1..], key, v);
      assert s == [s[0]] + s[1..];
    }
  }

  /** The elements of `s` satisfying `p`, in their original order. */
  function Filter<T>(s: seq<T>, p: T -> bool): (r: seq<T>)
    ensures |r| <= |s|
    ensures forall x | x in r :: x in s && p(x)
    ensures forall x | x in s && p(x) :: x in r
    ensures multiset(r) <= multiset(s)
  {
    if |s| == 0 then []
    else
      assert s == [s[0]] + s[1..];
      (if p(s[0]) then [s[0]] else []) + Filter(s[1..], p)
  }

  /** How many elements of `s` satisfy `p`. */
  function Count<T>(s: seq<T>, p: T -> bool): (n: nat)
    ensures n <= |s|
    ensures n == 0 <==> forall x | x in s :: !p(x)
  {
    if |s| == 0 then 0
    else
      assert forall x | x in s :: x == s[0] || x in s[1..];
      (if p(s[0]) then 1 else 0) + Count(s[1..], p)
  }

  /** Three pairwise exclusive predicates never count more elements than there are. */
  lemma {:induction false} ExclusiveCountsBounded<T>(s: seq<T>, p: T -> bool, q: T -> bool, r: T -> bool)
    requires forall x | x in s :: !(p(x) && q(x)) && !(p(x) && r(x)) && !(q(x) && r(x))
    ensures Count(s, p) + Count(s, q) + Count(s, r) <= |s|
  {
    if |s| > 0 {
      ExclusiveCountsBounded(s[1..], p, q, r);
    }
  }

  /** Counting the elements that satisfy `p` is measuring their filter. */
  lemma {:induction false} CountIsFilterLength<T>(s: seq<T>, p: T -> bool)
    ensures Count(s, p) == |Filter(s, p)|
  {
    if |s| > 0 {
      CountIsFilterLength(s[1..], p);
    }
  }
}
