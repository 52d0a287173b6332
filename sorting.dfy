/** `Array.prototype.sort` with a comparator of the form `(a, b) => key(a) - key(b)`.
    The sort is stable (ECMAScript 2019 and later), so the result is the unique
    rearrangement that orders the keys and keeps the listing order of equal keys. */
module Sorting {

  ghost predicate SortedByKey<T>(s: seq<T>, key: T -> int) {
    forall i, j | 0 <= i < j < |s| :: key(s[i]) <= key(s[j])
  }

  /** The elements of `s` whose key is `k`, in their order in `s`. */
  function WithKey<T>(s: seq<T>, key: T -> int, k: int): seq<T> {
    if s == [] then []
    else WithKey(s[..|s| - 1], key, k) + (if key(s[|s| - 1]) == k then [s[|s| - 1]] else [])
  }

  /** Places `x` after every element of `s` whose key is at most `key(x)`. */
  function Insert<T>(x: T, s: seq<T>, key: T -> int): (r: seq<T>)
    ensures multiset(r) == multiset(s) + multiset{x}
    ensures |r| == |s| + 1
    ensures forall y | y in r :: y == x || y in s
  {
    if s == [] || key(s[|s| - 1]) <= key(x) then s + [x]
    else
      var rest := s[..|s| - 1];
      assert s == rest + [s[|s| - 1]];
      Insert(x, rest, key) + [s[|s| - 1]]
  }

  lemma {:induction false} InsertSorted<T>(x: T, s: seq<T>, key: T -> int)
    requires SortedByKey(s, key)
    ensures SortedByKey(Insert(x, s, key), key)
  {
    if s != [] && key(s[|s| - 1]) > key(x) {
      var rest, last := s[..|s| - 1], s[|s| - 1];
      InsertSorted(x, rest, key);
      var r := Insert(x, rest, key) + [last];
      forall i | 0 <= i < |r| - 1 ensures key(r[i]) <= key(last) {
        assert r[i] in Insert(x, rest, key);
      }
    }
  }

  lemma {:induction false} InsertWithKey<T>(x: T, s: seq<T>, key: T -> int, k: int)
    ensures WithKey(Insert(x, s, key), key, k) == WithKey(s, key, k) + (if key(x) == k then [x] else [])
  {
    if s == [] || key(s[|s| - 1]) <= key(x) {
      assert (s + [x])[..|s|] == s;
    } else {
      var rest, last := s[..|s| - 1], s[|s| - 1];
      InsertWithKey(x, rest, key, k);
      var r := Insert(x, rest, key) + [last];
      assert r[..|r| - 1] == Insert(x, rest, key);
    }
  }

  /** Stable sort by `key`, as insertion sort. */
  function SortByKey<T>(s: seq<T>, key: T -> int): (r: seq<T>)
    ensures multiset(r) == multiset(s)
    ensures |r| == |s|
  {
    if s == [] then []
    else
      assert s == s[..|s| - 1] + [s[|s| - 1]];
      Insert(s[|s| - 1], SortByKey(s[..|s| - 1], key), key)
  }

  /** The sort orders the keys, and every key class keeps its order in `s`: ties stay
      in listing order. */
  lemma {:induction false} SortByKeyCorrect<T>(s: seq<T>, key: T -> int)
    ensures SortedByKey(SortByKey(s, key), key)
    ensures forall k :: WithKey(SortByKey(s, key), key, k) == WithKey(s, key, k)
  {
    if s != [] {
      var rest, last := s[..|s| - 1], s[|s| - 1];
      SortByKeyCorrect(rest, key);
      InsertSorted(last, SortByKey(rest, key), key);
      forall k ensures WithKey(SortByKey(s, key), key, k) == WithKey(s, key, k) {
        InsertWithKey(last, SortByKey(rest, key), key, k);
      }
    }
  }

  /** The ordering and the tie order determine the result: any sequence that orders the
      keys and keeps every key class of `s` in order is the sort of `s`. */
  lemma {:induction false} SortByKeyUnique<T>(s: seq<T>, t: seq<T>, key: T -> int)
    requires SortedByKey(t, key)
    requires forall k :: WithKey(t, key, k) == WithKey(s, key, k)
    ensures t == SortByKey(s, key)
  {
    SortByKeyCorrect(s, key);
    SortedSameClassesEqual(t, SortByKey(s, key), key);
  }

  lemma {:induction false} SortedSameClassesEqual<T>(a: seq<T>, b: seq<T>, key: T -> int)
    requires SortedByKey(a, key) && SortedByKey(b, key)
    requires forall k :: WithKey(a, key, k) == WithKey(b, key, k)
    ensures a == b
    decreases |a| + |b|
  {
    if a == [] && b == [] {
    } else if a == [] || b == [] {
      var x := if a == [] then b[|b| - 1] else a[|a| - 1];
      WithKeyNonEmpty(if a == [] then b else a, key);
      assert false;
    } else {
      var x, y := a[|a| - 1], b[|b| - 1];
      // The last elements carry the largest key in both sequences.
      WithKeyMax(a, key);
      WithKeyMax(b, key);
      assert key(x) == key(y) by {
        if key(x) < key(y) {
          WithKeyAllBelow(a, key, key(y));
          WithKeyNonEmpty(b, key);
          assert false;
        } else if key(y) < key(x) {
          WithKeyAllBelow(b, key, key(x));
          WithKeyNonEmpty(a, key);
          assert false;
        }
      }
      assert x == y by {
        var A := WithKey(a, key, key(x));
        assert A == WithKey(a[..|a| - 1], key, key(x)) + [x];
        assert A == WithKey(b[..|b| - 1], key, key(x)) + [y];
        assert A[|A| - 1] == x && A[|A| - 1] == y;
      }
      var a', b' := a[..|a| - 1], b[..|b| - 1];
      forall k ensures WithKey(a', key, k) == WithKey(b', key, k) {
        var pa, pb := WithKey(a', key, k), WithKey(b', key, k);
        var e := if key(x) == k then [x] else [];
        assert WithKey(a, key, k) == pa + e;
        assert WithKey(b, key, k) == pb + e;
        assert pa == (pa + e)[..|pa|] && pb == (pb + e)[..|pb|];
      }
      SortedSameClassesEqual(a', b', key);
      assert a == a' + [x] && b == b' + [y];
    }
  }

  lemma WithKeyNonEmpty<T>(s: seq<T>, key: T -> int)
    requires s != []
    ensures WithKey(s, key, key(s[|s| - 1])) != []
  {
  }

  lemma WithKeyMax<T>(s: seq<T>, key: T -> int)
    requires s != [] && SortedByKey(s, key)
    ensures forall i | 0 <= i < |s| :: key(s[i]) <= key(s[|s| - 1])
  {
  }

  lemma {:induction false} WithKeyAllBelow<T>(s: seq<T>, key: T -> int, k: int)
    requires forall i | 0 <= i < |s| :: key(s[i]) < k
    ensures WithKey(s, key, k) == []
  {
    if s != [] {
      WithKeyAllBelow(s[..|s| - 1], key, k);
    }
  }
}
