/** The two list shapes the scanner builds with its loops: a `push` of every element
    a step yields (`Collect`) and a one-for-one projection (`Map`). */
module Lists {
  import opened Text
  import opened Sorting

  /** The values `f` yields along `s`, in order, skipping the `None`s: what a loop
      that pushes `f(x)` whenever there is one leaves behind. */
  function Collect<A, B>(s: seq<A>, f: A -> Option<B>): seq<B> {
    if s == [] then []
    else
      Collect(s[..|s| - 1], f) + match f(s[|s| - 1]) case None => [] case Some(y) => [y]
  }

  /** One more step of the loop. */
  lemma CollectPush<A, B>(s: seq<A>, f: A -> Option<B>, i: nat)
    requires i < |s|
    ensures Collect(s[..i + 1], f) == Collect(s[..i], f) + match f(s[i]) case None => [] case Some(y) => [y]
  {
    assert s[..i + 1][..i] == s[..i];
  }

  lemma CollectAll<A, B>(s: seq<A>, f: A -> Option<B>)
    ensures Collect(s[..|s|], f) == Collect(s, f)
  {
    assert s[..|s|] == s;
  }

  /** Every collected value comes from some position, and every position that yields a
      value contributes it. */
  lemma {:induction false} CollectMembers<A, B>(s: seq<A>, f: A -> Option<B>)
    ensures forall y :: y in Collect(s, f) <==> exists i :: 0 <= i < |s| && f(s[i]) == Some(y)
  {
    if s != [] {
      var prefix := s[..|s| - 1];
      CollectMembers(prefix, f);
      forall y ensures y in Collect(s, f) <==> exists i :: 0 <= i < |s| && f(s[i]) == Some(y) {
        if i :| 0 <= i < |s| - 1 && f(s[i]) == Some(y) {
          assert f(prefix[i]) == Some(y);
        }
        if y in Collect(prefix, f) {
          var i :| 0 <= i < |prefix| && f(prefix[i]) == Some(y);
          assert s[i] == prefix[i];
        }
      }
    }
  }

  /** The position a collected value comes from. */
  lemma {:induction false} CollectSource<A, B>(s: seq<A>, f: A -> Option<B>, y: B) returns (i: nat)
    requires y in Collect(s, f)
    ensures i < |s| && f(s[i]) == Some(y)
  {
    var prefix := s[..|s| - 1];
    if y in Collect(prefix, f) {
      i := CollectSource(prefix, f, y);
      assert s[i] == prefix[i];
    } else {
      i := |s| - 1;
    }
  }

  /** A position that yields a value contributes it. */
  lemma {:induction false} CollectHas<A, B>(s: seq<A>, f: A -> Option<B>, i: nat)
    requires i < |s| && f(s[i]).Some?
    ensures f(s[i]).value in Collect(s, f)
  {
    var prefix := s[..|s| - 1];
    if i < |s| - 1 {
      assert prefix[i] == s[i];
      CollectHas(prefix, f, i);
    }
  }

  /** Collecting keeps order: when the positions are ordered by `key` and every value
      carries its position's key under `key'`, the collected values are ordered by `key'`. */
  lemma {:induction false} CollectOrdered<A, B>(s: seq<A>, f: A -> Option<B>, key: A -> int, key': B -> int)
    requires SortedByKey(s, key)
    requires forall i | 0 <= i < |s| && f(s[i]).Some? :: key'(f(s[i]).value) == key(s[i])
    ensures SortedByKey(Collect(s, f), key')
  {
    if s != [] {
      var prefix := s[..|s| - 1];
      var last := s[|s| - 1];
      CollectOrdered(prefix, f, key, key');
      var r0 := Collect(prefix, f);
      if f(last).Some? {
        forall p | 0 <= p < |r0| ensures key'(r0[p]) <= key'(f(last).value) {
          var i := CollectSource(prefix, f, r0[p]);
          assert s[i] == prefix[i];
        }
      }
    }
  }

  /** `s.map(f)` */
  function Map<A, B>(s: seq<A>, f: A -> B): (r: seq<B>)
    ensures |r| == |s| && forall i | 0 <= i < |s| :: r[i] == f(s[i])
  {
    seq(|s|, i requires 0 <= i < |s| => f(s[i]))
  }

  lemma MapPush<A, B>(s: seq<A>, f: A -> B, i: nat)
    requires i < |s|
    ensures Map(s[..i + 1], f) == Map(s[..i], f) + [f(s[i])]
  {
  }

  lemma MapAll<A, B>(s: seq<A>, f: A -> B)
    ensures Map(s[..|s|], f) == Map(s, f)
  {
    assert s[..|s|] == s;
  }

  /** The position a value of a sorted projection comes from. */
  lemma SortedMapSource<A, B>(s: seq<A>, f: A -> B, key: B -> int, y: B) returns (i: nat)
    requires y in SortByKey(Map(s, f), key)
    ensures i < |s| && y == f(s[i])
  {
    assert y in multiset(Map(s, f));
    var k :| 0 <= k < |s| && Map(s, f)[k] == y;
    i := k;
  }

  /** Every position of `s` appears in a sorted projection. */
  lemma SortedMapHas<A, B>(s: seq<A>, f: A -> B, key: B -> int, i: nat)
    requires i < |s|
    ensures f(s[i]) in SortByKey(Map(s, f), key)
  {
    assert Map(s, f)[i] in multiset(Map(s, f));
  }

  /** The position a value of a sorted collection comes from. */
  lemma SortedCollectSource<A, B>(s: seq<A>, f: A -> Option<B>, key: B -> int, y: B) returns (i: nat)
    requires y in SortByKey(Collect(s, f), key)
    ensures i < |s| && f(s[i]) == Some(y)
  {
    assert y in multiset(Collect(s, f));
    i := CollectSource(s, f, y);
  }

  /** The position a kept element of a sorted filter comes from. */
  lemma FilterSortedSource<A>(s: seq<A>, f: A -> Option<A>, key: A -> int, y: A) returns (i: nat)
    requires forall x :: f(x).Some? ==> f(x).value == x
    requires y in SortByKey(Collect(s, f), key)
    ensures i < |s| && s[i] == y && f(y) == Some(y)
  {
    i := SortedCollectSource(s, f, key, y);
  }
}
