/** Generic operations on sequences used by the models. */
module Sequences {

  /** The results of `g` on each element of `xs`, concatenated in order. */
  function FlatMap<A, B>(xs: seq<A>, g: A -> seq<B>): (r: seq<B>)
    ensures xs == [] ==> r == []
    decreases |xs|
  {
    if xs == [] then [] else FlatMap(xs[..|xs| - 1], g) + g(xs[|xs| - 1])
  }

  /** Mapping two sequences one after the other maps their concatenation. */
  lemma {:induction false} FlatMapConcat<A, B>(a: seq<A>, b: seq<A>, g: A -> seq<B>)
    ensures FlatMap(a + b, g) == FlatMap(a, g) + FlatMap(b, g)
    decreases |b|
  {
    if b == [] {
      assert a + b == a;
    } else {
      var b0 := b[..|b| - 1];
      assert (a + b)[..|a + b| - 1] == a + b0;
      assert (a + b)[|a + b| - 1] == b[|b| - 1];
      FlatMapConcat(a, b0, g);
    }
  }

  /** Mapping one element is applying `g` to it. */
  lemma FlatMapSingle<A, B>(x: A, g: A -> seq<B>)
    ensures FlatMap([x], g) == g(x)
  {
    assert [x][..0] == [];
  }

  /** How JavaScript's `slice` and `splice` read an index into an array
      of length `n`: a negative index counts from the back, and the result
      is clamped to `0..n`. */
  function RelativeIndex(n: nat, k: int): (r: nat)
    ensures r <= n
    ensures 0 <= k <= n ==> r == k
    ensures -(n as int) <= k < 0 ==> r == n + k
    ensures k < -(n as int) ==> r == 0
    ensures k > n ==> r == n
  {
    if k < 0 then (if n + k < 0 then 0 else n + k)
    else if k < n then k
    else n
  }

  // ---------------------------------------------------------------------
  // Ordering by a key (Ruby's `sort_by`)
  // ---------------------------------------------------------------------

  /** Keys never decrease along the list. */
  predicate SortedBy<T>(xs: seq<T>, key: T -> int) {
    forall i, j :: 0 <= i <= j < |xs| ==> key(xs[i]) <= key(xs[j])
  }

  /** Puts `c` into a sorted list after every entry of no greater key. */
  function Insert<T>(c: T, s: seq<T>, key: T -> int): (r: seq<T>)
    ensures |r| == |s| + 1
    decreases |s|
  {
    if s == [] then [c]
    else
      var last := s[|s| - 1];
      if key(last) <= key(c) then s + [c]
      else Insert(c, s[..|s| - 1], key) + [last]
  }

  /** The list ordered by `key`, taking entries of equal key in list
      order. */
  function SortBy<T>(xs: seq<T>, key: T -> int): (r: seq<T>)
    ensures |r| == |xs|
    decreases |xs|
  {
    if xs == [] then []
    else Insert(xs[|xs| - 1], SortBy(xs[..|xs| - 1], key), key)
  }

  /** A sorted list stays sorted when an entry of no smaller key is
      appended. */
  lemma AppendSorted<T>(s: seq<T>, x: T, key: T -> int)
    requires SortedBy(s, key) && forall i :: 0 <= i < |s| ==> key(s[i]) <= key(x)
    ensures SortedBy(s + [x], key)
  {
    var r := s + [x];
    forall i, j | 0 <= i <= j < |r|
      ensures key(r[i]) <= key(r[j])
    {
      if j < |s| {
        assert r[i] == s[i] && r[j] == s[j];
      } else if i < |s| {
        assert r[i] == s[i];
      }
    }
  }

  /** Inserting adds exactly that entry. */
  lemma {:induction false} InsertPermutes<T>(c: T, s: seq<T>, key: T -> int)
    ensures multiset(Insert(c, s, key)) == multiset(s) + multiset{c}
    decreases |s|
  {
    if s != [] {
      var last := s[|s| - 1];
      var init := s[..|s| - 1];
      assert s == init + [last];
      if key(last) > key(c) {
        InsertPermutes(c, init, key);
      }
    }
  }

  /** Inserting under a bound keeps every key under it. */
  lemma {:induction false} InsertBounded<T>(c: T, s: seq<T>, key: T -> int, b: int)
    requires key(c) <= b && forall i :: 0 <= i < |s| ==> key(s[i]) <= b
    ensures forall i :: 0 <= i < |Insert(c, s, key)| ==> key(Insert(c, s, key)[i]) <= b
    decreases |s|
  {
    if s != [] {
      var last := s[|s| - 1];
      var init := s[..|s| - 1];
      if key(last) > key(c) {
        InsertBounded(c, init, key, b);
      }
    }
  }

  /** Inserting into a sorted list keeps it sorted. */
  lemma {:induction false} InsertSorted<T>(c: T, s: seq<T>, key: T -> int)
    requires SortedBy(s, key)
    ensures SortedBy(Insert(c, s, key), key)
    decreases |s|
  {
    if s != [] {
      var last := s[|s| - 1];
      var init := s[..|s| - 1];
      if key(last) <= key(c) {
        AppendSorted(s, c, key);
      } else {
        assert SortedBy(init, key);
        InsertSorted(c, init, key);
        InsertBounded(c, init, key, key(last));
        AppendSorted(Insert(c, init, key), last, key);
      }
    }
  }

  /** The ordering is a sorted permutation of the list. */
  lemma {:induction false} SortBySorted<T>(xs: seq<T>, key: T -> int)
    ensures SortedBy(SortBy(xs, key), key)
    ensures multiset(SortBy(xs, key)) == multiset(xs)
    decreases |xs|
  {
    if xs != [] {
      var init := xs[..|xs| - 1];
      assert xs == init + [xs[|xs| - 1]];
      SortBySorted(init, key);
      InsertSorted(xs[|xs| - 1], SortBy(init, key), key);
      InsertPermutes(xs[|xs| - 1], SortBy(init, key), key);
    }
  }

  /** Removing one entry from a sorted list keeps it sorted. */
  lemma RemoveSorted<T>(b: seq<T>, j: nat, key: T -> int)
    requires j < |b| && SortedBy(b, key)
    ensures SortedBy(b[..j] + b[j + 1..], key)
  {
    var c := b[..j] + b[j + 1..];
    forall i, k | 0 <= i <= k < |c|
      ensures key(c[i]) <= key(c[k])
    {
      var i0 := if i < j then i else i + 1;
      var k0 := if k < j then k else k + 1;
      assert c[i] == b[i0] && c[k] == b[k0];
    }
  }

  /** Taking the last entry of `a` and the equal entry at `j` of `b` out of
      two lists holding the same entries leaves lists holding the same
      entries. */
  lemma RemoveMatched<T>(a: seq<T>, b: seq<T>, j: nat)
    requires a != [] && j < |b| && b[j] == a[|a| - 1] && multiset(a) == multiset(b)
    ensures multiset(a[..|a| - 1]) == multiset(b[..j] + b[j + 1..])
  {
    var a1, x := a[..|a| - 1], a[|a| - 1];
    assert a == a1 + [x];
    assert multiset(a) == multiset(a1) + multiset{x};
    assert b == b[..j] + [x] + b[j + 1..];
    assert multiset(b) == multiset(b[..j]) + multiset{x} + multiset(b[j + 1..]);
    assert multiset(b[..j] + b[j + 1..]) == multiset(b[..j]) + multiset(b[j + 1..]);
    assert multiset(a1) == multiset(a) - multiset{x};
    assert multiset(b[..j] + b[j + 1..]) == multiset(b) - multiset{x};
  }

  /** The last entries of two sorted lists holding the same entries have
      the same key, the greatest. */
  lemma LastKeysAgree<T>(a: seq<T>, b: seq<T>, key: T -> int)
    requires a != [] && b != [] && SortedBy(a, key) && SortedBy(b, key) && multiset(a) == multiset(b)
    ensures key(a[|a| - 1]) == key(b[|b| - 1])
  {
    assert a[|a| - 1] in multiset(b) by { assert a[|a| - 1] in multiset(a); }
    assert b[|b| - 1] in multiset(a) by { assert b[|b| - 1] in multiset(b); }
    var j :| 0 <= j < |b| && b[j] == a[|a| - 1];
    var p :| 0 <= p < |a| && a[p] == b[|b| - 1];
    assert key(b[j]) <= key(b[|b| - 1]);
    assert key(a[p]) <= key(a[|a| - 1]);
  }

  /** Position by position agreement of the keys, put back together after
      the last entry of `a` and an entry `j` of `b` of the same, greatest,
      key were taken out. */
  lemma AgreeAfterRemoval<T>(a: seq<T>, b: seq<T>, j: nat, key: T -> int)
    requires |a| == |b| && j < |b| && SortedBy(b, key)
    requires key(b[j]) == key(a[|a| - 1]) == key(b[|b| - 1])
    requires var a1, b1 := a[..|a| - 1], b[..j] + b[j + 1..];
      |a1| == |b1| && forall i :: 0 <= i < |a1| ==> key(a1[i]) == key(b1[i])
    ensures forall i :: 0 <= i < |a| ==> key(a[i]) == key(b[i])
  {
    var n := |a|;
    var a1, b1 := a[..n - 1], b[..j] + b[j + 1..];
    forall i | 0 <= i < n
      ensures key(a[i]) == key(b[i])
    {
      if i < j {
        assert a[i] == a1[i] && b[i] == b1[i];
      } else if i < n - 1 {
        assert a[i] == a1[i] && b1[i] == b[i + 1];
        assert key(b[j]) <= key(b[i]) <= key(b[i + 1]) <= key(b[n - 1]);
      }
    }
  }

  /** Any two sorted orderings of the same entries have the same key at
      every position, whatever order they give to entries of equal key. */
  lemma {:induction false} SortedPermutationsAgree<T>(a: seq<T>, b: seq<T>, key: T -> int)
    requires SortedBy(a, key) && SortedBy(b, key) && multiset(a) == multiset(b)
    ensures |a| == |b|
    ensures forall i :: 0 <= i < |a| ==> key(a[i]) == key(b[i])
    decreases |a|
  {
    assert |a| == |multiset(a)| == |multiset(b)| == |b|;
    if a != [] {
      var x := a[|a| - 1];
      assert x in multiset(b) by { assert x in multiset(a); }
      var j :| 0 <= j < |b| && b[j] == x;
      LastKeysAgree(a, b, key);
      RemoveMatched(a, b, j);
      assert SortedBy(a[..|a| - 1], key);
      RemoveSorted(b, j, key);
      SortedPermutationsAgree(a[..|a| - 1], b[..j] + b[j + 1..], key);
      AgreeAfterRemoval(a, b, j, key);
    }
  }

  /** When no two entries share a key, there is only one sorted order. */
  lemma SortedDistinctKeysUnique<T>(a: seq<T>, b: seq<T>, key: T -> int)
    requires SortedBy(a, key) && SortedBy(b, key) && multiset(a) == multiset(b)
    requires forall i, k :: 0 <= i < k < |a| ==> key(a[i]) != key(a[k])
    ensures a == b
  {
    SortedPermutationsAgree(a, b, key);
    forall i | 0 <= i < |a|
      ensures a[i] == b[i]
    {
      assert b[i] in multiset(a);
      var p :| 0 <= p < |a| && a[p] == b[i];
      assert key(a[p]) == key(a[i]);
    }
  }
}
