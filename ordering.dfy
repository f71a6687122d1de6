/** Enumerable.OrderBy with a real-valued key, modelled on positions: the
    result lists the positions of the input in their sorted order. OrderBy is
    a stable sort, so elements with equal keys keep their input order; that is
    the same as sorting by the pair (key, position), which is what Precedes
    compares. */
module Ordering {
  import opened Linq

  /** Position a comes before position b in the sorted order. */
  predicate Precedes(keys: seq<real>, a: nat, b: nat)
    requires a < |keys| && b < |keys|
  {
    keys[a] < keys[b] || (keys[a] == keys[b] && a < b)
  }

  /** Every entry of s is a position of keys. */
  predicate AllBelow(s: seq<nat>, n: nat)
  {
    forall k :: 0 <= k < |s| ==> s[k] < n
  }

  /** The positions in s are listed in the order of Precedes. */
  predicate SortedBy(keys: seq<real>, s: seq<nat>)
    requires AllBelow(s, |keys|)
  {
    forall a, b :: 0 <= a < b < |s| ==> Precedes(keys, s[a], s[b])
  }

  /** A sorted list stays sorted under a new head that precedes all of it. */
  lemma SortedCons(keys: seq<real>, h: nat, t: seq<nat>)
    requires h < |keys| && AllBelow(t, |keys|) && SortedBy(keys, t)
    requires forall k :: 0 <= k < |t| ==> Precedes(keys, h, t[k])
    ensures AllBelow([h] + t, |keys|) && SortedBy(keys, [h] + t)
  {
    var r := [h] + t;
    forall a, b | 0 <= a < b < |r| ensures Precedes(keys, r[a], r[b]) {
      assert r[b] == t[b - 1];
      if a > 0 {
        assert r[a] == t[a - 1];
      }
    }
  }

  /** Inserts position x into a sorted list of positions. */
  function Insert(keys: seq<real>, x: nat, s: seq<nat>): (r: seq<nat>)
    requires x < |keys| && AllBelow(s, |keys|) && SortedBy(keys, s) && x !in s
    ensures AllBelow(r, |keys|) && SortedBy(keys, r)
    ensures forall y :: y in r <==> y == x || y in s
    ensures multiset(r) == multiset(s) + multiset{x}
  {
    if s == [] then [x]
    else if Precedes(keys, x, s[0]) then
      assert forall k :: 0 <= k < |s| ==> Precedes(keys, x, s[k]);
      SortedCons(keys, x, s);
      [x] + s
    else
      var r' := Insert(keys, x, s[1..]);
      assert s == [s[0]] + s[1..];
      assert forall y :: y in r' ==> Precedes(keys, s[0], y);
      SortedCons(keys, s[0], r');
      [s[0]] + r'
  }

  /** Insertion sort of a duplicate-free list of positions. */
  function SortPositions(keys: seq<real>, s: seq<nat>): (r: seq<nat>)
    requires AllBelow(s, |keys|) && NoDups(s)
    ensures AllBelow(r, |keys|) && SortedBy(keys, r)
    ensures forall y :: y in r <==> y in s
    ensures multiset(r) == multiset(s)
  {
    if s == [] then []
    else
      assert s == [s[0]] + s[1..];
      Insert(keys, s[0], SortPositions(keys, s[1..]))
  }

  /** The positions 0, 1, ..., n - 1. */
  function Range(n: nat): (r: seq<nat>)
    ensures |r| == n && forall k :: 0 <= k < n ==> r[k] == k
  {
    seq(n, k => k)
  }

  /** population.OrderBy(key): the positions of keys, stably sorted by key. */
  function OrderBy(keys: seq<real>): (r: seq<nat>)
    ensures |r| == |keys| && AllBelow(r, |keys|) && NoDups(r) && SortedBy(keys, r)
    ensures forall i: nat :: i in r <==> i < |keys|
  {
    var n := |keys|;
    assert NoDups(Range(n));
    assert AllBelow(Range(n), n);
    var r := SortPositions(keys, Range(n));
    assert |multiset(r)| == |multiset(Range(n))|;
    forall i: nat | i < n ensures i in Range(n) {
      assert Range(n)[i] == i;
    }
    r
  }

  /** The first e positions of the order are the best ones: none of them has
      a larger key than a position after them, and between equal keys the
      earlier input position comes first. */
  lemma OrderByPrefixIsBest(keys: seq<real>, e: nat)
    requires e <= |keys|
    ensures var r := OrderBy(keys);
      forall i, j :: 0 <= i < e <= j < |keys| ==>
        keys[r[i]] <= keys[r[j]] && (keys[r[i]] == keys[r[j]] ==> r[i] < r[j])
  {
  }

  /** Any two stably sorted arrangements of the same positions coincide, so
      OrderBy is the only list that is sorted by key and stable. */
  lemma {:induction false} SortedArrangementIsUnique(keys: seq<real>, r1: seq<nat>, r2: seq<nat>)
    requires AllBelow(r1, |keys|) && AllBelow(r2, |keys|)
    requires SortedBy(keys, r1) && SortedBy(keys, r2)
    requires forall y :: y in r1 <==> y in r2
    ensures r1 == r2
  {
    assert r1 != [] ==> r1[0] in r2;
    assert r2 != [] ==> r2[0] in r1;
    if r1 != [] && r2 != [] {
      assert r1[0] in r2 && r2[0] in r1;
      assert r1[0] == r2[0];
      assert forall y :: y in r1[1..] <==> y in r2[1..] by {
        forall y ensures y in r1[1..] <==> y in r2[1..] {
          assert r1 == [r1[0]] + r1[1..] && r2 == [r2[0]] + r2[1..];
          if y in r1[1..] {
            var k :| 0 <= k < |r1[1..]| && r1[1..][k] == y;
            assert Precedes(keys, r1[0], r1[k + 1]);
            assert y in r2 && y != r2[0];
          }
          if y in r2[1..] {
            var k :| 0 <= k < |r2[1..]| && r2[1..][k] == y;
            assert Precedes(keys, r2[0], r2[k + 1]);
            assert y in r1 && y != r1[0];
          }
        }
      }
      SortedArrangementIsUnique(keys, r1[1..], r2[1..]);
      assert r1 == [r1[0]] + r1[1..] && r2 == [r2[0]] + r2[1..];
    }
  }
}
