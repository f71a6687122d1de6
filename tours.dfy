/** Tours as sequences of city indices: what it means to be a tour of a city
    set, the exchange of two positions done by a mutation, and the length of
    the open path that a chromosome's fitness caches. */
module Tours {
  import opened Linq

  /** t visits every city of `cities` exactly once. */
  predicate IsTourOf(t: seq<int>, cities: set<int>)
  {
    NoDups(t) && Elems(t) == cities
  }

  /** A duplicate-free sequence has as many distinct elements as positions. */
  lemma {:induction false} NoDupsCardinality(t: seq<int>)
    requires NoDups(t)
    ensures |Elems(t)| == |t|
  {
    if t != [] {
      assert NoDups(t[1..]);
      NoDupsCardinality(t[1..]);
      assert Elems(t) == {t[0]} + Elems(t[1..]);
      assert t[0] !in Elems(t[1..]);
    }
  }

  /** In a duplicate-free sequence every element occurs exactly once. */
  lemma {:induction false} NoDupsMultiplicity(t: seq<int>, x: int)
    requires NoDups(t)
    ensures multiset(t)[x] == if x in t then 1 else 0
  {
    if t != [] {
      assert NoDups(t[1..]);
      NoDupsMultiplicity(t[1..], x);
      assert t == [t[0]] + t[1..];
      assert multiset(t) == multiset{t[0]} + multiset(t[1..]);
    }
  }

  /** Two tours of the same city set are permutations of each other, and
      are as long as the city set is large. */
  lemma ToursArePermutations(a: seq<int>, b: seq<int>, cities: set<int>)
    requires IsTourOf(a, cities) && IsTourOf(b, cities)
    ensures |a| == |b| == |cities|
    ensures multiset(a) == multiset(b)
  {
    NoDupsCardinality(a);
    NoDupsCardinality(b);
    forall x ensures multiset(a)[x] == multiset(b)[x] {
      NoDupsMultiplicity(a, x);
      NoDupsMultiplicity(b, x);
      assert x in a <==> x in Elems(a);
      assert x in b <==> x in Elems(b);
    }
  }

  /** The list after `temp = g[i]; g[i] = g[j]; g[j] = temp`. */
  function Swapped(g: seq<int>, i: nat, j: nat): (r: seq<int>)
    requires i < |g| && j < |g|
    ensures |r| == |g| && r[i] == g[j] && r[j] == g[i]
    ensures forall k :: 0 <= k < |g| && k != i && k != j ==> r[k] == g[k]
    ensures i == j ==> r == g
  {
    g[i := g[j]][j := g[i]]
  }

  /** An exchange of two positions is a permutation. */
  lemma SwapIsPermutation(g: seq<int>, i: nat, j: nat)
    requires i < |g| && j < |g|
    ensures multiset(Swapped(g, i, j)) == multiset(g)
  {
    var r := Swapped(g, i, j);
    assert r == g[i := g[j]][j := g[i]];
  }

  /** Exchanging two positions of a tour gives a tour of the same cities. */
  lemma SwapPreservesTour(g: seq<int>, i: nat, j: nat, cities: set<int>)
    requires i < |g| && j < |g|
    requires IsTourOf(g, cities)
    ensures IsTourOf(Swapped(g, i, j), cities)
  {
    var r := Swapped(g, i, j);
    SwapIsPermutation(g, i, j);
    forall a, b | 0 <= a < b < |r| ensures r[a] != r[b] {
      var a' := if a == i then j else if a == j then i else a;
      var b' := if b == i then j else if b == j then i else b;
      assert r[a] == g[a'] && r[b] == g[b'] && a' != b';
    }
    forall x ensures x in r <==> x in g {
      assert x in multiset(r) <==> x in multiset(g);
    }
    assert Elems(r) == Elems(g);
  }

  /** Length of the open path through t: the sum of the distances between
      consecutive cities; the last city is not joined back to the first. */
  function PathLength(t: seq<int>, dist: (int, int) -> real): (r: real)
    ensures (forall a, b :: dist(a, b) >= 0.0) ==> r >= 0.0
  {
    if |t| < 2 then 0.0
    else
      assert (forall a, b :: dist(a, b) >= 0.0) ==> dist(t[0], t[1]) >= 0.0;
      dist(t[0], t[1]) + PathLength(t[1..], dist)
  }

  /** Extending a path by one city adds the distance of the new last leg. */
  lemma {:induction false} PathLengthAppend(t: seq<int>, x: int, dist: (int, int) -> real)
    requires |t| >= 1
    ensures PathLength(t + [x], dist) == PathLength(t, dist) + dist(t[|t| - 1], x)
  {
    if |t| == 1 {
      assert t + [x] == [t[0], x];
    } else {
      assert (t + [x])[1..] == t[1..] + [x];
      PathLengthAppend(t[1..], x, dist);
    }
  }

  /** Paths of fewer than two cities have length 0; a short worked example. */
  lemma PathLengthOfThree(a: int, b: int, c: int, dist: (int, int) -> real)
    ensures PathLength([a], dist) == 0.0 && PathLength([], dist) == 0.0
    ensures PathLength([a, b, c], dist) == dist(a, b) + dist(b, c)
  {
    assert [a, b, c][1..] == [b, c];
    assert [b, c][1..] == [c];
    assert PathLength([c], dist) == 0.0;
    assert PathLength([b, c], dist) == dist(b, c);
  }
}
