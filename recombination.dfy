/** The gene lists that Crossover builds: the first parent's prefix, then
    the second parent's suffix and prefix, with repeated cities dropped by
    Distinct. */
module Recombination {
  import opened Linq
  import opened Tours

  /** The second parent's genes as the child reads them: the suffix from
      the cross index, then the prefix before it. */
  function Rotated(b: seq<int>, crossIndex: nat): seq<int>
  {
    Skip(b, crossIndex) + Take(b, crossIndex)
  }

  /** prev(first) ++ next(second) ++ prev(second), then Distinct: each
      city of first's prefix and of second, once. */
  function ChildGenes(first: seq<int>, second: seq<int>, crossIndex: nat): (r: seq<int>)
    ensures NoDups(r) && forall x :: x in r <==> x in Take(first, crossIndex) || x in second
  {
    var s := Take(first, crossIndex) + Skip(second, crossIndex) + Take(second, crossIndex);
    assert second == Take(second, crossIndex) + Skip(second, crossIndex);
    assert forall x :: x in s <==> x in Take(first, crossIndex) || x in second;
    Distinct(s)
  }

  /** Rotating a tour gives a tour of the same cities. */
  lemma RotationIsTour(b: seq<int>, crossIndex: nat, cities: set<int>)
    requires IsTourOf(b, cities)
    ensures IsTourOf(Rotated(b, crossIndex), cities)
  {
    var p, q := Take(b, crossIndex), Skip(b, crossIndex);
    var r := q + p;
    assert b == p + q;
    forall k | 0 <= k < |r| ensures r[k] == b[if k < |q| then |p| + k else k - |q|] {
    }
    forall i, j | 0 <= i < j < |r| ensures r[i] != r[j] {
      var i' := if i < |q| then |p| + i else i - |q|;
      var j' := if j < |q| then |p| + j else j - |q|;
      assert r[i] == b[i'] && r[j] == b[j'] && i' != j';
    }
    forall x ensures x in r <==> x in b {
      assert x in b <==> x in p || x in q;
    }
    assert Elems(r) == Elems(b);
  }

  /** Child genes start with the first parent's prefix, unchanged; the rest
      are the second parent's cities in rotated order (suffix, then prefix)
      with the prefix cities removed. */
  lemma ChildKeepsPrefix(first: seq<int>, second: seq<int>, crossIndex: nat, cities: set<int>)
    requires IsTourOf(first, cities) && IsTourOf(second, cities)
    ensures ChildGenes(first, second, crossIndex)
         == Take(first, crossIndex) + Without(Rotated(second, crossIndex), Elems(Take(first, crossIndex)))
  {
    var p := Take(first, crossIndex);
    var rot := Rotated(second, crossIndex);
    assert p + Skip(second, crossIndex) + Take(second, crossIndex) == p + rot;
    assert NoDups(p) by {
      assert forall k :: 0 <= k < |p| ==> p[k] == first[k];
    }
    DistinctFromKeepsPrefix(p, rot, {});
    assert {} + Elems(p) == Elems(p);
    RotationIsTour(second, crossIndex, cities);
    DistinctFromOfNoDups(rot, Elems(p));
  }

  /** Crossover repairs the permutation: whatever the cross index, a child
      of two tours of the same cities is again a tour of those cities, as
      long as either parent and a permutation of both. */
  lemma ChildIsTour(first: seq<int>, second: seq<int>, crossIndex: nat, cities: set<int>)
    requires IsTourOf(first, cities) && IsTourOf(second, cities)
    ensures var child := ChildGenes(first, second, crossIndex);
      && IsTourOf(child, cities)
      && |child| == |first| == |cities|
      && multiset(child) == multiset(first) == multiset(second)
  {
    var p := Take(first, crossIndex);
    var s := p + Skip(second, crossIndex) + Take(second, crossIndex);
    var child := ChildGenes(first, second, crossIndex);
    DistinctFromYields(s, {});
    assert second == Take(second, crossIndex) + Skip(second, crossIndex);
    forall x ensures x in child <==> x in cities {
      assert x in s <==> x in p || x in second;
      assert x in p ==> x in first;
      assert x in cities <==> x in Elems(second) && x in Elems(first);
    }
    assert Elems(child) == cities;
    ToursArePermutations(child, first, cities);
    ToursArePermutations(first, second, cities);
  }

  /** A child of two tours is as long as either parent. */
  lemma ChildLength(first: seq<int>, second: seq<int>, crossIndex: nat, cities: set<int>)
    requires IsTourOf(first, cities) && IsTourOf(second, cities)
    ensures |ChildGenes(first, second, crossIndex)| == |first| == |second| == |cities|
  {
    ChildIsTour(first, second, crossIndex, cities);
    NoDupsCardinality(second);
  }
}
