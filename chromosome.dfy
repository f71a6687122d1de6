/** A chromosome: a tour whose length is cached in `fitness`. Both fields are
    updated in place; the cache is refreshed by CalculateFitness, which the
    constructor and every swap call. */
module Chromosomes {
  import opened Tours

  class Chromosome {
    var genes: seq<int>
    var fitness: real

    /** The cached fitness is the length of the open path through the genes. */
    predicate FitnessIsCurrent(dist: (int, int) -> real)
      reads this
    {
      fitness == PathLength(genes, dist)
    }

    /** Stores the genes and computes their fitness. */
    constructor (genes0: seq<int>, dist: (int, int) -> real)
      ensures genes == genes0
      ensures FitnessIsCurrent(dist)
    {
      genes := genes0;
      fitness := 0.0;
      new;
      CalculateFitness(dist);
    }

    /** Sums the distances of the consecutive pairs (i, i + 1) for
        i in [0, |genes| - 2] and stores the sum in `fitness`. */
    method CalculateFitness(dist: (int, int) -> real)
      modifies this`fitness
      ensures FitnessIsCurrent(dist)
    {
      var distance := 0.0;
      var i := 0;
      while i < |genes| - 1
        invariant 0 <= i
        invariant |genes| > 0 ==> i < |genes| && distance == PathLength(genes[..i + 1], dist)
        invariant |genes| == 0 ==> distance == 0.0
      {
        assert genes[..i + 2] == genes[..i + 1] + [genes[i + 1]];
        PathLengthAppend(genes[..i + 1], genes[i + 1], dist);
        distance := distance + dist(genes[i], genes[i + 1]);
        i := i + 1;
      }
      assert |genes| > 0 ==> genes[..i + 1] == genes;
      fitness := distance;
    }

    /** Exchanges the cities at two positions and refreshes the fitness. */
    method SwapCities(index1: nat, index2: nat, dist: (int, int) -> real)
      requires index1 < |genes| && index2 < |genes|
      modifies this
      ensures genes == Swapped(old(genes), index1, index2)
      ensures FitnessIsCurrent(dist)
    {
      var temp := genes[index1];
      genes := genes[index1 := genes[index2]];
      genes := genes[index2 := temp];
      CalculateFitness(dist);
    }

    /** Swaps the cities at two positions drawn with Random.Next(|genes|);
        the draws are the parameters. The two may coincide. */
    method Mutate(index1: nat, index2: nat, dist: (int, int) -> real)
      requires index1 < |genes| && index2 < |genes|
      modifies this
      ensures genes == Swapped(old(genes), index1, index2)
      ensures multiset(genes) == multiset(old(genes))
      ensures FitnessIsCurrent(dist)
    {
      SwapIsPermutation(genes, index1, index2);
      SwapCities(index1, index2, dist);
    }
  }
}
