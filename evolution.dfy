/** One generation step: the elites, the selection of parents, and crossover
    and mutation of consecutive pairs of parents. */
module Evolution {
  import opened Linq
  import opened Ordering
  import opened Tours
  import opened Draws
  import opened Chromosomes
  import opened Recombination
  import opened Selection

  /** (int)(n * 0.1): the number of the best chromosomes kept unchanged. */
  function ElitismCount(n: nat): (e: nat)
    ensures 10 * e <= n < 10 * e + 10
  {
    n / 10
  }

  /** Most pairs the parents can form: numberOfParents / 2. */
  function MaxPairs(n: nat): (r: nat)
    ensures 2 * r <= n - ElitismCount(n) <= 2 * r + 1
  {
    (n - ElitismCount(n)) / 2
  }

  /** Size of the next population when all n - ElitismCount(n) parents are
      selected: the elites and two children per pair; an odd last parent has
      no children. */
  function NextSize(n: nat): (r: nat)
    ensures r <= n
    ensures r == n <==> (n - ElitismCount(n)) % 2 == 0
    ensures r != n ==> r == n - 1
  {
    ElitismCount(n) + 2 * MaxPairs(n)
  }

  /** A population of two or more never shrinks below two, so the driver's
      stop at a population of one is reached only from a start at one; a
      population of one would have no successor at all. */
  lemma NextSizeStaysAboveOne(n: nat)
    ensures n >= 2 ==> NextSize(n) >= 2
    ensures NextSize(1) == 0
  {
  }

  /** `random.NextDouble() > mutationRate`: the mutation test as written,
      which mutates when the draw EXCEEDS the rate. So a rate of 1 or more
      never mutates, and a negative rate mutates on every draw. */
  function ShouldMutate(draw: real, mutationRate: real): (b: bool)
    ensures IsNextDouble(draw) && mutationRate >= 1.0 ==> !b
    ensures IsNextDouble(draw) && mutationRate < 0.0 ==> b
  {
    draw > mutationRate
  }

  /** The values the random source supplies to one generation step, in the
      order they are consumed: selection draws, one cross index per pair, and
      per child one mutation test and two swap positions. */
  datatype RandomDraws = RandomDraws(
    selection: seq<nat>,
    crossIndices: seq<nat>,
    mutationTests: seq<real>,
    swaps: seq<(nat, nat)>)

  /** The crossover and mutation draws have the ranges of the calls they
      replace, for tours of the given length. */
  predicate BreedingDrawsFit(rnd: RandomDraws, tourLength: nat)
  {
    && (forall k :: 0 <= k < |rnd.crossIndices| ==> IsNext(rnd.crossIndices[k], tourLength - 1))
    && (forall k :: 0 <= k < |rnd.mutationTests| ==> IsNextDouble(rnd.mutationTests[k]))
    && (forall k :: 0 <= k < |rnd.swaps| ==>
          IsNext(rnd.swaps[k].0, tourLength) && IsNext(rnd.swaps[k].1, tourLength))
  }

  /** There are enough crossover and mutation draws for every pair. */
  predicate EnoughDraws(rnd: RandomDraws, populationSize: nat)
  {
    var pairs := MaxPairs(populationSize);
    |rnd.crossIndices| >= pairs && |rnd.mutationTests| >= 2 * pairs && |rnd.swaps| >= 2 * pairs
  }

  /** Every chromosome is a tour of `cities` whose fitness is current. */
  predicate AllToursOf(population: seq<Chromosome>, cities: set<int>, dist: (int, int) -> real)
    reads population
  {
    forall k :: 0 <= k < |population| ==>
      population[k].FitnessIsCurrent(dist) && IsTourOf(population[k].genes, cities)
  }

  /** The fitness of each chromosome, in population order. */
  function Fitnesses(population: seq<Chromosome>): (r: seq<real>)
    reads population
    ensures |r| == |population| && forall k :: 0 <= k < |population| ==> r[k] == population[k].fitness
  {
    seq(|population|, k reads population requires 0 <= k < |population| => population[k].fitness)
  }

  /** The genes of each chromosome, in population order. */
  function GenesOf(population: seq<Chromosome>): (r: seq<seq<int>>)
    reads population
    ensures |r| == |population| && forall k :: 0 <= k < |population| ==> r[k] == population[k].genes
  {
    seq(|population|, k reads population requires 0 <= k < |population| => population[k].genes)
  }

  /** The genes after `if (random.NextDouble() > mutationRate) ch.Mutate()`,
      where Mutate exchanges the two positions of `swap`. Mutate's positions
      are drawn with Random.Next(Genes.Count) and so, for a non-empty tour,
      always lie inside it; the range test only makes the function total. */
  function AfterMutationTest(g: seq<int>, test: real, mutationRate: real, swap: (nat, nat)): (r: seq<int>)
    ensures multiset(r) == multiset(g)
    ensures !ShouldMutate(test, mutationRate) ==> r == g
  {
    if ShouldMutate(test, mutationRate) && swap.0 < |g| && swap.1 < |g| then
      SwapIsPermutation(g, swap.0, swap.1);
      Swapped(g, swap.0, swap.1)
    else g
  }

  /** Final genes of a child of pair p (parents 2p and 2p + 1): side 0 is
      the child that starts with parent 2p's prefix, side 1 the one that
      starts with parent 2p + 1's. It is child 2p + side of the brood and
      uses that child's mutation test and swap. */
  function Offspring(pg: seq<seq<int>>, rnd: RandomDraws, mutationRate: real, p: nat, side: nat): (r: seq<int>)
    requires side <= 1 && 2 * p + 1 < |pg|
    requires p < |rnd.crossIndices| && 2 * p + 1 < |rnd.mutationTests| && 2 * p + 1 < |rnd.swaps|
    ensures multiset(r) == multiset(ChildGenes(pg[2 * p + side], pg[2 * p + 1 - side], rnd.crossIndices[p]))
  {
    AfterMutationTest(ChildGenes(pg[2 * p + side], pg[2 * p + 1 - side], rnd.crossIndices[p]),
                      rnd.mutationTests[2 * p + side], mutationRate, rnd.swaps[2 * p + side])
  }

  /** The final genes of the children of the first `pairs` pairs, in the
      order they are added: entry 2p + side is the child of pair p on that
      side. */
  function Brood(pg: seq<seq<int>>, rnd: RandomDraws, mutationRate: real, pairs: nat): (r: seq<seq<int>>)
    requires 2 * pairs <= |pg|
    requires |rnd.crossIndices| >= pairs && |rnd.mutationTests| >= 2 * pairs && |rnd.swaps| >= 2 * pairs
    ensures |r| == 2 * pairs
  {
    seq(2 * pairs, k requires 0 <= k < 2 * pairs => Offspring(pg, rnd, mutationRate, k / 2, k % 2))
  }

  /** A crossover child of two tours, mutated or not, is a tour of the same
      cities, as long as its parents. */
  lemma MutatedChildIsTour(first: seq<int>, second: seq<int>, crossIndex: nat, test: real,
                           mutationRate: real, swap: (nat, nat), cities: set<int>)
    requires IsTourOf(first, cities) && IsTourOf(second, cities)
    ensures |first| == |cities| && |ChildGenes(first, second, crossIndex)| == |cities|
    ensures IsTourOf(AfterMutationTest(ChildGenes(first, second, crossIndex), test, mutationRate, swap), cities)
  {
    var child := ChildGenes(first, second, crossIndex);
    ChildIsTour(first, second, crossIndex, cities);
    if swap.0 < |child| && swap.1 < |child| {
      SwapPreservesTour(child, swap.0, swap.1, cities);
    }
  }

  /** Every child bred from tours is a tour of the same cities. */
  lemma OffspringIsTour(pg: seq<seq<int>>, cities: set<int>, rnd: RandomDraws, mutationRate: real,
                        p: nat, side: nat)
    requires side <= 1 && 2 * p + 1 < |pg|
    requires IsTourOf(pg[2 * p], cities) && IsTourOf(pg[2 * p + 1], cities)
    requires p < |rnd.crossIndices| && 2 * p + 1 < |rnd.mutationTests| && 2 * p + 1 < |rnd.swaps|
    ensures IsTourOf(Offspring(pg, rnd, mutationRate, p, side), cities)
  {
    MutatedChildIsTour(pg[2 * p + side], pg[2 * p + 1 - side], rnd.crossIndices[p],
                       rnd.mutationTests[2 * p + side], mutationRate, rnd.swaps[2 * p + side], cities);
  }

  /** Child 2p + side of the brood is the child of pair p on that side. */
  lemma BroodEntry(pg: seq<seq<int>>, rnd: RandomDraws, mutationRate: real, pairs: nat, p: nat, side: nat)
    requires p < pairs && side <= 1 && 2 * pairs <= |pg|
    requires |rnd.crossIndices| >= pairs && |rnd.mutationTests| >= 2 * pairs && |rnd.swaps| >= 2 * pairs
    ensures Brood(pg, rnd, mutationRate, pairs)[2 * p + side] == Offspring(pg, rnd, mutationRate, p, side)
  {
    assert (2 * p + side) / 2 == p && (2 * p + side) % 2 == side;
  }

  /** Crossover at a cross index drawn with Random.Next(|parent1.genes| - 1):
      two new chromosomes, the first starting with parent1's prefix, the
      second with parent2's. The parents are not changed. */
  method Crossover(parent1: Chromosome, parent2: Chromosome, crossIndex: nat, dist: (int, int) -> real)
    returns (children: seq<Chromosome>)
    requires IsNext(crossIndex, |parent1.genes| - 1)
    ensures |children| == 2 && fresh(children[0]) && fresh(children[1]) && children[0] != children[1]
    ensures children[0].genes == ChildGenes(parent1.genes, parent2.genes, crossIndex)
    ensures children[1].genes == ChildGenes(parent2.genes, parent1.genes, crossIndex)
    ensures children[0].FitnessIsCurrent(dist) && children[1].FitnessIsCurrent(dist)
  {
    var parent1prev := Take(parent1.genes, crossIndex);
    var parent2prev := Take(parent2.genes, crossIndex);
    var parent1next := Skip(parent1.genes, crossIndex);
    var parent2next := Skip(parent2.genes, crossIndex);
    var newParent1 := Distinct(parent1prev + parent2next + parent2prev);
    var newParent2 := Distinct(parent2prev + parent1next + parent1prev);
    var child1 := new Chromosome(newParent1, dist);
    var child2 := new Chromosome(newParent2, dist);
    children := [child1, child2];
  }

  /** population.OrderBy(c => c.Fitness).Take(count). */
  function Elites(population: seq<Chromosome>, count: nat): (r: seq<Chromosome>)
    requires count <= |population|
    reads population
    ensures |r| == count
    ensures forall k :: 0 <= k < count ==> r[k] in population
    ensures NoDups(population) ==> NoDups(r)
  {
    var order := OrderBy(Fitnesses(population));
    seq(count, k requires 0 <= k < count => population[order[k]])
  }

  /** The elites are the best chromosomes, best first: none has a larger
      fitness than a chromosome that is not among them, and they appear in
      order of fitness, ties in population order. */
  lemma ElitesAreBest(population: seq<Chromosome>, count: nat)
    requires count <= |population|
    ensures var order := OrderBy(Fitnesses(population));
      && (forall k :: 0 <= k < count ==> Elites(population, count)[k] == population[order[k]])
      && (forall i, j :: 0 <= i < count <= j < |population| ==>
            population[order[i]].fitness <= population[order[j]].fitness)
      && (forall i, j :: 0 <= i < j < count ==>
            population[order[i]].fitness <= population[order[j]].fitness)
  {
    var keys := Fitnesses(population);
    var order := OrderBy(keys);
    OrderByPrefixIsBest(keys, count);
    forall i, j | 0 <= i < j < count ensures keys[order[i]] <= keys[order[j]] {
      assert Precedes(keys, order[i], order[j]);
    }
  }

  /** Chromosomes taken from a population of tours are tours. */
  lemma MembersAreTours(population: seq<Chromosome>, chosen: seq<Chromosome>, cities: set<int>,
                        dist: (int, int) -> real)
    requires AllToursOf(population, cities, dist)
    requires forall k :: 0 <= k < |chosen| ==> chosen[k] in population
    ensures AllToursOf(chosen, cities, dist)
  {
    forall k | 0 <= k < |chosen| ensures chosen[k].FitnessIsCurrent(dist) && IsTourOf(chosen[k].genes, cities) {
      var m :| 0 <= m < |population| && population[m] == chosen[k];
    }
  }

  /** The body of `foreach (var ch in children)`: each child is mutated when
      its mutation test passes, then added to the new population. */
  method AddChildren(newPopulation: seq<Chromosome>, children: seq<Chromosome>, tests: seq<real>,
                     swaps: seq<(nat, nat)>, mutationRate: real, dist: (int, int) -> real)
    returns (result: seq<Chromosome>)
    requires |tests| >= |children| && |swaps| >= |children|
    requires NoDups(children) && forall m :: 0 <= m < |children| ==> children[m] !in newPopulation
    requires forall m :: 0 <= m < |children| ==>
               && swaps[m].0 < |children[m].genes| && swaps[m].1 < |children[m].genes|
               && children[m].FitnessIsCurrent(dist)
    modifies children
    ensures result == newPopulation + children
    ensures forall m :: 0 <= m < |children| ==>
              && children[m].genes == AfterMutationTest(old(children[m].genes), tests[m], mutationRate, swaps[m])
              && children[m].FitnessIsCurrent(dist)
  {
    result := newPopulation;
    for j := 0 to |children|
      invariant result == newPopulation + children[..j]
      invariant forall m :: 0 <= m < j ==>
                  && children[m].genes == AfterMutationTest(old(children[m].genes), tests[m], mutationRate, swaps[m])
                  && children[m].FitnessIsCurrent(dist)
      invariant forall m :: j <= m < |children| ==>
                  children[m].genes == old(children[m].genes) && children[m].FitnessIsCurrent(dist)
    {
      var ch := children[j];
      if ShouldMutate(tests[j], mutationRate) {
        ch.Mutate(swaps[j].0, swaps[j].1, dist);
      }
      assert children[..j + 1] == children[..j] + [ch];
      result := result + [ch];
    }
    assert children[..|children|] == children;
  }

  /** The body of the pair loop: crossover of two parents at a cross index
      drawn with Random.Next(|parent1.genes| - 1), then each child, after its
      mutation test, is added to the new population. Only the two new
      chromosomes are changed. */
  method BreedPair(newPopulation: seq<Chromosome>, parent1: Chromosome, parent2: Chromosome, crossIndex: nat,
                   test1: real, test2: real, swap1: (nat, nat), swap2: (nat, nat),
                   mutationRate: real, dist: (int, int) -> real)
    returns (result: seq<Chromosome>)
    requires IsNext(crossIndex, |parent1.genes| - 1)
    requires var child1 := ChildGenes(parent1.genes, parent2.genes, crossIndex);
             swap1.0 < |child1| && swap1.1 < |child1|
    requires var child2 := ChildGenes(parent2.genes, parent1.genes, crossIndex);
             swap2.0 < |child2| && swap2.1 < |child2|
    ensures |result| == |newPopulation| + 2
    ensures result == newPopulation + [result[|newPopulation|], result[|newPopulation| + 1]]
    ensures fresh(result[|newPopulation|]) && fresh(result[|newPopulation| + 1])
    ensures result[|newPopulation|] != result[|newPopulation| + 1]
    ensures result[|newPopulation|].genes
            == AfterMutationTest(ChildGenes(parent1.genes, parent2.genes, crossIndex), test1, mutationRate, swap1)
    ensures result[|newPopulation| + 1].genes
            == AfterMutationTest(ChildGenes(parent2.genes, parent1.genes, crossIndex), test2, mutationRate, swap2)
    ensures result[|newPopulation|].FitnessIsCurrent(dist) && result[|newPopulation| + 1].FitnessIsCurrent(dist)
  {
    var children := Crossover(parent1, parent2, crossIndex, dist);
    assert children == [children[0], children[1]];
    result := AddChildren(newPopulation, children, [test1, test2], [swap1, swap2], mutationRate, dist);
  }

  /** One turn of the pair loop, for pair p, as a step of the brood: the
      chromosomes added since `start` are the first entries of the brood
      `full`, with current fitness; after parents 2p and 2p + 1 are crossed
      at cross index p and their children added, they are so two entries
      further. */
  method BreedNextPair(newPopulation: seq<Chromosome>, start: nat, parents: seq<Chromosome>, p: nat,
                       mutationRate: real, rnd: RandomDraws, dist: (int, int) -> real,
                       ghost cities: set<int>, ghost pg: seq<seq<int>>, ghost pairs: nat, ghost full: seq<seq<int>>)
    returns (result: seq<Chromosome>)
    requires p < pairs && 2 * pairs <= |parents| == |pg|
    requires parents[2 * p].genes == pg[2 * p] && parents[2 * p + 1].genes == pg[2 * p + 1]
    requires IsTourOf(pg[2 * p], cities) && IsTourOf(pg[2 * p + 1], cities)
    requires BreedingDrawsFit(rnd, |cities|)
    requires |rnd.crossIndices| >= pairs && |rnd.mutationTests| >= 2 * pairs && |rnd.swaps| >= 2 * pairs
    requires |full| == 2 * pairs
    requires forall q :: 0 <= q < pairs ==>
               full[2 * q] == Offspring(pg, rnd, mutationRate, q, 0)
               && full[2 * q + 1] == Offspring(pg, rnd, mutationRate, q, 1)
    requires |newPopulation| == start + 2 * p
    requires forall k :: start <= k < |newPopulation| ==>
               newPopulation[k].FitnessIsCurrent(dist) && newPopulation[k].genes == full[k - start]
    ensures |result| == |newPopulation| + 2
    ensures result == newPopulation + [result[|newPopulation|], result[|newPopulation| + 1]]
    ensures fresh(result[|newPopulation|]) && fresh(result[|newPopulation| + 1])
    ensures result[|newPopulation|] != result[|newPopulation| + 1]
    ensures forall k :: start <= k < |result| ==>
              result[k].FitnessIsCurrent(dist) && result[k].genes == full[k - start]
    ensures NoDups(newPopulation) ==> NoDups(result)
  {
    var crossIndex := rnd.crossIndices[p];
    ChildLength(pg[2 * p], pg[2 * p + 1], crossIndex, cities);
    ChildLength(pg[2 * p + 1], pg[2 * p], crossIndex, cities);
    assert full[2 * p] == Offspring(pg, rnd, mutationRate, p, 0);
    assert full[2 * p + 1] == Offspring(pg, rnd, mutationRate, p, 1);
    result := BreedPair(newPopulation, parents[2 * p], parents[2 * p + 1], crossIndex,
                        rnd.mutationTests[2 * p], rnd.mutationTests[2 * p + 1], rnd.swaps[2 * p], rnd.swaps[2 * p + 1],
                        mutationRate, dist);
    forall k | start <= k < |newPopulation|
      ensures result[k].FitnessIsCurrent(dist) && result[k].genes == full[k - start]
    {
      assert result[k] == newPopulation[k];
    }
    NoDupsAppend(newPopulation, result[|newPopulation|..]);
  }

  /** The brood is the only sequence of 2 * pairs entries whose entries 2p
      and 2p + 1 are the two children of pair p. */
  lemma PairwiseIsBrood(pg: seq<seq<int>>, rnd: RandomDraws, mutationRate: real, pairs: nat, full: seq<seq<int>>)
    requires 2 * pairs <= |pg|
    requires |rnd.crossIndices| >= pairs && |rnd.mutationTests| >= 2 * pairs && |rnd.swaps| >= 2 * pairs
    requires |full| == 2 * pairs
    requires forall q :: 0 <= q < pairs ==>
               full[2 * q] == Offspring(pg, rnd, mutationRate, q, 0)
               && full[2 * q + 1] == Offspring(pg, rnd, mutationRate, q, 1)
    ensures full == Brood(pg, rnd, mutationRate, pairs)
  {
    var brood := Brood(pg, rnd, mutationRate, pairs);
    forall k | 0 <= k < 2 * pairs ensures full[k] == brood[k] {
      var q, side := k / 2, k % 2;
      assert k == 2 * q + side;
      BroodEntry(pg, rnd, mutationRate, pairs, q, side);
    }
  }

  /** The brood, given by what its entries are: entries 2p and 2p + 1 are the
      children of pair p. */
  lemma BroodByPairs(pg: seq<seq<int>>, rnd: RandomDraws, mutationRate: real, pairs: nat)
    returns (full: seq<seq<int>>)
    requires 2 * pairs <= |pg|
    requires |rnd.crossIndices| >= pairs && |rnd.mutationTests| >= 2 * pairs && |rnd.swaps| >= 2 * pairs
    ensures |full| == 2 * pairs
    ensures forall q :: 0 <= q < pairs ==>
              full[2 * q] == Offspring(pg, rnd, mutationRate, q, 0)
              && full[2 * q + 1] == Offspring(pg, rnd, mutationRate, q, 1)
  {
    full := Brood(pg, rnd, mutationRate, pairs);
    forall q | 0 <= q < pairs
      ensures full[2 * q] == Offspring(pg, rnd, mutationRate, q, 0)
           && full[2 * q + 1] == Offspring(pg, rnd, mutationRate, q, 1)
    {
      BroodEntry(pg, rnd, mutationRate, pairs, q, 0);
      BroodEntry(pg, rnd, mutationRate, pairs, q, 1);
    }
  }

  /** Every child of a brood given pair by pair is a tour. */
  lemma PairwiseEntryIsTour(pg: seq<seq<int>>, cities: set<int>, rnd: RandomDraws, mutationRate: real,
                            pairs: nat, full: seq<seq<int>>, j: nat)
    requires 2 * pairs <= |pg| && forall m :: 0 <= m < |pg| ==> IsTourOf(pg[m], cities)
    requires |rnd.crossIndices| >= pairs && |rnd.mutationTests| >= 2 * pairs && |rnd.swaps| >= 2 * pairs
    requires |full| == 2 * pairs
    requires forall q :: 0 <= q < pairs ==>
               full[2 * q] == Offspring(pg, rnd, mutationRate, q, 0)
               && full[2 * q + 1] == Offspring(pg, rnd, mutationRate, q, 1)
    requires j < 2 * pairs
    ensures IsTourOf(full[j], cities)
  {
    var q, side := j / 2, j % 2;
    assert j == 2 * q + side;
    OffspringIsTour(pg, cities, rnd, mutationRate, q, side);
  }

  /** A population whose first `start` chromosomes are tours with current
      fitness, followed by chromosomes with current fitness whose genes are
      the children of pairs of tours, is a population of tours. */
  lemma PairwisePopulationIsTours(population: seq<Chromosome>, start: nat, pg: seq<seq<int>>, cities: set<int>,
                                  rnd: RandomDraws, mutationRate: real, pairs: nat, full: seq<seq<int>>,
                                  dist: (int, int) -> real)
    requires start <= |population| && AllToursOf(population[..start], cities, dist)
    requires 2 * pairs <= |pg| && forall m :: 0 <= m < |pg| ==> IsTourOf(pg[m], cities)
    requires |rnd.crossIndices| >= pairs && |rnd.mutationTests| >= 2 * pairs && |rnd.swaps| >= 2 * pairs
    requires |population| == start + 2 * pairs && |full| == 2 * pairs
    requires forall q :: 0 <= q < pairs ==>
               full[2 * q] == Offspring(pg, rnd, mutationRate, q, 0)
               && full[2 * q + 1] == Offspring(pg, rnd, mutationRate, q, 1)
    requires forall k :: start <= k < |population| ==>
               population[k].FitnessIsCurrent(dist) && population[k].genes == full[k - start]
    ensures AllToursOf(population, cities, dist)
    ensures GenesOf(population[start..]) == full
  {
    forall k | 0 <= k < |population|
      ensures population[k].FitnessIsCurrent(dist) && IsTourOf(population[k].genes, cities)
    {
      if k < start {
        assert population[..start][k] == population[k];
      } else {
        PairwiseEntryIsTour(pg, cities, rnd, mutationRate, pairs, full, k - start);
      }
    }
    assert forall k :: 0 <= k < 2 * pairs ==> GenesOf(population[start..])[k] == full[k];
  }

  /** The loop `for (i = 0; i < parents.Count - 1; i += 2)`: the pair of
      parents i and i + 1 is crossed at cross index i / 2, and both children
      are added after their mutation tests i and i + 1; the chromosomes added
      are the brood `full`, in order, with current fitness. */
  method BreedLoop(newPopulation: seq<Chromosome>, parents: seq<Chromosome>, mutationRate: real,
                   rnd: RandomDraws, dist: (int, int) -> real,
                   ghost cities: set<int>, ghost pg: seq<seq<int>>, ghost pairs: nat, ghost full: seq<seq<int>>)
    returns (result: seq<Chromosome>)
    requires 2 * pairs <= |parents| <= 2 * pairs + 1 && |pg| == |parents|
    requires forall m :: 0 <= m < |parents| ==> parents[m].genes == pg[m] && IsTourOf(pg[m], cities)
    requires BreedingDrawsFit(rnd, |cities|)
    requires |rnd.crossIndices| >= pairs && |rnd.mutationTests| >= 2 * pairs && |rnd.swaps| >= 2 * pairs
    requires |full| == 2 * pairs
    requires forall q :: 0 <= q < pairs ==>
               full[2 * q] == Offspring(pg, rnd, mutationRate, q, 0)
               && full[2 * q + 1] == Offspring(pg, rnd, mutationRate, q, 1)
    ensures |result| == |newPopulation| + 2 * pairs && result[..|newPopulation|] == newPopulation
    ensures forall k :: |newPopulation| <= k < |result| ==> fresh(result[k])
    ensures forall k :: |newPopulation| <= k < |result| ==>
              result[k].FitnessIsCurrent(dist) && result[k].genes == full[k - |newPopulation|]
    ensures NoDups(newPopulation) ==> NoDups(result)
  {
    var start := |newPopulation|;
    result := newPopulation;
    var i, p := 0, 0;
    while i < |parents| - 1
      invariant 0 <= i <= |parents| && i == 2 * p && p <= pairs
      invariant |result| == start + i && result[..start] == newPopulation
      invariant forall k :: start <= k < |result| ==> fresh(result[k])
      invariant forall k :: start <= k < |result| ==>
                  result[k].FitnessIsCurrent(dist) && result[k].genes == full[k - start]
      invariant NoDups(newPopulation) ==> NoDups(result)
    {
      result := BreedNextPair(result, start, parents, p, mutationRate, rnd, dist, cities, pg, pairs, full);
      i, p := i + 2, p + 1;
    }
  }

  /** The pair loop of EvolvePopulation: every pair (0, 1), (2, 3), ... of
      the parents contributes its two children; an odd last parent has none.
      Nothing that existed before is changed. */
  method BreedPairs(newPopulation: seq<Chromosome>, parents: seq<Chromosome>, mutationRate: real,
                    rnd: RandomDraws, dist: (int, int) -> real, ghost cities: set<int>)
    returns (result: seq<Chromosome>)
    requires AllToursOf(newPopulation, cities, dist) && AllToursOf(parents, cities, dist)
    requires BreedingDrawsFit(rnd, |cities|)
    requires |rnd.crossIndices| >= |parents| / 2
    requires |rnd.mutationTests| >= 2 * (|parents| / 2) && |rnd.swaps| >= 2 * (|parents| / 2)
    ensures |result| == |newPopulation| + 2 * (|parents| / 2)
    ensures result[..|newPopulation|] == newPopulation
    ensures forall k :: |newPopulation| <= k < |result| ==> fresh(result[k])
    ensures GenesOf(result[|newPopulation|..]) == Brood(GenesOf(parents), rnd, mutationRate, |parents| / 2)
    ensures AllToursOf(result, cities, dist)
    ensures NoDups(newPopulation) ==> NoDups(result)
  {
    ghost var pg := GenesOf(parents);
    ghost var pairs := |parents| / 2;
    ghost var full := BroodByPairs(pg, rnd, mutationRate, pairs);
    result := BreedLoop(newPopulation, parents, mutationRate, rnd, dist, cities, pg, pairs, full);
    PairwisePopulationIsTours(result, |newPopulation|, pg, cities, rnd, mutationRate, pairs, full, dist);
    PairwiseIsBrood(pg, rnd, mutationRate, pairs, full);
  }

  /** The parents selected from a population of n by the selection draws:
      never more than the n - ElitismCount(n) asked for, so they form at most
      MaxPairs(n) pairs. */
  function ParentsOf(population: seq<Chromosome>, rnd: RandomDraws): (r: seq<Chromosome>)
    requires DrawsIndex(rnd.selection, |population|)
    ensures |r| <= |population| - ElitismCount(|population|)
    ensures |r| / 2 <= MaxPairs(|population|)
  {
    SelectFrom(population, rnd.selection, |population| - ElitismCount(|population|), [])
  }

  /** The elites of a population of tours are tours. */
  lemma ElitesAreTours(population: seq<Chromosome>, count: nat, cities: set<int>, dist: (int, int) -> real)
    requires count <= |population| && AllToursOf(population, cities, dist)
    ensures AllToursOf(Elites(population, count), cities, dist)
  {
    MembersAreTours(population, Elites(population, count), cities, dist);
  }

  /** The parents selected from a population of tours are tours. */
  lemma ParentsAreTours(population: seq<Chromosome>, rnd: RandomDraws, cities: set<int>, dist: (int, int) -> real)
    requires DrawsIndex(rnd.selection, |population|) && AllToursOf(population, cities, dist)
    ensures AllToursOf(ParentsOf(population, rnd), cities, dist)
  {
    SelectFromYields(population, rnd.selection, |population| - ElitismCount(|population|), []);
    MembersAreTours(population, ParentsOf(population, rnd), cities, dist);
  }

  /** When the population holds distinct chromosomes and the draws name
      enough distinct indices, every parent asked for is selected, and the
      parents form MaxPairs(n) pairs. */
  lemma ExactParentsFormMaxPairs(population: seq<Chromosome>, rnd: RandomDraws)
    requires DrawsIndex(rnd.selection, |population|)
    requires NoDups(population) && |Elems(rnd.selection)| >= |population| - ElitismCount(|population|)
    ensures |ParentsOf(population, rnd)| / 2 == MaxPairs(|population|)
  {
    SelectionIsExact(population, rnd.selection, |population| - ElitismCount(|population|));
  }

  /** EvolvePopulation: the elites (the first ElitismCount(n) chromosomes of
      the population stably sorted by fitness) are kept as they are, then
      n - ElitismCount(n) parents are selected, and every pair (0, 1),
      (2, 3), ... contributes its two children, each mutated or not by its
      mutation test. Nothing that existed before is changed. */
  method EvolvePopulation(population: seq<Chromosome>, mutationRate: real, rnd: RandomDraws,
                          dist: (int, int) -> real, ghost cities: set<int>)
    returns (newPopulation: seq<Chromosome>)
    requires AllToursOf(population, cities, dist)
    requires DrawsIndex(rnd.selection, |population|)
    requires BreedingDrawsFit(rnd, |cities|) && EnoughDraws(rnd, |population|)
    ensures var n := |population|;
            var elitism := ElitismCount(n);
            var parents := ParentsOf(population, rnd);
      && |newPopulation| == elitism + 2 * (|parents| / 2)
      && newPopulation[..elitism] == old(Elites(population, elitism))
      && (forall k :: elitism <= k < |newPopulation| ==> fresh(newPopulation[k]))
      && GenesOf(newPopulation[elitism..]) == Brood(GenesOf(parents), rnd, mutationRate, |parents| / 2)
    ensures NoDups(population) && |Elems(rnd.selection)| >= |population| - ElitismCount(|population|)
            ==> |newPopulation| == NextSize(|population|)
    ensures forall k :: 0 <= k < |population| ==>
              population[k].genes == old(population[k].genes) && population[k].fitness == old(population[k].fitness)
    ensures AllToursOf(newPopulation, cities, dist)
    ensures NoDups(population) ==> NoDups(newPopulation)
  {
    var elitism := ElitismCount(|population|);
    newPopulation := Elites(population, elitism);
    ElitesAreTours(population, elitism, cities, dist);

    var numberOfParents := |population| - elitism;
    var parents := SelectParents(population, numberOfParents, rnd.selection);
    assert parents == ParentsOf(population, rnd);
    ParentsAreTours(population, rnd, cities, dist);

    newPopulation := BreedPairs(newPopulation, parents, mutationRate, rnd, dist, cities);
    if NoDups(population) && |Elems(rnd.selection)| >= numberOfParents {
      ExactParentsFormMaxPairs(population, rnd);
    }
  }
}
