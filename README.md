# A verified model of one generation of a TSP genetic algorithm

The program evolves a population of tours through a set of cities. A tour
(`Chromosome`) is an ordering of the cities whose fitness is the cached length
of the open path through them. One generation (`EvolvePopulation`) takes three
steps:

- **Elitism.** It keeps the best tenth of the population unchanged.
- **Selection.** It draws the remaining number of distinct parents at random.
- **Breeding.** It crosses the parents in consecutive pairs (0 and 1, 2 and 3,
  and so on). Each child is mutated by one exchange of two cities when its
  mutation test passes.

This project models that generation step in Dafny:

- module `Linq`: the LINQ operators it relies on (`Take`, `Skip`, `Distinct`);
- module `Ordering`: the stable `OrderBy`;
- module `Tours`: tours, the swap, and path length;
- module `Chromosomes`: the `Chromosome` class, whose `genes` and `fitness`
  fields change in place;
- module `Recombination`: the crossover gene lists;
- module `Selection`: parent selection without replacement;
- module `Evolution`: the generation step itself.

Each operation is written in the form the code takes. The LINQ pipelines are
functions. `SwapCities` and `Mutate` are methods that update the class's
mutable fields in place. `CalculateFitness`, `SelectParents` (with its
do-while), the `foreach` over the children and the pair loop are methods with
loops and their invariants.

A city is represented by its `Index`, and a tour is a `seq<int>`. The distance
between two cities is a parameter `dist`. Every random draw is also a
parameter, carrying the range of the .NET call it replaces (module `Draws`):

- the selection indices;
- one cross index per pair;
- one mutation test and two swap positions per child.

The main results:

- **Crossover repairs the permutation.** Each child of two tours of a city
  set is a tour of that set. It begins with its own parent's prefix and then
  continues with the other parent's cities in rotated order, minus those
  already used.
- **Distinct is first-occurrence deduplication.** Its result has no
  duplicates, keeps every element, and keeps them in the order of first
  occurrence.
- **A mutation swap is a permutation.** It exchanges exactly two positions
  and keeps a tour a tour. The cached fitness is current after every change.
- **Selection yields distinct members of the population.** When the
  population is free of duplicates and the draws name enough distinct
  indices, it yields exactly the number of members asked for.
- **The elites are the best chromosomes.** They are the first entries of a
  stable sort by fitness, and they come first, unchanged, in the new
  population.
- **The rest of the new population is the brood.** Those entries are exactly
  the children of the parent pairs, in order.
- **The next size.** It is `n / 10 + 2 * ((n - n / 10) / 2)`, so it never
  exceeds `n`. It equals `n` exactly when `n - n / 10` is even, and is `n - 1`
  otherwise.
- **Preserved invariants.** A population of tours with current fitness and no
  duplicate chromosomes stays one, and the old chromosomes are never changed.

## Model

| member | source | states |
|---|---|---|
| Linq.Take | Program.cs:122-123 | `Enumerable.Take`: a prefix of the input, of length n or the whole input when it is shorter |
| Linq.Skip | Program.cs:123-124 | `Enumerable.Skip`: the rest after `Take`, so that `Take(s, n) + Skip(s, n) == s` |
| Linq.DistinctFrom | Program.cs:126-127 | `Distinct` as it streams, with a set of elements already seen: it never yields more elements than its input has |
| Linq.Distinct | Program.cs:126-127 | `Distinct()`: no element twice, and exactly the elements of the input |
| Linq.DistinctFromYields | Program.cs:126-127 | `Distinct` as it streams yields no element twice, and exactly the input elements not already seen |
| Linq.DistinctFromFirstOccurrenceOrder | Program.cs:126-127 | the elements `Distinct` yields come in the order of their first occurrences in the input |
| Linq.DistinctIsFirstOccurrenceDedup | Program.cs:126-127 | `Distinct`: duplicate-free, keeps every input element, in first-occurrence order |
| Linq.DistinctFromKeepsPrefix | Program.cs:126-127 | a duplicate-free prefix unseen so far passes through `Distinct` unchanged, and is then counted as seen |
| Linq.DistinctFromOfNoDups | Program.cs:126-127 | on a duplicate-free input, `Distinct` only drops what was already seen |
| Ordering.Insert | Program.cs:72 | inserting a position into a stably sorted list keeps it sorted, with the same elements plus the new one |
| Ordering.SortPositions | Program.cs:72 | the stable insertion sort puts the positions in (key, position) order, as a permutation of its input |
| Ordering.OrderBy | Program.cs:72 | `OrderBy(c => c.Fitness)`: every position exactly once, sorted by key, ties in input order |
| Ordering.OrderByPrefixIsBest | Program.cs:72 | no entry of the first e positions of the order has a larger key than a later one, and ties keep input order |
| Ordering.SortedArrangementIsUnique | Program.cs:72 | two stably sorted arrangements of the same positions are equal, so OrderBy's result is the only one |
| Tours.Swapped | Program.cs:180-182 | the exchange puts g[j] at i and g[i] at j, leaves every other position alone, and is a no-op when i == j |
| Tours.SwapIsPermutation | Program.cs:180-182 | the exchange leaves the multiset of cities unchanged |
| Tours.SwapPreservesTour | Program.cs:180-182 | an exchange of two positions of a tour is a tour of the same cities |
| Tours.PathLength | Program.cs:163-166 | the open path length, summed over the consecutive pairs; never negative when no distance is |
| Tours.PathLengthAppend | Program.cs:165-166 | one more city adds the distance of the new last leg to the path length |
| Tours.PathLengthOfThree | Program.cs:163-168 | a worked example of the sum: a path of fewer than two cities has length 0, and three cities a, b, c give dist(a, b) + dist(b, c) |
| Draws.IsNext | Program.cs:117 | the values `Random.Next(maxValue)` can return: in [0, maxValue), or 0 when maxValue is 0, and none when maxValue is negative (a definition, no contract) |
| Draws.IsNextDouble | Program.cs:85 | the values `Random.NextDouble()` can return: in [0, 1) (a definition, no contract) |
| Chromosomes.Chromosome.constructor | Program.cs:155-159 | the new chromosome holds the given genes, with current fitness |
| Chromosomes.Chromosome.CalculateFitness | Program.cs:161-169 | the loop over i in [0, Count - 2] stores the open path length of the genes in `fitness` |
| Chromosomes.Chromosome.SwapCities | Program.cs:178-184 | the genes become the old genes with the two positions exchanged, and the fitness is current again |
| Chromosomes.Chromosome.Mutate | Program.cs:174-176 | a swap at two drawn positions: the multiset of genes is unchanged and the fitness is current |
| Recombination.ChildGenes | Program.cs:122-127 | the child's gene list has no city twice, and holds exactly the cities of its own parent's prefix and of the other parent |
| Recombination.RotationIsTour | Program.cs:123-126 | the second parent read as suffix then prefix is still a tour of the same cities |
| Recombination.ChildKeepsPrefix | Program.cs:122-127 | a child is its own parent's prefix followed by the other parent's rotated cities without the prefix cities |
| Recombination.ChildIsTour | Program.cs:117-127 | for every cross index, the child of two tours of one city set is a tour of that set and a permutation of both parents |
| Recombination.ChildLength | Program.cs:126-127 | a child has as many cities as either parent |
| Selection.SelectFrom | Program.cs:99-107 | selection from a draw stream never picks more parents than asked for |
| Selection.SelectFromYields | Program.cs:99-107 | selection extends the parents chosen so far, without duplicates and with population members only; if it stops short, every drawn member was chosen |
| Selection.SelectionIsExact | Program.cs:99-107 | with distinct members and at least `count` distinct indices among the draws, exactly `count` parents are selected |
| Selection.DrawUntilNew | Program.cs:103-104 | the do-while stops at the first draw whose member is not yet a parent, or at the last draw; the rejected draws do not change the outcome |
| Selection.SelectParents | Program.cs:95-110 | the loop returns what the selection function yields: distinct members of the population, at most numberOfParents, and exactly that many when selection is exact |
| Evolution.ElitismCount | Program.cs:69 | `(int)(n * 0.1)` is the e with 10e <= n < 10e + 10 |
| Evolution.MaxPairs | Program.cs:75-79 | the pairs the loop forms from n - elitism parents: twice their number is n - elitism, or one less |
| Evolution.NextSize | Program.cs:69-90 | the next size with all parents selected is at most n; it equals n iff n - elitism is even, and is n - 1 otherwise |
| Evolution.NextSizeStaysAboveOne | Program.cs:15-19 | from a population of two or more the next is never below two; a population of one would have no successor |
| Evolution.ShouldMutate | Program.cs:85 | the test as written, "draw > rate": a rate of 1 or more never mutates, a negative rate always does |
| Evolution.AfterMutationTest | Program.cs:85-86 | the genes after the mutation test are a permutation of the genes before, and unchanged when the test fails |
| Evolution.Offspring | Program.cs:81-88 | a child's final genes are a permutation of its crossover genes |
| Evolution.Brood | Program.cs:79-90 | two entries per pair; PairwiseIsBrood fixes them, entry 2p + side being the child of pair p on that side |
| Evolution.MutatedChildIsTour | Program.cs:81-88 | a crossover child of two tours, mutated or not, is a tour of the same cities |
| Evolution.OffspringIsTour | Program.cs:79-89 | every child bred from a pair of tours is a tour of the same cities |
| Evolution.Crossover | Program.cs:112-133 | two new and different chromosomes with current fitness, whose genes are the two crossover gene lists |
| Evolution.Elites | Program.cs:72 | `OrderBy(c => c.Fitness).Take(count)`: count members of the population, duplicate-free when the population is |
| Evolution.ElitesAreBest | Program.cs:72 | the elites are the first entries of the stable fitness order (the first conjunct names them so), best first, none with a larger fitness than a chromosome after them in that order |
| Evolution.ElitesAreTours | Program.cs:72 | the elites of a population of tours are tours with current fitness |
| Evolution.MembersAreTours | Program.cs:72-76 | chromosomes taken from a population of tours are tours with current fitness |
| Evolution.ParentsOf | Program.cs:75-76 | at most n - elitism parents are selected, so they form at most MaxPairs(n) pairs |
| Evolution.ParentsAreTours | Program.cs:75-76 | the parents selected from a population of tours are tours with current fitness |
| Evolution.ExactParentsFormMaxPairs | Program.cs:75-79 | when selection is exact the parents form (n - elitism) / 2 pairs |
| Evolution.AddChildren | Program.cs:83-89 | each child is mutated exactly when its test passes, keeps current fitness, and is appended in order |
| Evolution.BreedPair | Program.cs:81-89 | one pair adds two new, different chromosomes: the two crossover children after their mutation tests |
| Evolution.BreedNextPair | Program.cs:79-89 | one turn of the pair loop extends the added chromosomes by the next two brood entries, and adds no duplicate |
| Evolution.PairwiseIsBrood | Program.cs:79-90 | the brood is the only list of 2 * pairs entries whose entries 2p and 2p + 1 are the two children of pair p |
| Evolution.PairwiseEntryIsTour | Program.cs:79-90 | every entry of a brood of tours is a tour |
| Evolution.PairwisePopulationIsTours | Program.cs:79-90 | tours followed by the brood of tours with current fitness form a population of tours, and the genes after the tours are the brood |
| Evolution.BreedLoop | Program.cs:79-90 | the stride-2 loop appends, after the existing entries, new chromosomes with current fitness whose genes are the brood in order |
| Evolution.BreedPairs | Program.cs:79-90 | the pair loop keeps the existing entries and appends the brood of all (parents / 2) pairs; the result is a population of tours without new duplicates |
| Evolution.EvolvePopulation | Program.cs:66-93 | elites first, unchanged, then the children of the selected parents; old chromosomes untouched; next size as NextSize when selection is exact; tours and distinctness preserved |

## Left out

- `CalculateDistance` (Program.cs:171-172): the Euclidean distance in `double`
  (`Math.Sqrt`, `Math.Pow`) is floating-point numerics. The model takes the
  distance as a parameter `dist`.
- Fitness is a `real` in the model, and sums are exact. The rounding of
  `double` addition is not modelled.
- `City` (Program.cs:136-148) becomes its `Index`. `Distinct` in the code
  compares `City` references. Every tour holds the same `City` objects of one
  list, so comparing references there is the same as comparing indices.
- Randomness (Program.cs:3, 103, 117, 175-176): `random.Next`,
  `random.NextDouble` and the fresh `new Random()` in each `Mutate` are
  replaced by parameters. Each parameter carries the range of the call it
  replaces. Probabilities and seeding are not modelled.
- The random draws are a finite stream in the model. The code's do-while
  retries until it finds a new member, which may take any number of draws,
  and never stops when too few distinct members exist. In the model, when the
  stream runs out, the parents chosen so far are returned.
- SelectParents: the promise of exactly numberOfParents parents holds only
  for a duplicate-free population whose draws contain that many distinct
  indices. Those draws stand for the random source. The probabilistic
  termination of the retry loop is not modelled.
- `Main`, `GetRoute`, `GetCitiesAsStrings`, `DisplayAllFitnesses`,
  `GenerateCities` and `InitializePopulation` (Program.cs:5-64) are console
  output, the driver loop and random setup. Only the driver's stop at a
  population of one (Program.cs:17) is reflected, by
  `NextSizeStaysAboveOne`.
- ElitismCount: `(int)(population.Count * 0.1)` is computed in `double`, but
  the model uses `n / 10`. The double nearest 0.1 is slightly above 0.1, and
  the rounding error of the product is far smaller than the gap of at least
  0.1 to the next integer. So the truncated value is `n / 10` for every `int`
  count.
- The mutation test `random.NextDouble() > mutationRate` (Program.cs:85) is
  kept as written (`ShouldMutate`): a child is mutated when its draw exceeds
  the rate. The model does not judge whether the comparison was meant the
  other way.
- AfterMutationTest: the range test on the swap positions makes the function
  total. The code draws them with `Random.Next(Genes.Count)`, so for a
  non-empty tour they always lie inside it, and the test never changes the
  outcome there.
- Mutate/SwapCities: on an empty tour, `Random.Next(0)` returns 0 and
  `Genes[0]` throws. The model does not model that exception; it requires the
  positions to be inside the tour. The case is never reached from
  `EvolvePopulation`, because `Crossover` already throws on an empty parent.
- Draws.IsNext and Draws.IsNextDouble are the ranges of `Random.Next` and
  `Random.NextDouble`, written as definitions with no contract of their own.
- Crossover: for an empty first parent, `Random.Next(-1)` throws
  `ArgumentOutOfRangeException`. The model does not model the exception: no
  cross index is valid for such a parent.
- The public setter of `Chromosome.Genes` (Program.cs:152) is used only by
  the constructor. Assignments from outside the class are not modelled.
