/** Parent selection without replacement. The random source is a finite
    stream of drawn population indices; a draw whose member is already a
    parent is rejected and the next draw taken (the do-while retry). */
module Selection {
  import opened Linq
  import opened Chromosomes

  /** Every draw indexes the population. */
  predicate DrawsIndex(draws: seq<nat>, size: nat)
  {
    forall k :: 0 <= k < |draws| ==> draws[k] < size
  }

  /** The parents the draw stream yields, starting from those already chosen:
      a drawn member is added unless it was already chosen, until `count`
      parents are chosen or the draws run out, so never more than `count`
      when fewer were chosen before. */
  function SelectFrom(population: seq<Chromosome>, draws: seq<nat>, count: nat, chosen: seq<Chromosome>)
    : (r: seq<Chromosome>)
    requires DrawsIndex(draws, |population|)
    ensures |chosen| <= count ==> |r| <= count
    decreases |draws|
  {
    if |chosen| >= count || draws == [] then chosen
    else
      var c := population[draws[0]];
      SelectFrom(population, draws[1..], count, if c in chosen then chosen else chosen + [c])
  }

  /** What selection yields: it extends the parents already chosen, without
      duplicates and with members of the population only, never beyond
      `count`; and when it stops short of `count`, every drawn member has
      been chosen. */
  lemma {:induction false} SelectFromYields(population: seq<Chromosome>, draws: seq<nat>, count: nat,
                                            chosen: seq<Chromosome>)
    requires DrawsIndex(draws, |population|)
    ensures var r := SelectFrom(population, draws, count, chosen);
      && chosen <= r
      && (NoDups(chosen) ==> NoDups(r))
      && ((forall k :: 0 <= k < |chosen| ==> chosen[k] in population) ==>
            forall k :: 0 <= k < |r| ==> r[k] in population)
      && (|r| < count ==> forall k :: 0 <= k < |draws| ==> population[draws[k]] in r)
    decreases |draws|
  {
    if |chosen| < count && draws != [] {
      var c := population[draws[0]];
      var chosen' := if c in chosen then chosen else chosen + [c];
      var r := SelectFrom(population, draws[1..], count, chosen');
      assert forall k :: 1 <= k < |draws| ==> draws[k] == draws[1..][k - 1];
      SelectFromYields(population, draws[1..], count, chosen');
      if c !in chosen {
        NoDupsAppend(chosen, [c]);
      }
      assert c in chosen' && chosen' <= r;
    }
  }

  /** One draw of the stream at position j: taken if its member is new. */
  lemma SelectStep(population: seq<Chromosome>, draws: seq<nat>, j: nat, count: nat, chosen: seq<Chromosome>)
    requires DrawsIndex(draws, |population|)
    requires j < |draws| && |chosen| < count
    ensures var c := population[draws[j]];
      SelectFrom(population, draws[j..], count, chosen)
      == SelectFrom(population, draws[j + 1..], count, if c in chosen then chosen else chosen + [c])
  {
    assert draws[j..][0] == draws[j];
    assert draws[j..][1..] == draws[j + 1..];
  }

  /** A subset is no larger than its superset. */
  lemma SubsetCardinality(a: set<nat>, b: set<nat>)
    requires a <= b
    ensures |a| <= |b|
  {
    assert b == a + (b - a);
    assert a * (b - a) == {};
  }

  /** Positions of the population whose member is in r. */
  function PositionsIn(population: seq<Chromosome>, r: seq<Chromosome>): set<nat>
  {
    set k: nat | k < |population| && population[k] in r
  }

  /** Positions of the population that hold x. */
  function PositionsOf(population: seq<Chromosome>, x: Chromosome): set<nat>
  {
    set k: nat | k < |population| && population[k] == x
  }

  /** A member of a duplicate-free population sits at one position at most. */
  lemma PositionsOfBound(population: seq<Chromosome>, x: Chromosome)
    requires NoDups(population)
    ensures |PositionsOf(population, x)| <= 1
  {
    var hits := PositionsOf(population, x);
    if hits != {} {
      var k0 :| k0 in hits;
      assert hits == {k0};
    }
  }

  /** The positions of members of init + [last] are those of init and those of last. */
  lemma PositionsInAppend(population: seq<Chromosome>, init: seq<Chromosome>, last: Chromosome)
    ensures PositionsIn(population, init + [last]) == PositionsIn(population, init) + PositionsOf(population, last)
  {
    forall x | x in init + [last] ensures x in init || x == last {}
  }

  /** When the population holds distinct members, no more positions hold a
      member of r than r is long. */
  lemma {:induction false} PositionsInBound(population: seq<Chromosome>, r: seq<Chromosome>)
    requires NoDups(population)
    ensures |PositionsIn(population, r)| <= |r|
  {
    if r != [] {
      var init, last := r[..|r| - 1], r[|r| - 1];
      assert r == init + [last];
      PositionsInBound(population, init);
      PositionsInAppend(population, init, last);
      PositionsOfBound(population, last);
    }
  }

  /** With distinct members and at least `count` distinct indices among the
      draws, selection yields exactly `count` parents. */
  lemma SelectionIsExact(population: seq<Chromosome>, draws: seq<nat>, count: nat)
    requires DrawsIndex(draws, |population|)
    requires NoDups(population)
    requires |Elems(draws)| >= count
    ensures |SelectFrom(population, draws, count, [])| == count
  {
    var r := SelectFrom(population, draws, count, []);
    SelectFromYields(population, draws, count, []);
    if |r| < count {
      assert Elems(draws) <= PositionsIn(population, r);
      SubsetCardinality(Elems(draws), PositionsIn(population, r));
      PositionsInBound(population, r);
      assert false;
    }
  }

  /** The do-while of SelectParents: starting at position `next`, draw until
      the drawn member is not yet a parent or the draws run out. It stops at
      the first new member: every draw it rejects names a parent already
      chosen, and so changes nothing about what selection yields. */
  method DrawUntilNew(population: seq<Chromosome>, draws: seq<nat>, next: nat, count: nat,
                      parents: seq<Chromosome>)
    returns (randomIndex: nat, after: nat)
    requires DrawsIndex(draws, |population|)
    requires next < |draws| && |parents| < count
    ensures next < after <= |draws| && randomIndex == draws[after - 1]
    ensures population[randomIndex] !in parents || after == |draws|
    ensures forall k :: next <= k < after - 1 ==> population[draws[k]] in parents
    ensures SelectFrom(population, draws[after - 1..], count, parents)
         == SelectFrom(population, draws[next..], count, parents)
  {
    randomIndex := draws[next];
    after := next + 1;
    while population[randomIndex] in parents && after < |draws|
      invariant next < after <= |draws| && randomIndex == draws[after - 1]
      invariant forall k :: next <= k < after - 1 ==> population[draws[k]] in parents
      invariant SelectFrom(population, draws[after - 1..], count, parents)
             == SelectFrom(population, draws[next..], count, parents)
    {
      SelectStep(population, draws, after - 1, count, parents);
      randomIndex := draws[after];
      after := after + 1;
    }
  }

  /** SelectParents: numberOfParents times, draw an index until its member is
      not yet a parent, and add that member. The draws come from `draws` in
      order; when they run out the parents chosen so far are returned. */
  method SelectParents(population: seq<Chromosome>, numberOfParents: nat, draws: seq<nat>)
    returns (parents: seq<Chromosome>)
    requires DrawsIndex(draws, |population|)
    ensures parents == SelectFrom(population, draws, numberOfParents, [])
    ensures NoDups(parents) && |parents| <= numberOfParents
    ensures forall k :: 0 <= k < |parents| ==> parents[k] in population
    ensures NoDups(population) && |Elems(draws)| >= numberOfParents ==> |parents| == numberOfParents
  {
    parents := [];
    var next := 0;
    var i := 0;
    while i < numberOfParents && next < |draws|
      invariant 0 <= next <= |draws| && i == |parents| <= numberOfParents
      invariant NoDups(parents) && forall k :: 0 <= k < |parents| ==> parents[k] in population
      invariant SelectFrom(population, draws[next..], numberOfParents, parents)
             == SelectFrom(population, draws, numberOfParents, [])
    {
      var randomIndex;
      randomIndex, next := DrawUntilNew(population, draws, next, numberOfParents, parents);
      SelectStep(population, draws, next - 1, numberOfParents, parents);
      if population[randomIndex] !in parents {
        NoDupsAppend(parents, [population[randomIndex]]);
        parents := parents + [population[randomIndex]];
        i := i + 1;
      }
    }
    assert draws[next..] == [] || |parents| >= numberOfParents;
    if NoDups(population) && |Elems(draws)| >= numberOfParents {
      SelectionIsExact(population, draws, numberOfParents);
    }
  }
}
