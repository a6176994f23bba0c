/**
 * The engine's main loop. A `Simulation` holds its settings and the current
 * population, generates the first population, then for each epoch evaluates
 * costs, selects a mating pool, keeps its best units as elites, breeds the
 * rest, mutates the offspring and inverts offspring and elites into the next
 * population; a last pass evaluates the final population.
 *
 * The operators are abstract: `Operators` holds the cost function and the
 * selection, crossing, mutation and inversion functions the configuration
 * chose, plus the two random sources the loop itself calls. Every random
 * call reads the next position of one random stream (`draws`), so a run is
 * a function of the operators and of the stream's starting position.
 */
module Orchestrator {
  import opened Py
  import opened Sorting
  import opened Units
  import Selection

  /** The functions a run calls, each told the stream position of its random draws. */
  datatype Operators = Operators(
    cost: seq<real> -> real,
    select: (seq<Unit>, int, nat) -> seq<Unit>,
    cross: (Unit, Unit, nat) -> (Unit, Unit),
    mutate: (Unit, nat) -> Unit,
    invert: (Unit, nat) -> Unit,
    sampleTwo: (nat, nat) -> (int, int),
    uniform: (real, real, nat) -> real)

  /**
   * The random sources behave as Python's: `random.sample(xs, 2)` yields two
   * distinct positions of a list of two or more, `random.uniform(a, b)` a
   * value between `a` and `b`.
   */
  ghost predicate ValidOps(ops: Operators)
  {
    (forall n: nat, k: nat :: n >= 2 ==>
      0 <= ops.sampleTwo(n, k).0 < n && 0 <= ops.sampleTwo(n, k).1 < n && ops.sampleTwo(n, k).0 != ops.sampleTwo(n, k).1)
    && (forall lo: real, up: real, k: nat :: RMin(lo, up) <= ops.uniform(lo, up, k) <= RMax(lo, up))
  }

  /**
   * `_calculate_selection_size`: the tournament size for a tournament,
   * otherwise the floor of `percentage` percent of the population.
   */
  function CalculateSelectionSize(selectionType: Selection.SelectionMethodType, tournamentSize: int,
                                  percentage: int, populationSize: int): (n: int)
    ensures selectionType == Selection.Tournament ==> n == tournamentSize
    ensures selectionType != Selection.Tournament ==>
      n * 100 <= populationSize * percentage < n * 100 + 100
  {
    if selectionType == Selection.Tournament then tournamentSize
    else (populationSize * percentage) / 100
  }

  /** A percentage strictly between 0 and 100 selects fewer units than the population holds. */
  lemma SelectionSizeBelowPopulation(selectionType: Selection.SelectionMethodType, tournamentSize: int,
                                     percentage: int, populationSize: int)
    requires selectionType != Selection.Tournament
    requires populationSize > 0 && 0 < percentage < 100
    ensures 0 <= CalculateSelectionSize(selectionType, tournamentSize, percentage, populationSize) < populationSize
  {
    var n := CalculateSelectionSize(selectionType, tournamentSize, percentage, populationSize);
    assert populationSize * percentage < populationSize * 100;
    assert n * 100 < populationSize * 100;
  }

  /** The sort key of `sorted(..., key=lambda ind: ind.cost)`; units are evaluated before they are sorted. */
  function CostOf(u: Unit): real
  {
    if u.cost.Some? then u.cost.value else 0.0
  }

  /** `_mutate_units`: `mutation_func` on each unit, call `i` reading stream position `pos + i`. */
  function MutateUnits(ops: Operators, units: seq<Unit>, pos: nat): (r: seq<Unit>)
    ensures |r| == |units|
  {
    seq(|units|, i requires 0 <= i < |units| => ops.mutate(units[i], pos + i))
  }

  /** Mutating a list part by part: the second part's calls read the stream after the first part's. */
  lemma MutateUnitsAppend(ops: Operators, a: seq<Unit>, b: seq<Unit>, pos: nat)
    ensures MutateUnits(ops, a + b, pos) == MutateUnits(ops, a, pos) + MutateUnits(ops, b, pos + |a|)
  {
    var whole, left, right := MutateUnits(ops, a + b, pos), MutateUnits(ops, a, pos), MutateUnits(ops, b, pos + |a|);
    forall k | 0 <= k < |whole| ensures whole[k] == (left + right)[k] {
      if k >= |a| {
        assert (a + b)[k] == b[k - |a|];
      }
    }
  }

  /** `_inverse_units`: `inversion_func` on each unit, call `i` reading stream position `pos + i`. */
  function InverseUnits(ops: Operators, units: seq<Unit>, pos: nat): (r: seq<Unit>)
    ensures |r| == |units|
  {
    seq(|units|, i requires 0 <= i < |units| => ops.invert(units[i], pos + i))
  }

  /** Inverting a list part by part: the second part's calls read the stream after the first part's. */
  lemma InverseUnitsAppend(ops: Operators, a: seq<Unit>, b: seq<Unit>, pos: nat)
    ensures InverseUnits(ops, a + b, pos) == InverseUnits(ops, a, pos) + InverseUnits(ops, b, pos + |a|)
  {
    var whole, left, right := InverseUnits(ops, a + b, pos), InverseUnits(ops, a, pos), InverseUnits(ops, b, pos + |a|);
    forall k | 0 <= k < |whole| ensures whole[k] == (left + right)[k] {
      if k >= |a| {
        assert (a + b)[k] == b[k - |a|];
      }
    }
  }

  class Simulation {
    const populationSize: int
    const dimensions: int
    const lowerBounds: seq<real>
    const upperBounds: seq<real>
    const epochsNumber: int
    const selectionNum: int
    const isMaximCase: bool
    const eliteUnitsCount: nat
    const ops: Operators

    var population: seq<Unit>
    /** The next unread position of the random stream. */
    var draws: nat
    ghost var epochsRun: nat

    /**
     * `Simulation(config)`: copies the settings (the bounds are the cost
     * function's suggested `(lowers, uppers)`) and computes the selection
     * size once.
     */
    constructor(populationSize: int, dimensions: int, bounds: (seq<real>, seq<real>), epochsNumber: int,
                selectionType: Selection.SelectionMethodType, tournamentSize: int, selectionPercentage: int,
                isMaximCase: bool, eliteUnitsCount: nat, ops: Operators)
      ensures this.populationSize == populationSize && this.dimensions == dimensions
      ensures this.lowerBounds == bounds.0 && this.upperBounds == bounds.1
      ensures this.epochsNumber == epochsNumber && this.isMaximCase == isMaximCase
      ensures this.eliteUnitsCount == eliteUnitsCount && this.ops == ops
      ensures this.selectionNum ==
        CalculateSelectionSize(selectionType, tournamentSize, selectionPercentage, populationSize)
      ensures population == [] && draws == 0 && epochsRun == 0
    {
      this.populationSize := populationSize;
      this.dimensions := dimensions;
      this.lowerBounds := bounds.0;
      this.upperBounds := bounds.1;
      this.epochsNumber := epochsNumber;
      this.selectionNum := CalculateSelectionSize(selectionType, tournamentSize, selectionPercentage, populationSize);
      this.isMaximCase := isMaximCase;
      this.eliteUnitsCount := eliteUnitsCount;
      this.ops := ops;
      population := [];
      draws := 0;
      epochsRun := 0;
    }

    // ------------------------------------------------------------ initial population

    /** Both bound lists reach every dimension; otherwise indexing them raises. */
    predicate BoundsCover()
    {
      dimensions <= |lowerBounds| && dimensions <= |upperBounds|
    }

    /** The values of one unit from dimension `d` on, the first drawn at stream position `pos`. */
    function InitValues(d: nat, pos: nat): seq<real>
      requires BoundsCover()
      decreases dimensions - d
    {
      if d >= dimensions then []
      else [ops.uniform(lowerBounds[d], upperBounds[d], pos)] + InitValues(d + 1, pos + 1)
    }

    /** `n` fresh units drawn from stream position `pos` on, and the position after them. */
    function InitUnits(n: int, pos: nat): (seq<Unit>, nat)
      requires BoundsCover()
      decreases n
    {
      if n <= 0 then ([], pos)
      else
        var rest := InitUnits(n - 1, pos + Max(dimensions, 0));
        ([Unit(InitValues(0, pos), None)] + rest.0, rest.1)
    }

    /** The population `_generate_init_population` builds from stream position `pos`. */
    function InitPopulation(pos: nat): Result<(seq<Unit>, nat)>
    {
      if BoundsCover() then Ok(InitUnits(populationSize, pos)) else Err(IndexError)
    }

    lemma {:induction false} InitValuesShape(d: nat, pos: nat)
      requires ValidOps(ops) && BoundsCover()
      ensures d >= dimensions ==> InitValues(d, pos) == []
      ensures d < dimensions ==> |InitValues(d, pos)| == dimensions - d
      ensures forall j :: d <= j < dimensions ==>
        RMin(lowerBounds[j], upperBounds[j]) <= InitValues(d, pos)[j - d] <= RMax(lowerBounds[j], upperBounds[j])
      decreases dimensions - d
    {
      if d < dimensions {
        InitValuesShape(d + 1, pos + 1);
        var vs, rest := InitValues(d, pos), InitValues(d + 1, pos + 1);
        assert vs == [ops.uniform(lowerBounds[d], upperBounds[d], pos)] + rest;
        forall j | d < j < dimensions
          ensures RMin(lowerBounds[j], upperBounds[j]) <= vs[j - d] <= RMax(lowerBounds[j], upperBounds[j])
        {
          assert vs[j - d] == rest[j - (d + 1)];
        }
      }
    }

    /** One value per dimension, each between the bounds of its dimension. */
    predicate ValuesInBounds(vs: seq<real>)
      requires BoundsCover()
    {
      |vs| == Max(dimensions, 0)
      && forall d :: 0 <= d < |vs| ==> RMin(lowerBounds[d], upperBounds[d]) <= vs[d] <= RMax(lowerBounds[d], upperBounds[d])
    }

    /**
     * The initial population holds `population_size` units without cost,
     * each with `dimensions` values, value `d` between the bounds of
     * dimension `d`.
     */
    lemma {:induction false} InitUnitsShape(n: int, pos: nat)
      requires ValidOps(ops) && BoundsCover()
      ensures n <= 0 ==> InitUnits(n, pos).0 == []
      ensures n > 0 ==> |InitUnits(n, pos).0| == n
      ensures forall k :: 0 <= k < |InitUnits(n, pos).0| ==>
        InitUnits(n, pos).0[k].cost == None && ValuesInBounds(InitUnits(n, pos).0[k].realValues)
      decreases if n <= 0 then 0 else n
    {
      if n > 0 {
        var rest := InitUnits(n - 1, pos + Max(dimensions, 0)).0;
        InitUnitsShape(n - 1, pos + Max(dimensions, 0));
        InitValuesShape(0, pos);
        var vs := InitValues(0, pos);
        assert ValuesInBounds(vs) by {
          forall d | 0 <= d < |vs|
            ensures RMin(lowerBounds[d], upperBounds[d]) <= vs[d] <= RMax(lowerBounds[d], upperBounds[d])
          {
            assert vs[d - 0] == vs[d];
          }
        }
        var us := InitUnits(n, pos).0;
        assert us == [Unit(vs, None)] + rest;
        forall k | 0 < k < |us|
          ensures us[k].cost == None && ValuesInBounds(us[k].realValues)
        {
          assert us[k] == rest[k - 1];
        }
      }
    }

    /**
     * `_generate_init_population`: empties the population, then appends
     * `population_size` units of `dimensions` uniform draws each.
     */
    method GenerateInitPopulation() returns (r: Result<()>)
      modifies this`population, this`draws
      ensures var expected := InitPopulation(old(draws));
        (r.Err? <==> expected.Err?)
        && (r.Err? ==> r.error == IndexError && population == [] && draws == old(draws))
        && (r.Ok? ==> population == expected.value.0 && draws == expected.value.1)
    {
      population := [];
      if !BoundsCover() {
        return Err(IndexError);
      }
      ghost var whole := InitUnits(populationSize, draws);
      ghost var remaining := populationSize;
      var k := 0;
      while k < populationSize
        invariant 0 <= k <= Max(populationSize, 0)
        invariant remaining == populationSize - k
        invariant population + InitUnits(remaining, draws).0 == whole.0
        invariant InitUnits(remaining, draws).1 == whole.1
        decreases populationSize - k
      {
        ghost var unitStart := draws;
        var individual := DrawIndividual();
        ghost var rest := InitUnits(remaining - 1, draws);
        assert InitUnits(remaining, unitStart) == ([Unit(individual, None)] + rest.0, rest.1);
        assert population + [Unit(individual, None)] + rest.0 == population + ([Unit(individual, None)] + rest.0);
        population := population + [Unit(individual, None)];
        remaining := remaining - 1;
        k := k + 1;
      }
      assert InitUnits(remaining, draws).0 == [];
      assert population + [] == population;
      return Ok(());
    }

    /**
     * The inner loop of `_generate_init_population`: one uniform draw per
     * dimension, between that dimension's bounds.
     */
    method DrawIndividual() returns (individual: seq<real>)
      requires BoundsCover()
      modifies this`draws
      ensures individual == InitValues(0, old(draws))
      ensures draws == old(draws) + Max(dimensions, 0)
    {
      ghost var start := draws;
      individual := [];
      var d := 0;
      while d < dimensions
        invariant 0 <= d <= Max(dimensions, 0)
        invariant draws == start + d
        invariant individual + InitValues(d, draws) == InitValues(0, start)
        decreases dimensions - d
      {
        var val := ops.uniform(lowerBounds[d], upperBounds[d], draws);
        ghost var rest := InitValues(d + 1, draws + 1);
        assert InitValues(d, draws) == [val] + rest;
        assert individual + ([val] + rest) == (individual + [val]) + rest;
        individual := individual + [val];
        draws := draws + 1;
        d := d + 1;
      }
      assert InitValues(d, draws) == [];
      assert individual + [] == individual;
    }

    // ------------------------------------------------------------ costs

    /** The population with every unit's cost set to the cost of its values. */
    function Costed(pop: seq<Unit>): (r: seq<Unit>)
      ensures |r| == |pop|
      ensures forall i {:trigger r[i]} :: 0 <= i < |pop| ==>
        r[i].realValues == pop[i].realValues && r[i].cost == Some(ops.cost(pop[i].realValues))
    {
      seq(|pop|, i requires 0 <= i < |pop| => Unit(pop[i].realValues, Some(ops.cost(pop[i].realValues))))
    }

    /** `_calculate_costs`: writes each unit's cost from its values; nothing else changes. */
    method CalculateCosts()
      modifies this`population
      ensures population == Costed(old(population))
    {
      var i := 0;
      while i < |population|
        invariant i <= |population| == |old(population)|
        invariant forall j :: 0 <= j < i ==> population[j] == Costed(old(population))[j]
        invariant forall j :: i <= j < |population| ==> population[j] == old(population)[j]
      {
        var unit := population[i];
        population := population[i := Unit(unit.realValues, Some(ops.cost(unit.realValues)))];
        i := i + 1;
      }
    }

    // ------------------------------------------------------------ breeding

    /** How many offspring `_cross_selected_units` produces: `population_size - elite_count`. */
    function NumOffspring(): int
    {
      populationSize - eliteUnitsCount
    }

    /** How many crossings produce `need` offspring: two children per crossing. */
    function CrossRounds(need: int): nat
      decreases need
    {
      if need <= 0 then 0 else 1 + CrossRounds(need - 2)
    }

    /** A crossing per two offspring, rounded up: `ceil(need / 2)` rounds. */
    lemma {:induction false} CrossRoundsHalf(need: int)
      ensures need <= 0 ==> CrossRounds(need) == 0
      ensures need > 0 ==> CrossRounds(need) == (need + 1) / 2
      decreases need
    {
      if need > 2 {
        CrossRoundsHalf(need - 2);
        assert (need - 1) / 2 + 1 == (need + 1) / 2;
      }
    }

    /**
     * The `need` offspring bred from `pool` from stream position `pos` on:
     * each round samples two parents and crosses them, keeping both children
     * until the last round, which keeps only as many as are missing.
     */
    function Offspring(pool: seq<Unit>, need: int, pos: nat): (r: seq<Unit>)
      requires ValidOps(ops) && (need <= 0 || |pool| >= 2)
      ensures need > 0 ==> |r| == need
      ensures need <= 0 ==> r == []
      decreases need
    {
      if need <= 0 then []
      else
        var parents := ops.sampleTwo(|pool|, pos);
        var children := ops.cross(pool[parents.0], pool[parents.1], pos + 1);
        if need == 1 then [children.0]
        else [children.0, children.1] + Offspring(pool, need - 2, pos + 2)
    }

    /**
     * `child` is child `which` (0 for the first, 1 for the second) of the
     * round read at stream position `round`: two distinct positions of the
     * pool are sampled there and crossed at the next position.
     */
    ghost predicate ChildOfRound(pool: seq<Unit>, child: Unit, round: nat, which: int)
    {
      var parents := ops.sampleTwo(|pool|, round);
      0 <= parents.0 < |pool| && 0 <= parents.1 < |pool| && parents.0 != parents.1
      && (var children := ops.cross(pool[parents.0], pool[parents.1], round + 1);
          child == if which == 0 then children.0 else children.1)
    }

    /** Offspring `2j` and `2j + 1` are the two children of round `j`, of two distinct parents. */
    lemma {:induction false} OffspringBredAt(pool: seq<Unit>, need: int, pos: nat, j: nat)
      requires ValidOps(ops) && |pool| >= 2
      ensures var r := Offspring(pool, need, pos);
        (2 * j < |r| ==> ChildOfRound(pool, r[2 * j], pos + 2 * j, 0))
        && (2 * j + 1 < |r| ==> ChildOfRound(pool, r[2 * j + 1], pos + 2 * j, 1))
      decreases j
    {
      if j > 0 && need > 2 {
        OffspringBredAt(pool, need - 2, pos + 2, j - 1);
        var r, rest := Offspring(pool, need, pos), Offspring(pool, need - 2, pos + 2);
        assert pos + 2 + 2 * (j - 1) == pos + 2 * j;
        if 2 * j < |r| {
          assert r[2 * j] == rest[2 * (j - 1)];
        }
        if 2 * j + 1 < |r| {
          assert r[2 * j + 1] == rest[2 * (j - 1) + 1];
        }
      }
    }

    /**
     * `_cross_selected_units`: crosses sampled pairs of the pool until
     * `population_size - elite_count` offspring exist. Sampling two parents
     * from a pool of fewer than two raises.
     */
    method CrossSelectedUnits(pool: seq<Unit>) returns (r: Result<seq<Unit>>)
      requires ValidOps(ops)
      modifies this`draws
      ensures r.Err? <==> NumOffspring() > 0 && |pool| < 2
      ensures r.Err? ==> r.error == ValueError && draws == old(draws)
      ensures r.Ok? ==> r.value == Offspring(pool, NumOffspring(), old(draws))
      ensures r.Ok? ==> draws == old(draws) + 2 * CrossRounds(NumOffspring())
    {
      var numOffspring := populationSize - eliteUnitsCount;
      if numOffspring <= 0 {
        return Ok([]);
      }
      if |pool| < 2 {
        // the first `random.sample(selected_units, 2)` raises
        return Err(ValueError);
      }
      var newPopulation := BreedRounds(pool, numOffspring);
      BreedFromOffspring(pool, [], numOffspring, old(draws));
      assert [] + Offspring(pool, numOffspring, old(draws)) == Offspring(pool, numOffspring, old(draws));
      return Ok(newPopulation);
    }

    /**
     * The `while` loop of `_cross_selected_units` from the offspring `acc`
     * bred so far and stream position `pos`: a round appends the first child
     * and, while offspring are still missing, the second.
     */
    function BreedFrom(pool: seq<Unit>, acc: seq<Unit>, numOffspring: int, pos: nat): seq<Unit>
      requires ValidOps(ops) && |pool| >= 2
      decreases numOffspring - |acc|
    {
      if |acc| >= numOffspring then acc
      else
        var parents := ops.sampleTwo(|pool|, pos);
        var children := ops.cross(pool[parents.0], pool[parents.1], pos + 1);
        var next := if |acc| + 1 < numOffspring then acc + [children.0] + [children.1] else acc + [children.0];
        BreedFrom(pool, next, numOffspring, pos + 2)
    }

    /** The loop's rounds append exactly the missing offspring, as `Offspring` breeds them. */
    lemma {:induction false} BreedFromOffspring(pool: seq<Unit>, acc: seq<Unit>, numOffspring: int, pos: nat)
      requires ValidOps(ops) && |pool| >= 2
      ensures BreedFrom(pool, acc, numOffspring, pos) == acc + Offspring(pool, numOffspring - |acc|, pos)
      decreases numOffspring - |acc|
    {
      if |acc| < numOffspring {
        var parents := ops.sampleTwo(|pool|, pos);
        var children := ops.cross(pool[parents.0], pool[parents.1], pos + 1);
        var missing := numOffspring - |acc|;
        if missing == 1 {
          var next := acc + [children.0];
          assert BreedFrom(pool, acc, numOffspring, pos) == BreedFrom(pool, next, numOffspring, pos + 2);
          BreedFromOffspring(pool, next, numOffspring, pos + 2);
          assert numOffspring - |next| == 0;
          assert Offspring(pool, 0, pos + 2) == [];
          assert Offspring(pool, missing, pos) == [children.0];
        } else {
          var next := acc + [children.0] + [children.1];
          assert BreedFrom(pool, acc, numOffspring, pos) == BreedFrom(pool, next, numOffspring, pos + 2);
          BreedFromOffspring(pool, next, numOffspring, pos + 2);
          assert numOffspring - |next| == missing - 2;
          var rest := Offspring(pool, missing - 2, pos + 2);
          assert Offspring(pool, missing, pos) == [children.0, children.1] + rest;
          assert next + rest == acc + ([children.0, children.1] + rest);
        }
      } else {
        assert acc + [] == acc;
      }
    }

    /** The `while` loop of `_cross_selected_units` on a pool it can sample from. */
    method BreedRounds(pool: seq<Unit>, numOffspring: int) returns (newPopulation: seq<Unit>)
      requires ValidOps(ops) && |pool| >= 2 && numOffspring > 0
      modifies this`draws
      ensures newPopulation == BreedFrom(pool, [], numOffspring, old(draws))
      ensures draws == old(draws) + 2 * CrossRounds(numOffspring)
    {
      newPopulation := [];
      ghost var start := draws;
      while |newPopulation| < numOffspring
        invariant draws + 2 * CrossRounds(numOffspring - |newPopulation|) == start + 2 * CrossRounds(numOffspring)
        invariant |newPopulation| <= numOffspring
        invariant BreedFrom(pool, newPopulation, numOffspring, draws) == BreedFrom(pool, [], numOffspring, start)
        decreases numOffspring - |newPopulation|
      {
        var parents := ops.sampleTwo(|pool|, draws);
        var children := ops.cross(pool[parents.0], pool[parents.1], draws + 1);
        newPopulation := newPopulation + [children.0];
        if |newPopulation| < numOffspring {
          newPopulation := newPopulation + [children.1];
        }
        draws := draws + 2;
      }
    }

    // ------------------------------------------------------------ one epoch

    /** The mating pool of an epoch, sorted by cost, best first for the optimisation's direction. */
    function SortedSelection(pop: seq<Unit>, pos: nat): seq<Unit>
    {
      SortBy(ops.select(Costed(pop), selectionNum, pos), CostOf, isMaximCase)
    }

    /**
     * The rest of an epoch once the pool is sorted, from stream position
     * `pos`: split off the elites, breed the offspring from the rest, mutate
     * them, join the elites and invert every unit. A pool too small to sample
     * two parents from raises.
     */
    function Breed(sorted: seq<Unit>, pos: nat): Result<(seq<Unit>, nat)>
      requires ValidOps(ops)
    {
      var elites, rest := Take(sorted, eliteUnitsCount), Drop(sorted, eliteUnitsCount);
      var need := NumOffspring();
      if need > 0 && |rest| < 2 then Err(ValueError)
      else
        var crossed := Offspring(rest, need, pos);
        var mutatePos := pos + 2 * CrossRounds(need);
        var next := NextPopulation(crossed, elites, mutatePos);
        Ok((next, mutatePos + |crossed| + |next|))
    }

    /**
     * `_mutate_units` on the offspring from stream position `pos`, the elites
     * appended, then `_inverse_units` on all of them: offspring are mutated
     * and then inverted, elites skip mutation but are still inverted.
     */
    function NextPopulation(crossed: seq<Unit>, elites: seq<Unit>, pos: nat): (next: seq<Unit>)
      ensures |next| == |crossed| + |elites|
      ensures forall k {:trigger next[k]} :: 0 <= k < |crossed| ==>
        next[k] == ops.invert(ops.mutate(crossed[k], pos + k), pos + |crossed| + k)
      ensures forall k {:trigger next[k]} :: |crossed| <= k < |next| ==>
        next[k] == ops.invert(elites[k - |crossed|], pos + |crossed| + k)
    {
      var mutated := MutateUnits(ops, crossed, pos);
      var joined := mutated + elites;
      assert forall k :: 0 <= k < |elites| ==> joined[|crossed| + k] == elites[k];
      InverseUnits(ops, joined, pos + |crossed|)
    }

    /**
     * One pass of the epoch loop from population `pop` and stream position
     * `pos`: evaluate and select (one draw), sort, then breed.
     */
    function Epoch(pop: seq<Unit>, pos: nat): (r: Result<(seq<Unit>, nat)>)
      requires ValidOps(ops)
      ensures r.Err? <==> NumOffspring() > 0 && |Drop(SortedSelection(pop, pos), eliteUnitsCount)| < 2
      ensures r.Err? ==> r.error == ValueError
      ensures r.Ok? ==> r.value.1 > pos
    {
      Breed(SortedSelection(pop, pos), pos + 1)
    }

    /**
     * The elites are the first `elite_count` of the sorted pool and the
     * breeding pool is the rest; the pool is sorted by cost, descending
     * exactly for maximisation, and is a rearrangement of the selection.
     */
    lemma EpochSplitsPool(pop: seq<Unit>, pos: nat)
      ensures var sorted := SortedSelection(pop, pos);
        Take(sorted, eliteUnitsCount) + Drop(sorted, eliteUnitsCount) == sorted
        && |Take(sorted, eliteUnitsCount)| == Min(eliteUnitsCount, |sorted|)
        && multiset(sorted) == multiset(ops.select(Costed(pop), selectionNum, pos))
        && (isMaximCase ==> NonIncreasing(sorted, CostOf))
        && (!isMaximCase ==> forall i, j :: 0 <= i < j < |sorted| ==> CostOf(sorted[i]) <= CostOf(sorted[j]))
    {
      var selected := ops.select(Costed(pop), selectionNum, pos);
      SortByPermutes(selected, CostOf, isMaximCase);
      SortByOrdered(selected, CostOf, isMaximCase);
    }

    /**
     * The next population holds `population_size - elite_count` offspring
     * followed by the elites: `population_size` units whenever the pool
     * holds at least `elite_count` units.
     */
    lemma EpochLength(pop: seq<Unit>, pos: nat)
      requires ValidOps(ops)
      requires Epoch(pop, pos).Ok?
      ensures var sorted := SortedSelection(pop, pos);
        |Epoch(pop, pos).value.0| == Max(NumOffspring(), 0) + Min(eliteUnitsCount, |sorted|)
      ensures var sorted := SortedSelection(pop, pos);
        eliteUnitsCount <= |sorted| && eliteUnitsCount <= populationSize ==>
        |Epoch(pop, pos).value.0| == populationSize
    {
      var sorted := SortedSelection(pop, pos);
      assert Epoch(pop, pos) == Breed(sorted, pos + 1);
    }

    /**
     * One pass of the loop in `start`: evaluate, select, sort, then breed
     * the next population.
     */
    method RunEpoch() returns (r: Result<()>)
      requires ValidOps(ops)
      modifies this`population, this`draws
      ensures var expected := Epoch(old(population), old(draws));
        (r.Err? <==> expected.Err?)
        && (r.Err? ==> r.error == expected.error)
        && (r.Ok? ==> population == expected.value.0 && draws == expected.value.1)
    {
      ghost var expected := Epoch(population, draws);
      CalculateCosts();
      var selectedUnits := ops.select(population, selectionNum, draws);
      draws := draws + 1;
      var selectedUnitsSorted := SortBy(selectedUnits, CostOf, isMaximCase);
      assert expected == Breed(selectedUnitsSorted, draws);
      r := BreedNext(selectedUnitsSorted);
    }

    /**
     * The part of the loop body after sorting: split, cross, mutate, join
     * and invert into the new population.
     */
    method BreedNext(sorted: seq<Unit>) returns (r: Result<()>)
      requires ValidOps(ops)
      modifies this`population, this`draws
      ensures var expected := Breed(sorted, old(draws));
        (r.Err? <==> expected.Err?)
        && (r.Err? ==> r.error == expected.error && population == old(population))
        && (r.Ok? ==> population == expected.value.0 && draws == expected.value.1)
    {
      var elites := Take(sorted, eliteUnitsCount);
      var restSelected := Drop(sorted, eliteUnitsCount);
      var crossedUnits := CrossSelectedUnits(restSelected);
      if crossedUnits.Err? {
        return Err(crossedUnits.error);
      }
      var next := NextPopulation(crossedUnits.value, elites, draws);
      draws := draws + |crossedUnits.value| + |next|;
      population := next;
      return Ok(());
    }

    // ------------------------------------------------------------ the run

    /** `epochs` passes of the loop from population `pop` and stream position `pos`. */
    function Run(pop: seq<Unit>, epochs: int, pos: nat): (r: Result<(seq<Unit>, nat)>)
      requires ValidOps(ops)
      ensures r.Err? ==> r.error == ValueError && epochs > 0
      ensures r.Ok? ==> r.value.1 >= pos
      ensures r.Ok? && epochs > 0 ==> r.value.1 > pos
      decreases epochs
    {
      if epochs <= 0 then Ok((pop, pos))
      else
        match Epoch(pop, pos)
        case Err(e) => Err(e)
        case Ok(next) => Run(next.0, epochs - 1, next.1)
    }

    /** What `start` leaves behind from stream position `pos`: the evaluated last population. */
    function StartSpec(pos: nat): (r: Result<(seq<Unit>, nat)>)
      requires ValidOps(ops)
      ensures r == Err(IndexError) <==> !BoundsCover()
      ensures r.Err? ==> r.error == IndexError || r.error == ValueError
      ensures r.Ok? ==> forall i :: 0 <= i < |r.value.0| ==>
        r.value.0[i].cost == Some(ops.cost(r.value.0[i].realValues))
    {
      match InitPopulation(pos)
      case Err(e) => Err(e)
      case Ok(init) =>
        match Run(init.0, epochsNumber, init.1)
        case Err(e) => Err(e)
        case Ok(last) => Ok((Costed(last.0), last.1))
    }

    /** The `for` loop of `start`: `epochs_no` passes of the epoch body, stopping at the first that raises. */
    method RunEpochs() returns (r: Result<()>)
      requires ValidOps(ops)
      modifies this`population, this`draws, this`epochsRun
      ensures var expected := Run(old(population), epochsNumber, old(draws));
        (r.Err? <==> expected.Err?)
        && (r.Err? ==> r.error == expected.error)
        && (r.Ok? ==> population == expected.value.0 && draws == expected.value.1)
      ensures r.Ok? ==> epochsRun == Max(epochsNumber, 0)
    {
      ghost var expected := Run(population, epochsNumber, draws);
      ghost var remaining := epochsNumber;
      epochsRun := 0;
      var epoch := 0;
      while epoch < epochsNumber
        invariant 0 <= epoch <= Max(epochsNumber, 0)
        invariant epochsRun == epoch && remaining == epochsNumber - epoch
        invariant Run(population, remaining, draws) == expected
        decreases epochsNumber - epoch
      {
        var e := AdvanceRun(remaining, expected);
        if e.Err? {
          return Err(e.error);
        }
        remaining := remaining - 1;
        epoch := epoch + 1;
        epochsRun := epochsRun + 1;
      }
      RunNoEpochs(population, remaining, draws);
      return Ok(());
    }

    /**
     * One pass of the loop body seen from the run: with `remaining` passes
     * to go, it either raises what the whole run raises or leaves the state
     * from which the other `remaining - 1` passes produce the same outcome.
     */
    method AdvanceRun(ghost remaining: int, ghost expected: Result<(seq<Unit>, nat)>) returns (r: Result<()>)
      requires ValidOps(ops) && remaining > 0 && Run(population, remaining, draws) == expected
      modifies this`population, this`draws
      ensures r.Err? ==> expected == Err(r.error)
      ensures r.Ok? ==> Run(population, remaining - 1, draws) == expected
    {
      ghost var pop, pos := population, draws;
      r := RunEpoch();
      if r.Err? {
        RunStepErr(pop, remaining, pos, r.error);
      } else {
        RunStepOk(pop, remaining, pos, population, draws);
      }
    }

    /** A run whose first epoch raises raises the same error. */
    lemma RunStepErr(pop: seq<Unit>, epochs: int, pos: nat, e: PyError)
      requires ValidOps(ops) && epochs > 0 && Epoch(pop, pos) == Err(e)
      ensures Run(pop, epochs, pos) == Err(e)
    {
    }

    /** A run of no epochs leaves population and stream position as they are. */
    lemma RunNoEpochs(pop: seq<Unit>, epochs: int, pos: nat)
      requires ValidOps(ops) && epochs <= 0
      ensures Run(pop, epochs, pos) == Ok((pop, pos))
    {
    }

    /** A run whose first epoch passes goes on from that epoch's population and stream position. */
    lemma RunStepOk(pop: seq<Unit>, epochs: int, pos: nat, next: seq<Unit>, nextPos: nat)
      requires ValidOps(ops) && epochs > 0 && Epoch(pop, pos) == Ok((next, nextPos))
      ensures Run(pop, epochs, pos) == Run(next, epochs - 1, nextPos)
    {
    }

    /**
     * `start`: the initial population, exactly `epochs_no` epochs, and a
     * final evaluation, after which every unit's cost is the cost of its
     * values.
     */
    method Start() returns (r: Result<()>)
      requires ValidOps(ops)
      modifies this`population, this`draws, this`epochsRun
      ensures var expected := StartSpec(old(draws));
        (r.Err? <==> expected.Err?)
        && (r.Err? ==> r.error == expected.error)
        && (r.Ok? ==> population == expected.value.0 && draws == expected.value.1)
      ensures r.Ok? ==> epochsRun == Max(epochsNumber, 0)
      ensures r.Ok? ==> forall i :: 0 <= i < |population| ==>
        population[i].cost == Some(ops.cost(population[i].realValues))
    {
      var init := GenerateInitPopulation();
      if init.Err? {
        return Err(init.error);
      }
      r := RunEpochs();
      if r.Err? {
        return;
      }
      CalculateCosts();
    }
  }
}
