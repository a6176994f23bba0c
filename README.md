# simple-genetic-algorithm, modelled in Dafny

This project models the core of a small evolutionary optimiser. The optimiser
keeps a population of units. Each unit is a real-valued vector plus its cost.
For a fixed number of epochs it does the following:

1. evaluates every unit's cost;
2. selects a mating pool (best, roulette wheel or tournament selection);
3. sorts the pool by cost and splits off the first `elite_count` units as elites;
4. breeds the rest of the pool with single-point, two-point, uniform or grain
   crossing until `population_size - elite_count` offspring exist;
5. mutates the offspring (boundary, single-point or two-point mutation);
6. appends the elites and inverts every unit (reverses a random slice).

A last evaluation follows the final epoch. The model also covers the
configuration objects, which check their arguments with `assert` and pick
the operator instance their type names. It also covers the bit width that
`Chromosome` computes for a range and accuracy, the elitism operator, and
the unit record and factory.

Modules follow the source files:

- `Py`: Python's `None`, exceptions and slice semantics.
- `Sorting`: the stable `sorted(..., key, reverse)`.
- `Units`: `unit.py`.
- `Chromosomes`: `chromosome.py`.
- `Crossing`, `Selection`, `Mutation`, `Inversion` and `Elite`: the operator files.
- `Orchestrator`: `simulation.py`.
- `Config`: the six configuration files.

How the model is built:

- Every random draw is a parameter of the operation that makes it. Each
  parameter is constrained to the range the Python call would return it in
  (`randint`, `uniform`, `random()`, `sample`, `choice`).
- The orchestrator sees its operators through `Operators`, a record of
  functions. Each function takes the position of the random stream it reads,
  and the `Simulation` field `draws` is the next unread position.
- `ValidOps` states what the loop relies on from Python's random module.
  `random.sample(xs, 2)` yields two distinct positions, and
  `random.uniform(a, b)` yields a value between `a` and `b`.
- A Python exception is an `Err` value of `Result`. An optional argument is
  an `Option`.
- The operators are pure functions on sequences. Where the source builds a
  result step by step (grain crossing, roulette spins, boundary and
  two-point mutation, the simulation's loops), the model has a method with
  that loop. The method is proved equal to a specification function, and
  the properties are proved about that function. Two operations are
  specified differently. `Selection.TournamentSelect` has no specification
  function: its contract states its winners' properties directly.
  `Inversion.Invert` reverses the slice of an array with one simultaneous
  `forall` assignment rather than a loop.

Under every valid configuration, every probability gate passes. A valid
configuration has an integer probability strictly between 0 and 100, and
the operators compare it with `random.random()`, which is in `[0, 1)`.
`Config.ConfiguredMutationAlwaysFires` and
`Inversion.ConstructedAlwaysInverts` prove this. The model keeps the code's
comparison: the gates compare the raw `probability` with
`random.random()`, not `probability / 100`.

Elites skip mutation but not inversion: they are appended to the mutated
offspring before `_inverse_units` runs (`src/core/simulation.py:63-66`), so
they are inverted too (`Orchestrator.Simulation.NextPopulation`).

## Model

| member | source | states |
|---|---|---|
| Units.NewUnit | src/core/unit.py:4-7 | a unit stores the values it is given; its cost is `None` unless one is passed |
| Units.UnitFactory.CreateRandomUnit | src/core/unit.py:18-21 | `dimension` values (none for a negative dimension), each between the factory's bounds, and no cost |
| Chromosomes.CeilLog2 | src/core/chromosome.py:11-13 | the result `k` satisfies `2^(k-1) < n <= 2^k`, which is `ceil(log2 n)` |
| Chromosomes.CeilLog2Unique | src/core/chromosome.py:11-13 | exactly one exponent satisfies that bracket, so the bit width is determined by `n` |
| Chromosomes.CeilLog2IsLeast | src/core/chromosome.py:11-13 | the bit width is the least exponent whose power of two reaches `n` |
| Chromosomes.CeilLog2OfPow2 | src/core/chromosome.py:11-13 | `n = 2^m` needs exactly `m` bits |
| Chromosomes.CeilLog2Monotone | src/core/chromosome.py:11-13 | more grid points never need fewer bits |
| Chromosomes.NewChromosome | src/core/chromosome.py:4-13 | `ValueError` exactly when the range is empty or inverted (`log2` of a non-positive number); otherwise it stores its arguments, and `2^(k-1) < (upper - lower) * 10^accuracy <= 2^k` |
| Chromosomes.ScaledIsProduct | src/core/chromosome.py:12 | the grid size, built up one factor of ten at a time, is `(upper - lower) * 10 ** accuracy` |
| Chromosomes.GridSizeSign | src/core/chromosome.py:12-13 | the grid size is positive exactly when `upper > lower`, so `log2` gets a positive argument exactly then |
| Chromosomes.GridSizeMonotone | src/core/chromosome.py:12 | a wider range at a finer accuracy holds at least as many grid points |
| Chromosomes.BitsMonotone | src/core/chromosome.py:11-13 | a wider range or a higher accuracy never yields fewer bits |
| Crossing.SinglePointCross | src/core/crossing.py:16-25 | below two genes the parents come back; otherwise child 1 has parent 1's genes before the cut and parent 2's from it on, and child 2 the reverse |
| Crossing.SinglePointConserves | src/core/crossing.py:16-25 | at every position the two children hold exactly the two parents' genes |
| Crossing.TwoPointCross | src/core/crossing.py:27-44 | below three genes the parents come back; otherwise only the middle segment `[point1, point2)` is exchanged |
| Crossing.TwoPointConserves | src/core/crossing.py:27-44 | at every position the two children hold exactly the two parents' genes |
| Crossing.UniformCross | src/core/crossing.py:46-53 | `IndexError` exactly when the second parent is shorter than the first; the children have the first parent's length |
| Crossing.UniformByMask | src/core/crossing.py:46-53 | the first child takes gene `i` from the first parent exactly where the mask is set, the second child takes the other gene, and genes are conserved |
| Crossing.UniformExtremeMasks | src/core/crossing.py:46-53 | an all-ones mask returns the parents, an all-zeros mask swaps them |
| Crossing.GrainCross | src/core/crossing.py:55-73 | `ValueError` exactly for a zero grain; two empty children for a negative grain; for equal-length parents, child 1 takes gene `j` from parent 1 exactly when block `j / grain` is even |
| Crossing.GrainSteps | src/core/crossing.py:65-72 | the loop over `range(0, length, grain)` builds the alternating blocks of each parent |
| Crossing.GrainByBlockParity | src/core/crossing.py:65-72 | the alternating blocks, position by position: the gene of the parent that block `j / grain`'s parity names |
| Crossing.GrainWholeBlock | src/core/crossing.py:65-72 | a grain at least as long as the parents leaves them unchanged |
| Crossing.GrainConserves | src/core/crossing.py:55-73 | at every position the two children hold exactly the two parents' genes |
| Crossing.Cross | src/core/crossing.py:11-73 | the chosen operator's `cross` fails exactly for uniform crossing with a short second parent or for a zero grain; otherwise, for equal-length parents, it conserves genes position by position, except that a negative grain gives two empty children |
| Selection.BestSelect | src/core/selection.py:20-23 | `min(num, len)` individuals (the slice's length for a negative `num`), in non-increasing fitness |
| Selection.BestPartitions | src/core/selection.py:20-23 | the selected and the left-behind individuals together are the population, rearranged |
| Selection.BestDominates | src/core/selection.py:20-23 | every selected individual is at least as fit as every one left behind |
| Selection.BestKeepsTies | src/core/selection.py:20-23 | the sort is stable: individuals of equal fitness keep population order |
| Selection.FirstReaching | src/core/selection.py:33-40 | the first individual whose running total reaches the pick; `None` exactly when no running total does |
| Selection.SpinWheel | src/core/selection.py:33-40 | the loop with its `current` accumulator stops at that first individual |
| Selection.RouletteWheelSelect | src/core/selection.py:25-41 | a zero fitness sum falls back to `random.sample`, which fails exactly for `num` outside `[0, len]`; otherwise each pick appends the first individual it reaches |
| Selection.RouletteFillsEveryDraw | src/core/selection.py:31-40 | with non-negative fitness, every pick lands on someone, so pick `k` yields individual `k` of the result |
| Selection.RouletteLengthIsNum | src/core/selection.py:31-41 | with non-negative fitness and a non-zero sum, exactly `num` individuals are returned |
| Selection.RouletteSpec | src/core/selection.py:32-41 | at most one individual per pick, each of them from the population |
| Selection.TotalFitnessSign | src/core/selection.py:28-29 | the sum of the fitnesses is never negative when no fitness is, and is zero when every fitness is |
| Selection.SpinAlwaysLands | src/core/selection.py:31-40 | a pick no larger than the total always reaches someone |
| Selection.FirstMax | src/core/selection.py:52 | `max` returns the first position holding the largest value |
| Selection.WinnerIndex | src/core/selection.py:52 | the winner is one of the contenders and at least as fit as each of them |
| Selection.TournamentSelect | src/core/selection.py:43-54 | fails exactly when a round must be played with an empty sample; otherwise `num` winners, winner `k` being the fittest of sample `k` |
| Selection.TournamentCanRepeat | src/core/selection.py:50-53 | rounds are independent, so one individual can win several of them |
| Selection.Select | src/core/selection.py:14-54 | everything the chosen operator returns comes from the population; each operator's failure condition |
| Mutation.BoundaryMutated | src/core/mutation.py:18-27 | each gene is kept where its gate fails and becomes the chosen bound where it passes |
| Mutation.BoundaryMutate | src/core/mutation.py:22-27 | the copy-and-overwrite loop yields exactly `BoundaryMutated` |
| Mutation.BoundaryNoGateIdentity | src/core/mutation.py:22-27 | when no gate passes the chromosome comes back unchanged |
| Mutation.BoundaryCertain | src/core/mutation.py:22-27 | a probability of 1 or more turns every gene into a bound |
| Mutation.Rounds | src/core/mutation.py:46-49 | the passing rounds' writes, in order, keep the chromosome's length |
| Mutation.RoundsWrittenBy | src/core/mutation.py:29-50 | every gene that differs from the input was written by a passing draw, with that draw's value |
| Mutation.SinglePointMutate | src/core/mutation.py:29-38 | `ValueError` exactly when a passing gate meets an empty chromosome or an empty value range; otherwise at most the drawn gene changes, to a value in `[min_value, max_value]` |
| Mutation.SinglePointCertain | src/core/mutation.py:33-38 | a probability of 1 or more always writes the drawn value at the drawn index |
| Mutation.TwoPointMutate | src/core/mutation.py:40-50 | `ValueError` exactly when either round's passing gate meets an empty chromosome or an empty value range; otherwise the two single-point rounds of `Rounds`, applied in order to one copy |
| Mutation.TwoRoundsWrites | src/core/mutation.py:44-50 | after two rounds that did not raise, only the genes at passing draws' indices differ from the input, each holding a value in `[min_value, max_value]` |
| Mutation.Mutate | src/core/mutation.py:10-50 | the result keeps the chromosome's length; every changed gene lies in `[min_value, max_value]`; boundary mutation never fails |
| Inversion.NewStandardInversion | src/core/inversion.py:6-8 | `AssertionError` unless the probability is present and strictly between 0 and 100 |
| Inversion.Reverse | src/core/inversion.py:22 | `reversed`: element `i` is element `len - 1 - i` of the input |
| Inversion.ReversedRange | src/core/inversion.py:21-22 | the slice assignment keeps the chromosome's length |
| Inversion.ReversedRangeAt | src/core/inversion.py:22 | inside `[left, right]` gene `i` is the old gene `left + right - i`; outside it nothing changes |
| Inversion.ReversedRangePermutes | src/core/inversion.py:22 | reversing a range only rearranges the genes |
| Inversion.ReversePermutes | src/core/inversion.py:22 | `reversed` only rearranges the elements |
| Inversion.ReversedRangeInvolution | src/core/inversion.py:22 | reversing the same range twice restores the chromosome |
| Inversion.Invert | src/core/inversion.py:12-23 | a failed gate or fewer than two genes return a copy; otherwise the range `[left, right]` is reversed in place |
| Inversion.InvertPermutes | src/core/inversion.py:12-23 | inversion never changes the multiset of genes |
| Inversion.ConstructedAlwaysInverts | src/core/inversion.py:6-13 | with any probability the constructor accepts, the gate `random() >= probability` never fires |
| Elite.NewEliteStrategy | src/core/elite_strategy.py:9-11 | `AssertionError` unless the count is present and non-negative |
| Elite.Enumerate | src/core/elite_strategy.py:29 | `enumerate` pairs each fitness with its index |
| Elite.EliteIndices | src/core/elite_strategy.py:31 | `min(elite_count, len)` indices |
| Elite.SelectElite | src/core/elite_strategy.py:13-33 | `AssertionError` exactly for lengths that differ; otherwise `min(elite_count, len)` individuals, each the population member at its elite index |
| Elite.EliteIndicesValid | src/core/elite_strategy.py:29-32 | the elite indices are distinct positions of the population |
| Elite.EliteFitnessNonIncreasing | src/core/elite_strategy.py:31 | the elites come fittest first |
| Elite.EliteDominates | src/core/elite_strategy.py:31-32 | every elite is at least as fit as every individual left out |
| Elite.EliteTiesInIndexOrder | src/core/elite_strategy.py:31 | elites of equal fitness keep population order, because the sort is stable |
| Sorting.SortBy | src/core/simulation.py:53 | the result has the input's length; order, permutation and stability are the three rows below |
| Sorting.SortByStable | src/core/simulation.py:53 | in both directions, the elements with any one key keep their input order |
| Sorting.SortByPermutes | src/core/simulation.py:53 | the sorted pool is a rearrangement of the selection |
| Sorting.SortByOrdered | src/core/simulation.py:53 | the sorted pool is non-increasing in cost when `reverse` is set, non-decreasing otherwise |
| Sorting.SortDescPermutes | src/core/selection.py:23 | the descending sort is a rearrangement of its input |
| Sorting.SortDescOrdered | src/core/selection.py:23 | the descending sort is non-increasing in the key |
| Sorting.SortDescStable | src/core/selection.py:23 | for every key value, the elements having it keep their input order |
| Sorting.SortDescKeepsTieOrder | src/core/elite_strategy.py:31 | elements of equal key stay in increasing order of a position that was increasing in the input |
| Sorting.SortDescDistinct | src/core/elite_strategy.py:31-32 | sorting distinct elements yields distinct elements |
| Orchestrator.CalculateSelectionSize | src/core/simulation.py:70-75 | the tournament size for a tournament; otherwise the floor of `percentage` percent of the population |
| Orchestrator.SelectionSizeBelowPopulation | src/core/simulation.py:70-75 | a percentage strictly between 0 and 100 selects at least 0 and fewer units than the population holds |
| Orchestrator.Simulation.constructor | src/core/simulation.py:10-33 | stores the settings and the selection size computed from them; the population is empty |
| Orchestrator.Simulation.InitValuesShape | src/core/simulation.py:85-87 | one value per dimension, value `d` between the bounds of dimension `d` |
| Orchestrator.Simulation.InitUnitsShape | src/core/simulation.py:83-88 | `population_size` units (none for a negative size), each with `dimensions` values inside the bounds and no cost |
| Orchestrator.Simulation.GenerateInitPopulation | src/core/simulation.py:77-88 | `IndexError` (population left empty) when a bound list is shorter than the dimension count; otherwise the population drawn from the stream, one draw per value |
| Orchestrator.Simulation.DrawIndividual | src/core/simulation.py:84-87 | one unit's values: one uniform draw per dimension in order, exactly `InitValues` from the current stream position, advancing the stream by `dimensions` |
| Orchestrator.Simulation.Costed | src/core/simulation.py:90-92 | every unit keeps its values and gets the cost of its values |
| Orchestrator.Simulation.CalculateCosts | src/core/simulation.py:90-92 | the loop leaves the population equal to `Costed` of the old one |
| Orchestrator.Simulation.Offspring | src/core/simulation.py:94-108 | exactly `population_size - elite_count` offspring (none if that is negative) |
| Orchestrator.Simulation.OffspringBredAt | src/core/simulation.py:98-107 | offspring `2j` and `2j + 1` are the first and second child of round `j`, which samples two distinct pool members at stream position `pos + 2j` and crosses them at the next |
| Orchestrator.Simulation.CrossRoundsHalf | src/core/simulation.py:98-107 | `need` offspring take `ceil(need / 2)` crossing rounds, none when `need <= 0` |
| Orchestrator.Simulation.BreedFromOffspring | src/core/simulation.py:98-107 | the `while` loop's rounds append exactly the missing offspring, as `Offspring` breeds them |
| Orchestrator.Simulation.BreedRounds | src/core/simulation.py:98-107 | the loop yields the offspring and consumes two draws per round, `ceil(need / 2)` rounds |
| Orchestrator.Simulation.CrossSelectedUnits | src/core/simulation.py:94-108 | `ValueError` exactly when offspring are needed from a pool of fewer than two; otherwise the offspring, with two draws per crossing round |
| Orchestrator.MutateUnits | src/core/simulation.py:110-111 | one mutated unit per unit, in order |
| Orchestrator.MutateUnitsAppend | src/core/simulation.py:110-111 | mutating a list in two parts gives the same units, the second part reading the stream after the first |
| Orchestrator.InverseUnits | src/core/simulation.py:113-114 | one inverted unit per unit, in order |
| Orchestrator.InverseUnitsAppend | src/core/simulation.py:113-114 | inverting a list in two parts gives the same units, the second part reading the stream after the first |
| Orchestrator.Simulation.NextPopulation | src/core/simulation.py:62-66 | offspring `k` becomes `invert(mutate(offspring k))`; elite `k` follows the offspring as `invert(elite k)`, unmutated |
| Orchestrator.Simulation.Epoch | src/core/simulation.py:43-66 | one epoch raises `ValueError` exactly when offspring are needed and the pool without its elites has fewer than two units; otherwise it consumes at least one draw |
| Orchestrator.Simulation.EpochSplitsPool | src/core/simulation.py:48-56 | elites plus rest is the sorted pool; there are `min(elite_count, pool size)` elites; the pool is a rearrangement of the selection, ordered by cost in the run's direction |
| Orchestrator.Simulation.EpochLength | src/core/simulation.py:53-66 | the next population holds `max(population_size - elite_count, 0)` offspring plus `min(elite_count, pool size)` elites, which is `population_size` when the pool holds the elites |
| Orchestrator.Simulation.BreedNext | src/core/simulation.py:55-66 | split, crossing, mutation and inversion leave the population and stream position the epoch function gives; a failed crossing leaves the population as it was |
| Orchestrator.Simulation.RunEpoch | src/core/simulation.py:43-66 | one pass of the loop body (evaluate, select, sort, breed) leaves the population and stream position `Epoch` gives |
| Orchestrator.Simulation.AdvanceRun | src/core/simulation.py:39-66 | one pass of the loop body either raises what the whole remaining run raises or leaves the state from which one pass fewer gives the same outcome |
| Orchestrator.Simulation.Run | src/core/simulation.py:39-66 | the epochs in turn: only a crossing's `ValueError` can end them early, and never when there are no epochs; the stream only moves forward |
| Orchestrator.Simulation.StartSpec | src/core/simulation.py:35-68 | `IndexError` exactly when the bounds do not reach every dimension, otherwise at most a crossing's `ValueError`; after success every unit's cost is the cost of its values |
| Orchestrator.Simulation.RunEpochs | src/core/simulation.py:38-66 | exactly `epochs_no` passes, stopping at the first that raises |
| Orchestrator.Simulation.Start | src/core/simulation.py:35-68 | initial population, `epochs_no` epochs and a last evaluation, matching the run function; afterwards every unit's cost is the cost of its values |
| Config.NewGeneralConfig | src/config/general_config.py:1-9 | `AssertionError` unless population size, epoch count and precision are all positive; otherwise it stores them |
| Config.SelectionConfigAsWritten | src/config/selection_config.py:5-25 | the guards fail with `AssertionError`; when they pass, building the operator always raises `TypeError` |
| Config.SelectionConfigNeverBuilds | src/config/selection_config.py:16-25 | even best selection at 50 percent passes the guards yet raises |
| Config.SelectionImplementation | src/config/selection_config.py:18-25 | the operator the type names; the tournament one gets the configured size |
| Config.NewSelectionConfig | src/config/selection_config.py:5-25 | succeeds exactly when the three guards pass; it records its arguments and a tournament size above 1; the direction defaults to maximisation and the tournament size to none |
| Config.SelectionConfigFailsWhereIntendedBuilds | src/config/selection_config.py:5-25 | the as-written constructor raises `TypeError` exactly where the intended one succeeds |
| Config.CrossingImplementation | src/config/crossing_config.py:13-22 | the operator the type names; grain crossing gets the configured grain |
| Config.NewCrossingConfig | src/config/crossing_config.py:4-22 | `AssertionError` for a missing type or a grain crossing without a positive grain; a configured grain is positive; the grain defaults to none |
| Config.ConfigDefaults | src/config/selection_config.py:6 | with defaults, a selection configuration maximises and has no tournament size, so a tournament needs an explicit size; a crossing configuration has no grain, so a grain crossing needs one; the operator classes default to a tournament of 3 (src/core/selection.py:44) and a grain of 2 (src/core/crossing.py:56) |
| Config.MutationImplementation | src/config/mutation_config.py:14-21 | the operator the type names, with the configured probability |
| Config.NewMutationConfig | src/config/mutation_config.py:4-12 | `AssertionError` unless the type is present and the probability strictly between 0 and 100 |
| Config.ConfiguredMutationAlwaysFires | src/config/mutation_config.py:7-17 | every valid configuration's probability exceeds every `random.random()` draw |
| Config.NewInversionConfig | src/config/inversion_config.py:5-9 | succeeds exactly when `StandardInversion` accepts the probability, so a valid configuration always builds its operator |
| Config.NewEliteStrategyConfig | src/config/elite_strategy_config.py:4-9 | succeeds exactly when `EliteStrategy` accepts the count, and the operator gets that count |

## Left out

- Randomness: Python's random module is not modelled. Draws are parameters, or positions of one abstract stream in the orchestrator, and `ValidOps` states what the loop relies on from them.
- Output: `print` calls, the UI, result saving and the cost-function library are not part of this model. The cost function is an arbitrary function in `Operators`.
- Floating point: genes, costs, fitness and probabilities are exact reals. No rounding, NaN or infinity is modelled.
- Orchestrator.CalculateSelectionSize: computes `floor(population_size * percentage / 100)` exactly. Python divides in floating point first, so for some inputs it yields one less (29 percent of 100 gives 28 in Python, 29 here).
- Chromosomes.CeilLog2: is the exact ceiling of the base-2 logarithm. `math.log2` rounds, and very close to a power of two it can differ by one.
- Unit identity: units are values. `_calculate_costs` writing `unit.cost` into shared unit objects becomes a new population sequence, so aliasing between the population and earlier selections is not modelled.
- Orchestrator.Simulation.constructor: takes the elite count and the cost function's bounds as arguments. The source reads `crossing_config.elite_count`, which the crossing configuration does not define. It also reads `simulation_config.unit_factory` (`src/core/simulation.py:21`), which `SimulationConfiguration` (`src/config/simulation_config.py:11-28`) never defines; the model's constructor leaves that read out.
- Orchestrator.Simulation.GenerateInitPopulation: builds `Unit(values, None)`. The source calls `unit_factory.create_unit_with_real_values`, which the unit factory does not define.
- Orchestrator.Operators: the operators are abstract functions on units. The source's selection operators read `ind.fitness`, which units do not have. Its crossing, mutation and inversion functions expect gene lists, and mutation expects bounds the loop does not pass. Those mismatches would raise at run time and are not modelled; the operators themselves are modelled on sequences in their own modules.
- Orchestrator.CostOf: sorts an unevaluated unit (cost `None`) as cost 0. Every unit is evaluated before it is sorted, so this case does not arise in a run.
- Orchestrator.Simulation.RunEpoch: uses `Epoch`'s exception when crossing fails. Failures of the abstract operators themselves (selection, crossing, mutation, inversion) are not modelled.
- Selection.SelectionMethod: the selection classes take no `is_maximization` argument, so the model's selection operators do not depend on the direction; the direction only orders the pool in the orchestrator.

## Findings

| source | as written | input that shows it | evidently intended | confidence | as-written member | corrected member |
|---|---|---|---|---|---|---|
| src/config/selection_config.py:16-25 | `_get_selection_implementation` passes `is_maximization=` to `BestSelection`, `RouletteWheelSelection` and `TournamentSelection`, none of which accepts it, so every construction that passes the guards raises `TypeError` | `SelectionConfig(SelectionMethodType.BEST, 50)` | build the chosen operator, giving the tournament its size | high (not executed) | Config.SelectionConfigAsWritten | Config.NewSelectionConfig |
