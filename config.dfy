/**
 * The configuration objects. Each checks its arguments with `assert`s (a
 * failed one is `AssertionError`) and then picks the operator instance its
 * type names. A missing optional argument is `None`.
 */
module Config {
  import opened Py
  import Crossing
  import Selection
  import Mutation
  import Inversion
  import Elite

  // ---------------------------------------------------------------- general

  datatype GeneralConfig = GeneralConfig(populationSize: int, epochsNo: int, reprPrecision: int)

  /** `GeneralConfig(...)`: population size, epoch count and precision must all be positive. */
  function NewGeneralConfig(populationSize: int, epochsNo: int, precision: int): (r: Result<GeneralConfig>)
    ensures r.Ok? <==> populationSize > 0 && epochsNo > 0 && precision > 0
    ensures r.Err? ==> r.error == AssertionError
    ensures r.Ok? ==> (r.value.populationSize == populationSize && r.value.epochsNo == epochsNo
                       && r.value.reprPrecision == precision)
  {
    if populationSize > 0 && epochsNo > 0 && precision > 0 then
      Ok(GeneralConfig(populationSize, epochsNo, precision))
    else Err(AssertionError)
  }

  // ---------------------------------------------------------------- selection

  datatype SelectionConfig = SelectionConfig(
    isMaximCase: bool,
    selectionType: Selection.SelectionMethodType,
    selectionPercentage: int,
    tournamentSize: Option<int>,
    selectionMethod: Selection.SelectionMethod)

  /** The three `assert`s of `SelectionConfig`. */
  predicate SelectionArgsValid(selectionType: Option<Selection.SelectionMethodType>, percentage: int,
                               tournamentSize: Option<int>)
  {
    selectionType.Some?
    && 0 < percentage < 100
    && (selectionType.value == Selection.Tournament ==> tournamentSize.Some? && tournamentSize.value > 1)
  }

  /**
   * `SelectionConfig(...)` as written: once the `assert`s pass, the
   * operator is built with a keyword argument `is_maximization` that none
   * of the selection classes accepts, so the construction always raises.
   */
  function SelectionConfigAsWritten(selectionType: Option<Selection.SelectionMethodType>, percentage: int,
                                    isMaximCase: bool := true, tournamentSize: Option<int> := None): (r: Result<SelectionConfig>)
    ensures r.Err?
    ensures r.error == (if SelectionArgsValid(selectionType, percentage, tournamentSize) then TypeError
                        else AssertionError)
  {
    if !SelectionArgsValid(selectionType, percentage, tournamentSize) then Err(AssertionError)
    else Err(TypeError)
  }

  /** Even the plainest valid arguments (best selection, 50 percent) fail to build a configuration. */
  lemma SelectionConfigNeverBuilds()
    ensures SelectionArgsValid(Some(Selection.Best), 50, None)
    ensures SelectionConfigAsWritten(Some(Selection.Best), 50, true, None) == Err(TypeError)
  {
  }

  /**
   * `_get_selection_implementation` without the unsupported keyword: the
   * best and roulette operators take no argument, the tournament takes its
   * size.
   */
  function SelectionImplementation(selectionType: Selection.SelectionMethodType, tournamentSize: Option<int>)
    : (m: Selection.SelectionMethod)
    requires selectionType == Selection.Tournament ==> tournamentSize.Some?
    ensures selectionType == Selection.Best <==> m.BestSelection?
    ensures selectionType == Selection.RouletteWheel <==> m.RouletteWheelSelection?
    ensures selectionType == Selection.Tournament <==> m.TournamentSelection?
    ensures m.TournamentSelection? ==> m.tournamentSize == tournamentSize.value
  {
    match selectionType
    case Best => Selection.BestSelection
    case RouletteWheel => Selection.RouletteWheelSelection
    case Tournament => Selection.TournamentSelection(tournamentSize.value)
  }

  /**
   * `SelectionConfig(...)` with the operator built as intended: the
   * `assert`s decide success, and the configuration records its arguments
   * and the operator its type names.
   */
  function NewSelectionConfig(selectionType: Option<Selection.SelectionMethodType>, percentage: int,
                              isMaximCase: bool := true, tournamentSize: Option<int> := None): (r: Result<SelectionConfig>)
    ensures r.Ok? <==> SelectionArgsValid(selectionType, percentage, tournamentSize)
    ensures r.Err? ==> r.error == AssertionError
    ensures r.Ok? ==> (r.value.selectionType == selectionType.value
                       && r.value.selectionPercentage == percentage
                       && r.value.isMaximCase == isMaximCase
                       && r.value.tournamentSize == tournamentSize)
    ensures r.Ok? ==> (r.value.selectionMethod.TournamentSelection? <==> selectionType.value == Selection.Tournament)
    ensures r.Ok? && r.value.selectionMethod.TournamentSelection? ==> r.value.selectionMethod.tournamentSize > 1
  {
    if !SelectionArgsValid(selectionType, percentage, tournamentSize) then Err(AssertionError)
    else
      Ok(SelectionConfig(isMaximCase, selectionType.value, percentage, tournamentSize,
                         SelectionImplementation(selectionType.value, tournamentSize)))
  }

  /** The as-written constructor fails exactly where the intended one succeeds. */
  lemma SelectionConfigFailsWhereIntendedBuilds(selectionType: Option<Selection.SelectionMethodType>,
                                                percentage: int, isMaximCase: bool, tournamentSize: Option<int>)
    ensures NewSelectionConfig(selectionType, percentage, isMaximCase, tournamentSize).Ok?
      <==> SelectionConfigAsWritten(selectionType, percentage, isMaximCase, tournamentSize) == Err(TypeError)
  {
  }

  // ---------------------------------------------------------------- crossing

  datatype CrossingConfig = CrossingConfig(grain: Option<int>, crossingType: Crossing.CrossingMethodType,
                                           crossingMethod: Crossing.CrossingMethod)

  /** `_get_crossing_implementation`: the grain crossing is built with the configured grain. */
  function CrossingImplementation(crossingType: Crossing.CrossingMethodType, grain: Option<int>)
    : (m: Crossing.CrossingMethod)
    requires crossingType == Crossing.Grain ==> grain.Some?
    ensures crossingType == Crossing.SinglePoint <==> m.SinglePointCrossing?
    ensures crossingType == Crossing.TwoPoint <==> m.TwoPointCrossing?
    ensures crossingType == Crossing.Uniform <==> m.UniformCrossing?
    ensures crossingType == Crossing.Grain <==> m.GrainCrossing?
    ensures m.GrainCrossing? ==> m.grainSize == grain.value
  {
    match crossingType
    case SinglePoint => Crossing.SinglePointCrossing
    case TwoPoint => Crossing.TwoPointCrossing
    case Uniform => Crossing.UniformCrossing
    case Grain => Crossing.GrainCrossing(grain.value)
  }

  /**
   * `CrossingConfig(crossing_type, grain)`: a type is required, and the
   * grain crossing needs a positive grain.
   */
  function NewCrossingConfig(crossingType: Option<Crossing.CrossingMethodType>, grain: Option<int> := None)
    : (r: Result<CrossingConfig>)
    ensures r.Ok? <==> (crossingType.Some?
                        && (crossingType.value == Crossing.Grain ==> grain.Some? && grain.value > 0))
    ensures r.Err? ==> r.error == AssertionError
    ensures r.Ok? ==> r.value.crossingType == crossingType.value && r.value.grain == grain
    ensures r.Ok? && r.value.crossingMethod.GrainCrossing? ==> r.value.crossingMethod.grainSize > 0
  {
    if crossingType.None? then Err(AssertionError)
    else if crossingType.value == Crossing.Grain && !(grain.Some? && grain.value > 0) then Err(AssertionError)
    else Ok(CrossingConfig(grain, crossingType.value, CrossingImplementation(crossingType.value, grain)))
  }

  /**
   * The defaults of the constructors: a selection configuration maximises
   * and has no tournament size, so a tournament needs one given explicitly
   * (the class's own default of 3 is never reached through a
   * configuration); a crossing configuration has no grain, so a grain
   * crossing needs one given; the operator classes default to a tournament
   * of 3 and a grain of 2.
   */
  lemma ConfigDefaults(percentage: int)
    requires 0 < percentage < 100
    ensures NewSelectionConfig(Some(Selection.Best), percentage).Ok?
    ensures NewSelectionConfig(Some(Selection.Best), percentage).value.isMaximCase
    ensures NewSelectionConfig(Some(Selection.Best), percentage).value.tournamentSize.None?
    ensures NewSelectionConfig(Some(Selection.Tournament), percentage) == Err(AssertionError)
    ensures NewCrossingConfig(Some(Crossing.Uniform)).Ok? && NewCrossingConfig(Some(Crossing.Uniform)).value.grain.None?
    ensures NewCrossingConfig(Some(Crossing.Grain)) == Err(AssertionError)
    ensures Selection.TournamentSelection().tournamentSize == 3
    ensures Crossing.GrainCrossing().grainSize == 2
  {
  }

  // ---------------------------------------------------------------- mutation

  datatype MutationConfig = MutationConfig(mutationType: Mutation.MutationMethodType, probability: int,
                                           mutationMethod: Mutation.MutationMethod)

  /** `_get_mutation_implementation`: the chosen operator with the configured probability. */
  function MutationImplementation(mutationType: Mutation.MutationMethodType, probability: int)
    : (m: Mutation.MutationMethod)
    ensures mutationType == Mutation.Boundary <==> m.BoundaryMutation?
    ensures mutationType == Mutation.SinglePoint <==> m.SinglePointMutation?
    ensures mutationType == Mutation.TwoPoint <==> m.TwoPointMutation?
    ensures m.probability == probability as real
  {
    match mutationType
    case Boundary => Mutation.BoundaryMutation(probability as real)
    case SinglePoint => Mutation.SinglePointMutation(probability as real)
    case TwoPoint => Mutation.TwoPointMutation(probability as real)
  }

  /** `MutationConfig(mutation_type, probability)`: a type and a probability strictly between 0 and 100. */
  function NewMutationConfig(mutationType: Option<Mutation.MutationMethodType>, probability: int)
    : (r: Result<MutationConfig>)
    ensures r.Ok? <==> mutationType.Some? && 0 < probability < 100
    ensures r.Err? ==> r.error == AssertionError
    ensures r.Ok? ==> r.value.mutationType == mutationType.value && r.value.probability == probability
  {
    if mutationType.Some? && 0 < probability < 100 then
      Ok(MutationConfig(mutationType.value, probability, MutationImplementation(mutationType.value, probability)))
    else Err(AssertionError)
  }

  /**
   * The probability is an integer percentage, but the operators compare it
   * with a draw of `random.random()` in `[0, 1)`: under every valid
   * configuration every gate passes.
   */
  lemma ConfiguredMutationAlwaysFires(mutationType: Option<Mutation.MutationMethodType>, probability: int,
                                      gate: real)
    requires NewMutationConfig(mutationType, probability).Ok?
    requires 0.0 <= gate < 1.0
    ensures gate < NewMutationConfig(mutationType, probability).value.mutationMethod.probability
  {
    var m := NewMutationConfig(mutationType, probability).value;
    assert m.mutationMethod.probability == probability as real;
  }

  // ---------------------------------------------------------------- inversion

  datatype InversionConfig = InversionConfig(probability: int, inversion: Inversion.StandardInversion)

  /**
   * `InversionConfig(probability)`: the same guard as `StandardInversion`,
   * so a configuration that passes it always builds its operator.
   */
  function NewInversionConfig(probability: Option<int>): (r: Result<InversionConfig>)
    ensures r.Ok? <==> Inversion.NewStandardInversion(probability).Ok?
    ensures r.Ok? <==> probability.Some? && 0 < probability.value < 100
    ensures r.Err? ==> r.error == AssertionError
    ensures r.Ok? ==> (r.value.probability == probability.value
                       && r.value.inversion.probability == probability.value)
  {
    if !(probability.Some? && 0 < probability.value < 100) then Err(AssertionError)
    else
      var inversion := Inversion.NewStandardInversion(probability);
      Ok(InversionConfig(probability.value, inversion.value))
  }

  // ---------------------------------------------------------------- elite strategy

  datatype EliteStrategyConfig = EliteStrategyConfig(eliteCount: nat, strategy: Elite.EliteStrategy)

  /**
   * `EliteStrategyConfig(elite_count)`: the same guard as `EliteStrategy`,
   * so a configuration that passes it always builds its operator.
   */
  function NewEliteStrategyConfig(eliteCount: Option<int>): (r: Result<EliteStrategyConfig>)
    ensures r.Ok? <==> Elite.NewEliteStrategy(eliteCount).Ok?
    ensures r.Ok? <==> eliteCount.Some? && eliteCount.value >= 0
    ensures r.Err? ==> r.error == AssertionError
    ensures r.Ok? ==> r.value.eliteCount == eliteCount.value && r.value.strategy.eliteCount == eliteCount.value
  {
    if !(eliteCount.Some? && eliteCount.value >= 0) then Err(AssertionError)
    else Ok(EliteStrategyConfig(eliteCount.value, Elite.NewEliteStrategy(eliteCount).value))
  }
}
