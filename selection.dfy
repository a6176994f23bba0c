/**
 * Selection operators: each picks `num` individuals of a population by the
 * fitness the caller supplies. The random draws (the fallback sample, the
 * roulette picks, the tournament contenders) are parameters ranging over
 * what `random.sample` and `random.uniform` can return.
 */
module Selection {
  import opened Py
  import opened Sorting

  datatype SelectionMethodType = Best | RouletteWheel | Tournament

  /** `TournamentSelection`'s size when none is given. */
  const DefaultTournamentSize := 3

  /** The operator instances a configuration can choose. */
  datatype SelectionMethod =
    | BestSelection
    | RouletteWheelSelection
    | TournamentSelection(tournamentSize: int := DefaultTournamentSize)

  // ---------------------------------------------------------------- best

  /** `BestSelection.select`: the `num` fittest, fittest first (a negative `num` drops from the end). */
  function BestSelect<T>(pop: seq<T>, fitness: T -> real, num: int): (r: seq<T>)
    ensures |r| == Clamp(num, |pop|)
    ensures num >= 0 ==> |r| == Min(num, |pop|)
    ensures NonIncreasing(r, fitness)
  {
    SortDescOrdered(pop, fitness);
    Take(SortDesc(pop, fitness), num)
  }

  /** The individuals `BestSelect` leaves behind: the rest of the sorted population. */
  function BestRest<T>(pop: seq<T>, fitness: T -> real, num: int): seq<T>
  {
    Drop(SortDesc(pop, fitness), num)
  }

  /** Selected and left-behind individuals together are the population, rearranged. */
  lemma BestPartitions<T>(pop: seq<T>, fitness: T -> real, num: int)
    ensures multiset(BestSelect(pop, fitness, num)) + multiset(BestRest(pop, fitness, num)) == multiset(pop)
    ensures forall x :: x in BestSelect(pop, fitness, num) ==> x in pop
  {
    var s := SortDesc(pop, fitness);
    SortDescPermutes(pop, fitness);
    assert s == BestSelect(pop, fitness, num) + BestRest(pop, fitness, num);
    forall x | x in BestSelect(pop, fitness, num) ensures x in pop {
      assert x in multiset(s);
    }
  }

  /** Every selected individual is at least as fit as every one left behind. */
  lemma BestDominates<T>(pop: seq<T>, fitness: T -> real, num: int)
    ensures var sel, rest := BestSelect(pop, fitness, num), BestRest(pop, fitness, num);
      forall i, j :: 0 <= i < |sel| && 0 <= j < |rest| ==> fitness(sel[i]) >= fitness(rest[j])
  {
    var s := SortDesc(pop, fitness);
    SortDescOrdered(pop, fitness);
    var sel, rest := BestSelect(pop, fitness, num), BestRest(pop, fitness, num);
    forall i, j | 0 <= i < |sel| && 0 <= j < |rest| ensures fitness(sel[i]) >= fitness(rest[j]) {
      assert sel[i] == s[i] && rest[j] == s[|sel| + j];
    }
  }

  /**
   * Stability: for each fitness value, the individuals having it appear,
   * across the selected ones followed by the rest, in population order.
   */
  lemma BestKeepsTies<T>(pop: seq<T>, fitness: T -> real, num: int, v: real)
    ensures WithKey(BestSelect(pop, fitness, num), fitness, v) + WithKey(BestRest(pop, fitness, num), fitness, v)
         == WithKey(pop, fitness, v)
  {
    var s := SortDesc(pop, fitness);
    assert s == BestSelect(pop, fitness, num) + BestRest(pop, fitness, num);
    WithKeyAppend(BestSelect(pop, fitness, num), BestRest(pop, fitness, num), fitness, v);
    SortDescStable(pop, fitness, v);
  }

  // ---------------------------------------------------------------- roulette

  /** Python's `sum` of the first `k` fitnesses, added left to right. */
  function PrefixSum<T>(pop: seq<T>, fitness: T -> real, k: nat): real
    requires k <= |pop|
  {
    if k == 0 then 0.0 else PrefixSum(pop, fitness, k - 1) + fitness(pop[k - 1])
  }

  /** `fitness_sum`: the fitnesses added left to right. */
  function TotalFitness<T>(pop: seq<T>, fitness: T -> real): real
  {
    PrefixSum(pop, fitness, |pop|)
  }

  /** The roulette's running total `current` after adding individual `k` reaches `pick`. */
  predicate Reaches<T>(pop: seq<T>, fitness: T -> real, pick: real, k: nat)
    requires k < |pop|
  {
    PrefixSum(pop, fitness, k + 1) >= pick
  }

  /** The first individual at or after `i` whose running total reaches `pick`, if any. */
  function FirstReaching<T>(pop: seq<T>, fitness: T -> real, pick: real, i: nat): (r: Option<nat>)
    requires i <= |pop|
    ensures r.Some? ==>
      i <= r.value < |pop| && Reaches(pop, fitness, pick, r.value)
      && forall k :: i <= k < r.value ==> !Reaches(pop, fitness, pick, k)
    ensures r.None? <==> forall k :: i <= k < |pop| ==> !Reaches(pop, fitness, pick, k)
    decreases |pop| - i
  {
    if i == |pop| then None
    else if Reaches(pop, fitness, pick, i) then Some(i)
    else FirstReaching(pop, fitness, pick, i + 1)
  }

  /** One spin of the wheel: the inner `for ind in population` loop with its `current` accumulator. */
  method SpinWheel<T>(pop: seq<T>, fitness: T -> real, pick: real) returns (idx: Option<nat>)
    ensures idx == FirstReaching(pop, fitness, pick, 0)
  {
    var current := 0.0;
    var i: nat := 0;
    while i < |pop|
      invariant i <= |pop|
      invariant current == PrefixSum(pop, fitness, i)
      invariant FirstReaching(pop, fitness, pick, i) == FirstReaching(pop, fitness, pick, 0)
    {
      current := current + fitness(pop[i]);
      if current >= pick {
        return Some(i);
      }
      i := i + 1;
    }
    return None;
  }

  /** What the spins for `picks`, in order, append: nothing for a spin that reaches no one. */
  function RouletteSpec<T>(pop: seq<T>, fitness: T -> real, picks: seq<real>): (r: seq<T>)
    ensures |r| <= |picks|
    ensures forall j :: 0 <= j < |r| ==> r[j] in pop
  {
    if picks == [] then []
    else
      var rest := RouletteSpec(pop, fitness, picks[..|picks| - 1]);
      match FirstReaching(pop, fitness, picks[|picks| - 1], 0)
      case Some(j) => rest + [pop[j]]
      case None => rest
  }

  /**
   * `RouletteWheelSelection.select`. A zero fitness sum falls back to
   * `random.sample(population, num)` (the positions `sample`), which raises
   * for a `num` outside `[0, |pop|]`; otherwise each of the `num` picks,
   * drawn by `random.uniform(0, fitness_sum)`, spins the wheel once.
   */
  method RouletteWheelSelect<T>(pop: seq<T>, fitness: T -> real, num: int, sample: seq<int>, picks: seq<real>)
    returns (r: Result<seq<T>>)
    requires TotalFitness(pop, fitness) == 0.0 && 0 <= num <= |pop| ==> SampleOf(sample, |pop|, num)
    requires TotalFitness(pop, fitness) != 0.0 ==> |picks| == Max(num, 0)
    requires TotalFitness(pop, fitness) != 0.0 ==> forall k :: 0 <= k < |picks| ==>
      RMin(0.0, TotalFitness(pop, fitness)) <= picks[k] <= RMax(0.0, TotalFitness(pop, fitness))
    ensures r.Err? <==> TotalFitness(pop, fitness) == 0.0 && (num < 0 || num > |pop|)
    ensures r.Err? ==> r.error == ValueError
    ensures TotalFitness(pop, fitness) == 0.0 && r.Ok? ==>
      |r.value| == num && forall k :: 0 <= k < num ==> r.value[k] == pop[sample[k]]
    ensures TotalFitness(pop, fitness) != 0.0 ==> r == Ok(RouletteSpec(pop, fitness, picks))
  {
    var fitnessSum := TotalFitness(pop, fitness);
    if fitnessSum == 0.0 {
      if num < 0 || num > |pop| {
        return Err(ValueError);
      }
      return Ok(seq(num, k requires 0 <= k < num => pop[sample[k]]));
    }
    var selected: seq<T> := [];
    var n := 0;
    while n < |picks|
      invariant n <= |picks|
      invariant selected == RouletteSpec(pop, fitness, picks[..n])
    {
      var idx := SpinWheel(pop, fitness, picks[n]);
      assert picks[..n + 1][..n] == picks[..n];
      if idx.Some? {
        selected := selected + [pop[idx.value]];
      }
      n := n + 1;
    }
    assert picks[..n] == picks;
    return Ok(selected);
  }

  /** With a non-negative total, a pick that is at most the total always reaches someone. */
  lemma SpinAlwaysLands<T>(pop: seq<T>, fitness: T -> real, pick: real)
    requires |pop| > 0 && pick <= TotalFitness(pop, fitness)
    ensures FirstReaching(pop, fitness, pick, 0).Some?
  {
    assert Reaches(pop, fitness, pick, |pop| - 1);
  }

  /**
   * With non-negative fitness and a non-zero sum, every spin appends
   * exactly one individual: the first whose running total reaches its pick.
   */
  lemma {:induction false} RouletteFillsEveryDraw<T>(pop: seq<T>, fitness: T -> real, picks: seq<real>)
    requires forall i :: 0 <= i < |pop| ==> fitness(pop[i]) >= 0.0
    requires TotalFitness(pop, fitness) != 0.0
    requires forall k :: 0 <= k < |picks| ==> 0.0 <= picks[k] <= TotalFitness(pop, fitness)
    ensures var r := RouletteSpec(pop, fitness, picks);
      |r| == |picks|
      && forall k :: 0 <= k < |picks| ==>
           FirstReaching(pop, fitness, picks[k], 0).Some?
           && r[k] == pop[FirstReaching(pop, fitness, picks[k], 0).value]
  {
    if picks != [] {
      var init := picks[..|picks| - 1];
      RouletteFillsEveryDraw(pop, fitness, init);
      assert |pop| > 0;
      SpinAlwaysLands(pop, fitness, picks[|picks| - 1]);
      forall k | 0 <= k < |init| ensures init[k] == picks[k] { }
    }
  }

  /** Running totals of zero fitnesses stay zero. */
  lemma {:induction false} PrefixSumZero<T>(pop: seq<T>, fitness: T -> real, k: nat)
    requires k <= |pop|
    requires forall i :: 0 <= i < |pop| ==> fitness(pop[i]) == 0.0
    ensures PrefixSum(pop, fitness, k) == 0.0
  {
    if k > 0 {
      PrefixSumZero(pop, fitness, k - 1);
    }
  }

  /**
   * `fitness_sum` is never negative when no fitness is, and is zero when
   * every fitness is, which sends the roulette to its sampling fallback.
   */
  lemma TotalFitnessSign<T>(pop: seq<T>, fitness: T -> real)
    ensures (forall i :: 0 <= i < |pop| ==> fitness(pop[i]) >= 0.0) ==> TotalFitness(pop, fitness) >= 0.0
    ensures (forall i :: 0 <= i < |pop| ==> fitness(pop[i]) == 0.0) ==> TotalFitness(pop, fitness) == 0.0
  {
    if forall i :: 0 <= i < |pop| ==> fitness(pop[i]) >= 0.0 {
      PrefixSumNonNegative(pop, fitness, |pop|);
    }
    if forall i :: 0 <= i < |pop| ==> fitness(pop[i]) == 0.0 {
      PrefixSumZero(pop, fitness, |pop|);
    }
  }

  /** The running totals of non-negative fitnesses never decrease, so the sum is non-negative. */
  lemma {:induction false} PrefixSumNonNegative<T>(pop: seq<T>, fitness: T -> real, k: nat)
    requires k <= |pop|
    requires forall i :: 0 <= i < |pop| ==> fitness(pop[i]) >= 0.0
    ensures PrefixSum(pop, fitness, k) >= 0.0
  {
    if k > 0 {
      PrefixSumNonNegative(pop, fitness, k - 1);
    }
  }

  /**
   * With non-negative fitness and a non-zero sum, the roulette returns
   * exactly `num` individuals (none for a negative `num`).
   */
  lemma RouletteLengthIsNum<T>(pop: seq<T>, fitness: T -> real, num: int, picks: seq<real>)
    requires forall i :: 0 <= i < |pop| ==> fitness(pop[i]) >= 0.0
    requires TotalFitness(pop, fitness) != 0.0
    requires |picks| == Max(num, 0)
    requires forall k :: 0 <= k < |picks| ==>
      RMin(0.0, TotalFitness(pop, fitness)) <= picks[k] <= RMax(0.0, TotalFitness(pop, fitness))
    ensures |RouletteSpec(pop, fitness, picks)| == Max(num, 0)
  {
    PrefixSumNonNegative(pop, fitness, |pop|);
    RouletteFillsEveryDraw(pop, fitness, picks);
  }

  // ---------------------------------------------------------------- tournament

  /** Python's `max` over the first `n` values: the first position holding the largest one. */
  function FirstMax(vals: seq<real>, n: nat): (m: nat)
    requires 0 < n <= |vals|
    ensures m < n
    ensures forall j :: 0 <= j < n ==> vals[j] <= vals[m]
    ensures forall j :: 0 <= j < m ==> vals[j] < vals[m]
  {
    if n == 1 then 0
    else
      var m := FirstMax(vals, n - 1);
      if vals[n - 1] > vals[m] then n - 1 else m
  }

  /** `max(contenders, key=fitness)`, as a position of the population. */
  function WinnerIndex<T>(pop: seq<T>, fitness: T -> real, contenders: seq<int>): (w: nat)
    requires |contenders| > 0
    requires forall i :: 0 <= i < |contenders| ==> 0 <= contenders[i] < |pop|
    ensures w < |pop| && w in contenders
    ensures forall i :: 0 <= i < |contenders| ==> fitness(pop[contenders[i]]) <= fitness(pop[w])
  {
    var vals := seq(|contenders|, i requires 0 <= i < |contenders| => fitness(pop[contenders[i]]));
    var m := FirstMax(vals, |vals|);
    assert forall i :: 0 <= i < |contenders| ==> vals[i] == fitness(pop[contenders[i]]);
    contenders[m]
  }

  /**
   * `TournamentSelection.select`: `num` independent tournaments, round `k`
   * among the `min(tournament_size, |pop|)` distinct positions `rounds[k]`
   * drawn by `random.sample`. An empty or negative sample size makes
   * `random.sample` or `max` raise as soon as one round is played.
   */
  method TournamentSelect<T>(pop: seq<T>, fitness: T -> real, tournamentSize: int, num: int, rounds: seq<seq<int>>)
    returns (r: Result<seq<T>>)
    requires num >= 1 && Min(tournamentSize, |pop|) >= 1 ==>
      |rounds| == num && forall k :: 0 <= k < |rounds| ==> SampleOf(rounds[k], |pop|, Min(tournamentSize, |pop|))
    ensures r.Err? <==> num >= 1 && Min(tournamentSize, |pop|) <= 0
    ensures r.Err? ==> r.error == ValueError
    ensures r.Ok? ==> |r.value| == Max(num, 0)
    ensures r.Ok? ==> forall k :: 0 <= k < |r.value| ==>
      SampleOf(rounds[k], |pop|, Min(tournamentSize, |pop|))
      && r.value[k] == pop[WinnerIndex(pop, fitness, rounds[k])]
  {
    if num >= 1 && Min(tournamentSize, |pop|) <= 0 {
      return Err(ValueError);
    }
    var selected: seq<T> := [];
    var k := 0;
    while k < num
      invariant 0 <= k <= Max(num, 0)
      invariant |selected| == k
      invariant forall j :: 0 <= j < k ==> selected[j] == pop[WinnerIndex(pop, fitness, rounds[j])]
    {
      var winner := WinnerIndex(pop, fitness, rounds[k]);
      selected := selected + [pop[winner]];
      k := k + 1;
    }
    return Ok(selected);
  }

  /** Rounds are independent: the same individual can win every one of them. */
  lemma TournamentCanRepeat()
    ensures var pop, fitness := [1, 2], (x: int) => x as real;
      WinnerIndex(pop, fitness, [0, 1]) == 1 && WinnerIndex(pop, fitness, [1, 0]) == 1
  {
    var pop, fitness := [1, 2], (x: int) => x as real;
    assert fitness(pop[0]) < fitness(pop[1]);
  }

  // ---------------------------------------------------------------- dispatch

  /** The random draws one `select` call may consume. */
  datatype SelectionDraws = SelectionDraws(sample: seq<int>, picks: seq<real>, rounds: seq<seq<int>>)

  predicate ValidSelectionDraws<T>(m: SelectionMethod, pop: seq<T>, fitness: T -> real, num: int, d: SelectionDraws)
  {
    match m
    case BestSelection => true
    case RouletteWheelSelection =>
      var total := TotalFitness(pop, fitness);
      (total == 0.0 && 0 <= num <= |pop| ==> SampleOf(d.sample, |pop|, num))
      && (total != 0.0 ==> |d.picks| == Max(num, 0))
      && (total != 0.0 ==> forall k :: 0 <= k < |d.picks| ==> RMin(0.0, total) <= d.picks[k] <= RMax(0.0, total))
    case TournamentSelection(ts) =>
      num >= 1 && Min(ts, |pop|) >= 1 ==>
        |d.rounds| == num && forall k :: 0 <= k < |d.rounds| ==> SampleOf(d.rounds[k], |pop|, Min(ts, |pop|))
  }

  /**
   * `selection_func`: the chosen operator's `select`. Whatever it picks
   * comes from the population; only the sampling calls can fail.
   */
  method Select<T>(m: SelectionMethod, pop: seq<T>, fitness: T -> real, num: int, d: SelectionDraws)
    returns (r: Result<seq<T>>)
    requires ValidSelectionDraws(m, pop, fitness, num, d)
    ensures r.Ok? ==> forall x :: x in r.value ==> x in pop
    ensures r.Err? ==> r.error == ValueError
    ensures m.BestSelection? ==> r == Ok(BestSelect(pop, fitness, num))
    ensures m.RouletteWheelSelection? ==>
      (r.Err? <==> TotalFitness(pop, fitness) == 0.0 && (num < 0 || num > |pop|))
    ensures m.TournamentSelection? ==>
      (r.Err? <==> num >= 1 && Min(m.tournamentSize, |pop|) <= 0)
  {
    match m
    case BestSelection =>
      BestPartitions(pop, fitness, num);
      r := Ok(BestSelect(pop, fitness, num));
    case RouletteWheelSelection =>
      r := RouletteWheelSelect(pop, fitness, num, d.sample, d.picks);
    case TournamentSelection(ts) =>
      r := TournamentSelect(pop, fitness, ts, num, d.rounds);
  }
}
