/**
 * Elitism: the `elite_count` fittest individuals of a population, found by
 * a stable descending sort of `(index, fitness)` pairs.
 */
module Elite {
  import opened Py
  import opened Sorting

  /** An elitism operator; the count is checked once, at construction. */
  datatype EliteStrategy = EliteStrategy(eliteCount: nat)

  /** `EliteStrategy(elite_count)`: a failed `assert` for `None` or a negative count. */
  function NewEliteStrategy(eliteCount: Option<int>): (r: Result<EliteStrategy>)
    ensures r.Ok? <==> eliteCount.Some? && eliteCount.value >= 0
    ensures r.Err? ==> r.error == AssertionError
    ensures r.Ok? ==> r.value.eliteCount == eliteCount.value
  {
    if eliteCount.Some? && eliteCount.value >= 0 then Ok(EliteStrategy(eliteCount.value))
    else Err(AssertionError)
  }

  /** `list(enumerate(fitness))`. */
  function Enumerate(fitness: seq<real>): (r: seq<(int, real)>)
    ensures |r| == |fitness|
    ensures forall i :: 0 <= i < |r| ==> r[i] == (i, fitness[i])
  {
    seq(|fitness|, i requires 0 <= i < |fitness| => (i, fitness[i]))
  }

  function FitnessOf(p: (int, real)): real { p.1 }

  function IndexOf(p: (int, real)): int { p.0 }

  /** The pairs sorted by fitness, largest first, ties by index. */
  function Ranked(fitness: seq<real>): seq<(int, real)>
  {
    SortDesc(Enumerate(fitness), FitnessOf)
  }

  /** The indices of the first `count` ranked pairs. */
  function EliteIndices(fitness: seq<real>, count: nat): (r: seq<int>)
    ensures |r| == Min(count, |fitness|)
  {
    var top := Take(Ranked(fitness), count);
    seq(|top|, k requires 0 <= k < |top| => top[k].0)
  }

  /** Every ranked pair is some `(i, fitness[i])`. */
  lemma RankedPairs(fitness: seq<real>)
    ensures var s := Ranked(fitness);
      |s| == |fitness|
      && forall k :: 0 <= k < |s| ==> 0 <= s[k].0 < |fitness| && s[k].1 == fitness[s[k].0]
  {
    var e := Enumerate(fitness);
    var s := Ranked(fitness);
    SortDescPermutes(e, FitnessOf);
    forall k | 0 <= k < |s| ensures 0 <= s[k].0 < |fitness| && s[k].1 == fitness[s[k].0] {
      assert s[k] in multiset(e);
      var i :| 0 <= i < |e| && e[i] == s[k];
    }
  }

  /** Every index occurs exactly once among the ranked pairs. */
  lemma RankedIndicesDistinct(fitness: seq<real>)
    ensures var s := Ranked(fitness);
      forall k, l :: 0 <= k < l < |s| ==> s[k].0 != s[l].0
  {
    var e := Enumerate(fitness);
    SortDescDistinct(e, FitnessOf);
    RankedPairs(fitness);
    var s := Ranked(fitness);
    assert s == SortDesc(e, FitnessOf);
    forall k, l | 0 <= k < l < |s| ensures s[k].0 != s[l].0 {
      assert s[k] != s[l];
    }
  }

  lemma RankedCovers(fitness: seq<real>, j: int)
    requires 0 <= j < |fitness|
    ensures exists k :: 0 <= k < |Ranked(fitness)| && Ranked(fitness)[k].0 == j
  {
    var e := Enumerate(fitness);
    SortDescPermutes(e, FitnessOf);
    assert e[j] in multiset(e);
    assert e[j] in multiset(Ranked(fitness));
    var k :| 0 <= k < |Ranked(fitness)| && Ranked(fitness)[k] == e[j];
  }

  /**
   * `select_elite`: differing lengths fail the `assert`; a zero count or an
   * empty population gives no elites; otherwise the individuals at the
   * indices of the first `elite_count` ranked pairs.
   */
  function SelectElite<T>(es: EliteStrategy, pop: seq<T>, fitness: seq<real>): (r: Result<seq<T>>)
    ensures r.Err? <==> |pop| != |fitness|
    ensures r.Err? ==> r.error == AssertionError
    ensures r.Ok? ==> |r.value| == Min(es.eliteCount, |pop|)
    ensures r.Ok? ==> forall k :: 0 <= k < |r.value| ==>
      var idx := EliteIndices(fitness, es.eliteCount);
      0 <= idx[k] < |pop| && r.value[k] == pop[idx[k]]
  {
    if |pop| != |fitness| then Err(AssertionError)
    else if es.eliteCount == 0 || |pop| == 0 then Ok([])
    else
      var idx := EliteIndices(fitness, es.eliteCount);
      EliteIndicesValid(fitness, es.eliteCount);
      Ok(seq(|idx|, k requires 0 <= k < |idx| => pop[idx[k]]))
  }

  /** The elite indices are distinct positions of the population. */
  lemma EliteIndicesValid(fitness: seq<real>, count: nat)
    ensures var idx := EliteIndices(fitness, count);
      (forall k :: 0 <= k < |idx| ==> 0 <= idx[k] < |fitness|)
      && forall k, l :: 0 <= k < l < |idx| ==> idx[k] != idx[l]
  {
    RankedPairs(fitness);
    RankedIndicesDistinct(fitness);
  }

  /** The elites come fittest first. */
  lemma EliteFitnessNonIncreasing(fitness: seq<real>, count: nat)
    ensures var idx := EliteIndices(fitness, count);
      forall k, l :: 0 <= k < l < |idx| ==>
        0 <= idx[k] < |fitness| && 0 <= idx[l] < |fitness| && fitness[idx[k]] >= fitness[idx[l]]
  {
    RankedPairs(fitness);
    SortDescOrdered(Enumerate(fitness), FitnessOf);
    var s := Ranked(fitness);
    var idx := EliteIndices(fitness, count);
    forall k, l | 0 <= k < l < |idx| ensures fitness[idx[k]] >= fitness[idx[l]] {
      assert FitnessOf(s[k]) >= FitnessOf(s[l]);
    }
  }

  /** Every elite is at least as fit as every individual left out. */
  lemma EliteDominates(fitness: seq<real>, count: nat, j: int)
    requires 0 <= j < |fitness| && j !in EliteIndices(fitness, count)
    ensures var idx := EliteIndices(fitness, count);
      forall k :: 0 <= k < |idx| ==> 0 <= idx[k] < |fitness| && fitness[idx[k]] >= fitness[j]
  {
    RankedPairs(fitness);
    SortDescOrdered(Enumerate(fitness), FitnessOf);
    RankedCovers(fitness, j);
    var s := Ranked(fitness);
    var idx := EliteIndices(fitness, count);
    var m :| 0 <= m < |s| && s[m].0 == j;
    assert forall k :: 0 <= k < |idx| ==> idx[k] == s[k].0;
    forall k | 0 <= k < |idx| ensures fitness[idx[k]] >= fitness[j] {
      assert FitnessOf(s[k]) >= FitnessOf(s[m]);
    }
  }

  /** Elites of equal fitness keep the population's order. */
  lemma EliteTiesInIndexOrder(fitness: seq<real>, count: nat)
    ensures var idx := EliteIndices(fitness, count);
      forall k, l ::
        (0 <= k < l < |idx| && 0 <= idx[k] < |fitness| && 0 <= idx[l] < |fitness|
         && fitness[idx[k]] == fitness[idx[l]]) ==> idx[k] < idx[l]
  {
    var e := Enumerate(fitness);
    RankedPairs(fitness);
    SortDescKeepsTieOrder(e, FitnessOf, IndexOf);
    var s := Ranked(fitness);
    assert TiesInOrder(s, FitnessOf, IndexOf);
  }
}
