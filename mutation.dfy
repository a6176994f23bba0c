/**
 * Mutation operators. Each copies the chromosome, overwrites some genes of
 * the copy in place and returns the copy; the input is a value and is never
 * touched. A gene is replaced when a gate draw from `random.random()`, in
 * `[0, 1)`, falls below the raw `probability`; the other draws
 * (`random.choice`, `random.randint`) are parameters in their ranges.
 * Genes are reals; the replacement values are the integers the operators
 * are given or draw.
 */
module Mutation {
  import opened Py

  datatype MutationMethodType = Boundary | SinglePoint | TwoPoint

  /** The operator instances a configuration can choose, each with its probability. */
  datatype MutationMethod =
    | BoundaryMutation(probability: real)
    | SinglePointMutation(probability: real)
    | TwoPointMutation(probability: real)

  // ---------------------------------------------------------------- boundary

  /**
   * What boundary mutation leaves at each position: the bound picked by
   * `pickMax[i]` (`random.choice([min_value, max_value])`) where the gate
   * passes, the old gene elsewhere.
   */
  function BoundaryMutated(c: seq<real>, minValue: int, maxValue: int, probability: real,
                           gates: seq<real>, pickMax: seq<bool>): (r: seq<real>)
    requires |gates| == |c| && |pickMax| == |c|
    ensures |r| == |c|
    ensures forall i :: 0 <= i < |c| ==>
      r[i] == c[i] || r[i] == minValue as real || r[i] == maxValue as real
    ensures forall i :: 0 <= i < |c| && gates[i] >= probability ==> r[i] == c[i]
    ensures forall i :: 0 <= i < |c| && gates[i] < probability ==>
      r[i] == (if pickMax[i] then maxValue as real else minValue as real)
  {
    seq(|c|, i requires 0 <= i < |c| =>
      if gates[i] < probability then (if pickMax[i] then maxValue as real else minValue as real) else c[i])
  }

  /** `BoundaryMutation.mutate`: one gate per gene, over a copy of the chromosome. */
  method BoundaryMutate(c: seq<real>, minValue: int, maxValue: int, probability: real,
                        gates: seq<real>, pickMax: seq<bool>) returns (m: seq<real>)
    requires |gates| == |c| && |pickMax| == |c|
    requires forall i :: 0 <= i < |gates| ==> 0.0 <= gates[i] < 1.0
    ensures m == BoundaryMutated(c, minValue, maxValue, probability, gates, pickMax)
  {
    var mutated := new real[|c|](i requires 0 <= i < |c| => c[i]);
    for i := 0 to |c|
      invariant forall j :: 0 <= j < i ==>
        mutated[j] == BoundaryMutated(c, minValue, maxValue, probability, gates, pickMax)[j]
      invariant forall j :: i <= j < |c| ==> mutated[j] == c[j]
    {
      if gates[i] < probability {
        mutated[i] := if pickMax[i] then maxValue as real else minValue as real;
      }
    }
    m := mutated[..];
  }

  /** When no gate passes, boundary mutation returns an equal copy. */
  lemma BoundaryNoGateIdentity(c: seq<real>, minValue: int, maxValue: int, probability: real,
                               gates: seq<real>, pickMax: seq<bool>)
    requires |gates| == |c| && |pickMax| == |c|
    requires forall i :: 0 <= i < |c| ==> gates[i] >= probability
    ensures BoundaryMutated(c, minValue, maxValue, probability, gates, pickMax) == c
  {
    var r := BoundaryMutated(c, minValue, maxValue, probability, gates, pickMax);
    assert forall i :: 0 <= i < |c| ==> r[i] == c[i];
  }

  /** A probability of 1 or more lets every gate pass: every gene becomes a bound. */
  lemma BoundaryCertain(c: seq<real>, minValue: int, maxValue: int, probability: real,
                        gates: seq<real>, pickMax: seq<bool>)
    requires |gates| == |c| && |pickMax| == |c|
    requires forall i :: 0 <= i < |gates| ==> 0.0 <= gates[i] < 1.0
    requires probability >= 1.0
    ensures var r := BoundaryMutated(c, minValue, maxValue, probability, gates, pickMax);
      forall i :: 0 <= i < |c| ==> r[i] == minValue as real || r[i] == maxValue as real
  {
  }

  // ---------------------------------------------------------------- point mutations

  /** The draws of one point mutation: the gate, `randint(0, len - 1)` and `randint(min_value, max_value)`. */
  datatype PointDraw = PointDraw(gate: real, index: int, value: int)

  predicate ValidPointDraw(d: PointDraw, length: nat, minValue: int, maxValue: int)
  {
    0.0 <= d.gate < 1.0
    && (length > 0 ==> 0 <= d.index < length)
    && (minValue <= maxValue ==> minValue <= d.value <= maxValue)
  }

  /** A passing gate on an empty chromosome or an empty value range makes `randint` raise. */
  predicate PointFails(d: PointDraw, probability: real, length: nat, minValue: int, maxValue: int)
  {
    d.gate < probability && (length == 0 || maxValue < minValue)
  }

  /**
   * The chromosome after the point mutations `ds`, in order: each one whose
   * gate passes writes its value at its index.
   */
  function Rounds(c: seq<real>, probability: real, ds: seq<PointDraw>): (r: seq<real>)
    requires forall k :: 0 <= k < |ds| && ds[k].gate < probability ==> 0 <= ds[k].index < |c|
    ensures |r| == |c|
  {
    if ds == [] then c
    else
      var prev := Rounds(c, probability, ds[..|ds| - 1]);
      var d := ds[|ds| - 1];
      if d.gate < probability then prev[d.index := d.value as real] else prev
  }

  /** A gene that `Rounds` changed was written by some passing draw, with that draw's value. */
  lemma {:induction false} RoundsWrittenBy(c: seq<real>, probability: real, ds: seq<PointDraw>)
    requires forall k :: 0 <= k < |ds| && ds[k].gate < probability ==> 0 <= ds[k].index < |c|
    ensures var r := Rounds(c, probability, ds);
      forall i :: 0 <= i < |c| && r[i] != c[i] ==>
        exists k :: 0 <= k < |ds| && ds[k].gate < probability && ds[k].index == i && r[i] == ds[k].value as real
    decreases |ds|
  {
    if ds != [] {
      var init, d := ds[..|ds| - 1], ds[|ds| - 1];
      RoundsWrittenBy(c, probability, init);
      var prev, r := Rounds(c, probability, init), Rounds(c, probability, ds);
      forall i | 0 <= i < |c| && r[i] != c[i]
        ensures exists k :: 0 <= k < |ds| && ds[k].gate < probability && ds[k].index == i && r[i] == ds[k].value as real
      {
        if d.gate < probability && i == d.index {
          assert ds[|ds| - 1].index == i;
        } else {
          assert r[i] == prev[i];
          var k :| 0 <= k < |init| && init[k].gate < probability && init[k].index == i && prev[i] == init[k].value as real;
          assert ds[k] == init[k];
        }
      }
    }
  }

  /**
   * `SinglePointMutation.mutate`: when the gate passes, one gene of the copy
   * gets a value in `[min_value, max_value]`; nothing else changes.
   */
  method SinglePointMutate(c: seq<real>, minValue: int, maxValue: int, probability: real, d: PointDraw)
    returns (r: Result<seq<real>>)
    requires ValidPointDraw(d, |c|, minValue, maxValue)
    ensures r.Err? <==> PointFails(d, probability, |c|, minValue, maxValue)
    ensures r.Err? ==> r.error == ValueError
    ensures r.Ok? ==> r.value == Rounds(c, probability, [d])
    ensures d.gate >= probability ==> r == Ok(c)
    ensures r.Ok? ==> |r.value| == |c| && forall i :: 0 <= i < |c| && r.value[i] != c[i] ==>
      i == d.index && minValue as real <= r.value[i] <= maxValue as real
  {
    var mutated := new real[|c|](i requires 0 <= i < |c| => c[i]);
    if d.gate < probability {
      if |c| == 0 || maxValue < minValue {
        return Err(ValueError);
      }
      mutated[d.index] := d.value as real;
    }
    assert [d][..0] == [];
    r := Ok(mutated[..]);
  }

  /**
   * `TwoPointMutation.mutate`: two independent rounds, each a single-point
   * mutation of the same copy; both may hit the same gene.
   */
  method TwoPointMutate(c: seq<real>, minValue: int, maxValue: int, probability: real, ds: seq<PointDraw>)
    returns (r: Result<seq<real>>)
    requires |ds| == 2
    requires ValidPointDraw(ds[0], |c|, minValue, maxValue) && ValidPointDraw(ds[1], |c|, minValue, maxValue)
    ensures r.Err? <==>
      PointFails(ds[0], probability, |c|, minValue, maxValue) || PointFails(ds[1], probability, |c|, minValue, maxValue)
    ensures r.Err? ==> r.error == ValueError
    ensures r.Ok? ==> r.value == Rounds(c, probability, ds)
  {
    var mutated := new real[|c|](i requires 0 <= i < |c| => c[i]);
    assert ds[..0] == [];
    for k := 0 to 2
      invariant forall j :: 0 <= j < k ==> !PointFails(ds[j], probability, |c|, minValue, maxValue)
      invariant mutated[..] == Rounds(c, probability, ds[..k])
    {
      var d := ds[k];
      assert ds[..k + 1][..k] == ds[..k];
      if d.gate < probability {
        if |c| == 0 || maxValue < minValue {
          return Err(ValueError);
        }
        mutated[d.index] := d.value as real;
      }
    }
    assert ds[..2] == ds;
    r := Ok(mutated[..]);
  }

  /**
   * After two rounds that did not raise, only the genes at the indices of
   * passing draws differ from the input, each holding a value in
   * `[min_value, max_value]`.
   */
  lemma TwoRoundsWrites(c: seq<real>, minValue: int, maxValue: int, probability: real, ds: seq<PointDraw>)
    requires |ds| == 2
    requires ValidPointDraw(ds[0], |c|, minValue, maxValue) && ValidPointDraw(ds[1], |c|, minValue, maxValue)
    requires !PointFails(ds[0], probability, |c|, minValue, maxValue)
    requires !PointFails(ds[1], probability, |c|, minValue, maxValue)
    ensures var r := Rounds(c, probability, ds);
      |r| == |c| && forall i :: 0 <= i < |c| && r[i] != c[i] ==>
        ((ds[0].gate < probability && i == ds[0].index) || (ds[1].gate < probability && i == ds[1].index))
        && minValue as real <= r[i] <= maxValue as real
  {
    var first := if ds[0].gate < probability then c[ds[0].index := ds[0].value as real] else c;
    var second := if ds[1].gate < probability then first[ds[1].index := ds[1].value as real] else first;
    assert ds[..1][..0] == [];
    assert Rounds(c, probability, ds[..1]) == first;
    assert Rounds(c, probability, ds) == second;
  }

  /** A probability of 1 or more always mutates: single-point then writes its drawn value. */
  lemma SinglePointCertain(c: seq<real>, probability: real, d: PointDraw)
    requires 0.0 <= d.gate < 1.0 && probability >= 1.0
    requires 0 <= d.index < |c|
    ensures Rounds(c, probability, [d]) == c[d.index := d.value as real]
  {
    assert [d][..0] == [];
  }

  // ---------------------------------------------------------------- dispatch

  /** The random draws one `mutate` call may consume. */
  datatype MutationDraws = MutationDraws(gates: seq<real>, pickMax: seq<bool>, points: seq<PointDraw>)

  predicate ValidMutationDraws(m: MutationMethod, length: nat, minValue: int, maxValue: int, d: MutationDraws)
  {
    match m
    case BoundaryMutation(_) =>
      |d.gates| == length && |d.pickMax| == length && forall i :: 0 <= i < |d.gates| ==> 0.0 <= d.gates[i] < 1.0
    case SinglePointMutation(_) =>
      |d.points| == 1 && ValidPointDraw(d.points[0], length, minValue, maxValue)
    case TwoPointMutation(_) =>
      |d.points| == 2
      && ValidPointDraw(d.points[0], length, minValue, maxValue)
      && ValidPointDraw(d.points[1], length, minValue, maxValue)
  }

  /**
   * `mutation_func`: the chosen operator's `mutate`. The result always has
   * the chromosome's length, and every changed gene holds a value in
   * `[min_value, max_value]` when that range is not empty.
   */
  method Mutate(m: MutationMethod, c: seq<real>, minValue: int, maxValue: int, d: MutationDraws)
    returns (r: Result<seq<real>>)
    requires ValidMutationDraws(m, |c|, minValue, maxValue, d)
    ensures m.BoundaryMutation? ==> r.Ok?
    ensures r.Err? ==> r.error == ValueError && (|c| == 0 || maxValue < minValue)
    ensures r.Ok? ==> |r.value| == |c|
    ensures r.Ok? && minValue <= maxValue ==> forall i :: 0 <= i < |c| && r.value[i] != c[i] ==>
      minValue as real <= r.value[i] <= maxValue as real
  {
    match m
    case BoundaryMutation(p) =>
      var mutated := BoundaryMutate(c, minValue, maxValue, p, d.gates, d.pickMax);
      r := Ok(mutated);
    case SinglePointMutation(p) =>
      r := SinglePointMutate(c, minValue, maxValue, p, d.points[0]);
    case TwoPointMutation(p) =>
      r := TwoPointMutate(c, minValue, maxValue, p, d.points);
      if r.Ok? {
        TwoRoundsWrites(c, minValue, maxValue, p, d.points);
      }
  }
}
