/**
 * One candidate solution: its real-valued vector and the cost the objective
 * assigned to it (`None` until the orchestrator evaluates it), and the
 * factory that draws random units inside a box.
 */
module Units {
  import opened Py

  datatype Unit = Unit(realValues: seq<real>, cost: Option<real>)

  /** `Unit(real_values, cost=None)`: stores what it is given; the cost is unset unless passed. */
  function NewUnit(realValues: seq<real>, cost: Option<real> := None): (u: Unit)
    ensures u.realValues == realValues
    ensures u.cost == cost
  {
    Unit(realValues, cost)
  }

  datatype UnitFactory = UnitFactory(lowerBound: real, upperBound: real)
  {
    /**
     * `create_random_unit(dimension)`: one uniform draw per dimension
     * (`draws[i]` is the i-th draw), and no cost. A negative dimension is an
     * empty `range` and gives an empty vector.
     */
    function CreateRandomUnit(dimension: int, draws: seq<real>): (u: Unit)
      requires |draws| == Max(dimension, 0)
      // `random.uniform(a, b)` yields a value between the two ends, whichever is larger
      requires forall i :: 0 <= i < |draws| ==>
        RMin(lowerBound, upperBound) <= draws[i] <= RMax(lowerBound, upperBound)
      ensures |u.realValues| == Max(dimension, 0)
      ensures forall i :: 0 <= i < |u.realValues| ==>
        RMin(lowerBound, upperBound) <= u.realValues[i] <= RMax(lowerBound, upperBound)
      ensures lowerBound <= upperBound ==>
        forall i :: 0 <= i < |u.realValues| ==> lowerBound <= u.realValues[i] <= upperBound
      ensures u.cost == None
    {
      NewUnit(draws)
    }
  }
}
