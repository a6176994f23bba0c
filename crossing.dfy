/**
 * Crossing operators: each takes two parent gene sequences and returns two
 * children. The random choices (cut points, the uniform mask) are
 * parameters whose ranges are those of the `random.randint` calls that
 * draw them. Parents are not required to have equal length: Python slices
 * clamp, so the operators are defined for any lengths, and the properties
 * are stated for equal-length parents, the case the engine uses.
 */
module Crossing {
  import opened Py

  datatype CrossingMethodType = SinglePoint | TwoPoint | Uniform | Grain

  /** `GrainCrossing`'s grain when none is given. */
  const DefaultGrainSize := 2

  /** The operator instances a configuration can choose. */
  datatype CrossingMethod =
    | SinglePointCrossing
    | TwoPointCrossing
    | UniformCrossing
    | GrainCrossing(grainSize: int := DefaultGrainSize)

  /** Position by position, the two children hold exactly the two parents' genes. */
  predicate ConservesGenes<G(==)>(p1: seq<G>, p2: seq<G>, c1: seq<G>, c2: seq<G>)
  {
    |p1| == |p2| == |c1| == |c2|
    && forall i :: 0 <= i < |p1| ==> multiset{c1[i], c2[i]} == multiset{p1[i], p2[i]}
  }

  /** `a` with the segment `[lo, hi)` taken from `b`, gene by gene. */
  lemma SpliceAt<G>(a: seq<G>, b: seq<G>, lo: int, hi: int)
    requires |a| == |b| && 0 <= lo <= hi <= |a|
    ensures var s := Take(a, lo) + Slice(b, lo, hi) + Drop(a, hi);
      |s| == |a| && forall i :: 0 <= i < |a| ==> s[i] == (if lo <= i < hi then b[i] else a[i])
  {
  }

  /**
   * `SinglePointCrossing.cross`: below two genes the parents come back as
   * copies; otherwise the tails after the cut `point` (drawn from
   * `randint(1, length - 1)`) are swapped.
   */
  function SinglePointCross<G>(p1: seq<G>, p2: seq<G>, point: int): (r: (seq<G>, seq<G>))
    requires |p1| >= 2 ==> 1 <= point <= |p1| - 1
    ensures |p1| < 2 ==> r == (p1, p2)
    ensures |p1| >= 2 && |p1| == |p2| ==>
      |r.0| == |p1| && |r.1| == |p1|
      && (forall i :: 0 <= i < |p1| ==> r.0[i] == (if i < point then p1[i] else p2[i]))
      && (forall i :: 0 <= i < |p1| ==> r.1[i] == (if i < point then p2[i] else p1[i]))
  {
    if |p1| < 2 then (p1, p2)
    else
      var c1, c2 := Take(p1, point) + Drop(p2, point), Take(p2, point) + Drop(p1, point);
      if |p1| == |p2| then
        TailSwapAt(p1, p2, point);
        TailSwapAt(p2, p1, point);
        (c1, c2)
      else (c1, c2)
  }

  /** The head of `a` before `point` followed by the tail of `b` from `point` on, gene by gene. */
  lemma TailSwapAt<G>(a: seq<G>, b: seq<G>, point: int)
    requires |a| == |b| && 0 <= point <= |a|
    ensures var s := Take(a, point) + Drop(b, point);
      |s| == |a| && forall i :: 0 <= i < |a| ==> s[i] == (if i < point then a[i] else b[i])
  {
  }

  /**
   * `TwoPointCrossing.cross`: below three genes the parents come back as
   * copies (there is no single-point fallback); otherwise only the middle
   * segment `[point1, point2)` is swapped, with `point1` drawn from
   * `randint(1, length - 2)` and `point2` from `randint(point1 + 1, length - 1)`.
   */
  function TwoPointCross<G>(p1: seq<G>, p2: seq<G>, point1: int, point2: int): (r: (seq<G>, seq<G>))
    requires |p1| >= 3 ==> 1 <= point1 <= |p1| - 2 && point1 + 1 <= point2 <= |p1| - 1
    ensures |p1| < 3 ==> r == (p1, p2)
    ensures |p1| >= 3 && |p1| == |p2| ==>
      |r.0| == |p1| && |r.1| == |p1|
      && (forall i :: 0 <= i < |p1| ==> r.0[i] == (if point1 <= i < point2 then p2[i] else p1[i]))
      && (forall i :: 0 <= i < |p1| ==> r.1[i] == (if point1 <= i < point2 then p1[i] else p2[i]))
  {
    if |p1| < 3 then (p1, p2)
    else
      var c1 := Take(p1, point1) + Slice(p2, point1, point2) + Drop(p1, point2);
      var c2 := Take(p2, point1) + Slice(p1, point1, point2) + Drop(p2, point2);
      if |p1| == |p2| then
        SpliceAt(p1, p2, point1, point2);
        SpliceAt(p2, p1, point1, point2);
        (c1, c2)
      else (c1, c2)
  }

  /**
   * `UniformCrossing.cross`: `mask[i]` (one `randint(0, 1)` per gene of the
   * first parent) says whether the first child takes gene `i` from the
   * first parent; the second child takes the other one. A second parent
   * shorter than the first is indexed past its end.
   */
  function UniformCross<G>(p1: seq<G>, p2: seq<G>, mask: seq<bool>): (r: Result<(seq<G>, seq<G>)>)
    requires |mask| == |p1|
    ensures r.Err? <==> |p2| < |p1|
    ensures r.Err? ==> r.error == IndexError
    ensures r.Ok? ==> |r.value.0| == |p1| && |r.value.1| == |p1|
  {
    if |p2| < |p1| then Err(IndexError)
    else
      Ok((seq(|p1|, i requires 0 <= i < |p1| => if mask[i] then p1[i] else p2[i]),
          seq(|p1|, i requires 0 <= i < |p1| => if mask[i] then p2[i] else p1[i])))
  }

  /**
   * The blocks of `GrainCrossing` from position `i` on, starting with a
   * block of `own` and alternating with `other` after every `g` positions,
   * up to the length `n` of the first parent.
   */
  function GrainBlocks<G>(own: seq<G>, other: seq<G>, n: nat, g: nat, i: nat): seq<G>
    requires g > 0
    decreases n - i
  {
    if i >= n then []
    else Block(own, i, g) + GrainBlocks(other, own, n, g, i + g)
  }

  /** The slice `s[i:i + g]` for a non-negative start: both ends clamped to the length. */
  function Block<G>(s: seq<G>, i: nat, g: nat): seq<G>
  {
    s[Min(i, |s|)..Min(i + g, |s|)]
  }

  /**
   * `GrainCrossing.cross`: walks `range(0, length, grain_size)`, extending
   * each child by one block of its own parent, then one of the other, and
   * so on. A zero step makes `range` raise; a negative step gives an empty
   * range and two empty children.
   */
  method GrainCross<G>(p1: seq<G>, p2: seq<G>, grainSize: int) returns (r: Result<(seq<G>, seq<G>)>)
    ensures r.Err? <==> grainSize == 0
    ensures r.Err? ==> r.error == ValueError
    ensures grainSize < 0 ==> r == Ok(([], []))
    ensures grainSize > 0 ==>
      r == Ok((GrainBlocks(p1, p2, |p1|, grainSize, 0), GrainBlocks(p2, p1, |p1|, grainSize, 0)))
    ensures grainSize > 0 && |p1| == |p2| ==>
      |r.value.0| == |p1| && |r.value.1| == |p1|
      && (forall j :: 0 <= j < |p1| ==>
            r.value.0[j] == (if (j / grainSize) % 2 == 0 then p1[j] else p2[j])
            && r.value.1[j] == (if (j / grainSize) % 2 == 0 then p2[j] else p1[j]))
  {
    if grainSize == 0 {
      return Err(ValueError);
    }
    if grainSize < 0 {
      return Ok(([], []));
    }
    var offspring1, offspring2 := GrainSteps(p1, p2, grainSize);
    r := Ok((offspring1, offspring2));
    if |p1| == |p2| {
      GrainByBlockParity(p1, p2, grainSize);
    }
  }

  /** The loop of `GrainCrossing.cross` for a positive grain. */
  method GrainSteps<G>(p1: seq<G>, p2: seq<G>, g: nat) returns (offspring1: seq<G>, offspring2: seq<G>)
    requires g > 0
    ensures offspring1 == GrainBlocks(p1, p2, |p1|, g, 0)
    ensures offspring2 == GrainBlocks(p2, p1, |p1|, g, 0)
  {
    var length := |p1|;
    offspring1, offspring2 := [], [];
    ghost var whole1, whole2 := GrainBlocks(p1, p2, length, g, 0), GrainBlocks(p2, p1, length, g, 0);
    var toggle := true;
    var i: nat := 0;
    while i < length
      invariant toggle ==> offspring1 + GrainBlocks(p1, p2, length, g, i) == whole1
      invariant toggle ==> offspring2 + GrainBlocks(p2, p1, length, g, i) == whole2
      invariant !toggle ==> offspring1 + GrainBlocks(p2, p1, length, g, i) == whole1
      invariant !toggle ==> offspring2 + GrainBlocks(p1, p2, length, g, i) == whole2
      decreases length - i
    {
      if toggle {
        GrainStep(offspring1, p1, p2, length, g, i);
        GrainStep(offspring2, p2, p1, length, g, i);
        offspring1 := offspring1 + Block(p1, i, g);
        offspring2 := offspring2 + Block(p2, i, g);
      } else {
        GrainStep(offspring1, p2, p1, length, g, i);
        GrainStep(offspring2, p1, p2, length, g, i);
        offspring1 := offspring1 + Block(p2, i, g);
        offspring2 := offspring2 + Block(p1, i, g);
      }
      toggle := !toggle;
      i := i + g;
    }
    assert offspring1 + [] == offspring1 && offspring2 + [] == offspring2;
  }

  /** One pass of the loop: the block taken now plus the blocks after it are the blocks from here on. */
  lemma GrainStep<G>(acc: seq<G>, x: seq<G>, y: seq<G>, n: nat, g: nat, i: nat)
    requires g > 0 && i < n
    ensures (acc + Block(x, i, g)) + GrainBlocks(y, x, n, g, i + g) == acc + GrainBlocks(x, y, n, g, i)
  {
  }

  /** Gene `j` of each child comes from its own parent in even blocks, from the other in odd ones. */
  lemma GrainByBlockParity<G>(p1: seq<G>, p2: seq<G>, g: nat)
    requires |p1| == |p2| && g > 0
    ensures var c1, c2 := GrainBlocks(p1, p2, |p1|, g, 0), GrainBlocks(p2, p1, |p1|, g, 0);
      |c1| == |p1| && |c2| == |p1|
      && (forall j :: 0 <= j < |p1| ==>
            c1[j] == (if (j / g) % 2 == 0 then p1[j] else p2[j])
            && c2[j] == (if (j / g) % 2 == 0 then p2[j] else p1[j]))
  {
    var c1, c2 := GrainBlocks(p1, p2, |p1|, g, 0), GrainBlocks(p2, p1, |p1|, g, 0);
    GrainBlocksLength(p1, p2, |p1|, g, 0);
    GrainBlocksLength(p2, p1, |p1|, g, 0);
    forall j | 0 <= j < |p1|
      ensures c1[j] == (if (j / g) % 2 == 0 then p1[j] else p2[j])
      ensures c2[j] == (if (j / g) % 2 == 0 then p2[j] else p1[j])
    {
      GrainBlocksAt(p1, p2, |p1|, g, 0, j);
      GrainBlocksAt(p2, p1, |p1|, g, 0, j);
      EvenBlockDiv(j, g);
    }
  }

  lemma {:induction false} GrainBlocksLength<G>(x: seq<G>, y: seq<G>, n: nat, g: nat, i: nat)
    requires g > 0 && |x| == n && |y| == n
    ensures |GrainBlocks(x, y, n, g, i)| == if i <= n then n - i else 0
    decreases n - i
  {
    if i < n {
      GrainBlocksLength(y, x, n, g, i + g);
    }
  }

  /** Whether offset `a` lies in an even-numbered block of width `g`, counted block by block. */
  function EvenBlock(a: nat, g: nat): bool
    requires g > 0
    decreases a
  {
    if a < g then true else !EvenBlock(a - g, g)
  }

  /** An offset inside the first block lies in block 0. */
  lemma DivSmall(a: int, g: int)
    requires g > 0 && 0 <= a < g
    ensures a / g == 0
  {
  }

  /** A non-zero multiple of `g` is at least `g` away from zero. */
  lemma MulAwayFromZero(d: int, g: int)
    requires g > 0
    ensures d >= 1 ==> d * g >= g
    ensures d <= -1 ==> d * g <= -g
  {
  }

  /** Euclidean division has one quotient: `q * g + r` with `0 <= r < g` divides to `q`. */
  lemma DivUnique(a: int, g: int, q: int, r: int)
    requires g > 0 && a == q * g + r && 0 <= r < g
    ensures a / g == q
  {
    var q', r' := a / g, a % g;
    assert (q' - q) * g == r - r';
    MulAwayFromZero(q' - q, g);
  }

  /** Skipping one block lowers the block number by one. */
  lemma DivShift(a: int, g: int)
    requires g > 0 && a >= g
    ensures (a - g) / g == a / g - 1
  {
    var q, r := a / g, a % g;
    assert a - g == (q - 1) * g + r;
    DivUnique(a - g, g, q - 1, r);
  }

  /** Counting blocks agrees with the parity of `a / g`. */
  lemma {:induction false} EvenBlockDiv(a: nat, g: nat)
    requires g > 0
    ensures EvenBlock(a, g) <==> (a / g) % 2 == 0
    decreases a
  {
    if a < g {
      DivSmall(a, g);
    } else {
      EvenBlockDiv(a - g, g);
      DivShift(a, g);
    }
  }

  /** Gene `j` of the blocks from position `i` on: from `x` inside the first block, else from the later blocks. */
  lemma GrainBlocksIndex<G>(x: seq<G>, y: seq<G>, n: nat, g: nat, i: nat, j: nat)
    requires g > 0 && |x| == n && |y| == n && i <= j < n
    ensures |GrainBlocks(x, y, n, g, i)| == n - i
    ensures j < i + g ==> GrainBlocks(x, y, n, g, i)[j - i] == x[j]
    ensures j >= i + g ==>
      |GrainBlocks(y, x, n, g, i + g)| == n - (i + g)
      && GrainBlocks(x, y, n, g, i)[j - i] == GrainBlocks(y, x, n, g, i + g)[j - (i + g)]
  {
    GrainBlocksLength(x, y, n, g, i);
    GrainBlocksLength(y, x, n, g, i + g);
    var block := x[i..Min(i + g, n)];
    assert GrainBlocks(x, y, n, g, i) == block + GrainBlocks(y, x, n, g, i + g);
    if j >= i + g {
      assert |block| == g;
    }
  }

  /** Moving the start one block on flips the parity of a later position's block. */
  lemma EvenBlockStep(j: nat, i: nat, g: nat)
    requires g > 0 && i + g <= j
    ensures EvenBlock(j - i, g) == !EvenBlock(j - (i + g), g)
  {
    assert j - (i + g) == (j - i) - g;
  }

  /** Gene `j` of the blocks from position `i` on comes from `x` in even blocks, from `y` in odd ones. */
  lemma {:induction false} GrainBlocksAt<G>(x: seq<G>, y: seq<G>, n: nat, g: nat, i: nat, j: nat)
    requires g > 0 && |x| == n && |y| == n
    requires i <= j < n
    ensures |GrainBlocks(x, y, n, g, i)| == n - i
    ensures GrainBlocks(x, y, n, g, i)[j - i] == if EvenBlock(j - i, g) then x[j] else y[j]
    decreases n - i
  {
    GrainBlocksIndex(x, y, n, g, i, j);
    if j >= i + g {
      GrainBlocksAt(y, x, n, g, i + g, j);
      EvenBlockStep(j, i, g);
    }
  }

  /** A grain at least as long as the parents leaves them whole. */
  lemma GrainWholeBlock<G>(p1: seq<G>, p2: seq<G>, g: nat)
    requires |p1| == |p2| && g > 0 && g >= |p1|
    ensures GrainBlocks(p1, p2, |p1|, g, 0) == p1
    ensures GrainBlocks(p2, p1, |p1|, g, 0) == p2
  {
    GrainBlocksLength(p1, p2, |p1|, g, 0);
    GrainBlocksLength(p2, p1, |p1|, g, 0);
    forall j | 0 <= j < |p1|
      ensures GrainBlocks(p1, p2, |p1|, g, 0)[j] == p1[j]
      ensures GrainBlocks(p2, p1, |p1|, g, 0)[j] == p2[j]
    {
      GrainBlocksAt(p1, p2, |p1|, g, 0, j);
      GrainBlocksAt(p2, p1, |p1|, g, 0, j);
    }
  }

  /** Grain crossing conserves genes position by position. */
  lemma GrainConserves<G>(p1: seq<G>, p2: seq<G>, g: nat)
    requires |p1| == |p2| && g > 0
    ensures ConservesGenes(p1, p2, GrainBlocks(p1, p2, |p1|, g, 0), GrainBlocks(p2, p1, |p1|, g, 0))
  {
    var c1, c2 := GrainBlocks(p1, p2, |p1|, g, 0), GrainBlocks(p2, p1, |p1|, g, 0);
    GrainByBlockParity(p1, p2, g);
    forall j | 0 <= j < |p1| ensures multiset{c1[j], c2[j]} == multiset{p1[j], p2[j]} {
      if (j / g) % 2 == 0 {
        assert c1[j] == p1[j] && c2[j] == p2[j];
      } else {
        assert c1[j] == p2[j] && c2[j] == p1[j];
      }
    }
  }

  /** Single-point crossing conserves genes position by position. */
  lemma SinglePointConserves<G>(p1: seq<G>, p2: seq<G>, point: int)
    requires |p1| == |p2| && (|p1| >= 2 ==> 1 <= point <= |p1| - 1)
    ensures var r := SinglePointCross(p1, p2, point); ConservesGenes(p1, p2, r.0, r.1)
  {
  }

  /** Two-point crossing conserves genes position by position. */
  lemma TwoPointConserves<G>(p1: seq<G>, p2: seq<G>, point1: int, point2: int)
    requires |p1| == |p2|
    requires |p1| >= 3 ==> 1 <= point1 <= |p1| - 2 && point1 + 1 <= point2 <= |p1| - 1
    ensures var r := TwoPointCross(p1, p2, point1, point2); ConservesGenes(p1, p2, r.0, r.1)
  {
  }

  /**
   * Uniform crossing takes gene `i` of the first child from the first parent
   * exactly when `mask[i]` is set, and conserves genes position by position.
   */
  lemma UniformByMask<G>(p1: seq<G>, p2: seq<G>, mask: seq<bool>)
    requires |mask| == |p1| == |p2|
    ensures UniformCross(p1, p2, mask).Ok?
    ensures var r := UniformCross(p1, p2, mask).value;
      (forall i :: 0 <= i < |p1| ==> (r.0[i] == p1[i] && r.1[i] == p2[i]) || !mask[i])
      && (forall i :: 0 <= i < |p1| ==> (r.0[i] == p2[i] && r.1[i] == p1[i]) || mask[i])
      && ConservesGenes(p1, p2, r.0, r.1)
  {
  }

  /** An all-ones mask returns the parents; an all-zeros mask swaps them. */
  lemma UniformExtremeMasks<G>(p1: seq<G>, p2: seq<G>)
    requires |p1| == |p2|
    ensures UniformCross(p1, p2, seq(|p1|, _ => true)) == Ok((p1, p2))
    ensures UniformCross(p1, p2, seq(|p1|, _ => false)) == Ok((p2, p1))
  {
    var t := UniformCross(p1, p2, seq(|p1|, _ => true)).value;
    var f := UniformCross(p1, p2, seq(|p1|, _ => false)).value;
    assert t.0 == p1 && t.1 == p2;
    assert f.0 == p2 && f.1 == p1;
  }

  /** The `random.randint` ranges each operator draws its cut points and mask from. */
  datatype CrossDraws = CrossDraws(point1: int, point2: int, mask: seq<bool>)

  predicate ValidDraws(m: CrossingMethod, length: nat, d: CrossDraws)
  {
    match m
    case SinglePointCrossing => length >= 2 ==> 1 <= d.point1 <= length - 1
    case TwoPointCrossing =>
      length >= 3 ==> 1 <= d.point1 <= length - 2 && d.point1 + 1 <= d.point2 <= length - 1
    case UniformCrossing => |d.mask| == length
    case GrainCrossing(_) => true
  }

  /**
   * `crossing_func`: the chosen operator's `cross`. Only a short second
   * parent under uniform crossing, or a zero grain, fails; every operator
   * keeps genes in place, position by position, for equal-length parents.
   */
  method Cross<G(==)>(m: CrossingMethod, p1: seq<G>, p2: seq<G>, d: CrossDraws) returns (r: Result<(seq<G>, seq<G>)>)
    requires ValidDraws(m, |p1|, d)
    ensures r.Err? <==> (m.UniformCrossing? && |p2| < |p1|) || (m.GrainCrossing? && m.grainSize == 0)
    ensures r.Ok? && |p1| == |p2| && !(m.GrainCrossing? && m.grainSize < 0) ==>
      ConservesGenes(p1, p2, r.value.0, r.value.1)
    ensures r.Ok? && m.GrainCrossing? && m.grainSize < 0 ==> r.value == ([], [])
  {
    match m
    case SinglePointCrossing =>
      r := Ok(SinglePointCross(p1, p2, d.point1));
      if |p1| == |p2| { SinglePointConserves(p1, p2, d.point1); }
    case TwoPointCrossing =>
      r := Ok(TwoPointCross(p1, p2, d.point1, d.point2));
      if |p1| == |p2| { TwoPointConserves(p1, p2, d.point1, d.point2); }
    case UniformCrossing =>
      r := UniformCross(p1, p2, d.mask);
      if |p1| == |p2| { UniformByMask(p1, p2, d.mask); }
    case GrainCrossing(g) =>
      r := GrainCross(p1, p2, g);
      if |p1| == |p2| && g > 0 { GrainConserves(p1, p2, g); }
  }
}
