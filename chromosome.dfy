/**
 * The bit width of the binary encoding: with `n = (upper - lower) * 10^accuracy`
 * grid points to tell apart, a chromosome needs `ceil(log2 n)` bits, the
 * least `k` with `2^k >= n`. Python's `math.log2` and `math.ceil` are
 * replaced by an exact integer ceiling of the base-2 logarithm of a real.
 */
module Chromosomes {
  import opened Py

  /** `b^k` for any integer exponent, as Python's `**` computes it exactly. */
  function Power(b: real, k: int): (p: real)
    requires b > 0.0
    ensures p > 0.0
    decreases if k < 0 then -k else k
  {
    if k == 0 then 1.0
    else if k > 0 then b * Power(b, k - 1)
    else Power(b, k + 1) / b
  }

  lemma PowerStep(b: real, k: int)
    requires b > 0.0
    ensures Power(b, k + 1) == b * Power(b, k)
  {
  }

  /** Powers of two grow strictly with the exponent. */
  lemma {:induction false} Pow2Increasing(i: int, j: int)
    requires i < j
    ensures Power(2.0, i) < Power(2.0, j)
    decreases j - i
  {
    PowerStep(2.0, j - 1);
    if i < j - 1 {
      Pow2Increasing(i, j - 1);
    }
  }

  lemma Pow2Monotone(i: int, j: int)
    requires i <= j
    ensures Power(2.0, i) <= Power(2.0, j)
  {
    if i < j { Pow2Increasing(i, j); }
  }

  /** A natural exponent never exceeds its power of two. */
  lemma {:induction false} ExponentBelowPow2(m: nat)
    ensures m as real <= Power(2.0, m)
  {
    if m > 0 {
      ExponentBelowPow2(m - 1);
      PowerStep(2.0, m - 1);
      Pow2Monotone(0, m - 1);
    }
  }

  /** Negative exponents of two are reciprocals. */
  lemma {:induction false} Pow2Negative(m: nat)
    ensures Power(2.0, -(m as int)) * Power(2.0, m) == 1.0
  {
    if m > 0 {
      Pow2Negative(m - 1);
      var k := -(m as int);
      PowerStep(2.0, k);
      PowerStep(2.0, m - 1);
      assert -((m - 1) as int) == k + 1;
    }
  }

  /** Searches upward from `k` for the least exponent whose power reaches `n`. */
  function CeilLog2Up(n: real, k: int): (r: int)
    requires k >= 1 && Power(2.0, k - 1) < n
    ensures Power(2.0, r - 1) < n <= Power(2.0, r)
    decreases n.Floor - k
  {
    ExponentBelowPow2(k - 1);
    PowerStep(2.0, k - 1);
    if n <= Power(2.0, k) then k else CeilLog2Up(n, k + 1)
  }

  /** Searches downward from `k` for the least exponent whose power still reaches `n`. */
  function CeilLog2Down(n: real, k: int): (r: int)
    requires n > 0.0 && k <= 0 && n <= Power(2.0, k)
    ensures Power(2.0, r - 1) < n <= Power(2.0, r)
    decreases (1.0 / n).Floor + k
  {
    if Power(2.0, k - 1) < n then k
    else
      ReciprocalBound(n, 1 - k);
      CeilLog2Down(n, k - 1)
  }

  /** If `n <= 2^-m` then `m <= 1/n`: the downward search is bounded. */
  lemma ReciprocalBound(n: real, m: nat)
    requires n > 0.0 && n <= Power(2.0, -(m as int))
    ensures m as real <= 1.0 / n
  {
    var p := Power(2.0, m);
    Pow2Negative(m);
    ExponentBelowPow2(m);
    assert n * p <= Power(2.0, -(m as int)) * p;
    BelowReciprocal(n, p);
  }

  lemma BelowReciprocal(n: real, p: real)
    requires n > 0.0 && n * p <= 1.0
    ensures p <= 1.0 / n
  {
    assert 1.0 / n - p == (1.0 - n * p) / n;
  }

  /** `math.ceil(math.log2(n))` for `n > 0`: the exponent `k` with `2^(k-1) < n <= 2^k`. */
  function CeilLog2(n: real): (k: int)
    requires n > 0.0
    ensures Power(2.0, k - 1) < n <= Power(2.0, k)
  {
    if n <= 1.0 then CeilLog2Down(n, 0) else CeilLog2Up(n, 1)
  }

  /** The bracket `2^(k-1) < n <= 2^k` has exactly one solution. */
  lemma CeilLog2Unique(n: real, k: int)
    requires n > 0.0
    requires Power(2.0, k - 1) < n <= Power(2.0, k)
    ensures CeilLog2(n) == k
  {
    var c := CeilLog2(n);
    if c < k { Pow2Monotone(c, k - 1); }
    if c > k { Pow2Monotone(k, c - 1); }
  }

  /** `CeilLog2(n)` is the least exponent whose power of two reaches `n`. */
  lemma CeilLog2IsLeast(n: real, j: int)
    requires n > 0.0 && n <= Power(2.0, j)
    ensures CeilLog2(n) <= j
  {
    var c := CeilLog2(n);
    if j < c { Pow2Monotone(j, c - 1); }
  }

  /** A power of two needs exactly its exponent: `n = 1` gives 0, `n = 2^m` gives `m`. */
  lemma CeilLog2OfPow2(m: int)
    ensures CeilLog2(Power(2.0, m)) == m
  {
    Pow2Increasing(m - 1, m);
    CeilLog2Unique(Power(2.0, m), m);
  }

  /** More grid points never need fewer bits. */
  lemma CeilLog2Monotone(n1: real, n2: real)
    requires 0.0 < n1 <= n2
    ensures CeilLog2(n1) <= CeilLog2(n2)
  {
    CeilLog2IsLeast(n1, CeilLog2(n2));
  }

  /** `w * 10^accuracy`, one factor of ten at a time. */
  function Scaled(w: real, accuracy: int): real
    decreases if accuracy < 0 then -accuracy else accuracy
  {
    if accuracy == 0 then w
    else if accuracy > 0 then 10.0 * Scaled(w, accuracy - 1)
    else Scaled(w, accuracy + 1) / 10.0
  }

  /** Number of grid points the range holds at the given decimal accuracy. */
  function GridSize(lowerBound: real, upperBound: real, accuracy: int): real
  {
    Scaled(upperBound - lowerBound, accuracy)
  }

  lemma ScaledStep(w: real, accuracy: int)
    ensures Scaled(w, accuracy + 1) == 10.0 * Scaled(w, accuracy)
  {
  }

  /** Scaling by a power of ten keeps the sign. */
  lemma {:induction false} ScaledSign(w: real, accuracy: int)
    ensures Scaled(w, accuracy) > 0.0 <==> w > 0.0
    decreases if accuracy < 0 then -accuracy else accuracy
  {
    if accuracy > 0 {
      ScaledSign(w, accuracy - 1);
    } else if accuracy < 0 {
      ScaledSign(w, accuracy + 1);
    }
  }

  /** `Scaled` is the product with the power of ten. */
  lemma {:induction false} ScaledIsProduct(w: real, accuracy: int)
    ensures Scaled(w, accuracy) == w * Power(10.0, accuracy)
    decreases if accuracy < 0 then -accuracy else accuracy
  {
    if accuracy > 0 {
      var p := Power(10.0, accuracy - 1);
      ScaledIsProduct(w, accuracy - 1);
      assert Power(10.0, accuracy) == 10.0 * p;
      TenTimes(w, p);
    } else if accuracy < 0 {
      var p := Power(10.0, accuracy + 1);
      ScaledIsProduct(w, accuracy + 1);
      assert Power(10.0, accuracy) == p / 10.0;
      TenthOf(w, p);
    }
  }

  lemma TenTimes(w: real, p: real)
    ensures w * (10.0 * p) == 10.0 * (w * p)
  {
  }

  lemma TenthOf(w: real, p: real)
    ensures w * (p / 10.0) == (w * p) / 10.0
  {
  }

  /** A wider range scales to at least as many points. */
  lemma {:induction false} ScaledMonotoneWidth(w1: real, w2: real, accuracy: int)
    requires w1 <= w2
    ensures Scaled(w1, accuracy) <= Scaled(w2, accuracy)
    decreases if accuracy < 0 then -accuracy else accuracy
  {
    if accuracy > 0 {
      ScaledMonotoneWidth(w1, w2, accuracy - 1);
    } else if accuracy < 0 {
      ScaledMonotoneWidth(w1, w2, accuracy + 1);
    }
  }

  /** For a non-empty range, a finer accuracy scales to at least as many points. */
  lemma {:induction false} ScaledMonotoneAccuracy(w: real, acc1: int, acc2: int)
    requires w > 0.0 && acc1 <= acc2
    ensures Scaled(w, acc1) <= Scaled(w, acc2)
    decreases acc2 - acc1
  {
    if acc1 < acc2 {
      ScaledMonotoneAccuracy(w, acc1, acc2 - 1);
      ScaledStep(w, acc2 - 1);
      ScaledSign(w, acc2 - 1);
    }
  }

  lemma GridSizeSign(lowerBound: real, upperBound: real, accuracy: int)
    ensures GridSize(lowerBound, upperBound, accuracy) > 0.0 <==> upperBound > lowerBound
  {
    ScaledSign(upperBound - lowerBound, accuracy);
  }

  /** A chromosome's bounds and accuracy, with its bit length computed once, at construction. */
  datatype Chromosome = Chromosome(
    lowerBound: real,
    upperBound: real,
    accuracy: int,
    binaryRepresentation: int)

  /**
   * `Chromosome(lower_bound, upper_bound, accuracy)`. An empty or inverted
   * range gives `n <= 0`, where `math.log2` raises `ValueError`.
   */
  function NewChromosome(lowerBound: real, upperBound: real, accuracy: int): (r: Result<Chromosome>)
    ensures r.Err? <==> upperBound <= lowerBound
    ensures r.Err? ==> r.error == ValueError
    ensures r.Ok? ==>
      r.value.lowerBound == lowerBound && r.value.upperBound == upperBound && r.value.accuracy == accuracy
    ensures r.Ok? ==>
      var n, k := GridSize(lowerBound, upperBound, accuracy), r.value.binaryRepresentation;
      Power(2.0, k - 1) < n <= Power(2.0, k)
  {
    var n := GridSize(lowerBound, upperBound, accuracy);
    GridSizeSign(lowerBound, upperBound, accuracy);
    if n <= 0.0 then Err(ValueError)
    else Ok(Chromosome(lowerBound, upperBound, accuracy, CeilLog2(n)))
  }

  /** Widening the range or raising the accuracy never yields fewer bits. */
  lemma BitsMonotone(lo1: real, up1: real, acc1: int, lo2: real, up2: real, acc2: int)
    requires lo1 < up1 && lo2 <= lo1 && up1 <= up2 && acc1 <= acc2
    ensures NewChromosome(lo1, up1, acc1).Ok? && NewChromosome(lo2, up2, acc2).Ok?
    ensures NewChromosome(lo1, up1, acc1).value.binaryRepresentation
         <= NewChromosome(lo2, up2, acc2).value.binaryRepresentation
  {
    var n1, n2 := GridSize(lo1, up1, acc1), GridSize(lo2, up2, acc2);
    GridSizeMonotone(lo1, up1, acc1, lo2, up2, acc2);
    CeilLog2Monotone(n1, n2);
    assert NewChromosome(lo1, up1, acc1) == Ok(Chromosome(lo1, up1, acc1, CeilLog2(n1)));
    assert NewChromosome(lo2, up2, acc2) == Ok(Chromosome(lo2, up2, acc2, CeilLog2(n2)));
  }

  /** A wider range at a finer accuracy holds at least as many grid points. */
  lemma GridSizeMonotone(lo1: real, up1: real, acc1: int, lo2: real, up2: real, acc2: int)
    requires lo1 < up1 && lo2 <= lo1 && up1 <= up2 && acc1 <= acc2
    ensures 0.0 < GridSize(lo1, up1, acc1) <= GridSize(lo2, up2, acc2)
  {
    GridSizeSign(lo1, up1, acc1);
    ScaledMonotoneWidth(up1 - lo1, up2 - lo2, acc1);
    ScaledMonotoneAccuracy(up2 - lo2, acc1, acc2);
  }
}
