/**
 * Standard inversion: with a gate draw from `random.random()` below the
 * probability, a copy of the chromosome has the inclusive range
 * `[left, right]` reversed, the cuts drawn by `random.randint`.
 */
module Inversion {
  import opened Py

  /** An inversion operator; the probability is checked once, at construction. */
  datatype StandardInversion = StandardInversion(probability: int)

  /** The constructor's guard: a probability strictly between 0 and 100. */
  predicate ValidProbability(p: Option<int>)
  {
    p.Some? && 0 < p.value < 100
  }

  /** `StandardInversion(probability)`: a failed `assert` for `None` or a probability outside `(0, 100)`. */
  function NewStandardInversion(probability: Option<int>): (r: Result<StandardInversion>)
    ensures r.Ok? <==> probability.Some? && 0 < probability.value < 100
    ensures r.Err? ==> r.error == AssertionError
    ensures r.Ok? ==> r.value.probability == probability.value
  {
    if ValidProbability(probability) then Ok(StandardInversion(probability.value)) else Err(AssertionError)
  }

  /** The elements of `s` in the opposite order. */
  function Reverse<G>(s: seq<G>): (r: seq<G>)
    ensures |r| == |s|
    ensures forall i :: 0 <= i < |s| ==> r[i] == s[|s| - 1 - i]
  {
    if s == [] then [] else Reverse(s[1..]) + [s[0]]
  }

  /** `s` with the inclusive range `[left, right]` reversed. */
  function ReversedRange<G>(s: seq<G>, left: int, right: int): (r: seq<G>)
    requires 0 <= left <= right < |s|
    ensures |r| == |s|
  {
    s[..left] + Reverse(s[left..right + 1]) + s[right + 1..]
  }

  /** Position by position: inside the range the mirror gene, outside it the old one. */
  lemma ReversedRangeAt<G>(s: seq<G>, left: int, right: int)
    requires 0 <= left <= right < |s|
    ensures var r := ReversedRange(s, left, right);
      |r| == |s|
      && (forall i :: 0 <= i < |s| && left <= i <= right ==> r[i] == s[left + right - i])
      && (forall i :: 0 <= i < |s| && !(left <= i <= right) ==> r[i] == s[i])
  {
    var r := ReversedRange(s, left, right);
    var mid := s[left..right + 1];
    forall i | 0 <= i < |s| && left <= i <= right ensures r[i] == s[left + right - i] {
      assert r[i] == Reverse(mid)[i - left];
    }
  }

  /** Reversing a range only rearranges the genes. */
  lemma ReversedRangePermutes<G>(s: seq<G>, left: int, right: int)
    requires 0 <= left <= right < |s|
    ensures multiset(ReversedRange(s, left, right)) == multiset(s)
  {
    var front, mid, back := s[..left], s[left..right + 1], s[right + 1..];
    calc {
      multiset(ReversedRange(s, left, right));
      multiset(front + Reverse(mid) + back);
      multiset(front) + multiset(Reverse(mid)) + multiset(back);
      { ReversePermutes(mid); }
      multiset(front) + multiset(mid) + multiset(back);
      multiset(front + mid + back);
      { assert front + mid + back == s; }
      multiset(s);
    }
  }

  lemma {:induction false} ReversePermutes<G>(s: seq<G>)
    ensures multiset(Reverse(s)) == multiset(s)
  {
    if s != [] {
      ReversePermutes(s[1..]);
      assert s == [s[0]] + s[1..];
    }
  }

  /** Reversing the same range twice restores the chromosome. */
  lemma ReversedRangeInvolution<G>(s: seq<G>, left: int, right: int)
    requires 0 <= left <= right < |s|
    ensures ReversedRange(ReversedRange(s, left, right), left, right) == s
  {
    var r := ReversedRange(s, left, right);
    ReversedRangeAt(s, left, right);
    ReversedRangeAt(r, left, right);
    var rr := ReversedRange(r, left, right);
    assert forall i :: 0 <= i < |s| ==> rr[i] == s[i];
  }

  /**
   * `invert`: a gate draw at or above the probability, or fewer than two
   * genes, returns a copy; otherwise the slice `[left, right]` of the copy
   * is assigned its own reversal.
   */
  method Invert<G>(inv: StandardInversion, c: seq<G>, gate: real, left: int, right: int) returns (r: seq<G>)
    requires 0.0 <= gate < 1.0
    requires |c| >= 2 ==> 0 <= left <= |c| - 2 && left + 1 <= right <= |c| - 1
    ensures gate >= inv.probability as real || |c| < 2 ==> r == c
    ensures gate < inv.probability as real && |c| >= 2 ==> r == ReversedRange(c, left, right)
  {
    if gate >= inv.probability as real || |c| < 2 {
      return c;
    }
    var inverted := new G[|c|](i requires 0 <= i < |c| => c[i]);
    assert inverted[..] == c;
    var reversedSlice := Reverse(inverted[left..right + 1]);
    forall k | left <= k <= right {
      inverted[k] := reversedSlice[k - left];
    }
    r := inverted[..];
    assert r == c[..left] + reversedSlice + c[right + 1..];
  }

  /** An inverted chromosome has the input's genes, rearranged. */
  lemma InvertPermutes<G>(inv: StandardInversion, c: seq<G>, gate: real, left: int, right: int)
    requires |c| >= 2 ==> 0 <= left <= |c| - 2 && left + 1 <= right <= |c| - 1
    ensures var r := if gate >= inv.probability as real || |c| < 2 then c else ReversedRange(c, left, right);
      multiset(r) == multiset(c)
  {
    if !(gate >= inv.probability as real || |c| < 2) {
      ReversedRangePermutes(c, left, right);
    }
  }

  /**
   * A probability of 1 or more can never send `random.random()` down the
   * early return: every constructed inverter reverses every chromosome of
   * two or more genes.
   */
  lemma ConstructedAlwaysInverts(p: Option<int>, gate: real)
    requires 0.0 <= gate < 1.0
    requires NewStandardInversion(p).Ok?
    ensures !(gate >= NewStandardInversion(p).value.probability as real)
  {
  }
}
