/**
 * The small piece of the Python runtime the engine leans on: the exceptions
 * its operators and configuration objects raise, an optional value for
 * `None`, and the clamping semantics of Python slices (`s[a:b]`, `s[:n]`,
 * `s[n:]`), which never raise and accept negative or oversized indices.
 */
module Py {

  datatype Option<+T> = None | Some(value: T)

  /** The Python exceptions the modelled code can raise. */
  datatype PyError =
    | AssertionError   // a failed `assert` in a constructor guard
    | ValueError       // `random.sample`/`randint`/`range` arguments out of range, `math.log2` domain, `max([])`
    | IndexError       // a list index past the end
    | TypeError        // an unexpected keyword argument

  datatype Result<+T> = Ok(value: T) | Err(error: PyError)

  function Min(a: int, b: int): int { if a <= b then a else b }

  function Max(a: int, b: int): int { if a <= b then b else a }

  function RMin(a: real, b: real): real { if a <= b then a else b }

  function RMax(a: real, b: real): real { if a <= b then b else a }

  /** Python's normalisation of a slice bound `n` against a sequence of length `len`. */
  function Clamp(n: int, len: nat): (k: nat)
    ensures k <= len
    ensures 0 <= n <= len ==> k == n
    ensures n > len ==> k == len
  {
    if n < 0 then (if len + n < 0 then 0 else len + n)
    else if n > len then len
    else n
  }

  /** `s[a:b]`. */
  function Slice<T>(s: seq<T>, a: int, b: int): (r: seq<T>)
    ensures 0 <= a <= b <= |s| ==> r == s[a..b]
    ensures 0 <= a <= |s| && a <= b ==> r == s[a..Min(b, |s|)]
    ensures |r| <= |s|
  {
    var i, j := Clamp(a, |s|), Clamp(b, |s|);
    if i <= j then s[i..j] else []
  }

  /** `s[:n]`. */
  function Take<T>(s: seq<T>, n: int): seq<T>
  {
    s[..Clamp(n, |s|)]
  }

  /** `s[n:]`. */
  function Drop<T>(s: seq<T>, n: int): seq<T>
  {
    s[Clamp(n, |s|)..]
  }

  /** No element occurs twice. */
  predicate Distinct<T(==)>(s: seq<T>)
  {
    forall i, j :: 0 <= i < |s| && 0 <= j < |s| && i != j ==> s[i] != s[j]
  }

  /** The indices of a `random.sample(range(n), k)` draw: `k` distinct positions below `n`. */
  predicate SampleOf(idx: seq<int>, n: int, k: int)
  {
    |idx| == k && Distinct(idx) && forall i :: 0 <= i < |idx| ==> 0 <= idx[i] < n
  }
}
