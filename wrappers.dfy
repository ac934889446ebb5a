/**
 * Failure-carrying results for the operations of the model that throw in the
 * source, and the zero vector that a fresh `new double[n]` or
 * `Enumerable.Repeat(0, n)` holds.
 */
module Wrappers {

  datatype Option<+T> = None | Some(value: T)

  datatype Result<+T, +E> = Success(value: T) | Failure(error: E) {
    predicate IsFailure() { Failure? }
  }

  /** The `n` zeros of a freshly allocated or zero-filled vector. */
  function Zeros(n: nat): (z: seq<real>)
    ensures |z| == n && forall i :: 0 <= i < n ==> z[i] == 0.0
  {
    seq(n, _ => 0.0)
  }
}
