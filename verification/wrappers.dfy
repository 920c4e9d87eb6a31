/** Failure-compatible wrappers shared by every module of the model. */
module Wrappers {

  /** An optional value: Python's `None` or a present value. */
  datatype Option<+T> = None | Some(value: T)

  /** The outcome of an operation that either returns a value or raises. */
  datatype Result<+T, +E> = Success(value: T) | Failure(error: E) {

    predicate IsFailure() {
      Failure?
    }

    function PropagateFailure<U>(): Result<U, E>
      requires Failure?
    {
      Failure(error)
    }

    function Extract(): T
      requires Success?
    {
      value
    }
  }

  /** A Python loop that applies `f` to each item in order and stops at the
      first exception: it succeeds exactly when every item succeeds, and
      then holds the items' results in order; otherwise it raises the
      first failing item's error. */
  function MapResult<T, U, E>(xs: seq<T>, f: T -> Result<U, E>): (r: Result<seq<U>, E>)
    ensures r.Success? <==> forall i :: 0 <= i < |xs| ==> f(xs[i]).Success?
    ensures r.Success? ==> |r.value| == |xs|
    ensures r.Success? ==> forall i :: 0 <= i < |xs| ==> f(xs[i]) == Success(r.value[i])
    ensures r.Failure? ==> exists i :: (
      && 0 <= i < |xs|
      && f(xs[i]) == Failure(r.error)
      && forall k :: 0 <= k < i ==> f(xs[k]).Success?)
  {
    if |xs| == 0 then Success([])
    else
      var head :- f(xs[0]);
      var rest :- MapResult(xs[1..], f);
      Success([head] + rest)
  }
}
