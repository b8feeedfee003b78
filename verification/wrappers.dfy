/** Failure-carrying datatypes used throughout the model. */
module Wrappers {

  /** A value that may be absent: Python's `None` versus a present value. */
  datatype Option<+T> = None | Some(value: T) {

    /** The present value, or `default` when absent (Python's `dict.get(k, default)`). */
    function GetOr(default: T): T {
      match this
      case Some(v) => v
      case None => default
    }
  }

  /** The outcome of a step that may raise: a value, or the reason it raised. */
  datatype Result<+R> = Ok(value: R) | Err(error: string) {

    predicate IsFailure() {
      Err?
    }

    function PropagateFailure<U>(): Result<U>
      requires Err?
    {
      Err(error)
    }

    function Extract(): R
      requires Ok?
    {
      value
    }
  }

  /** `[f(x) for x in xs]` where each call may raise: every value, in
      order, or the first failure. */
  function MapAll<X, Y>(xs: seq<X>, f: X -> Result<Y>): (r: Result<seq<Y>>)
    ensures r.Ok? <==> forall i :: 0 <= i < |xs| ==> f(xs[i]).Ok?
    ensures r.Ok? ==> |r.value| == |xs| && forall i :: 0 <= i < |xs| ==> r.value[i] == f(xs[i]).value
  {
    if |xs| == 0 then Ok([])
    else
      var rest := MapAll(xs[1..], f);
      assert forall i :: 1 <= i < |xs| ==> xs[i] == xs[1..][i - 1];
      match f(xs[0])
      case Err(e) => Err(e)
      case Ok(first) =>
        match rest
        case Err(e) => Err(e)
        case Ok(values) => Ok([first] + values)
  }
}
