/** Values that stand for the exceptions the geometry layer raises, and the
    wrappers that carry them. */
module Outcomes {

  /** The Python exceptions a parse, a height computation or a write can raise. */
  datatype Error =
    | KeyError(attribute: string)   // a required XML attribute is absent
    | IndexError                    // a required child element is absent, or a point has too few coordinates
    | ValueError                    // a coordinate is not a number, or min() of no points
    | ZeroDivisionError             // the mask log message divides by an empty original point count

  datatype Option<T> = None | Some(value: T)

  datatype Result<T> = Ok(value: T) | Err(error: Error) {
    predicate IsFailure() { Err? }

    function PropagateFailure<U>(): Result<U>
      requires Err?
    {
      Err(error)
    }

    function Extract(): T
      requires Ok?
    {
      value
    }
  }

  /** `f` applied to every element in order, as a list comprehension or
      `tuple(map(f, xs))` computes it: the first element `f` fails on raises
      its exception, and otherwise every result is kept in place. */
  function MapAll<T, U>(xs: seq<T>, f: T -> Result<U>): (r: Result<seq<U>>)
    ensures r.Ok? <==> forall i | 0 <= i < |xs| :: f(xs[i]).Ok?
    ensures r.Ok? ==> (|r.value| == |xs|
                       && forall i | 0 <= i < |xs| :: r.value[i] == f(xs[i]).value)
    ensures r.Err? ==> exists i | 0 <= i < |xs| ::
                         f(xs[i]) == Err(r.error) && forall k | 0 <= k < i :: f(xs[k]).Ok?
  {
    if xs == [] then Ok([])
    else
      var y :- f(xs[0]);
      assert forall i | 1 <= i < |xs| :: xs[1..][i - 1] == xs[i];
      var rest :- MapAll(xs[1..], f);
      Ok([y] + rest)
  }

  /** How a batch call ends: it returns normally, or an exception leaves it. */
  datatype Outcome = Done | Failed(error: Error)
}
