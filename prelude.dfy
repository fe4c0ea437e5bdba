/** Values shared by all solvers: options, the exceptions a solver can raise,
    and Python's built-in `sum` over a list of integers.

    The solvers do no error handling of their own: a malformed input makes a
    sub-expression raise, and the exception propagates out of the solver.  An
    `Outcome` is either the value the solver returns or the exception it
    raises first.
 */
module Prelude {

  datatype Option<T> = None | Some(value: T)

  /** The Python exception classes the solvers can end in. */
  datatype Exception =
    | IndexError   // a list or string index that is out of range
    | ValueError   // int() on text that is not a decimal number, or a failed unpacking
    | KeyError     // a dictionary lookup of a missing key

  datatype Outcome<T> = Ok(value: T) | Raise(error: Exception)

  /** Python's `sum(xs)`. */
  function Sum(xs: seq<nat>): nat
  {
    if xs == [] then 0 else Sum(xs[..|xs| - 1]) + xs[|xs| - 1]
  }

  lemma {:induction false} SumBound(xs: seq<nat>, bound: nat)
    requires forall i :: 0 <= i < |xs| ==> xs[i] <= bound
    ensures Sum(xs) <= bound * |xs|
  {
    if xs != [] {
      SumBound(xs[..|xs| - 1], bound);
    }
  }

  /** The values `done` collected so far followed by those of `rest`, or the
      exception `rest` ends in. */
  function After<T>(done: seq<T>, rest: Outcome<seq<T>>): Outcome<seq<T>>
  {
    match rest
    case Raise(e) => Raise(e)
    case Ok(xs) => Ok(done + xs)
  }

  /** Nothing collected yet: `After([], rest)` is `rest`. */
  lemma AfterNothing<T>(rest: Outcome<seq<T>>)
    ensures After([], rest) == rest
  {
    if rest.Ok? {
      assert [] + rest.value == rest.value;
    }
  }
}
