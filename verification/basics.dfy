/** Failure-carrying values shared by every module of the model.

    The dashboard never defines its own error types: a failing call rejects its promise with
    whatever value was thrown, and the handlers branch on `err instanceof Error`.  `Thrown`
    keeps exactly that distinction, and `Result` stands for a call that either resolves or
    rejects.
 */
module Basics {

  datatype Option<+T> = None | Some(value: T)

  /** A value a rejected promise carries: an `Error` object (with its message) or anything else. */
  datatype Thrown = ErrorObject(message: string) | NonErrorValue

  /** The settled state of one asynchronous call. */
  datatype Result<+T> = Ok(value: T) | Err(thrown: Thrown)

  /** `xs.map(f)`. */
  function Map<T, U>(f: T -> U, xs: seq<T>): (r: seq<U>)
    ensures |r| == |xs|
    ensures forall i :: 0 <= i < |xs| ==> r[i] == f(xs[i])
  {
    seq(|xs|, i requires 0 <= i < |xs| => f(xs[i]))
  }

  /** Mapping a list with one more element maps the element onto the end. */
  lemma MapSnoc<T, U>(f: T -> U, xs: seq<T>, x: T)
    ensures Map(f, xs + [x]) == Map(f, xs) + [f(x)]
  {
    var l, r := Map(f, xs + [x]), Map(f, xs) + [f(x)];
    forall i | 0 <= i < |l|
      ensures l[i] == r[i]
    {
      if i < |xs| {
        assert (xs + [x])[i] == xs[i];
      }
    }
  }
}
