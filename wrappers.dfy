/** Failure-carrying result types shared by the model's modules. */
module Wrappers {

  datatype Option<+T> = None | Some(value: T)

  /** A value, or the error that the source would raise instead of returning it. */
  datatype Result<+T, +E> = Ok(value: T) | Err(error: E)

  /** Success without a value, or an error (an operation run for its effect). */
  datatype Outcome<+E> = Pass | Fail(error: E)

  /** `prefix` put in front of a successful sequence result; an error is passed on as it is. */
  function Prepend<T, E>(prefix: seq<T>, r: Result<seq<T>, E>): (p: Result<seq<T>, E>)
    ensures p.Ok? <==> r.Ok?
    ensures r.Err? ==> p == r
  {
    match r
    case Ok(s) => Ok(prefix + s)
    case Err(e) => Err(e)
  }

  lemma PrependNothing<T, E>(r: Result<seq<T>, E>)
    ensures Prepend([], r) == r
  {
    if r.Ok? {
      assert [] + r.value == r.value;
    }
  }

  lemma PrependTwice<T, E>(a: seq<T>, b: seq<T>, r: Result<seq<T>, E>)
    ensures Prepend(a, Prepend(b, r)) == Prepend(a + b, r)
  {
    if r.Ok? {
      assert a + (b + r.value) == (a + b) + r.value;
    }
  }
}
