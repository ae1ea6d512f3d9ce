/**
 * Option and Result types shared by every module of the model.
 *
 * The modelled programs report failure by raising an exception (Python) or by
 * returning an error code (C++). Both become an `Err` carrying the kind of
 * failure, so that a contract can say exactly when an operation fails.
 */
module Wrappers {

  datatype Option<T> = None | Some(value: T)
  {
    predicate IsFailure() { None? }

    function PropagateFailure<U>(): Option<U>
      requires None?
    {
      None
    }

    function Extract(): T
      requires Some?
    {
      value
    }

    function GetOr(default: T): (r: T)
      ensures Some? ==> r == value
      ensures None? ==> r == default
    {
      match this
      case None => default
      case Some(v) => v
    }
  }

  /** The kind of exception or error code an operation ends with. */
  datatype Exception =
    | ValueError
    | IndexError
    | KeyError
    | RuntimeError
    | NotImplementedError
    | ZeroDivisionError
    | FileNotFoundError
    | NotADirectoryError
    | AssertionError
    | UnboundLocalError
    | AttributeError
    | IllegalArgument
    | ArrayIndexOutOfBounds

  datatype Result<T> = Ok(value: T) | Err(error: Exception)
  {
    predicate IsFailure() { Err? }

    function PropagateFailure<U>(): Result<U>
      requires Err?
    {
      Err(error)
    }

    function Extract(): T
      requires Ok?
    {
      value
    }
  }

  /** `seq[i]` with Python's negative indices. */
  function PyIndex<T>(xs: seq<T>, i: int): (r: Result<T>)
    ensures r.Ok? <==> -|xs| <= i < |xs|
    ensures r.Ok? && i >= 0 ==> r.value == xs[i]
    ensures r.Ok? && i < 0 ==> r.value == xs[|xs| + i]
    ensures r.Err? ==> r.error == IndexError
  {
    if 0 <= i < |xs| then Ok(xs[i])
    else if -|xs| <= i < 0 then Ok(xs[|xs| + i])
    else Err(IndexError)
  }
}
