/** Failure-compatible result types shared by the decoder and the game rules. */
module Wrappers {

  datatype Option<+T> = None | Some(value: T)

  /** The exceptions the core raises, as values. */
  datatype Error =
    | MissingHeader   // the area's header file is not in the course archive
    | TruncatedRead   // a read, skip or seek went past the end of a stream
    | FileNotFound    // a tileset or level archive is not on the game filesystem

  datatype Result<+T> = Ok(value: T) | Err(error: Error) {
    predicate IsFailure() { Err? }

    function PropagateFailure<U>(): Result<U>
      requires Err?
    {
      Err(error)
    }

    function Extract(): T
      requires Ok?
    {
      value
    }
  }

  /** A result without a value, for cursor moves. */
  datatype Outcome = Pass | Fail(error: Error) {
    predicate IsFailure() { Fail? }

    function PropagateFailure<U>(): Result<U>
      requires Fail?
    {
      Err(error)
    }
  }

  /** Prefixes the records decoded so far to the result of decoding the rest of a stream. */
  function PrependOk<T>(prefix: seq<T>, rest: Result<seq<T>>): Result<seq<T>>
  {
    match rest
    case Ok(tail) => Ok(prefix + tail)
    case Err(e) => Err(e)
  }

  /** Prefixing twice is prefixing once with both prefixes. */
  lemma PrependOkTwice<T>(a: seq<T>, b: seq<T>, rest: Result<seq<T>>)
    ensures PrependOk(a, PrependOk(b, rest)) == PrependOk(a + b, rest)
  {
    if rest.Ok? {
      assert a + (b + rest.value) == (a + b) + rest.value;
    }
  }

  lemma PrependOkNil<T>(rest: Result<seq<T>>)
    ensures PrependOk([], rest) == rest
  {
    if rest.Ok? {
      assert [] + rest.value == rest.value;
    }
  }
}
