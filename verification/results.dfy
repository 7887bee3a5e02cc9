/** Optional values, the exceptions the helper scripts can raise, and a
    failure-compatible Result type, so that a Python exception becomes a value. */
module Results {

  /** Python's `None` or a present value. */
  datatype Option<+T> = None | Some(value: T)

  /** The uncaught exceptions the helpers can raise on the inputs they are given. */
  datatype Error =
    | MissingFile(run: nat, category: string)  // the text reader cannot open run{run}_{category}.txt
    | IndexError(reason: string)               // an array or list indexed beyond its shape
    | ZeroDivisionError                        // 1. / len(conditions) with no conditions

  datatype Result<+T> = Success(value: T) | Failure(error: Error) {

    predicate IsFailure() {
      Failure?
    }

    function PropagateFailure<U>(): Result<U>
      requires Failure?
    {
      Failure(error)
    }

    function Extract(): T
      requires Success?
    {
      value
    }
  }

  /** A `None` list read as the empty list, as `if x == None: x = []` does. */
  function OrEmpty<T>(o: Option<seq<T>>): seq<T> {
    match o
    case None => []
    case Some(xs) => xs
  }
}
