/** Failure reporting for the TT layer.

    The layer never catches anything: every failure of numpy, of Python
    indexing or of a TensorFlow shape check aborts layer construction or the
    forward pass. The model therefore returns a `Result` whose error names
    the kind of failure the source raises. */
module Outcomes {

  /** The kinds of failure the layer can run into. */
  datatype Error =
    | IndexOutOfRange    // a Python list or array is shorter than the mode index used on it
    | InvalidDimension   // a negative size handed to numpy, or a negative argument to `math.sqrt`
    | BadReshape         // `tf.reshape` with `-1` cannot infer the missing size
    | BadMatMul          // `tf.matmul` operands whose inner sizes differ
    | BadBroadcast       // `tf.add` of a bias whose length is not the row length

  /** Either a value or the failure that aborted its computation; usable with `:-`. */
  datatype Result<+T> = Ok(value: T) | Err(error: Error) {

    predicate IsFailure() {
      Err?
    }

    function PropagateFailure<U>(): Result<U>
      requires Err?
    {
      Err(error)
    }

    function Extract(): T
      requires Ok?
    {
      value
    }
  }

  /** Succeeds with no value when `condition` holds and fails with `e` otherwise. */
  datatype Check = Pass | Fail(error: Error) {

    predicate IsFailure() {
      Fail?
    }

    function PropagateFailure<U>(): Result<U>
      requires Fail?
    {
      Err(error)
    }
  }

  function Need(condition: bool, e: Error): (c: Check)
    ensures c.Pass? <==> condition
  {
    if condition then Pass else Fail(e)
  }

  /** The optional value of Python's `None`-or-something arguments. */
  datatype Option<+T> = None | Some(value: T)
}
