/** Failure-compatible result type shared by every module of the model.
    Python exceptions raised by the modelled code become `Err` values. */
module Outcomes {

  datatype Result<+T, +E> = Ok(value: T) | Err(error: E) {

    predicate IsFailure() {
      Err?
    }

    function PropagateFailure<U>(): Result<U, E>
      requires Err?
    {
      Err(error)
    }

    function Extract(): T
      requires Ok?
    {
      value
    }
  }

  /** The exceptions the polygon generator can raise. */
  datatype GenError =
    | EmptyRange          // `random.randint(lo, hi)` with hi < lo (ValueError)
    | NegativeDimensions  // `np.zeros` with a negative height or width (ValueError)
    | IndexOutOfRange     // `clockwise` reading past the sorted points (IndexError)
    | NotImplemented      // `PolygonGenerator.draw_polygon` of the base class
    | NoAppend            // `.append` on a vertex list already converted to a numpy array (AttributeError)
}
