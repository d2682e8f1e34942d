/** Failure-compatible wrappers and the failures the inference script can raise. */
module Outcome {

  datatype Option<+T> = None | Some(value: T)

  /** The exceptions of demo_folder.py, one constructor per cause. */
  datatype Error =
    | NoDataFound               // IndexError: `[-1]` on the empty list of timestamps
    | MalformedName(name: string) // IndexError: `split(...)[1]` on a name with too few fields
    | EmptySeparator            // ValueError: `str.split` with an empty separator
    | EmptyScan                 // ValueError: `np.vectorize` called on a size-0 array
    | UnknownLabel(key: int)     // KeyError: a class missing from `learning_map_inv`

  datatype Result<+T> = Ok(value: T) | Err(error: Error) {

    predicate IsFailure() {
      Err?
    }

    function PropagateFailure<U>(): Result<U>
      requires Err?
    {
      Err(error)
    }

    function Extract(): T
      requires Ok?
    {
      value
    }
  }
}
