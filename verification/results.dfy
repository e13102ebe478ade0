/** Failure-compatible wrappers and the error taxonomy of the preparation
    pipeline. The failures this model represents are variants of `Error`,
    so callers see an explicit failure value instead of a thrown exception. */
module Results {

  /** An optional value: an attribute that may be absent, a capability a
      model may not offer, a schema file that may not exist. */
  datatype Option<+T> = None | Some(value: T)

  /** The transformation step an error arose in. */
  datatype Stage = BinaryStage | OrdinalStage | OneHotStage | ScalerStage

  datatype Error =
    /** A selection by column name found these names absent (a KeyError). */
    | MissingColumns(names: seq<string>)
    /** The one-hot encoder records neither of its two input-name attributes. */
    | MissingMetadata
    /** The one-hot encoder has more category lists than input names (an IndexError). */
    | TooFewInputNames(inputs: nat, lists: nat)
    /** An opaque transform raised. */
    | TransformFailed(stage: Stage)
    /** An opaque transform returned a matrix of the wrong shape. */
    | ShapeMismatch(stage: Stage)
    /** Two columns of one table would carry the same name. */
    | DuplicateColumns
    /** A prediction or probability column does not have one value per row. */
    | LengthMismatch

  datatype Result<+T> = Ok(value: T) | Err(error: Error) {

    predicate IsFailure() {
      Err?
    }

    function PropagateFailure<U>(): Result<U>
      requires Err?
    {
      Err(error)
    }

    function Extract(): T
      requires Ok?
    {
      value
    }
  }
}
