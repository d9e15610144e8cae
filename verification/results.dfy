/** The ways a generation step can fail, and a failure-compatible result type. */
module Results {

  /** The exceptions the generator can raise on its own data.
      - EmptyDistribution: random.choices asked to draw from an empty key list
      - IndexOutOfRange: indexing an empty list (a chunk list, or a split that produced no word)
      - UnpackNone: size_handler fell through its size tests and returned None
      - EmptyCorpus: np.random.choice asked to pick a first word from an empty corpus */
  datatype Error = EmptyDistribution | IndexOutOfRange | UnpackNone | EmptyCorpus

  /** A value, or the error that aborted the computation of it. */
  datatype Result<+T> = Ok(value: T) | Err(error: Error) {

    predicate IsFailure() {
      Err?
    }

    function PropagateFailure<U>(): Result<U>
      requires Err?
    {
      Err(error)
    }

    function Extract(): T
      requires Ok?
    {
      value
    }
  }
}
