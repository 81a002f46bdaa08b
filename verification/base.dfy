/** Small shared datatypes: optional values, the reply of a call that may
    raise, and the result of an operation that may fail. */
module Base {

  datatype Option<+T> = None | Some(value: T)

  /** What a call into code that may throw produced: it raised an exception,
      or it returned a value. */
  datatype Reply<+T> = Raised | Returned(value: T)

  datatype Result<+T, +E> = Success(value: T) | Failure(error: E)

  /** A non-empty sequence is its front followed by its last element. */
  lemma SplitLast<T>(s: seq<T>)
    requires s != []
    ensures s == s[..|s| - 1] + [s[|s| - 1]]
  {
  }
}
