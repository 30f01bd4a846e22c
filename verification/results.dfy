/** The outcome types of the rule engine. A Python exception raised by the
    engine (an `IndexError` from an exhausted token list, a `ValueError` from
    an unpack or a float conversion) becomes a `Failure`; Python's `None` as
    "no tree" becomes `None`. */
module Results {

  datatype Option<+T> = None | Some(value: T)

  datatype Result<+T, +E> = Success(value: T) | Failure(error: E)
}
