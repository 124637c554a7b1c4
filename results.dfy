/** Error values and the Option/Result wrappers shared by every parameter module.
    An exception thrown by the source becomes an `Err` carrying one of these errors. */
module Results {

  /** The failures the normalisation engine can raise. */
  datatype ParamError =
    | InvalidVariant(value: string)                 // a string that is not among an enum's variants
    | RangeViolation(position: real)                // a strict unnormalize got a position outside [0, 1]
    | VariantUndefined(position: real)              // the computed index holds no variant
    | TypeMismatch(expected: string, received: string)  // the facade got a value of the wrong runtime type

  datatype Option<+T> = None | Some(value: T)

  datatype Result<+T> = Ok(value: T) | Err(error: ParamError)
}
