/** Error kinds the driver raises as exceptions, and the result of an operation that may raise one. */
module Results {

  /** `not_implemented_exception` carries the identifier it does not know;
      `invalid_value_exception` carries its message. */
  datatype Error = NotImplemented(offendingId: int) | InvalidValue(message: string)

  datatype Result<T> = Ok(value: T) | Err(error: Error)
}
