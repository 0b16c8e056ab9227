/** Outcomes shared by every part of the client: the exceptions the C++ code
    throws become the `Err` side of a `Result`. */
module Errors {

  /** The JSON kinds that the tolerant accessors ask a value to have. */
  datatype Kind = KInt64 | KBool | KString | KDouble | KArray | KObject

  /** The integer widths that the narrowing accessors check against. */
  datatype Width = Int32Width | UInt32Width

  datatype Error =
    /** `as_int64`, `as_bool`, `as_string`, ... applied to a value of another kind */
    | KindError(expected: Kind)
    /** "<value> cannot fit inside an int32_t / uint32_t" */
    | RangeError(value: int, width: Width)
    /** HTTP status 0: the connection could not be made; carries the transport's message */
    | TransportError(message: string)
    /** HTTP status of 400 or more */
    | HttpStatusError(code: int)
    /** a stored DNS answer that the address parser rejects */
    | MalformedAnswer(answer: string)
    /** the page cursor came back to a page index already fetched */
    | ProtocolError(page: int)

  datatype Option<+T> = None | Some(value: T)

  datatype Result<+T> = Ok(value: T) | Err(error: Error) {
    predicate IsFailure() {
      Err?
    }

    function PropagateFailure<U>(): Result<U>
      requires Err?
    {
      Err(error)
    }

    function Extract(): T
      requires Ok?
    {
      value
    }
  }
}
