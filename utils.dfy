/** Shared vocabulary of the model: optional values, the exceptions the
    runtime distinguishes, how a call ends, and logicAssert from
    simple_coro/utils.h. */
module Utils {

  datatype Option<+T> = None | Some(value: T)

  /** An exception object. A user exception is an opaque token (the identity of
      a std::exception_ptr is not modelled); the library itself throws
      std::logic_error and std::runtime_error with a message. */
  datatype Exception =
    | UserException(token: nat)
    | LogicError(what: string)
    | RuntimeError(what: string)

  /** How a call ends: it returns a value or an exception leaves it. */
  datatype Outcome<+T> = Normal(value: T) | Throws(exception: Exception)

  /** logicAssert: returns when the condition holds and otherwise throws
      std::logic_error carrying the message (the log line is not modelled). */
  function LogicAssert(x: bool, errorMsg: string): (o: Outcome<()>)
    ensures o.Normal? <==> x
    ensures o.Throws? ==> o.exception == LogicError(errorMsg)
  {
    if x then Normal(()) else Throws(LogicError(errorMsg))
  }
}
