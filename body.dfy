/** The user code a coroutine frame runs, as far as the task runtime can
    observe it: a body either finishes at once (co_return of a value, or an
    exception leaving the body), or first co_awaits the Task of another body
    and then finishes with a result computed from the awaited value. Chains
    of nested awaits are bodies whose callee is itself an AwaitThen. */
module Bodies {
  import opened Utils

  datatype Body<!T> =
    | Finish(outcome: Outcome<T>)
    | AwaitThen(callee: Body<T>, next: T -> Outcome<T>)

  /** The outcome a body reaches: an awaited callee's failure leaves the
      body unchanged; otherwise the continuation decides. */
  function Run<T>(b: Body<T>): Outcome<T>
  {
    match b
    case Finish(o) => o
    case AwaitThen(callee, next) =>
      match Run(callee)
      case Throws(e) => Throws(e)
      case Normal(x) => next(x)
  }

  /** The outcome of the innermost body of a chain of nested awaits. */
  function Innermost<T>(b: Body<T>): Outcome<T>
  {
    match b
    case Finish(o) => o
    case AwaitThen(callee, _) => Innermost(callee)
  }

  /** A failure raised by the innermost body of an arbitrarily long chain of
      nested awaits reaches the outermost frame unchanged, whatever the
      continuations on the way would have done with a value; so a chain
      whose outermost frame returns normally had an innermost body that
      returned normally. */
  lemma {:induction false} FailurePropagates<T>(b: Body<T>)
    requires Innermost(b).Throws?
    ensures Run(b) == Throws(Innermost(b).exception)
  {
    match b
    case Finish(_) =>
    case AwaitThen(callee, _) =>
      FailurePropagates(callee);
  }
}
