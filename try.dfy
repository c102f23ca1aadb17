/** The result capsule of simple_coro/try.hpp: Try<R>, which holds nothing,
    a value or an exception, and its specialisation Try<void>, which holds
    success or an exception. */
module TryCapsule {
  import opened Utils

  /** The alternatives of Try<R>'s std::variant<std::monostate, R,
      std::exception_ptr>. The exception alternative may hold a null
      exception_ptr, since setException accepts one. */
  datatype Storage<R> = Empty | Holds(value: R) | Failed(eptr: Option<Exception>)

  class Try<R> {
    var result: Storage<R>

    /** Try() = default: the variant starts in its monostate alternative. */
    constructor ()
      ensures result == Empty
      ensures !HasValue() && Value() == Throws(RuntimeError("no value"))
    {
      result := Empty;
    }

    /** explicit Try(Args&&...): constructs the value alternative in place. */
    constructor Of(v: R)
      ensures result == Holds(v)
      ensures HasValue() && Value() == Normal(v)
    {
      result := Holds(v);
    }

    /** explicit operator bool: whether the value alternative is held. */
    function HasValue(): bool
      reads this
    {
      result.Holds?
    }

    /** value(): the held value; otherwise it rethrows the held exception, or
        throws runtime_error("no value") when nothing is held. Rethrowing a
        null exception_ptr is undefined, so that state is excluded. */
    function Value(): (o: Outcome<R>)
      reads this
      requires !(result.Failed? && result.eptr.None?)
      ensures o.Normal? <==> HasValue()
      ensures o.Normal? ==> result == Holds(o.value)
      ensures result.Failed? ==> o == Throws(result.eptr.value)
      ensures result.Empty? ==> o == Throws(RuntimeError("no value"))
    {
      match result
      case Holds(v) => Normal(v)
      case Failed(e) => Throws(e.value)
      case Empty => Throws(RuntimeError("no value"))
    }

    /** emplace: whatever was held, the value alternative now holds v. */
    method Emplace(v: R)
      modifies this
      ensures result == Holds(v)
      ensures HasValue() && Value() == Normal(v)
    {
      result := Holds(v);
    }

    /** setException: whatever was held, the exception alternative now holds
        e; value() then rethrows it. */
    method SetException(e: Option<Exception>)
      modifies this
      ensures result == Failed(e)
      ensures !HasValue()
      ensures e.Some? ==> Value() == Throws(e.value)
    {
      result := Failed(e);
    }

    /** The defaulted move assignment: this capsule takes over the other's
        alternative. The moved-from capsule is not read again by the runtime,
        so its moved-from contents are not modelled. */
    method MoveAssign(other: Try<R>)
      modifies this
      ensures result == other.result
      ensures other.result == old(other.result)
    {
      result := other.result;
    }
  }

  /** Try<void>: a null exception_ptr means success. */
  class TryVoid {
    var exception: Option<Exception>

    /** Try() noexcept = default: success. */
    constructor ()
      ensures exception == None
      ensures IsSuccess() && Value() == Normal(())
    {
      exception := None;
    }

    /** explicit Try(std::exception_ptr): failure carrying eptr (a null eptr
        is success). */
    constructor FromException(eptr: Option<Exception>)
      ensures exception == eptr
      ensures IsSuccess() <==> eptr.None?
    {
      exception := eptr;
    }

    /** explicit operator bool: true when no exception is held. */
    function IsSuccess(): bool
      reads this
    {
      exception.None?
    }

    /** value(): rethrows the held exception and otherwise returns. */
    function Value(): (o: Outcome<()>)
      reads this
      ensures o.Throws? <==> exception.Some?
      ensures o.Normal? <==> IsSuccess()
      ensures o.Throws? ==> o.exception == exception.value
    {
      if exception.Some? then Throws(exception.value) else Normal(())
    }

    /** clear: back to success. */
    method Clear()
      modifies this
      ensures exception == None
      ensures IsSuccess() && Value() == Normal(())
    {
      exception := None;
    }

    /** setException: the capsule now holds eptr; with a non-null eptr it
        reports failure and value() rethrows eptr. */
    method SetException(eptr: Option<Exception>)
      modifies this
      ensures exception == eptr
      ensures eptr.Some? ==> !IsSuccess() && Value() == Throws(eptr.value)
    {
      exception := eptr;
    }

    /** take: hands out the held exception pointer without throwing and leaves
        the capsule in success. */
    method Take() returns (eptr: Option<Exception>)
      modifies this
      ensures eptr == old(exception)
      ensures exception == None && IsSuccess()
    {
      eptr := exception;
      exception := None;
    }
  }

  /** Two take() calls in a row: the first hands out the held exception
      pointer, the second a null one. */
  method TakeTwice(t: TryVoid) returns (first: Option<Exception>, second: Option<Exception>)
    modifies t
    ensures first == old(t.exception)
    ensures second == None
    ensures t.IsSuccess()
  {
    first := t.Take();
    second := t.Take();
  }
}
