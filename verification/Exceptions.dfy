/** How a call of user code, or an await, can come out. */
module Exceptions {
  import opened Common

  /** An ordinary `Exception`. */
  datatype Exn = ConnectError(code: Code) | HttpError(status: nat) | OtherError(id: nat)

  /**
   * A cancellation and any other `BaseException` are not ordinary exceptions: `except Exception`
   * does not catch them.
   */
  datatype Outcome<+R> = Return(value: R) | Raise(error: Exn) | Cancelled | Interrupted

  /** The same exception, out of a call with another type of result. */
  function Thrown<R, Q>(o: Outcome<R>): Outcome<Q>
    requires !o.Return?
  {
    match o
    case Raise(e) => Raise(e)
    case Cancelled => Cancelled
    case Interrupted => Interrupted
  }

  /** What `except Exception` catches. */
  function ErrorOf<R>(o: Outcome<R>): Option<Exn> {
    if o.Raise? then Some(o.error) else None
  }

  /** How a call came out, without its result. */
  function Plain<R>(o: Outcome<R>): Outcome<()> {
    if o.Return? then Return(()) else Thrown(o)
  }

  /** Leaving a context whose exit comes out like this: what it throws replaces the body's outcome. */
  function AfterExit<R>(o: Outcome<R>, exit: Outcome<()>): Outcome<R> {
    if exit.Return? then o else Thrown(exit)
  }

  /** There is one way to return nothing. */
  lemma ReturnsNothing(o: Outcome<()>)
    ensures o.Return? ==> o == Return(())
  {
    if o.Return? {
      match o.value
      case () =>
    }
  }
}
