/** Routing a handler's failures, synchronous or asynchronous, to `onError`. */
module OnError {
  import opened Wrappers

  /** How a promise settles. Promises that never settle are not represented. */
  datatype Settled<R, E> = Fulfilled(value: R) | Rejected(reason: E)

  /** What one call of a handler does: return a response, throw, or return a
      promise of a response. */
  datatype Outcome<R, E> = Returned(value: R) | Threw(error: E) | Pending(settled: Settled<R, E>)

  predicate Succeeded<R, E>(o: Outcome<R, E>) {
    o.Returned? || (o.Pending? && o.settled.Fulfilled?)
  }

  /** The error of a failed outcome: the thrown value or the rejection reason. */
  function Failure<R, E>(o: Outcome<R, E>): (e: E)
    requires !Succeeded(o)
  {
    if o.Threw? then o.error else o.settled.reason
  }

  /** How the promise `p.catch(onError)` settles when `onError` has produced `o`:
      a value fulfils it, a throw rejects it and a returned promise is adopted. */
  function Adopt<R, E>(o: Outcome<R, E>): (s: Settled<R, E>)
    ensures s.Fulfilled? <==> Succeeded(o)
    ensures !Succeeded(o) ==> s.reason == Failure(o)
    ensures s.Fulfilled? ==> s.value == (if o.Returned? then o.value else o.settled.value)
  {
    match o
    case Returned(v) => Fulfilled(v)
    case Threw(e) => Rejected(e)
    case Pending(s) => s
  }

  /** One call of the wrapped handler: its outcome and the arguments `onError`
      was called with, in order. */
  datatype Call<R, E> = Call(outcome: Outcome<R, E>, onErrorArgs: seq<E>)

  /** The wrapper installed when `onError` is given: a synchronous throw is
      answered by `onError`'s own outcome, a returned promise gets
      `.catch(onError)`, and a plain response is passed back. */
  function Guarded<Q, R, E>(handler: Q -> Outcome<R, E>, onError: E -> Outcome<R, E>, request: Q): (c: Call<R, E>)
    ensures |c.onErrorArgs| <= 1
    ensures c.onErrorArgs == [] <==> Succeeded(handler(request))
    ensures Succeeded(handler(request)) ==> c.outcome == handler(request)
    ensures !Succeeded(handler(request)) ==>
      c.onErrorArgs == [Failure(handler(request))] && Adopt(c.outcome) == Adopt(onError(Failure(handler(request))))
    ensures handler(request).Threw? ==> c.outcome == onError(handler(request).error)
    ensures handler(request).Pending? ==> c.outcome.Pending?
  {
    match handler(request)
    case Returned(v) => Call(Returned(v), [])
    case Threw(e) => Call(onError(e), [e])
    case Pending(Fulfilled(v)) => Call(Pending(Fulfilled(v)), [])
    case Pending(Rejected(e)) => Call(Pending(Adopt(onError(e))), [e])
  }

  /** `wrapFetchOnError`: without `onError` the handler itself, otherwise the
      guarded handler. */
  function WrapFetchOnError<Q(!new), R, E>(handler: Q -> Outcome<R, E>, onError: Option<E -> Outcome<R, E>>): (w: Q -> Outcome<R, E>)
    ensures onError.None? ==> w == handler
    ensures onError.Some? ==> forall q :: w(q) == Guarded(handler, onError.value, q).outcome
  {
    if onError.None? then handler else q => Guarded(handler, onError.value, q).outcome
  }

  /** With `onError`, a failed request's eventual response is exactly what
      `onError` produces for its error, and a successful one is untouched. */
  lemma WrappedResponse<Q(!new), R, E>(handler: Q -> Outcome<R, E>, onError: E -> Outcome<R, E>, request: Q)
    ensures var w := WrapFetchOnError(handler, Some(onError));
      && (Succeeded(handler(request)) ==> w(request) == handler(request))
      && (!Succeeded(handler(request)) ==> Adopt(w(request)) == Adopt(onError(Failure(handler(request)))))
  {
  }
}
