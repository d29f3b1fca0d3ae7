/** Optional values and the three ways an operation of the service can end. */
module Outcomes {

  /** A value that may be absent: a nil pointer or a missing key in the Go code. */
  datatype Option<T> = None | Some(value: T)

  /**
   * How a call returns: with a value, with a Go `error` (its message), or by a
   * panic that unwinds past the caller (a transaction rolls back and re-raises it).
   */
  datatype Result<T> = Ok(value: T) | Err(msg: string) | Panic

  /** `fmt.Errorf("<context>: %w", err)`: an error gains a prefix, anything else passes through. */
  function Wrapped<T>(context: string, r: Result<T>): (w: Result<T>)
    ensures w.Ok? <==> r.Ok?
    ensures w.Panic? <==> r.Panic?
    ensures r.Ok? ==> w == r
    ensures r.Err? ==> w == Err(context + ": " + r.msg)
  {
    if r.Err? then Err(context + ": " + r.msg) else r
  }

  /**
   * `return nil, fmt.Errorf("<context>: %w", err)` from a function with another
   * result type: the error gains a prefix, a panic keeps unwinding.
   */
  function Failed<T, U>(context: string, r: Result<T>): (w: Result<U>)
    requires !r.Ok?
    ensures w.Panic? <==> r.Panic?
    ensures r.Err? ==> w == Err(context + ": " + r.msg)
  {
    if r.Err? then Err(context + ": " + r.msg) else Panic
  }
}
