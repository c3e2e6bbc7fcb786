module Wrappers {
  datatype Option<+T> = None | Some(value: T)
  datatype Result<+T> = Success(value: T) | Failure(error: string)

  /** `Promise.all` over two settled results: the pair of values when both
      succeed, otherwise a failure carrying the error of one that failed (the
      one that rejects first; argument order stands in for timing) */
  function All2<A, B>(a: Result<A>, b: Result<B>): (r: Result<(A, B)>)
    ensures r.Success? <==> a.Success? && b.Success?
    ensures r.Success? ==> r.value == (a.value, b.value)
    ensures r.Failure? ==> (a.Failure? && r.error == a.error) || (b.Failure? && r.error == b.error)
  {
    if a.Failure? then Failure(a.error)
    else if b.Failure? then Failure(b.error)
    else Success((a.value, b.value))
  }

  /** `Promise.all` over three settled results */
  function All3<A, B, C>(a: Result<A>, b: Result<B>, c: Result<C>): (r: Result<(A, B, C)>)
    ensures r.Success? <==> a.Success? && b.Success? && c.Success?
    ensures r.Success? ==> r.value == (a.value, b.value, c.value)
    ensures r.Failure? ==>
      (a.Failure? && r.error == a.error) || (b.Failure? && r.error == b.error) || (c.Failure? && r.error == c.error)
  {
    if a.Failure? then Failure(a.error)
    else if b.Failure? then Failure(b.error)
    else if c.Failure? then Failure(c.error)
    else Success((a.value, b.value, c.value))
  }
}
