/** Failure-carrying results, and the two pieces of Python's integer
    and list behaviour that every module of the model uses. */
module Wrappers {

  datatype Option<+T> = None | Some(value: T)

  datatype Result<+R, +E> = Success(value: R) | Failure(error: E)

  /** len(range(n)): a negative count gives no iterations. */
  function Max0(n: int): (r: nat)
    ensures r == n || (n < 0 && r == 0)
  {
    if n < 0 then 0 else n
  }

  /** The position that xs[idx] reads in a Python list of length n: a
      negative index counts from the end; anything outside [-n, n)
      raises IndexError (None). */
  function PyIndex(n: nat, idx: int): (r: Option<nat>)
    ensures r.Some? <==> -(n as int) <= idx < n
    ensures r.Some? ==> r.value < n
    ensures r.Some? && idx >= 0 ==> r.value == idx
    ensures r.Some? && idx < 0 ==> r.value == n + idx
  {
    if 0 <= idx < n then Some(idx)
    else if -(n as int) <= idx < 0 then Some((n as int + idx) as nat)
    else None
  }
}
