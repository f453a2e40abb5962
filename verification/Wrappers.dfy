/** Result types shared by every component, and a filter over sequences. */
module Wrappers {

  datatype Option<+T> = None | Some(value: T)

  /** The source's `Result<T, String>`; the message text is not modelled. */
  datatype Result<+T> = Ok(value: T) | Err

  /** Keep the elements that satisfy `p`, in order (Rust's `Iterator::filter`). */
  function Filter<T(!new)>(p: T -> bool, s: seq<T>): (r: seq<T>)
    ensures forall x :: x in r <==> x in s && p(x)
  {
    if s == [] then []
    else (if p(s[0]) then [s[0]] else []) + Filter(p, s[1..])
  }
}
