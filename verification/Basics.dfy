/** Small shared types: optional values, results, and cons lists. */
module Basics {
  datatype Option<+T> = None | Some(value: T)

  datatype Result<+T, +E> = Ok(value: T) | Err(error: E)

  // Token streams are cons lists, so that a parser consumes them by pattern matching.
  datatype List<+T> = Nil | Cons(head: T, tail: List<T>)

  function Append<T>(a: List<T>, b: List<T>): (r: List<T>)
    ensures Length(r) == Length(a) + Length(b)
  {
    match a
    case Nil => b
    case Cons(x, rest) => Cons(x, Append(rest, b))
  }

  function Length<T>(a: List<T>): nat {
    match a
    case Nil => 0
    case Cons(_, rest) => 1 + Length(rest)
  }
}
