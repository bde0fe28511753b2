/** The outcome types the other modules share, and how a loop carries one. */
module Wrappers {

  datatype Option<+T> = None | Some(value: T)

  datatype Result<+T, +E> = Ok(value: T) | Err(error: E)

  /** The outcome of a loop that has `done` and goes on to `rest`. */
  function Carry<T, E>(done: seq<T>, rest: Result<seq<T>, E>): Result<seq<T>, E> {
    if rest.Err? then rest else Ok(done + rest.value)
  }

  /** One more element done. */
  lemma CarryOne<T, E>(done: seq<T>, next: T, rest: Result<seq<T>, E>)
    ensures Carry(done, if rest.Err? then rest else Ok([next] + rest.value)) == Carry(done + [next], rest)
  {
    if rest.Ok? { assert done + ([next] + rest.value) == done + [next] + rest.value; }
  }

  lemma CarryNone<T, E>(rest: Result<seq<T>, E>)
    ensures Carry([], rest) == rest
  {
    if rest.Ok? { assert [] + rest.value == rest.value; }
  }
}
