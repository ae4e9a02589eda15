/** Small shared datatypes. */
module Prelude {

  datatype Option<+T> = None | Some(value: T)

  datatype Result<+T, +E> = Ok(value: T) | Err(error: E)

  /** What became of one command sent over the network.  An `Unacked` command took effect although its caller saw an
      error; a `Lost` one had no effect. */
  datatype Outcome = Acked | Unacked | Lost {
    predicate Effective() {
      !Lost?
    }
  }

  function Max(x: int, y: int): int {
    if x < y then y else x
  }

  /** The first `n` elements, or all of them when there are fewer. */
  function Take<T>(s: seq<T>, n: int): seq<T> {
    if n <= 0 then [] else if n < |s| then s[..n] else s
  }
}
