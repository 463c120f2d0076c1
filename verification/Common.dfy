/** Shared value types and the one sequence operation several components use. */
module Common {

  datatype Option<+T> = None | Some(value: T)

  datatype Result<+T, +E> = Ok(value: T) | Err(error: E)

  /** One octet. */
  newtype Byte = b: int | 0 <= b < 256

  /** All parts, one after another. */
  function Concat<T>(parts: seq<seq<T>>): seq<T>
  {
    if parts == [] then [] else parts[0] + Concat(parts[1..])
  }

  lemma {:induction false} ConcatFront<T>(x: seq<T>, rest: seq<seq<T>>)
    ensures Concat([x] + rest) == x + Concat(rest)
    ensures Concat([x]) == x
  {
    assert ([x] + rest)[1..] == rest && [x][1..] == [];
    assert Concat([x]) == x + Concat([]);
  }
}
