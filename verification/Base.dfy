/** Types shared by every module: machine integers, byte strings and the two
    result datatypes. */
module Base {

  const U32_LIMIT: int := 0x1_0000_0000

  type Byte = x: int | 0 <= x < 256

  type U16 = x: int | 0 <= x < 65536

  type U32 = x: int | 0 <= x < U32_LIMIT

  /** Adding one to a u32 wraps around. */
  function Incremented(n: U32): U32 {
    if n == U32_LIMIT - 1 then 0 else n + 1
  }

  /** The UTF-8 bytes of a string. */
  type Text = seq<Byte>

  datatype Option<+T> = None | Some(value: T)

  function OptionSeq<T>(o: Option<T>): seq<T> {
    if o.Some? then [o.value] else []
  }

  datatype Result<+T, +E> = Ok(value: T) | Err(error: E) {
    predicate IsFailure() {
      Err?
    }

    function PropagateFailure<U>(): Result<U, E>
      requires Err?
    {
      Err(error)
    }

    function Extract(): T
      requires Ok?
    {
      value
    }
  }
}
