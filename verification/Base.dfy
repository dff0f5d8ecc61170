/** Machine words, optional values and failure-compatible results shared by every module. */
module Base {
  const U8_MAX: int := 0xFF
  const U16_MAX: int := 0xFFFF
  const U32_MAX: int := 0xFFFF_FFFF
  const U64_MAX: int := 0xFFFF_FFFF_FFFF_FFFF
  const NANOS_PER_SECOND: int := 1_000_000_000

  type u8 = x: int | 0 <= x <= U8_MAX
  type u16 = x: int | 0 <= x <= U16_MAX
  type u32 = x: int | 0 <= x <= U32_MAX
  type u64 = x: int | 0 <= x <= U64_MAX

  datatype Option<+T> = None | Some(value: T)

  datatype Result<+T, +E> = Ok(value: T) | Err(error: E) {
    predicate IsFailure() {
      Err?
    }

    function PropagateFailure<U>(): Result<U, E>
      requires Err?
    {
      Err(error)
    }

    function Extract(): T
      requires Ok?
    {
      value
    }
  }

  /** Rust's `checked_add` on `u64`, with the error of the surrounding `ok_or`. */
  function CheckedAdd<E>(a: u64, b: u64, error: E): Result<u64, E> {
    if a + b <= U64_MAX then Ok(a + b) else Err(error)
  }

  /** Rust's `?` on an optional value: `option.ok_or(error)?`. */
  function OkOr<T, E>(option: Option<T>, error: E): Result<T, E> {
    match option
    case Some(value) => Ok(value)
    case None => Err(error)
  }

  function Require<E>(condition: bool, error: E): Result<(), E> {
    if condition then Ok(()) else Err(error)
  }

  function Min(a: int, b: int): int {
    if a <= b then a else b
  }

  lemma Associative<T>(a: seq<T>, b: seq<T>, c: seq<T>)
    ensures (a + b) + c == a + (b + c)
  {
  }
}
