/** Failure-compatible wrappers and the fixed-width C++ integer types the handler uses. */
module Common {

  datatype Option<+T> = None | Some(value: T)

  datatype Result<+T, +E> = Success(value: T) | Failure(error: E)

  /** `u8`: one byte of a patch. */
  newtype u8 = x: int | 0 <= x < 0x100

  /** `u16`: the member counter of the structure generator. */
  newtype u16 = x: int | 0 <= x < 0x1_0000

  /** `u64`: addresses and sizes inside the data provider. */
  newtype u64 = x: int | 0 <= x < 0x1_0000_0000_0000_0000

  /** Drops the value of a result, keeping only success or the error: a command returns `None` or raises. */
  function Discard<T, E>(r: Result<T, E>): (d: Result<(), E>)
    ensures d.Success? <==> r.Success?
    ensures d.Failure? ==> d.error == r.error
  {
    match r
    case Success(_) => Success(())
    case Failure(e) => Failure(e)
  }
}
