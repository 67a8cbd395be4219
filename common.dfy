/** Types shared by the bridge, the LibAFL adapters and the example programs. */
module Common {

  /** An octet of a `Vec<u8>` / `BytesInput`. */
  newtype byte = x: int | 0 <= x < 256

  type Bytes = seq<byte>

  /** One more than the largest `u32` (`u32::MAX + 1`). */
  const U32_LIMIT: nat := 0x1_0000_0000

  datatype Option<+T> = None | Some(value: T)

  datatype Result<+T, +E> = Ok(value: T) | Err(error: E)

  /** The two results of a LibAFL operation that returns `Result<(), Error>`. */
  datatype Outcome<+E> = Pass | Fail(error: E)

  /** The part of LibAFL's `Error` this code produces: every bridge failure
      is turned into `Error::illegal_state(message)`. Errors raised inside
      LibAFL itself are carried opaquely as `Library`. */
  datatype Error = IllegalState(message: string) | Library(description: string)

  /** `libafl::executors::ExitKind`, restricted to the variants used here. */
  datatype ExitKind = ExitOk | Crash

  /** `MutationResult` of a LibAFL mutator. */
  datatype MutationResult = Mutated | Skipped
}
