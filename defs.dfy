/**
 * Shared definitions of the Turing-machine engine: byte-sized states and
 * symbol codes, the blank code, and the Option/Result wrappers that stand
 * for Rust's `Option` and `Result`.
 */
module Defs {

  /** An unsigned byte (Rust `u8`). */
  type Byte = x: int | 0 <= x < 256

  /** A machine state (Rust `State`, a `u8`). */
  type State = Byte

  /** An internal symbol code (Rust `LSymbol`, a `u8`). */
  type LSymbol = Byte

  /** The internal code of the blank: the blank is registered first, so it gets code 0. */
  const BLANK: LSymbol := 0

  datatype Option<T> = None | Some(value: T) {
    function GetOr(default: T): T {
      match this
      case Some(v) => v
      case None => default
    }
  }

  datatype Result<T, E> = Ok(value: T) | Err(error: E)
}
