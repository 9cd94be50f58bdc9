/** Machine-level types shared by the C files of the model. */
module CTypes {

  /** C `uint32_t`. */
  newtype u32 = x: int | 0 <= x < 0x1_0000_0000

  /** C `int` on the 32-bit wasm target. */
  newtype i32 = x: int | -0x8000_0000 <= x < 0x8000_0000

  /** An opaque C pointer: only compared for equality and against NULL. */
  datatype Ptr = Null | Addr(addr: nat)

  datatype Option<+T> = None | Some(value: T)
}
