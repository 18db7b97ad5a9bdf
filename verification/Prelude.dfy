/** Vocabulary shared by the components: bytes, machine-word bounds, optional results. */
module Prelude {
  type byte = b: int | 0 <= b < 256

  type bytes = seq<byte>

  datatype Option<+T> = None | Some(value: T)

  const U16 := 0x1_0000
  const U31 := 0x8000_0000
  const U32 := 0x1_0000_0000
  const U63 := 0x8000_0000_0000_0000
  const U64 := 0x1_0000_0000_0000_0000
}
