/** Shared vocabulary: nullable values and the fixed-width unsigned integers
    the reflection descriptors and the portable records carry. */
module Base {

  /** A C# nullable reference or value: `null` is `None`. */
  datatype Option<+T> = None | Some(value: T)

  /** C# `uint` and `ulong`. */
  type u32 = x: nat | x < 0x1_0000_0000
  type u64 = x: nat | x < 0x1_0000_0000_0000_0000

  /** `int.MaxValue`: a `uint` above it turns negative under an unchecked `(int)` cast. */
  const IntMax: nat := 0x7FFF_FFFF
}
