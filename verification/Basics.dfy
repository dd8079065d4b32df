/** Fixed-width integers and small result types shared by every module. */
module Basics {

  const TWO_32: int := 0x1_0000_0000
  const TWO_64: int := 0x1_0000_0000_0000_0000
  const MAX_U64: int := TWO_64 - 1

  type u8 = x: int | 0 <= x < 0x100
  type u32 = x: int | 0 <= x < 0x1_0000_0000
  type u64 = x: int | 0 <= x < 0x1_0000_0000_0000_0000

  type Bytes = seq<u8>

  datatype Option<+T> = None | Some(value: T)

  /** A C++ call that may throw `std::runtime_error`. */
  datatype Result<+T> = Ok(value: T) | Throws(what: string)

  /** Unsigned addition and subtraction, which wrap in C++. */
  function Add32(a: u32, b: u32): u32 {
    if a + b < TWO_32 then a + b else a + b - TWO_32
  }

  function Add64(a: u64, b: u64): u64 {
    if a + b < TWO_64 then a + b else a + b - TWO_64
  }

  function Sub64(a: u64, b: u64): u64 {
    if a >= b then a - b else a - b + TWO_64
  }

  lemma WrapIsModulo(a: u64, b: u64)
    ensures Add64(a, b) == (a + b) % TWO_64
    ensures Sub64(a, b) == (a - b) % TWO_64
  {
  }

  lemma Wrap32IsModulo(a: u32, b: u32)
    ensures Add32(a, b) == (a + b) % TWO_32
  {
  }
}
