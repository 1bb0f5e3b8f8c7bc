/** Small shared vocabulary: an optional value and the byte-sized integer types of the firmware. */
module Wrappers {

  datatype Option<+T> = None | Some(value: T)

  /** uint8_t */
  type byte = x: int | 0 <= x < 0x100

  /** int8_t */
  type int8 = x: int | -0x80 <= x < 0x80

  /** int32_t (the firmware's `int`) */
  type int32 = x: int | -0x8000_0000 <= x < 0x8000_0000

  /** uint32_t (the firmware's `unsigned int`) */
  type uint32 = x: int | 0 <= x < 0x1_0000_0000

  /** Conversion of an `unsigned int` to a 32-bit two's-complement `int`, as the ESP32 compiler does it. */
  function ToInt32(x: uint32): (r: int32)
    ensures x < 0x8000_0000 ==> r == x
    ensures x >= 0x8000_0000 ==> r < 0
    ensures (r - x) % 0x1_0000_0000 == 0
  {
    if x < 0x8000_0000 then x else x - 0x1_0000_0000
  }

  /** Conversion of an `int` to `int8_t`: the low eight bits, read as two's complement (GCC's rule). */
  function ToInt8(x: int32): (r: int8)
    ensures -0x80 <= x < 0x80 ==> r == x
    ensures (r - x) % 0x100 == 0
  {
    var low := x % 0x100;
    if low < 0x80 then low else low - 0x100
  }
}
