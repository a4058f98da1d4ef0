/** Vocabulary shared by every component: optional values, 32-bit words, display states. */
module Common {

  datatype Option<+T> = None | Some(value: T)

  const TWO_TO_THE_31: int := 0x8000_0000
  const TWO_TO_THE_32: int := 0x1_0000_0000
  const TWO_TO_THE_64: int := 0x1_0000_0000_0000_0000

  /** A C++ `uint32_t`. */
  type uint32 = x: int | 0 <= x < TWO_TO_THE_32

  /** A C++ `uint64_t`. */
  type uint64 = x: int | 0 <= x < TWO_TO_THE_64

  datatype DisplayState = Off | Dim | On | Suspend | DelayOff | Doze | DozeSuspend | Unknown

  function Min(a: int, b: int): int {
    if a <= b then a else b
  }

  function Max(a: int, b: int): int {
    if a <= b then b else a
  }

  function Abs(a: int): nat {
    if a < 0 then -a else a
  }

  function RealAbs(a: real): real {
    if a < 0.0 then -a else a
  }
}
