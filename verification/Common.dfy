/** Identifiers, optional values and machine-integer arithmetic shared by every module. */
module Common {

  // Users and events are UUIDs. Their text has a fixed width, so the byte order that Redis uses to
  // break ties between members of a sorted set is the order of the numbers below.
  type UserId = nat
  type EventId = nat
  type Key = string

  datatype Option<+T> = None | Some(value: T)

  datatype Result<+T, +E> = Ok(value: T) | Err(error: E)

  const TWO_32: nat := 0x1_0000_0000
  const INT32_MAX: nat := 0x7FFF_FFFF
  const TWO_63: int := 0x8000_0000_0000_0000
  const TWO_64: int := 0x1_0000_0000_0000_0000

  /** Go's addition of two uint32 values, which drops the carry. */
  function Add32(a: nat, b: nat): (r: nat)
    requires a < TWO_32 && b < TWO_32
    ensures r < TWO_32
    ensures r == a + b <==> a + b < TWO_32
  {
    if a + b < TWO_32 then a + b else a + b - TWO_32
  }

  /** Go's int64(cap) - size, where both the conversion and the subtraction keep the low 64 bits. */
  function Difference64(cap: nat, size: nat): (r: int)
    ensures cap < TWO_64 && size < TWO_63 ==> (0 < r <==> 0 < cap - size < TWO_63)
    ensures cap < TWO_64 && size < TWO_63 && 0 < r ==> r == cap - size
  {
    var low := (cap - size) % 0x1_0000_0000_0000_0000;
    if low < TWO_63 then low else low - TWO_64
  }

  function Min(a: int, b: int): int {
    if a < b then a else b
  }
}
