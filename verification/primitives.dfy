/** Value types shared by the hook service, the CSV writer and the logger page:
    an optional value (the source's nullable `int?` / reference `null`), the
    32-bit integer widths the Win32 structures use, and a UTC timestamp given by
    its calendar components (the clock itself is an input everywhere). */
module Primitives {

  /** `T?` of the source: a value or null. */
  datatype Option<+T> = None | Some(value: T) {
    function GetOr(default: T): T {
      match this
      case Some(v) => v
      case None => default
    }
  }

  /** C# `int` (System.Int32). */
  type int32 = x: int | -0x8000_0000 <= x < 0x8000_0000

  /** C# `uint` (System.UInt32), the type of `mouseData` and of the pid written
      by GetWindowThreadProcessId. */
  type uint32 = x: int | 0 <= x < 0x1_0000_0000

  /** C# `short` (System.Int16). */
  type int16 = x: int | -0x8000 <= x < 0x8000

  /** The unchecked conversion `(int)u` of a `uint`: values at or above 2^31
      wrap to negative numbers. */
  function UInt32ToInt32(u: uint32): (r: int32)
    ensures 0 <= r ==> r == u
    ensures r < 0 ==> r == u - 0x1_0000_0000
  {
    if u < 0x8000_0000 then u else u - 0x1_0000_0000
  }

  /** The unchecked conversion `(uint)i` of an `int`. */
  function Int32ToUInt32(i: int32): (r: uint32)
    ensures UInt32ToInt32(r) == i
  {
    if i < 0 then i + 0x1_0000_0000 else i
  }

  /** A `DateTime` of kind UTC, by its components. The ranges are those a
      `DateTime` value always satisfies; calendar validity of the day within its
      month plays no role in any formatting here. */
  datatype DateTimeParts = DateTimeParts(
    year: int, month: int, day: int,
    hour: int, minute: int, second: int, millisecond: int)

  predicate ValidDateTime(t: DateTimeParts) {
    && 1 <= t.year <= 9999
    && 1 <= t.month <= 12
    && 1 <= t.day <= 31
    && 0 <= t.hour <= 23
    && 0 <= t.minute <= 59
    && 0 <= t.second <= 59
    && 0 <= t.millisecond <= 999
  }

  type DateTimeUtc = t: DateTimeParts | ValidDateTime(t)
    witness DateTimeParts(1, 1, 1, 0, 0, 0, 0)
}
