/** Shared vocabulary: optional values, byte strings, and the fixed-width
    integer conversions the C++ code performs implicitly (unsigned to signed
    casts, uint64_t values kept in int64_t map slots). */
module Base {

  datatype Option<+T> = None | Some(value: T)

  /** A std::string holds raw bytes; group ids and topic names are byte strings. */
  type Bytes = seq<bv8>

  type uint32 = x: int | 0 <= x < 0x1_0000_0000
  type uint64 = x: int | 0 <= x < 0x1_0000_0000_0000_0000
  type int32 = x: int | -0x8000_0000 <= x < 0x8000_0000
  type int64 = x: int | -0x8000_0000_0000_0000 <= x < 0x8000_0000_0000_0000

  /** static_cast<int> of an unsigned 32-bit value (two's complement wrap). */
  function ToInt32(u: uint32): (r: int32)
    ensures r % 0x1_0000_0000 == u
    ensures u < 0x8000_0000 <==> r >= 0
  {
    if u < 0x8000_0000 then u else u - 0x1_0000_0000
  }

  /** An int passed where an unsigned is expected. */
  function FromInt32(x: int32): (u: uint32)
    ensures u % 0x1_0000_0000 == x % 0x1_0000_0000
  {
    if x < 0 then x + 0x1_0000_0000 else x
  }

  /** A uint64_t stored into an int64_t slot (two's complement wrap). */
  function ToInt64(u: uint64): (r: int64)
    ensures r % 0x1_0000_0000_0000_0000 == u
    ensures u < 0x8000_0000_0000_0000 <==> r >= 0
  {
    if u < 0x8000_0000_0000_0000 then u else u - 0x1_0000_0000_0000_0000
  }

  /** An int64_t passed where a uint64_t is expected. */
  function ToUint64(x: int64): (u: uint64)
    ensures u % 0x1_0000_0000_0000_0000 == x % 0x1_0000_0000_0000_0000
  {
    if x < 0 then x + 0x1_0000_0000_0000_0000 else x
  }

  /** Unsigned to signed and back, and signed to unsigned and back, lose nothing. */
  lemma Int32RoundTrip(u: uint32, x: int32)
    ensures FromInt32(ToInt32(u)) == u
    ensures ToInt32(FromInt32(x)) == x
  {
  }

  lemma Int64RoundTrip(u: uint64, x: int64)
    ensures ToUint64(ToInt64(u)) == u
    ensures ToInt64(ToUint64(x)) == x
  {
  }

  function Reverse<T>(s: seq<T>): (r: seq<T>)
    ensures |r| == |s|
    ensures forall i :: 0 <= i < |s| ==> r[i] == s[|s| - 1 - i]
  {
    if s == [] then [] else Reverse(s[1..]) + [s[0]]
  }
}
