/** Byte-order conversion of 8/16/32/64-bit unsigned integers, and the
    host/big-endian/little-endian conversions of a little-endian host. */
module Endian {
  import opened Base

  /** An unsigned integral value of one of the four widths the conversions
      are specialised for; the variant plays the role of sizeof(T). */
  datatype Word = W8(v8: bv8) | W16(v16: bv16) | W32(v32: bv32) | W64(v64: bv64)

  /** sizeof(T) of the word's type. */
  function Size(w: Word): nat
  {
    match w
    case W8(_) => 1
    case W16(_) => 2
    case W32(_) => 4
    case W64(_) => 8
  }

  /** The bytes of a 16-bit value as a little-endian host stores them,
      lowest address first. */
  function Bytes16(x: bv16): seq<bv8>
  {
    [(x & 0xff) as bv8, (x >> 8) as bv8]
  }

  function Bytes32(x: bv32): seq<bv8>
  {
    [(x & 0xff) as bv8, ((x >> 8) & 0xff) as bv8, ((x >> 16) & 0xff) as bv8, (x >> 24) as bv8]
  }

  function Bytes64(x: bv64): seq<bv8>
  {
    [(x & 0xff) as bv8, ((x >> 8) & 0xff) as bv8, ((x >> 16) & 0xff) as bv8, ((x >> 24) & 0xff) as bv8,
     ((x >> 32) & 0xff) as bv8, ((x >> 40) & 0xff) as bv8, ((x >> 48) & 0xff) as bv8, (x >> 56) as bv8]
  }

  /** The in-memory representation of a word on a little-endian host. */
  function HostBytes(w: Word): (r: seq<bv8>)
    ensures |r| == Size(w)
  {
    match w
    case W8(x) => [x]
    case W16(x) => Bytes16(x)
    case W32(x) => Bytes32(x)
    case W64(x) => Bytes64(x)
  }

  /** The 8-bit "swap" leaves its argument as it is. */
  function Swap8(x: bv8): bv8
  {
    x
  }

  /** The 16-bit swap, written with the masks and shifts of the portable
      branch. */
  function Swap16(x: bv16): bv16
  {
    ((x & 0xff00) >> 8) | ((x & 0x00ff) << 8)
  }

  function Swap32(x: bv32): bv32
  {
    ((x & 0xff000000) >> 24) | ((x & 0x00ff0000) >> 8) |
    ((x & 0x0000ff00) << 8) | ((x & 0x000000ff) << 24)
  }

  /** The 64-bit swap is built from two 32-bit swaps: the swapped low half
      becomes the high half and the swapped high half the low half. */
  function Swap64(x: bv64): bv64
  {
    ((Swap32((x & 0xffffffff) as bv32) as bv64) << 32) | (Swap32((x >> 32) as bv32) as bv64)
  }

  /** What the compiler intrinsics do: the bytes trade places end for end. */
  lemma Swap16Reverses(x: bv16)
    ensures Bytes16(Swap16(x)) == Reverse(Bytes16(x))
  {
    var b := Bytes16(x);
    assert Reverse(b) == [b[1], b[0]];
  }

  lemma Swap32Reverses(x: bv32)
    ensures Bytes32(Swap32(x)) == Reverse(Bytes32(x))
  {
    var b := Bytes32(x);
    assert Reverse(b) == [b[3], b[2], b[1], b[0]];
  }

  /** The halves-exchanging construction reverses all eight bytes. */
  lemma Swap64Reverses(x: bv64)
    ensures Bytes64(Swap64(x)) == Reverse(Bytes64(x))
  {
    SwappedBytes(x);
    ReverseOfEight(Bytes64(x));
  }

  lemma SwappedBytes(x: bv64)
    ensures var b := Bytes64(x);
            Bytes64(Swap64(x)) == [b[7], b[6], b[5], b[4], b[3], b[2], b[1], b[0]]
  {
    Swap64Bytes(x);
  }

  lemma ReverseOfEight<T>(b: seq<T>)
    requires |b| == 8
    ensures Reverse(b) == [b[7], b[6], b[5], b[4], b[3], b[2], b[1], b[0]]
  {
  }

  /** Byte k of the swapped value is byte 7 - k of the original. */
  lemma Swap64Bytes(x: bv64)
    ensures (Swap64(x) & 0xff) as bv8 == (x >> 56) as bv8
    ensures ((Swap64(x) >> 8) & 0xff) as bv8 == ((x >> 48) & 0xff) as bv8
    ensures ((Swap64(x) >> 16) & 0xff) as bv8 == ((x >> 40) & 0xff) as bv8
    ensures ((Swap64(x) >> 24) & 0xff) as bv8 == ((x >> 32) & 0xff) as bv8
    ensures ((Swap64(x) >> 32) & 0xff) as bv8 == ((x >> 24) & 0xff) as bv8
    ensures ((Swap64(x) >> 40) & 0xff) as bv8 == ((x >> 16) & 0xff) as bv8
    ensures ((Swap64(x) >> 48) & 0xff) as bv8 == ((x >> 8) & 0xff) as bv8
    ensures (Swap64(x) >> 56) as bv8 == (x & 0xff) as bv8
  {
  }

  /** change_endian: dispatches on the width alone to the matching swap. */
  function ChangeEndian(w: Word): (r: Word)
    ensures Size(r) == Size(w)
  {
    match w
    case W8(x) => W8(Swap8(x))
    case W16(x) => W16(Swap16(x))
    case W32(x) => W32(Swap32(x))
    case W64(x) => W64(Swap64(x))
  }

  /** Changing the byte order reverses the bytes in memory, at every width. */
  lemma ChangeEndianReverses(w: Word)
    ensures HostBytes(ChangeEndian(w)) == Reverse(HostBytes(w))
  {
    match w
    case W8(x) =>
    case W16(x) => Swap16Reverses(x);
    case W32(x) => Swap32Reverses(x);
    case W64(x) => Swap64Reverses(x);
  }

  // The four conversions, as compiled on a little-endian host.

  function HostToBe(w: Word): Word
  {
    ChangeEndian(w)
  }

  function BeToHost(w: Word): Word
  {
    ChangeEndian(w)
  }

  function HostToLe(w: Word): Word
  {
    w
  }

  function LeToHost(w: Word): Word
  {
    w
  }

  /** A word is determined by its width and its bytes. */
  lemma HostBytesInjective(a: Word, b: Word)
    requires Size(a) == Size(b) && HostBytes(a) == HostBytes(b)
    ensures a == b
  {
    match a
    case W8(_) =>
    case W16(x) =>
      assert Bytes16(x) == Bytes16(b.v16);
    case W32(x) =>
      assert Bytes32(x) == Bytes32(b.v32);
    case W64(x) =>
      assert Bytes64(x) == Bytes64(b.v64);
  }

  lemma ReverseReverse<T>(s: seq<T>)
    ensures Reverse(Reverse(s)) == s
  {
  }

  lemma Swap8IsIdentity(x: bv8)
    ensures Swap8(x) == x
  {
  }

  lemma Swap16Involution(x: bv16)
    ensures Swap16(Swap16(x)) == x
  {
  }

  lemma Swap32Involution(x: bv32)
    ensures Swap32(Swap32(x)) == x
  {
  }

  /** The halves-exchanging construction is the full byte reversal, so
      applying it twice gives the value back. */
  lemma Swap64Involution(x: bv64)
    ensures Swap64(Swap64(x)) == x
  {
    Swap64Reverses(x);
    Swap64Reverses(Swap64(x));
    ReverseReverse(Bytes64(x));
    HostBytesInjective(W64(Swap64(Swap64(x))), W64(x));
  }

  /** Changing the byte order twice is the identity, at every width. */
  lemma {:induction false} ChangeEndianInvolution(w: Word)
    ensures ChangeEndian(ChangeEndian(w)) == w
  {
    ChangeEndianReverses(w);
    ChangeEndianReverses(ChangeEndian(w));
    ReverseReverse(HostBytes(w));
    HostBytesInjective(ChangeEndian(ChangeEndian(w)), w);
  }

  /** On a little-endian host, converting to big-endian and back (in either
      order) is the identity, and the little-endian conversions do nothing. */
  lemma HostBeRoundTrip(w: Word)
    ensures BeToHost(HostToBe(w)) == w
    ensures HostToBe(BeToHost(w)) == w
    ensures HostToLe(w) == w && LeToHost(w) == w
  {
    ChangeEndianInvolution(w);
  }
}
