/** InputMemoryStream: a bounds-checked read cursor over a byte buffer.
    Every read either fails (the C++ code throws ParseException; here the
    result is None) or consumes exactly the bytes it returns. */
module Memory {
  import opened Base
  import opened Endian

  /** The integral types a read<T> is instantiated with. */
  datatype Width = U8 | U16 | U32 | U64

  /** sizeof(T) */
  function ByteCount(width: Width): nat
  {
    match width
    case U8 => 1
    case U16 => 2
    case U32 => 4
    case U64 => 8
  }

  /** read_value: memcpy of sizeof(T) bytes into a T on a little-endian
      host. */
  function Load(width: Width, b: Bytes): (w: Word)
    requires |b| == ByteCount(width)
    ensures Size(w) == |b|
    ensures width == U16 ==> w.W16?
    ensures width == U32 ==> w.W32?
    ensures width == U64 ==> w.W64?
  {
    match width
    case U8 => W8(b[0])
    case U16 => W16((b[1] as bv16 << 8) | b[0] as bv16)
    case U32 => W32((b[3] as bv32 << 24) | (b[2] as bv32 << 16) | (b[1] as bv32 << 8) | b[0] as bv32)
    case U64 => W64((b[7] as bv64 << 56) | (b[6] as bv64 << 48) | (b[5] as bv64 << 40) | (b[4] as bv64 << 32) |
                    (b[3] as bv64 << 24) | (b[2] as bv64 << 16) | (b[1] as bv64 << 8) | b[0] as bv64)
  }

  /** The loaded word is the one whose in-memory bytes are exactly b. */
  lemma LoadBytes(width: Width, b: Bytes)
    requires |b| == ByteCount(width)
    ensures HostBytes(Load(width, b)) == b
  {
    var w := Load(width, b);
    match width
    case U8 =>
    case U16 => assert HostBytes(w) == [b[0], b[1]];
    case U32 => assert HostBytes(w) == [b[0], b[1], b[2], b[3]];
    case U64 => assert HostBytes(w) == [b[0], b[1], b[2], b[3], b[4], b[5], b[6], b[7]];
  }

  /** be_to_host(read<T>()) applied to the bytes b. */
  function BeWord(width: Width, b: Bytes): (w: Word)
    requires |b| == ByteCount(width)
    ensures Size(w) == |b|
    ensures width == U16 ==> w.W16?
    ensures width == U32 ==> w.W32?
    ensures width == U64 ==> w.W64?
  {
    BeToHost(Load(width, b))
  }

  /** The word read big-endian is the one whose big-endian representation
      is b (most significant byte first). */
  lemma BeWordBytes(width: Width, b: Bytes)
    requires |b| == ByteCount(width)
    ensures HostBytes(BeWord(width, b)) == Reverse(b)
  {
    LoadBytes(width, b);
    ChangeEndianReverses(Load(width, b));
  }

  /** The big-endian bytes of a word: host_to_be, then its bytes in memory. */
  function BeBytes(w: Word): (b: Bytes)
    ensures |b| == Size(w)
  {
    HostBytes(HostToBe(w))
  }

  function WidthOf(w: Word): (width: Width)
    ensures ByteCount(width) == Size(w)
  {
    match w
    case W8(_) => U8
    case W16(_) => U16
    case W32(_) => U32
    case W64(_) => U64
  }

  /** Writing a word big-endian and reading it back gives the word, and
      reading bytes and writing the word back gives the bytes. */
  lemma {:induction false} BeRoundTrip(w: Word, b: Bytes)
    ensures BeWord(WidthOf(w), BeBytes(w)) == w
    ensures |b| == 2 ==> BeBytes(BeWord(U16, b)) == b
    ensures |b| == 4 ==> BeBytes(BeWord(U32, b)) == b
    ensures |b| == 8 ==> BeBytes(BeWord(U64, b)) == b
  {
    ChangeEndianReverses(w);
    BeWordBytes(WidthOf(w), BeBytes(w));
    ReverseReverse(HostBytes(w));
    HostBytesInjective(BeWord(WidthOf(w), BeBytes(w)), w);
    if |b| == 2 || |b| == 4 || |b| == 8 {
      var width := if |b| == 2 then U16 else if |b| == 4 then U32 else U64;
      BeWordBytes(width, b);
      ChangeEndianReverses(BeWord(width, b));
      ReverseReverse(b);
    }
  }

  function Be16(b: Bytes): bv16
    requires |b| == 2
  {
    BeWord(U16, b).v16
  }

  function Be32(b: Bytes): bv32
    requires |b| == 4
  {
    BeWord(U32, b).v32
  }

  function Be64(b: Bytes): bv64
    requires |b| == 8
  {
    BeWord(U64, b).v64
  }

  /** The length prefix of a string: the first two bytes, big-endian. */
  function StringLength(s: Bytes): nat
    requires |s| >= 2
  {
    Be16(s[..2]) as int
  }

  /** read(std::string&) on the bytes s: the string's body and what follows
      it, when the whole body is there. */
  function ParseString(s: Bytes): Option<(Bytes, Bytes)>
  {
    if |s| < 2 || |s| - 2 < StringLength(s) then None
    else Some((s[2..2 + StringLength(s)], s[2 + StringLength(s)..]))
  }

  lemma TakeOfDrop(s: Bytes, from: nat, n: nat)
    requires from + n <= |s|
    ensures s[from..][..n] == s[from..from + n]
  {
  }

  class InputMemoryStream {
    /** The whole buffer the stream was built over. */
    const buffer: Bytes
    /** How far the read pointer (buffer_) has advanced. */
    var position: nat
    /** Bytes left to read (size_). */
    var size: nat

    /** Bytes consumed plus bytes remaining is always the buffer's size. */
    ghost predicate Valid()
      reads this
    {
      position + size == |buffer|
    }

    /** The bytes not read yet. */
    ghost function Unread(): Bytes
      reads this
      requires Valid()
    {
      buffer[position..]
    }

    constructor (data: Bytes)
      ensures Valid() && buffer == data && position == 0 && size == |data|
      ensures Unread() == data
    {
      buffer := data;
      position := 0;
      size := |data|;
    }

    function CanRead(byteCount: nat): (r: bool)
      reads this
      requires Valid()
      ensures r <==> byteCount <= |Unread()|
    {
      size >= byteCount
    }

    /** operator bool */
    function IsNonEmpty(): (r: bool)
      reads this
      requires Valid()
      ensures r <==> Unread() != []
    {
      size > 0
    }

    /** Fails when n exceeds what is left; otherwise moves the read pointer
        n bytes forward. */
    method Skip(n: nat) returns (ok: bool)
      requires Valid()
      modifies this
      ensures Valid()
      ensures ok <==> n <= old(size)
      ensures ok ==> position == old(position) + n && Unread() == old(Unread())[n..]
      ensures !ok ==> position == old(position) && size == old(size)
    {
      if n > size {
        return false;
      }
      position := position + n;
      size := size - n;
      return true;
    }

    /** read(void*, size_t): copies out the next n bytes. */
    method ReadBytes(n: nat) returns (r: Option<Bytes>)
      requires Valid()
      modifies this
      ensures Valid()
      ensures r.None? <==> |old(Unread())| < n
      ensures r.None? ==> position == old(position)
      ensures r.Some? ==> r.value == old(Unread())[..n] && position == old(position) + n
    {
      if !CanRead(n) {
        return None;
      }
      var bytes := buffer[position..position + n];
      var _ := Skip(n);
      return Some(bytes);
    }

    /** read<T>: the next sizeof(T) bytes as a T in host byte order; nothing
        is consumed when fewer bytes remain. */
    method Read(width: Width) returns (r: Option<Word>)
      requires Valid()
      modifies this
      ensures Valid()
      ensures r.None? <==> |old(Unread())| < ByteCount(width)
      ensures r.None? ==> position == old(position)
      ensures r.Some? ==> |old(Unread())| >= ByteCount(width) &&
                          r.value == Load(width, old(Unread())[..ByteCount(width)]) &&
                          position == old(position) + ByteCount(width)
    {
      var n := ByteCount(width);
      if !CanRead(n) {
        return None;
      }
      assert buffer[position..position + n] == Unread()[..n];
      var w := Load(width, buffer[position..position + n]);
      var _ := Skip(n);
      return Some(w);
    }

    /** read_be<T>: the next sizeof(T) bytes read as a big-endian T. */
    method ReadBe(width: Width) returns (r: Option<Word>)
      requires Valid()
      modifies this
      ensures Valid()
      ensures r.None? <==> |old(Unread())| < ByteCount(width)
      ensures r.None? ==> position == old(position)
      ensures r.Some? ==> |old(Unread())| >= ByteCount(width) &&
                          r.value == BeWord(width, old(Unread())[..ByteCount(width)]) &&
                          position == old(position) + ByteCount(width)
    {
      var w := Read(width);
      if w.None? {
        return None;
      }
      return Some(BeToHost(w.value));
    }

    /** read_le<T>: the next sizeof(T) bytes read as a little-endian T. */
    method ReadLe(width: Width) returns (r: Option<Word>)
      requires Valid()
      modifies this
      ensures Valid()
      ensures r.None? <==> |old(Unread())| < ByteCount(width)
      ensures r.None? ==> position == old(position)
      ensures r.Some? ==> |old(Unread())| >= ByteCount(width) &&
                          HostBytes(r.value) == old(Unread())[..ByteCount(width)] &&
                          position == old(position) + ByteCount(width)
    {
      var w := Read(width);
      if w.None? {
        return None;
      }
      LoadBytes(width, old(Unread())[..ByteCount(width)]);
      return Some(LeToHost(w.value));
    }

    /** The length prefix of a string: a big-endian 16-bit number. */
    method ReadLength() returns (r: Option<nat>)
      requires Valid()
      modifies this
      ensures Valid()
      ensures r.None? <==> |old(Unread())| < 2
      ensures r.None? ==> position == old(position)
      ensures r.Some? ==> r.value == StringLength(old(Unread())) && position == old(position) + 2 &&
                          Unread() == old(Unread())[2..]
    {
      ghost var start := Unread();
      var length := ReadBe(U16);
      if length.None? {
        return None;
      }
      assert length.value == BeWord(U16, start[..2]);
      return Some(length.value.v16 as int);
    }

    /** read(std::string&): a big-endian 16-bit length L, then L bytes. When
        fewer than L bytes follow the length, the read fails with the two
        length bytes already consumed. */
    method ReadString() returns (r: Option<Bytes>)
      requires Valid()
      modifies this
      ensures Valid()
      ensures r.None? <==> ParseString(old(Unread())).None?
      ensures r.None? ==> position == old(position) + if |old(Unread())| < 2 then 0 else 2
      ensures r.Some? ==> r.value == ParseString(old(Unread())).value.0 &&
                          Unread() == ParseString(old(Unread())).value.1
    {
      ghost var start := Unread();
      var length := ReadLength();
      if length.None? {
        return None;
      }
      var len := length.value;
      if !CanRead(len) {
        return None;
      }
      var bytes := buffer[position..position + len];
      TakeOfDrop(buffer, position, len);
      TakeOfDrop(start, 2, len);
      var _ := Skip(len);
      return Some(bytes);
    }
  }
}
