/**
 * Extension methods over byte[] (CXLight/Exts/ByteArrayExt.cs). A byte is a
 * `bv8`; the 32-bit patterns that ToInt32 and ToUint assemble with shifts
 * and ors are `bv32`.
 */
module ByteArrayExt {

  /** GetPosition: the first index whose byte the predicate accepts, or -1. */
  method GetPosition(readBuffer: seq<bv8>, pred: bv8 -> bool) returns (r: int)
    ensures -1 <= r < |readBuffer|
    ensures r >= 0 ==> pred(readBuffer[r])
    ensures forall j :: 0 <= j < |readBuffer| && (r < 0 || j < r) ==> !pred(readBuffer[j])
  {
    var i := 0;
    while i < |readBuffer|
      invariant 0 <= i <= |readBuffer|
      invariant forall j :: 0 <= j < i ==> !pred(readBuffer[j])
    {
      if pred(readBuffer[i]) {
        return i;
      }
      i := i + 1;
    }
    return -1;
  }

  /** ToBool: a byte reads as true exactly when it is not zero. */
  function ToBool(source: seq<bv8>, at: int): (r: bool)
    requires 0 <= at < |source|
    ensures r <==> source[at] != 0
  {
    source[at] != 0
  }

  /** The numeric value of a 32-bit pattern, read byte by byte (most significant first). */
  function Unsigned(w: bv32): (n: nat)
    ensures n < 0x1_0000_0000
  {
    ((w >> 24) as bv8) as int * 0x100_0000
      + (((w >> 16) & 0xFF) as bv8) as int * 0x1_0000
      + (((w >> 8) & 0xFF) as bv8) as int * 0x100
      + ((w & 0xFF) as bv8) as int
  }

  /**
   * The same pattern read as a two's-complement signed 32-bit integer: the
   * patterns from 2^31 up (sign bit set) stand for value - 2^32.
   */
  function Signed(w: bv32): (n: int)
    ensures -0x8000_0000 <= n < 0x8000_0000
    ensures n < 0 <==> Unsigned(w) >= 0x8000_0000
    ensures (n - Unsigned(w)) % 0x1_0000_0000 == 0
  {
    if Unsigned(w) < 0x8000_0000 then Unsigned(w) else Unsigned(w) - 0x1_0000_0000
  }

  /** b0 b1 b2 b3 placed from the most significant byte down. */
  function BigEndianBits(b0: bv8, b1: bv8, b2: bv8, b3: bv8): bv32
  {
    ((b0 as bv32) << 24) | ((b1 as bv32) << 16) | ((b2 as bv32) << 8) | (b3 as bv32)
  }

  /** b0 b1 b2 b3 placed from the least significant byte up. */
  function LittleEndianBits(b0: bv8, b1: bv8, b2: bv8, b3: bv8): bv32
  {
    ((b0 as bv32) << 0) | ((b1 as bv32) << 8) | ((b2 as bv32) << 16) | ((b3 as bv32) << 24)
  }

  /** Each byte can be read back from its place in the pattern. */
  lemma BigEndianBytes(b0: bv8, b1: bv8, b2: bv8, b3: bv8)
    ensures (BigEndianBits(b0, b1, b2, b3) >> 24) as bv8 == b0
    ensures ((BigEndianBits(b0, b1, b2, b3) >> 16) & 0xFF) as bv8 == b1
    ensures ((BigEndianBits(b0, b1, b2, b3) >> 8) & 0xFF) as bv8 == b2
    ensures (BigEndianBits(b0, b1, b2, b3) & 0xFF) as bv8 == b3
  {
  }

  lemma BigEndianValue(b0: bv8, b1: bv8, b2: bv8, b3: bv8)
    ensures Unsigned(BigEndianBits(b0, b1, b2, b3))
      == b0 as int * 0x100_0000 + b1 as int * 0x1_0000 + b2 as int * 0x100 + b3 as int
  {
    BigEndianBytes(b0, b1, b2, b3);
  }

  /** The four bytes in opposite orders build the same pattern. */
  lemma ByteOrdersMirror(b0: bv8, b1: bv8, b2: bv8, b3: bv8)
    ensures LittleEndianBits(b0, b1, b2, b3) == BigEndianBits(b3, b2, b1, b0)
  {
  }

  /**
   * ToInt32: bytes start .. start + 3 big-endian, as a signed 32-bit value;
   * negative exactly when the first byte has its top bit set. Fewer than
   * four bytes from `start` make the read index out of range.
   */
  function ToInt32(source: seq<bv8>, start: int): (r: int)
    requires 0 <= start && start + 3 < |source|
    ensures -0x8000_0000 <= r < 0x8000_0000
    ensures r == source[start] as int * 0x100_0000 + source[start + 1] as int * 0x1_0000
               + source[start + 2] as int * 0x100 + source[start + 3] as int
               - (if source[start] >= 0x80 then 0x1_0000_0000 else 0)
    ensures r < 0 <==> source[start] >= 0x80
  {
    BigEndianValue(source[start], source[start + 1], source[start + 2], source[start + 3]);
    Signed(BigEndianBits(source[start], source[start + 1], source[start + 2], source[start + 3]))
  }

  /**
   * ToUint: bytes position .. position + 3 little-endian, as an unsigned
   * 32-bit value. Fewer than four bytes make the read index out of range.
   */
  function ToUint(bytesAsUint: seq<bv8>, position: int): (r: nat)
    requires 0 <= position && position + 3 < |bytesAsUint|
    ensures r < 0x1_0000_0000
    ensures r == bytesAsUint[position] as int + bytesAsUint[position + 1] as int * 0x100
               + bytesAsUint[position + 2] as int * 0x1_0000 + bytesAsUint[position + 3] as int * 0x100_0000
  {
    var b0, b1, b2, b3 := bytesAsUint[position], bytesAsUint[position + 1], bytesAsUint[position + 2], bytesAsUint[position + 3];
    ByteOrdersMirror(b0, b1, b2, b3);
    BigEndianValue(b3, b2, b1, b0);
    Unsigned(LittleEndianBits(b0, b1, b2, b3))
  }

  /**
   * ToInt32 and ToUint read opposite byte orders: on the same four bytes
   * reversed they give the same 32-bit pattern, i.e. equal values modulo 2^32.
   */
  lemma {:induction false} ReversedReadsAgree(source: seq<bv8>, start: int, mirrored: seq<bv8>)
    requires 0 <= start && start + 3 < |source|
    requires |mirrored| == 4 && forall i :: 0 <= i < 4 ==> mirrored[i] == source[start + 3 - i]
    ensures ToUint(mirrored, 0) == ToInt32(source, start) + (if ToInt32(source, start) < 0 then 0x1_0000_0000 else 0)
  {
    assert mirrored[0] == source[start + 3] && mirrored[1] == source[start + 2];
    assert mirrored[2] == source[start + 1] && mirrored[3] == source[start];
  }

  /** Four bytes read as the unsigned value 0 exactly when none of them reads as true. */
  lemma {:induction false} ZeroWordIffNoTrueByte(source: seq<bv8>, position: int)
    requires 0 <= position && position + 3 < |source|
    ensures ToUint(source, position) == 0 <==> forall j :: position <= j < position + 4 ==> !ToBool(source, j)
  {
    if forall j :: position <= j < position + 4 ==> !ToBool(source, j) {
      assert !ToBool(source, position) && !ToBool(source, position + 1);
      assert !ToBool(source, position + 2) && !ToBool(source, position + 3);
    }
  }
}
