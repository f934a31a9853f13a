/** Fixed-width integers and their big-endian two's-complement byte layout: what
    `BinaryPrimitives.Write*BigEndian` / `Read*BigEndian` do for the NBT builder and reader,
    and the explicit one-byte conversions of NbtBuilder.WriteByte and NbtReader.ReadByte. */
module Binary {

  /** An unsigned 8-bit byte, as stored in `byte[]` and `List<byte>`. */
  type byte = b: int | 0 <= b < 0x100

  /** The C# integer types `sbyte`, `short`, `ushort`, `int`, `long`. */
  type i8 = v: int | -0x80 <= v < 0x80
  type i16 = v: int | -0x8000 <= v < 0x8000
  type u16 = v: int | 0 <= v < 0x1_0000
  type i32 = v: int | -0x8000_0000 <= v < 0x8000_0000
  type i64 = v: int | -0x8000_0000_0000_0000 <= v < 0x8000_0000_0000_0000

  function Pow256(w: nat): (r: int)
    ensures r >= 1
  {
    if w == 0 then 1 else 256 * Pow256(w - 1)
  }

  lemma Pow256Values()
    ensures Pow256(1) == 0x100 && Pow256(2) == 0x1_0000
    ensures Pow256(4) == 0x1_0000_0000 && Pow256(8) == 0x1_0000_0000_0000_0000
  {
  }

  /** The `w` big-endian bytes of an unsigned value below 256^w, most significant first. */
  function UnsignedBE(n: nat, w: nat): (r: seq<byte>)
    requires n < Pow256(w)
    ensures |r| == w
  {
    if w == 0 then [] else UnsignedBE(n / 256, w - 1) + [n % 256]
  }

  /** The unsigned value of a big-endian byte sequence. */
  function FromUnsignedBE(s: seq<byte>): (r: nat)
    ensures r < Pow256(|s|)
  {
    if s == [] then 0
    else
      var high := FromUnsignedBE(s[..|s| - 1]);
      assert high * 256 + s[|s| - 1] < 256 * Pow256(|s| - 1) by {
        assert high <= Pow256(|s| - 1) - 1;
        assert high * 256 <= (Pow256(|s| - 1) - 1) * 256;
      }
      high * 256 + s[|s| - 1]
  }

  lemma {:induction false} FromUnsignedBEOfUnsignedBE(n: nat, w: nat)
    requires n < Pow256(w)
    ensures FromUnsignedBE(UnsignedBE(n, w)) == n
  {
    if w > 0 {
      var s := UnsignedBE(n, w);
      assert s[..|s| - 1] == UnsignedBE(n / 256, w - 1);
      FromUnsignedBEOfUnsignedBE(n / 256, w - 1);
    }
  }

  lemma {:induction false} UnsignedBEOfFromUnsignedBE(s: seq<byte>)
    ensures UnsignedBE(FromUnsignedBE(s), |s|) == s
  {
    if s != [] {
      var init := s[..|s| - 1];
      var n := FromUnsignedBE(s);
      assert n / 256 == FromUnsignedBE(init) && n % 256 == s[|s| - 1];
      UnsignedBEOfFromUnsignedBE(init);
      assert s == init + [s[|s| - 1]];
    }
  }

  /** The two's-complement bit pattern of a signed `w`-byte value. */
  function ToUnsigned(v: int, w: nat): (u: nat)
    requires w > 0 && -Pow256(w) / 2 <= v < Pow256(w) / 2
    ensures u < Pow256(w)
  {
    if v < 0 then v + Pow256(w) else v
  }

  /** The signed value of a `w`-byte two's-complement bit pattern. */
  function ToSigned(u: nat, w: nat): (v: int)
    requires w > 0 && u < Pow256(w)
    ensures -Pow256(w) / 2 <= v < Pow256(w) / 2
    ensures ToUnsigned(v, w) == u
  {
    if u >= Pow256(w) / 2 then u - Pow256(w) else u
  }

  lemma SignedOfUnsigned(v: int, w: nat)
    requires w > 0 && -Pow256(w) / 2 <= v < Pow256(w) / 2
    ensures ToSigned(ToUnsigned(v, w), w) == v
  {
  }

  /** BinaryPrimitives.WriteUInt16BigEndian. */
  function WriteUInt16BE(n: u16): (r: seq<byte>)
    ensures r == [n / 0x100, n % 0x100]
  {
    Pow256Values();
    assert UnsignedBE(n / 256, 1) == UnsignedBE(n / 256 / 256, 0) + [n / 256 % 256];
    UnsignedBE(n, 2)
  }

  /** BinaryPrimitives.WriteInt16BigEndian. */
  function WriteInt16BE(v: i16): (r: seq<byte>)
    ensures |r| == 2
  {
    Pow256Values();
    UnsignedBE(ToUnsigned(v, 2), 2)
  }

  /** BinaryPrimitives.WriteInt32BigEndian. */
  function WriteInt32BE(v: i32): (r: seq<byte>)
    ensures |r| == 4
  {
    Pow256Values();
    UnsignedBE(ToUnsigned(v, 4), 4)
  }

  /** BinaryPrimitives.WriteInt64BigEndian. */
  function WriteInt64BE(v: i64): (r: seq<byte>)
    ensures |r| == 8
  {
    Pow256Values();
    UnsignedBE(ToUnsigned(v, 8), 8)
  }

  /** BinaryPrimitives.WriteSingleBigEndian on the bit pattern of a float. */
  function WriteSingleBE(bits: bv32): (r: seq<byte>)
    ensures |r| == 4
  {
    Pow256Values();
    UnsignedBE(bits as int, 4)
  }

  /** BinaryPrimitives.WriteDoubleBigEndian on the bit pattern of a double. */
  function WriteDoubleBE(bits: bv64): (r: seq<byte>)
    ensures |r| == 8
  {
    Pow256Values();
    UnsignedBE(bits as int, 8)
  }

  /** The signed value of `|s|` big-endian bytes: ReadInt16/32/64BigEndian for `|s|` = 2, 4, 8. */
  function ReadSignedBE(s: seq<byte>): (v: int)
    requires |s| > 0
    ensures -Pow256(|s|) / 2 <= v < Pow256(|s|) / 2
  {
    ToSigned(FromUnsignedBE(s), |s|)
  }

  /** BinaryPrimitives.ReadSingleBigEndian, as a bit pattern. */
  function ReadSingleBE(s: seq<byte>): bv32
    requires |s| == 4
  {
    Pow256Values();
    FromUnsignedBE(s) as bv32
  }

  /** BinaryPrimitives.ReadDoubleBigEndian, as a bit pattern. */
  function ReadDoubleBE(s: seq<byte>): bv64
    requires |s| == 8
  {
    Pow256Values();
    FromUnsignedBE(s) as bv64
  }

  /** NbtBuilder.WriteByte: `(byte)(value < 0 ? 256 + value : value)`. */
  function SByteToByte(v: i8): (b: byte)
    ensures v >= 0 ==> b == v
    ensures v < 0 ==> b == v + 0x100
  {
    if v < 0 then 256 + v else v
  }

  /** NbtReader.ReadByte: a byte of 128 or more is `b - 256`, any other is itself. */
  function ByteToSByte(b: byte): (v: i8)
    ensures SByteToByte(v) == b
  {
    if b >= 128 then b - 256 else b
  }

  lemma SByteRoundTrip(v: i8)
    ensures ByteToSByte(SByteToByte(v)) == v
  {
  }

  /** Reading a width back through ReadSignedBE recovers any value written in that width. */
  lemma {:induction false} SignedRoundTrip(v: int, w: nat)
    requires w > 0 && -Pow256(w) / 2 <= v < Pow256(w) / 2
    ensures ReadSignedBE(UnsignedBE(ToUnsigned(v, w), w)) == v
  {
    FromUnsignedBEOfUnsignedBE(ToUnsigned(v, w), w);
  }

  lemma WriteInt16RoundTrip(v: i16)
    ensures ReadSignedBE(WriteInt16BE(v)) == v
  {
    Pow256Values();
    SignedRoundTrip(v, 2);
  }

  lemma WriteInt32RoundTrip(v: i32)
    ensures ReadSignedBE(WriteInt32BE(v)) == v
  {
    Pow256Values();
    SignedRoundTrip(v, 4);
  }

  lemma WriteInt64RoundTrip(v: i64)
    ensures ReadSignedBE(WriteInt64BE(v)) == v
  {
    Pow256Values();
    SignedRoundTrip(v, 8);
  }

  lemma WriteUInt16RoundTrip(n: u16)
    ensures FromUnsignedBE(WriteUInt16BE(n)) == n
  {
    Pow256Values();
    FromUnsignedBEOfUnsignedBE(n, 2);
  }

  lemma WriteSingleRoundTrip(bits: bv32)
    ensures ReadSingleBE(WriteSingleBE(bits)) == bits
  {
    Pow256Values();
    FromUnsignedBEOfUnsignedBE(bits as int, 4);
  }

  lemma WriteDoubleRoundTrip(bits: bv64)
    ensures ReadDoubleBE(WriteDoubleBE(bits)) == bits
  {
    Pow256Values();
    FromUnsignedBEOfUnsignedBE(bits as int, 8);
  }
}
