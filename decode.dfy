/** What NbtReader reads from a byte array (NBT/NbtReader.cs), as functions of the data and
    a position: each returns the value read and the position after it, or the exception. */
module Decoding {
  import opened Binary
  import opened Results
  import opened NbtTagPrefix
  import opened Tags

  /** A value read and the position just after it. */
  datatype Parsed<+T> = Parsed(value: T, next: nat)

  /** Read(): one byte; reading past the end throws. */
  function ParseU8(data: seq<byte>, pos: nat): (r: Result<Parsed<byte>>)
    ensures r.Ok? <==> pos < |data|
    ensures r.Ok? ==> r.value == Parsed(data[pos], pos + 1)
    ensures r.Err? ==> r.error == EndOfData
  {
    if pos < |data| then Ok(Parsed(data[pos], pos + 1)) else Err(EndOfData)
  }

  /** The span of `n` bytes at `pos`; a span past the end throws. */
  function ParseBytes(data: seq<byte>, pos: nat, n: nat): (r: Result<Parsed<seq<byte>>>)
    ensures r.Ok? <==> pos + n <= |data|
    ensures r.Ok? ==> r.value == Parsed(data[pos..pos + n], pos + n)
    ensures r.Err? ==> r.error == EndOfData
  {
    if pos + n <= |data| then Ok(Parsed(data[pos..pos + n], pos + n)) else Err(EndOfData)
  }

  /** ReadByte: a byte of 128 or more stands for `b - 256`. */
  function ParseSByte(data: seq<byte>, pos: nat): (r: Result<Parsed<i8>>)
    ensures r.Ok? <==> pos < |data|
    ensures r.Ok? ==> SByteToByte(r.value.value) == data[pos] && r.value.next == pos + 1
  {
    var b :- ParseU8(data, pos);
    Ok(Parsed(ByteToSByte(b.value), b.next))
  }

  function ParseShort(data: seq<byte>, pos: nat): (r: Result<Parsed<i16>>)
    ensures r.Ok? <==> pos + 2 <= |data|
    ensures r.Ok? ==> r.value.next == pos + 2
  {
    var s :- ParseBytes(data, pos, 2);
    Pow256Values();
    Ok(Parsed(ReadSignedBE(s.value), s.next))
  }

  function ParseInteger(data: seq<byte>, pos: nat): (r: Result<Parsed<i32>>)
    ensures r.Ok? <==> pos + 4 <= |data|
    ensures r.Ok? ==> r.value.next == pos + 4
  {
    var s :- ParseBytes(data, pos, 4);
    Pow256Values();
    Ok(Parsed(ReadSignedBE(s.value), s.next))
  }

  function ParseLong(data: seq<byte>, pos: nat): (r: Result<Parsed<i64>>)
    ensures r.Ok? <==> pos + 8 <= |data|
    ensures r.Ok? ==> r.value.next == pos + 8
  {
    var s :- ParseBytes(data, pos, 8);
    Pow256Values();
    Ok(Parsed(ReadSignedBE(s.value), s.next))
  }

  function ParseFloat(data: seq<byte>, pos: nat): (r: Result<Parsed<bv32>>)
    ensures r.Ok? <==> pos + 4 <= |data|
    ensures r.Ok? ==> r.value.next == pos + 4
  {
    var s :- ParseBytes(data, pos, 4);
    Ok(Parsed(ReadSingleBE(s.value), s.next))
  }

  function ParseDouble(data: seq<byte>, pos: nat): (r: Result<Parsed<bv64>>)
    ensures r.Ok? <==> pos + 8 <= |data|
    ensures r.Ok? ==> r.value.next == pos + 8
  {
    var s :- ParseBytes(data, pos, 8);
    Ok(Parsed(ReadDoubleBE(s.value), s.next))
  }

  /** ReadString: a big-endian u16 length, then that many bytes; a zero length reads nothing more. */
  function ParseString(data: seq<byte>, pos: nat): (r: Result<Parsed<Text>>)
    ensures r.Ok? ==> pos + 2 <= r.value.next <= |data| && |r.value.value| <= 0xFFFF
    ensures r.Ok? ==> r.value.next == pos + 2 + |r.value.value| && data[pos + 2..r.value.next] == r.value.value
    ensures r.Ok? ==> |r.value.value| == FromUnsignedBE(data[pos..pos + 2])
    ensures pos + 2 <= |data| ==> (r.Ok? <==> pos + 2 + FromUnsignedBE(data[pos..pos + 2]) <= |data|)
    ensures r.Err? ==> r.error == EndOfData
  {
    var len :- ParseBytes(data, pos, 2);
    var n := FromUnsignedBE(len.value);
    Pow256Values();
    if n == 0 then Ok(Parsed([], len.next))
    else
      var text :- ParseBytes(data, len.next, n);
      Ok(Parsed(text.value, text.next))
  }

  /** The values of an array payload after its count, read one by one. */
  function ParseSBytes(data: seq<byte>, pos: nat, n: nat): (r: Result<Parsed<seq<i8>>>)
    requires pos <= |data|
    ensures r.Ok? ==> |r.value.value| == n && r.value.next == pos + n <= |data|
    decreases n
  {
    if n == 0 then Ok(Parsed([], pos))
    else
      var first :- ParseSByte(data, pos);
      var rest :- ParseSBytes(data, first.next, n - 1);
      Ok(Parsed([first.value] + rest.value, rest.next))
  }

  function ParseInts(data: seq<byte>, pos: nat, n: nat): (r: Result<Parsed<seq<i32>>>)
    requires pos <= |data|
    ensures r.Ok? ==> |r.value.value| == n && r.value.next == pos + 4 * n <= |data|
    decreases n
  {
    if n == 0 then Ok(Parsed([], pos))
    else
      var first :- ParseInteger(data, pos);
      var rest :- ParseInts(data, first.next, n - 1);
      Ok(Parsed([first.value] + rest.value, rest.next))
  }

  function ParseLongs(data: seq<byte>, pos: nat, n: nat): (r: Result<Parsed<seq<i64>>>)
    requires pos <= |data|
    ensures r.Ok? ==> |r.value.value| == n && r.value.next == pos + 8 * n <= |data|
    decreases n
  {
    if n == 0 then Ok(Parsed([], pos))
    else
      var first :- ParseLong(data, pos);
      var rest :- ParseLongs(data, first.next, n - 1);
      Ok(Parsed([first.value] + rest.value, rest.next))
  }

  /** ReadArray: an i32 count, then the values; a negative count cannot be allocated. */
  function ParseCount(data: seq<byte>, pos: nat): (r: Result<Parsed<nat>>)
    ensures r.Ok? ==> r.value.next == pos + 4 <= |data| && r.value.value < 0x8000_0000
  {
    var count :- ParseInteger(data, pos);
    if count.value < 0 then Err(NegativeLength(count.value)) else Ok(Parsed(count.value, count.next))
  }

  /** ReadArray for the three element types: an unnamed array tag. */
  function ParseArray(data: seq<byte>, pos: nat, p: Prefix): (r: Result<Parsed<Tag>>)
    requires p == Bytes || p == Integers || p == Longs
    ensures r.Ok? ==> pos + 4 <= r.value.next <= |data| && GetPrefix(r.value.value) == p
    ensures r.Ok? ==> r.value.value.name == None
  {
    var count :- ParseCount(data, pos);
    if p == Bytes then
      var vals :- ParseSBytes(data, count.next, count.value);
      Ok(Parsed(ByteArrayTag(None, vals.value), vals.next))
    else if p == Integers then
      var vals :- ParseInts(data, count.next, count.value);
      Ok(Parsed(IntArrayTag(None, vals.value), vals.next))
    else
      var vals :- ParseLongs(data, count.next, count.value);
      Ok(Parsed(LongArrayTag(None, vals.value), vals.next))
  }

  /** The unnamed tag a reader yields for a type (the bodies of ToTag's, ReadList's and
      ReadCompoundTag's switches): a scalar, a string, a list, a compound or an array. */
  function ParsePayload(data: seq<byte>, pos: nat, p: PayloadPrefix): (r: Result<Parsed<Tag>>)
    ensures r.Ok? ==> pos < r.value.next <= |data|
    ensures r.Ok? ==> GetPrefix(r.value.value) == p && r.value.value.name == None
    ensures r.Ok? ==> !r.value.value.BooleanTag?
    decreases |data| - pos, 2
  {
    hide ParseValue, ParseList, ParseCompound, ParseArray;
    match p
    case List => ParseList(data, pos)
    case Compound => ParseCompound(data, pos)
    case Bytes => ParseArray(data, pos, Bytes)
    case Integers => ParseArray(data, pos, Integers)
    case Longs => ParseArray(data, pos, Longs)
    case Byte | Short | Integer | Long | Float | Double | String => ParseValue(data, pos, p)
  }

  /** The cases of that switch that hold no other tag and no array: a scalar or a string. */
  function ParseValue(data: seq<byte>, pos: nat, p: PayloadPrefix): (r: Result<Parsed<Tag>>)
    requires p != List && p != Compound && p != Bytes && p != Integers && p != Longs
    ensures r.Ok? ==> pos < r.value.next <= |data|
    ensures r.Ok? ==> GetPrefix(r.value.value) == p && r.value.value.name == None
    ensures r.Ok? ==> !r.value.value.BooleanTag?
  {
    hide ParseSByte, ParseShort, ParseInteger, ParseLong, ParseFloat, ParseDouble, ParseString;
    match p
    case Byte =>
      var v :- ParseSByte(data, pos);
      Ok(Parsed(ByteTag(None, v.value), v.next))
    case Short =>
      var v :- ParseShort(data, pos);
      Ok(Parsed(ShortTag(None, v.value), v.next))
    case Integer =>
      var v :- ParseInteger(data, pos);
      Ok(Parsed(IntegerTag(None, v.value), v.next))
    case Long =>
      var v :- ParseLong(data, pos);
      Ok(Parsed(LongTag(None, v.value), v.next))
    case Float =>
      var v :- ParseFloat(data, pos);
      Ok(Parsed(FloatTag(None, v.value), v.next))
    case Double =>
      var v :- ParseDouble(data, pos);
      Ok(Parsed(DoubleTag(None, v.value), v.next))
    case String =>
      var v :- ParseString(data, pos);
      Ok(Parsed(StringTag(None, v.value), v.next))
  }

  /** ReadList: the element type, the count, then the elements; type End is an empty list
      (its count is ignored), an unknown type throws after the count is read, and a negative
      count cannot be allocated. */
  function ParseList(data: seq<byte>, pos: nat): (r: Result<Parsed<Tag>>)
    ensures r.Ok? ==> pos + 5 <= r.value.next <= |data|
    ensures r.Ok? ==> r.value.value.ListTag? && r.value.value.name == None
    ensures pos + 5 > |data| ==> r == Err(EndOfData)
    ensures pos + 5 <= |data| && data[pos] == 0 ==> r == Ok(Parsed(ListTag(None, []), pos + 5))
    ensures pos + 5 <= |data| && data[pos] > 12 ==> r == Err(UnknownType(data[pos]))
    ensures pos + 5 <= |data| && 0 < data[pos] <= 12 && ReadSignedBE(data[pos + 1..pos + 5]) < 0 ==>
      r == Err(NegativeLength(ReadSignedBE(data[pos + 1..pos + 5])))
    ensures r.Ok? && data[pos] != 0 ==>
      && FromCode(data[pos]).Some?
      && |r.value.value.tags| == ReadSignedBE(data[pos + 1..pos + 5])
      && forall k :: 0 <= k < |r.value.value.tags| ==>
           GetPrefix(r.value.value.tags[k]) == FromCode(data[pos]).value && r.value.value.tags[k].name == None
    decreases |data| - pos, 0
  {
    var t :- ParseU8(data, pos);
    var count :- ParseInteger(data, t.next);
    var p := FromCode(t.value);
    if t.value == 0 then Ok(Parsed(ListTag(None, []), count.next))
    else if p.None? then Err(UnknownType(t.value))
    else if count.value < 0 then Err(NegativeLength(count.value))
    else
      var elems :- ParseElements(data, count.next, p.value, count.value);
      Ok(Parsed(ListTag(None, elems.value), elems.next))
  }

  /** The `n` elements of a list of type `p`, each read as an unnamed payload. */
  function ParseElements(data: seq<byte>, pos: nat, p: PayloadPrefix, n: nat): (r: Result<Parsed<seq<Tag>>>)
    requires pos <= |data|
    ensures r.Ok? ==> pos <= r.value.next <= |data| && |r.value.value| == n
    ensures r.Ok? ==> forall k :: 0 <= k < n ==> GetPrefix(r.value.value[k]) == p && r.value.value[k].name == None
    decreases |data| - pos, 3, n
  {
    if n == 0 then Ok(Parsed([], pos))
    else
      var first :- ParsePayload(data, pos, p);
      var rest :- ParseElements(data, first.next, p, n - 1);
      Ok(Parsed([first.value] + rest.value, rest.next))
  }

  /** ReadCompoundTag: named children up to the End byte, as an unnamed compound. */
  function ParseCompound(data: seq<byte>, pos: nat): (r: Result<Parsed<Tag>>)
    ensures r.Ok? ==> pos < r.value.next <= |data|
    ensures r.Ok? ==> r.value.value.CompoundTag? && r.value.value.name == None
    decreases |data| - pos, 1
  {
    var children :- ParseChildren(data, pos);
    Ok(Parsed(CompoundTag(None, children.value), children.next))
  }

  /** The `while (true)` loop of ReadCompoundTag from `pos`: a type byte, End stops;
      otherwise one named child, then the rest. */
  function ParseChildren(data: seq<byte>, pos: nat): (r: Result<Parsed<seq<Option<Tag>>>>)
    ensures r.Ok? ==> pos < r.value.next <= |data|
    ensures r.Ok? ==> forall k :: 0 <= k < |r.value.value| ==>
      r.value.value[k].Some? && !r.value.value[k].value.EmptyTag? && r.value.value[k].value.name.Some?
    decreases |data| - pos, 0
  {
    var t :- ParseU8(data, pos);
    if t.value == 0 then Ok(Parsed([], t.next))
    else
      var child :- ParseNamedChild(data, t.next, t.value);
      var rest :- ParseChildren(data, child.next);
      Ok(Parsed([Some(child.value)] + rest.value, rest.next))
  }

  /** One pass of that loop after a non-End type byte `code`: the name is read before the
      type is checked, then the payload, which is given the name. */
  function ParseNamedChild(data: seq<byte>, pos: nat, code: byte): (r: Result<Parsed<Tag>>)
    ensures r.Ok? ==> pos < r.value.next <= |data|
    ensures r.Ok? ==> !r.value.value.EmptyTag? && r.value.value.name.Some?
    ensures r.Ok? ==> Some(GetPrefix(r.value.value)) == FromCode(code)
    ensures r.Ok? ==> ParseString(data, pos).Ok? && r.value.value.name == Some(ParseString(data, pos).value.value)
    ensures ParseString(data, pos).Err? ==> r == Err(ParseString(data, pos).error)
    ensures ParseString(data, pos).Ok? && (code == 0 || code > 12) ==> r == Err(UnknownType(code))
    decreases |data| - pos, 3
  {
    var name :- ParseString(data, pos);
    var p := FromCode(code);
    if p.None? || p.value == End then Err(UnknownType(code))
    else
      var payload :- ParsePayload(data, name.next, p.value);
      Ok(Parsed(WithName(payload.value, Some(name.value)).value, payload.next))
  }

  /** ToTag after the compression step: the root's type byte, then its payload (the root's
      name is never read); End yields an EmptyTag and an unknown type throws. */
  function ParseRoot(data: seq<byte>, pos: nat): (r: Result<Parsed<Tag>>)
    ensures r.Ok? ==> pos < r.value.next <= |data|
    ensures r.Ok? ==> r.value.value.EmptyTag? || r.value.value.name == None
    ensures r.Ok? ==> (r.value.value.EmptyTag? <==> data[pos] == 0)
    ensures r.Ok? ==> Code(GetPrefix(r.value.value)) == data[pos]
    ensures pos >= |data| ==> r == Err(EndOfData)
    ensures pos < |data| && data[pos] == 0 ==> r == Ok(Parsed(EmptyTag, pos + 1))
    ensures pos < |data| && data[pos] > 12 ==> r == Err(UnknownType(data[pos]))
  {
    var t :- ParseU8(data, pos);
    var p := FromCode(t.value);
    if t.value == 0 then Ok(Parsed(EmptyTag, t.next))
    else if p.None? then Err(UnknownType(t.value))
    else ParsePayload(data, t.next, p.value)
  }

  /** NbtCompressionType: ZLib is not part of this model. */
  datatype Compression = NoCompression | GZip

  /** The bytes ToTag reads from: with an implied root, the unread rest of the data framed
      as a compound (a Compound type byte before it, an End byte after it). */
  function Framed(data: seq<byte>, pos: nat, impliedRoot: bool): (r: seq<byte>)
    requires pos <= |data|
    ensures impliedRoot ==> |r| == |data| - pos + 2 && r[0] == Code(Compound) && r[|r| - 1] == 0
    ensures impliedRoot ==> r[1..|r| - 1] == data[pos..]
    ensures !impliedRoot ==> r == data
  {
    if impliedRoot then [Code(Compound)] + data[pos..] + [0] else data
  }

  /** NbtReader.ReadNbt(data, impliedRoot, compression): GZip throws NotImplementedException. */
  function ReadNbt(data: seq<byte>, impliedRoot: bool, compression: Compression): (r: Result<Tag>)
    ensures compression == GZip ==> r == Err(NotImplemented)
    ensures impliedRoot && compression == NoCompression && r.Ok? ==> r.value.CompoundTag?
    ensures !impliedRoot && compression == NoCompression && data == [] ==> r == Err(EndOfData)
    ensures !impliedRoot && compression == NoCompression && |data| > 0 && data[0] == 0 ==> r == Ok(EmptyTag)
    ensures !impliedRoot && compression == NoCompression && |data| > 0 && data[0] > 12 ==> r == Err(UnknownType(data[0]))
    ensures !impliedRoot && compression == NoCompression && r.Ok? ==> |data| > 0 && Code(GetPrefix(r.value)) == data[0]
  {
    hide ParseRoot, ParsePayload, ParseU8;
    if compression == GZip then Err(NotImplemented)
    else
      var root :- ParseRoot(Framed(data, 0, impliedRoot), 0);
      Ok(root.value)
  }
}
