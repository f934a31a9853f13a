/** NbtReader (NBT/NbtReader.cs) on its byte-array path: a cursor `position` over
    `sourceData` that every Read* method advances. Each method is proved to return what the
    matching Decoding function returns and to leave the cursor where that function stops. */
module Reader {
  import opened Binary
  import opened Results
  import opened NbtTagPrefix
  import opened Tags
  import opened Decoding

  /** A method's result `r`, with the cursor left at `pos`, is the parser's result `spec`
      (after a failure the cursor is not specified). */
  predicate Agrees<T(==)>(r: Result<T>, pos: nat, spec: Result<Parsed<T>>) {
    match r
    case Ok(v) => spec == Ok(Parsed(v, pos))
    case Err(e) => spec == Err(e)
  }

  /** `prefix` in front of the values a parser reads, or that parser's failure. */
  function Then<T>(prefix: seq<T>, r: Result<Parsed<seq<T>>>): (q: Result<Parsed<seq<T>>>)
    ensures q.Ok? <==> r.Ok?
    ensures q.Err? ==> q == r
    ensures q.Ok? ==> q.value.next == r.value.next && |q.value.value| == |prefix| + |r.value.value|
  {
    if r.Err? then r else Ok(Parsed(prefix + r.value.value, r.value.next))
  }

  lemma ThenNil<T>(r: Result<Parsed<seq<T>>>)
    ensures Then([], r) == r
  {
    if r.Ok? {
      assert [] + r.value.value == r.value.value;
    }
  }

  lemma ThenThen<T>(a: seq<T>, b: seq<T>, r: Result<Parsed<seq<T>>>)
    ensures Then(a, Then(b, r)) == Then(a + b, r)
  {
    if r.Ok? {
      assert a + (b + r.value.value) == a + b + r.value.value;
    }
  }

  class NbtReader {
    /** `_sourceData`: the bytes being read. */
    var sourceData: seq<byte>
    /** `_position`: the index of the next byte to read. */
    var position: nat
    /** `_compression`. */
    const compression: Compression

    /** NbtReader(byte[] data, compression): the cursor starts at 0. */
    constructor (data: seq<byte>, compression: Compression)
      ensures sourceData == data && position == 0 && this.compression == compression
    {
      sourceData := data;
      position := 0;
      this.compression := compression;
    }

    /** NbtReader.ReadNbt: a fresh reader on `data`, then ToTag. */
    static method ReadNbt(data: seq<byte>, impliedRoot: bool, compression: Compression) returns (r: Result<Tag>)
      ensures r == Decoding.ReadNbt(data, impliedRoot, compression)
    {
      var reader := new NbtReader(data, compression);
      r := reader.ToTag(impliedRoot);
    }

    /** ToTag: GZip throws; implied root replaces the data with the unread rest framed as a
        compound and restarts at 0; then the root's type byte and its payload. */
    method ToTag(impliedRoot: bool) returns (r: Result<Tag>)
      requires position <= |sourceData|
      modifies this
      ensures compression == GZip ==> r == Err(NotImplemented) && sourceData == old(sourceData)
      ensures compression == NoCompression ==> sourceData == Framed(old(sourceData), old(position), impliedRoot)
      ensures compression == NoCompression ==>
        Agrees(r, position, ParseRoot(sourceData, if impliedRoot then 0 else old(position)))
    {
      if compression == GZip {
        return Err(NotImplemented);
      }
      if impliedRoot {
        sourceData := [Code(Compound)] + sourceData[position..] + [Code(End)];
        position := 0;
      }
      ghost var start := position;
      var t := Read();
      if t.Err? {
        return Err(t.error);
      }
      if t.value == Code(End) {
        return Ok(EmptyTag);
      }
      var p := FromCode(t.value);
      if p.None? {
        return Err(UnknownType(t.value));
      }
      r := ReadPayload(p.value);
      assert ParseRoot(sourceData, start) == ParsePayload(sourceData, start + 1, p.value);
    }

    /** Read(): the byte at the cursor. */
    method Read() returns (r: Result<byte>)
      modifies this
      ensures sourceData == old(sourceData)
      ensures Agrees(r, position, ParseU8(sourceData, old(position)))
    {
      if position >= |sourceData| {
        return Err(EndOfData);
      }
      r := Ok(sourceData[position]);
      position := position + 1;
    }

    /** ReadByte: a byte of 128 or more is `b - 256`. */
    method ReadByte() returns (r: Result<i8>)
      modifies this
      ensures sourceData == old(sourceData)
      ensures Agrees(r, position, ParseSByte(sourceData, old(position)))
    {
      var b := Read();
      if b.Err? {
        return Err(b.error);
      }
      if b.value >= 128 {
        var v: i8 := b.value as int - 256;
        return Ok(v);
      }
      return Ok(b.value);
    }

    /** ReadShort: two big-endian bytes at the cursor. */
    method ReadShort() returns (r: Result<i16>)
      modifies this
      ensures sourceData == old(sourceData)
      ensures Agrees(r, position, ParseShort(sourceData, old(position)))
    {
      if position + 2 > |sourceData| {
        return Err(EndOfData);
      }
      Pow256Values();
      r := Ok(ReadSignedBE(sourceData[position..position + 2]));
      position := position + 2;
    }

    /** ReadInteger: four big-endian bytes at the cursor. */
    method ReadInteger() returns (r: Result<i32>)
      modifies this
      ensures sourceData == old(sourceData)
      ensures Agrees(r, position, ParseInteger(sourceData, old(position)))
    {
      if position + 4 > |sourceData| {
        return Err(EndOfData);
      }
      Pow256Values();
      r := Ok(ReadSignedBE(sourceData[position..position + 4]));
      position := position + 4;
    }

    /** ReadLong: eight big-endian bytes at the cursor. */
    method ReadLong() returns (r: Result<i64>)
      modifies this
      ensures sourceData == old(sourceData)
      ensures Agrees(r, position, ParseLong(sourceData, old(position)))
    {
      if position + 8 > |sourceData| {
        return Err(EndOfData);
      }
      Pow256Values();
      r := Ok(ReadSignedBE(sourceData[position..position + 8]));
      position := position + 8;
    }

    /** ReadFloat: the bit pattern of four big-endian bytes. */
    method ReadFloat() returns (r: Result<bv32>)
      modifies this
      ensures sourceData == old(sourceData)
      ensures Agrees(r, position, ParseFloat(sourceData, old(position)))
    {
      if position + 4 > |sourceData| {
        return Err(EndOfData);
      }
      r := Ok(ReadSingleBE(sourceData[position..position + 4]));
      position := position + 4;
    }

    /** ReadDouble: the bit pattern of eight big-endian bytes. */
    method ReadDouble() returns (r: Result<bv64>)
      modifies this
      ensures sourceData == old(sourceData)
      ensures Agrees(r, position, ParseDouble(sourceData, old(position)))
    {
      if position + 8 > |sourceData| {
        return Err(EndOfData);
      }
      r := Ok(ReadDoubleBE(sourceData[position..position + 8]));
      position := position + 8;
    }

    /** ReadString: a big-endian u16 length; zero is the empty string, any other length is
        that many more bytes. */
    method ReadString() returns (r: Result<Text>)
      modifies this
      ensures sourceData == old(sourceData)
      ensures Agrees(r, position, ParseString(sourceData, old(position)))
    {
      if position + 2 > |sourceData| {
        return Err(EndOfData);
      }
      var len := FromUnsignedBE(sourceData[position..position + 2]);
      position := position + 2;
      if len == 0 {
        return Ok([]);
      }
      if position + len > |sourceData| {
        return Err(EndOfData);
      }
      r := Ok(sourceData[position..position + len]);
      position := position + len;
    }

    /** The tag for one type byte other than End, unnamed: the arms of ToTag's switch, which
        ReadList's arms and ReadCompoundTag's arms repeat. */
    method ReadPayload(p: PayloadPrefix) returns (r: Result<Tag>)
      modifies this
      ensures sourceData == old(sourceData)
      ensures Agrees(r, position, ParsePayload(sourceData, old(position), p))
      decreases |sourceData| - position, 2
    {
      match p
      case List => r := ReadList();
      case Compound => r := ReadCompoundTag();
      case Bytes | Integers | Longs => r := ReadArray(p);
      case Byte | Short | Integer | Long | Float | Double | String => r := ReadValue(p);
    }

    /** The arms that read one scalar or one string. */
    method ReadValue(p: PayloadPrefix) returns (r: Result<Tag>)
      requires p != List && p != Compound && p != Bytes && p != Integers && p != Longs
      modifies this
      ensures sourceData == old(sourceData)
      ensures Agrees(r, position, ParseValue(sourceData, old(position), p))
    {
      match p
      case Byte =>
        var v := ReadByte();
        r := if v.Err? then Err(v.error) else Ok(ByteTag(None, v.value));
      case Short =>
        var v := ReadShort();
        r := if v.Err? then Err(v.error) else Ok(ShortTag(None, v.value));
      case Integer =>
        var v := ReadInteger();
        r := if v.Err? then Err(v.error) else Ok(IntegerTag(None, v.value));
      case Long =>
        var v := ReadLong();
        r := if v.Err? then Err(v.error) else Ok(LongTag(None, v.value));
      case Float =>
        var v := ReadFloat();
        r := if v.Err? then Err(v.error) else Ok(FloatTag(None, v.value));
      case Double =>
        var v := ReadDouble();
        r := if v.Err? then Err(v.error) else Ok(DoubleTag(None, v.value));
      case String =>
        var v := ReadString();
        r := if v.Err? then Err(v.error) else Ok(StringTag(None, v.value));
    }
  
    /** ReadList: the element type and the count, in that order; End is an empty list
        whatever the count, an unknown type throws, a negative count cannot be allocated,
        and any other type reads `count` unnamed elements of it. */
    method ReadList() returns (r: Result<Tag>)
      modifies this
      ensures sourceData == old(sourceData)
      ensures Agrees(r, position, ParseList(sourceData, old(position)))
      decreases |sourceData| - position, 0
    {
      var t := Read();
      if t.Err? {
        return Err(t.error);
      }
      var length := ReadInteger();
      if length.Err? {
        return Err(length.error);
      }
      if t.value == Code(End) {
        return Ok(ListTag(None, []));
      }
      var p := FromCode(t.value);
      if p.None? {
        return Err(UnknownType(t.value));
      }
      if length.value < 0 {
        return Err(NegativeLength(length.value));
      }
      var elems := ReadElements(p.value, length.value);
      r := if elems.Err? then Err(elems.error) else Ok(ListTag(None, elems.value));
    }

    /** The `for` loop of each of ReadList's arms: `n` elements of type `p` into a new array. */
    method ReadElements(p: PayloadPrefix, n: nat) returns (r: Result<seq<Tag>>)
      requires position <= |sourceData|
      modifies this
      ensures sourceData == old(sourceData)
      ensures Agrees(r, position, ParseElements(sourceData, old(position), p, n))
      decreases |sourceData| - position, 3
    {
      hide ParsePayload, GetPrefix;
      var tags := new Tag[n];
      ghost var start := position;
      ThenNil(ParseElements(sourceData, start, p, n));
      for i := 0 to n
        invariant sourceData == old(sourceData) && start <= position <= |sourceData|
        invariant ParseElements(sourceData, start, p, n) == Then(tags[..i], ParseElements(sourceData, position, p, n - i))
      {
        ghost var here := position;
        var e := ReadPayload(p);
        if e.Err? {
          return Err(e.error);
        }
        ThenThen(tags[..i], [e.value], ParseElements(sourceData, position, p, n - i - 1));
        tags[i] := e.value;
        assert tags[..i + 1] == tags[..i] + [e.value];
      }
      assert tags[..n] + [] == tags[..];
      return Ok(tags[..]);
    }

    /** ReadCompoundTag: its `while (true)` loop reads a type byte; End returns the children
        read so far, any other type one named child, which is appended. */
    method ReadCompoundTag() returns (r: Result<Tag>)
      modifies this
      ensures sourceData == old(sourceData)
      ensures Agrees(r, position, ParseCompound(sourceData, old(position)))
      decreases |sourceData| - position, 1
    {
      var children: seq<Option<Tag>> := [];
      ghost var start := position;
      ThenNil(ParseChildren(sourceData, start));
      while true
        invariant sourceData == old(sourceData) && start <= position
        invariant ParseChildren(sourceData, start) == Then(children, ParseChildren(sourceData, position))
        decreases |sourceData| - position
      {
        var t := Read();
        if t.Err? {
          return Err(t.error);
        }
        if t.value == Code(End) {
          assert children + [] == children;
          return Ok(CompoundTag(None, children));
        }
        var child := ReadNamedChild(t.value);
        if child.Err? {
          return Err(child.error);
        }
        ThenThen(children, [Some(child.value)], ParseChildren(sourceData, position));
        children := children + [Some(child.value)];
      }
    }

    /** One pass of that loop after a type byte `code` other than End: the name is read
        before the type is checked, then the payload, which is given the name. */
    method ReadNamedChild(code: byte) returns (r: Result<Tag>)
      modifies this
      ensures sourceData == old(sourceData)
      ensures Agrees(r, position, ParseNamedChild(sourceData, old(position), code))
      decreases |sourceData| - position, 3
    {
      var name := ReadString();
      if name.Err? {
        return Err(name.error);
      }
      var p := FromCode(code);
      if p.None? || p.value == End {
        return Err(UnknownType(code));
      }
      var payload := ReadPayload(p.value);
      if payload.Err? {
        return Err(payload.error);
      }
      return Ok(WithName(payload.value, Some(name.value)).value);
    }

    /** ReadArray: an i32 count, a new array of that length (a negative one cannot be
        allocated), then one value per element. */
    method ReadArray(p: Prefix) returns (r: Result<Tag>)
      requires p == Bytes || p == Integers || p == Longs
      modifies this
      ensures sourceData == old(sourceData)
      ensures Agrees(r, position, ParseArray(sourceData, old(position), p))
    {
      var length := ReadInteger();
      if length.Err? {
        return Err(length.error);
      }
      if length.value < 0 {
        return Err(NegativeLength(length.value));
      }
      if p == Bytes {
        var vals := ReadSBytes(length.value);
        r := if vals.Err? then Err(vals.error) else Ok(ByteArrayTag(None, vals.value));
      } else if p == Integers {
        var vals := ReadInts(length.value);
        r := if vals.Err? then Err(vals.error) else Ok(IntArrayTag(None, vals.value));
      } else {
        var vals := ReadLongs(length.value);
        r := if vals.Err? then Err(vals.error) else Ok(LongArrayTag(None, vals.value));
      }
    }

    /** ReadArray's loop with ReadByte. */
    method ReadSBytes(n: nat) returns (r: Result<seq<i8>>)
      requires position <= |sourceData|
      modifies this
      ensures sourceData == old(sourceData)
      ensures Agrees(r, position, ParseSBytes(sourceData, old(position), n))
    {
      hide ParseSByte;
      var vals := new i8[n];
      ghost var start := position;
      ThenNil(ParseSBytes(sourceData, start, n));
      for i := 0 to n
        invariant sourceData == old(sourceData) && start <= position <= |sourceData|
        invariant ParseSBytes(sourceData, start, n) == Then(vals[..i], ParseSBytes(sourceData, position, n - i))
      {
        var v := ReadByte();
        if v.Err? {
          return Err(v.error);
        }
        ThenThen(vals[..i], [v.value], ParseSBytes(sourceData, position, n - i - 1));
        vals[i] := v.value;
        assert vals[..i + 1] == vals[..i] + [v.value];
      }
      assert vals[..n] + [] == vals[..];
      return Ok(vals[..]);
    }

    /** ReadArray's loop with ReadInteger. */
    method ReadInts(n: nat) returns (r: Result<seq<i32>>)
      requires position <= |sourceData|
      modifies this
      ensures sourceData == old(sourceData)
      ensures Agrees(r, position, ParseInts(sourceData, old(position), n))
    {
      hide ParseInteger;
      var vals := new i32[n];
      ghost var start := position;
      ThenNil(ParseInts(sourceData, start, n));
      for i := 0 to n
        invariant sourceData == old(sourceData) && start <= position <= |sourceData|
        invariant ParseInts(sourceData, start, n) == Then(vals[..i], ParseInts(sourceData, position, n - i))
      {
        var v := ReadInteger();
        if v.Err? {
          return Err(v.error);
        }
        ThenThen(vals[..i], [v.value], ParseInts(sourceData, position, n - i - 1));
        vals[i] := v.value;
        assert vals[..i + 1] == vals[..i] + [v.value];
      }
      assert vals[..n] + [] == vals[..];
      return Ok(vals[..]);
    }

    /** ReadArray's loop with ReadLong. */
    method ReadLongs(n: nat) returns (r: Result<seq<i64>>)
      requires position <= |sourceData|
      modifies this
      ensures sourceData == old(sourceData)
      ensures Agrees(r, position, ParseLongs(sourceData, old(position), n))
    {
      hide ParseLong;
      var vals := new i64[n];
      ghost var start := position;
      ThenNil(ParseLongs(sourceData, start, n));
      for i := 0 to n
        invariant sourceData == old(sourceData) && start <= position <= |sourceData|
        invariant ParseLongs(sourceData, start, n) == Then(vals[..i], ParseLongs(sourceData, position, n - i))
      {
        var v := ReadLong();
        if v.Err? {
          return Err(v.error);
        }
        ThenThen(vals[..i], [v.value], ParseLongs(sourceData, position, n - i - 1));
        vals[i] := v.value;
        assert vals[..i + 1] == vals[..i] + [v.value];
      }
      assert vals[..n] + [] == vals[..];
      return Ok(vals[..]);
    }
  }
}
