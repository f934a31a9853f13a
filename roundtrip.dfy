/** Reading back what Serialise wrote: for every tag a well-formed tree reaches, NbtReader
    returns the tag itself up to the two things the wire format cannot carry (a BooleanTag
    comes back as the ByteTag of its byte, and null compound children are dropped). */
module RoundTrip {
  import opened Binary
  import opened Results
  import opened NbtTagPrefix
  import opened Tags
  import opened Encoding
  import opened Decoding

  /** `s` occurs in `data` at `pos`. */
  predicate At(data: seq<byte>, pos: nat, s: seq<byte>) {
    pos + |s| <= |data| && data[pos..pos + |s|] == s
  }

  lemma AtSplit(data: seq<byte>, pos: nat, a: seq<byte>, b: seq<byte>)
    requires At(data, pos, a + b)
    ensures At(data, pos, a) && At(data, pos + |a|, b)
  {
    assert data[pos..pos + |a|] == data[pos..pos + |a + b|][..|a|];
    assert data[pos + |a|..pos + |a| + |b|] == data[pos..pos + |a + b|][|a|..];
  }

  /** The tag as the reader gives it back: BooleanTags become ByteTags, null compound children
      are dropped, and everything else is kept. */
  function Canonical(t: Tag): (c: Tag)
    ensures GetPrefix(c) == GetPrefix(t) && !c.BooleanTag?
    ensures !t.EmptyTag? ==> !c.EmptyTag? && c.name == t.name
    decreases t, 1
  {
    match t
    case BooleanTag(n, _) => ByteTag(n, ByteValue(t))
    case ListTag(n, tags) => ListTag(n, CanonicalList(tags))
    case CompoundTag(n, cs) => CompoundTag(n, CanonicalChildren(cs))
    case _ => t
  }

  function CanonicalList(tags: seq<Tag>): (r: seq<Tag>)
    ensures |r| == |tags|
    decreases tags, 0
  {
    if tags == [] then [] else [Canonical(tags[0])] + CanonicalList(tags[1..])
  }

  function CanonicalChildren(cs: seq<Option<Tag>>): (r: seq<Option<Tag>>)
    decreases cs, 1
  {
    if cs == [] then [] else CanonicalSlot(cs[0]) + CanonicalChildren(cs[1..])
  }

  function CanonicalSlot(o: Option<Tag>): (r: seq<Option<Tag>>)
    decreases o, 0
  {
    if o.None? then [] else [Some(Canonical(o.value))]
  }

  /** A non-empty tag without its name, as every payload reader returns it. */
  function Unnamed(t: Tag): (u: Tag)
    requires !t.EmptyTag?
    ensures !u.EmptyTag? && u.name == None
  {
    WithName(t, None).value
  }

  /** The payloads the reader can read back: strings fit their u16 length; list elements are
      unnamed, non-empty and all of the first element's type; compound children are non-empty
      and named with a name that fits. */
  predicate Encodable(t: Tag)
    decreases t, 0
  {
    match t
    case EmptyTag => false
    case StringTag(_, s) => |s| <= 0xFFFF
    case ListTag(_, tags) =>
      forall k :: 0 <= k < |tags| ==> EncodableElement(tags[k], GetPrefix(tags[0]))
    case CompoundTag(_, cs) =>
      forall k :: 0 <= k < |cs| && cs[k].Some? ==> EncodableChild(cs[k].value)
    case _ => true
  }

  /** A list element of type `p` that reads back: unnamed and encodable. */
  predicate EncodableElement(e: Tag, p: Prefix)
    decreases e, 1
  {
    !e.EmptyTag? && e.name.None? && GetPrefix(e) == p && Encodable(e)
  }

  /** A compound child that reads back: named with a name that fits, and encodable. */
  predicate EncodableChild(c: Tag)
    decreases c, 1
  {
    !c.EmptyTag? && c.name.Some? && |c.name.value| <= 0xFFFF && Encodable(c)
  }

  /** The roots the reader can read back: the EmptyTag, or an unnamed encodable tag. */
  predicate RootEncodable(t: Tag) {
    t.EmptyTag? || (t.name.None? && Encodable(t))
  }

  // Every lemma below first hides the definitions its proof does not unfold: each fact it
  // needs about them comes from the contract of a lemma it calls.

  /** A string written at `pos` reads back, and the reader stops at `next`, right after it. */
  lemma {:induction false} StringRoundTrip(s: Text, data: seq<byte>, pos: nat, next: nat)
    requires StringBytes(s).Ok? && At(data, pos, StringBytes(s).value)
    requires next == pos + |StringBytes(s).value|
    ensures ParseString(data, pos) == Ok(Parsed(s, next))
  {
    hide FromUnsignedBE, WriteUInt16BE, UnsignedBE, Pow256;
    var enc := StringBytes(s).value;
    assert data[pos..pos + 2] == enc[..2];
    assert data[pos + 2..pos + 2 + |s|] == enc[2..];
  }

  lemma ByteAt(v: i8, data: seq<byte>, pos: nat)
    requires At(data, pos, [SByteToByte(v)])
    ensures ParseSByte(data, pos) == Ok(Parsed(v, pos + 1))
  {
    SByteRoundTrip(v);
    assert data[pos] == [SByteToByte(v)][0];
  }

  lemma ShortAt(v: i16, data: seq<byte>, pos: nat)
    requires At(data, pos, WriteInt16BE(v))
    ensures ParseShort(data, pos) == Ok(Parsed(v, pos + 2))
  {
    hide WriteInt16BE, ReadSignedBE, UnsignedBE, FromUnsignedBE, ToUnsigned, ToSigned, Pow256;
    WriteInt16RoundTrip(v);
  }

  lemma IntegerAt(v: i32, data: seq<byte>, pos: nat)
    requires At(data, pos, WriteInt32BE(v))
    ensures ParseInteger(data, pos) == Ok(Parsed(v, pos + 4))
  {
    hide WriteInt32BE, ReadSignedBE, UnsignedBE, FromUnsignedBE, ToUnsigned, ToSigned, Pow256;
    WriteInt32RoundTrip(v);
  }

  lemma LongAt(v: i64, data: seq<byte>, pos: nat)
    requires At(data, pos, WriteInt64BE(v))
    ensures ParseLong(data, pos) == Ok(Parsed(v, pos + 8))
  {
    hide WriteInt64BE, ReadSignedBE, UnsignedBE, FromUnsignedBE, ToUnsigned, ToSigned, Pow256;
    WriteInt64RoundTrip(v);
  }

  lemma FloatAt(bits: bv32, data: seq<byte>, pos: nat)
    requires At(data, pos, WriteSingleBE(bits))
    ensures ParseFloat(data, pos) == Ok(Parsed(bits, pos + 4))
  {
    hide WriteSingleBE, ReadSingleBE, UnsignedBE, FromUnsignedBE, Pow256;
    WriteSingleRoundTrip(bits);
  }

  lemma DoubleAt(bits: bv64, data: seq<byte>, pos: nat)
    requires At(data, pos, WriteDoubleBE(bits))
    ensures ParseDouble(data, pos) == Ok(Parsed(bits, pos + 8))
  {
    hide WriteDoubleBE, ReadDoubleBE, UnsignedBE, FromUnsignedBE, Pow256;
    WriteDoubleRoundTrip(bits);
  }

  /** The values of a byte array, written one after the other, read back in order. */
  lemma {:induction false} SBytesRoundTrip(a: seq<i8>, data: seq<byte>, pos: nat, q: nat)
    requires At(data, pos, SByteBytes(a)) && q == pos + |a|
    ensures ParseSBytes(data, pos, |a|) == Ok(Parsed(a, q))
    decreases |a|
  {
    if a == [] {
      SBytesNil(data, pos);
    } else {
      SBytesCons(a, data, pos);
      SBytesRoundTrip(a[1..], data, pos + 1, q);
      SBytesStep(data, pos, a[0], a[1..], q);
      assert [a[0]] + a[1..] == a;
    }
  }

  lemma SBytesNil(data: seq<byte>, pos: nat)
    requires At(data, pos, SByteBytes([]))
    ensures ParseSBytes(data, pos, 0) == Ok(Parsed([], pos))
  {
  }

  lemma SBytesCons(a: seq<i8>, data: seq<byte>, pos: nat)
    requires a != [] && At(data, pos, SByteBytes(a))
    ensures ParseSByte(data, pos) == Ok(Parsed(a[0], pos + 1))
    ensures At(data, pos + 1, SByteBytes(a[1..]))
  {
    hide ParseSByte;
    assert SByteBytes(a) == [SByteToByte(a[0])] + SByteBytes(a[1..]);
    AtSplit(data, pos, [SByteToByte(a[0])], SByteBytes(a[1..]));
    ByteAt(a[0], data, pos);
  }

  lemma SBytesStep(data: seq<byte>, pos: nat, v: i8, vs: seq<i8>, q: nat)
    requires ParseSByte(data, pos) == Ok(Parsed(v, pos + 1))
    requires ParseSBytes(data, pos + 1, |vs|) == Ok(Parsed(vs, q))
    ensures ParseSBytes(data, pos, |vs| + 1) == Ok(Parsed([v] + vs, q))
  {
    hide ParseSByte;
  }

  lemma {:induction false} IntsRoundTrip(a: seq<i32>, data: seq<byte>, pos: nat, q: nat)
    requires At(data, pos, IntBytes(a)) && q == pos + 4 * |a|
    ensures ParseInts(data, pos, |a|) == Ok(Parsed(a, q))
    decreases |a|
  {
    if a == [] {
      IntsNil(data, pos);
    } else {
      IntsCons(a, data, pos);
      IntsRoundTrip(a[1..], data, pos + 4, q);
      IntsStep(data, pos, a[0], a[1..], q);
      assert [a[0]] + a[1..] == a;
    }
  }

  lemma IntsNil(data: seq<byte>, pos: nat)
    requires At(data, pos, IntBytes([]))
    ensures ParseInts(data, pos, 0) == Ok(Parsed([], pos))
  {
  }

  lemma IntsCons(a: seq<i32>, data: seq<byte>, pos: nat)
    requires a != [] && At(data, pos, IntBytes(a))
    ensures ParseInteger(data, pos) == Ok(Parsed(a[0], pos + 4))
    ensures At(data, pos + 4, IntBytes(a[1..]))
  {
    hide ParseInteger, WriteInt32BE;
    assert IntBytes(a) == WriteInt32BE(a[0]) + IntBytes(a[1..]);
    AtSplit(data, pos, WriteInt32BE(a[0]), IntBytes(a[1..]));
    IntegerAt(a[0], data, pos);
  }

  lemma IntsStep(data: seq<byte>, pos: nat, v: i32, vs: seq<i32>, q: nat)
    requires ParseInteger(data, pos) == Ok(Parsed(v, pos + 4))
    requires ParseInts(data, pos + 4, |vs|) == Ok(Parsed(vs, q))
    ensures ParseInts(data, pos, |vs| + 1) == Ok(Parsed([v] + vs, q))
  {
    hide ParseInteger;
  }

  lemma {:induction false} LongsRoundTrip(a: seq<i64>, data: seq<byte>, pos: nat, q: nat)
    requires At(data, pos, LongBytes(a)) && q == pos + 8 * |a|
    ensures ParseLongs(data, pos, |a|) == Ok(Parsed(a, q))
    decreases |a|
  {
    if a == [] {
      LongsNil(data, pos);
    } else {
      LongsCons(a, data, pos);
      LongsRoundTrip(a[1..], data, pos + 8, q);
      LongsStep(data, pos, a[0], a[1..], q);
      assert [a[0]] + a[1..] == a;
    }
  }

  lemma LongsNil(data: seq<byte>, pos: nat)
    requires At(data, pos, LongBytes([]))
    ensures ParseLongs(data, pos, 0) == Ok(Parsed([], pos))
  {
  }

  lemma LongsCons(a: seq<i64>, data: seq<byte>, pos: nat)
    requires a != [] && At(data, pos, LongBytes(a))
    ensures ParseLong(data, pos) == Ok(Parsed(a[0], pos + 8))
    ensures At(data, pos + 8, LongBytes(a[1..]))
  {
    hide ParseLong, WriteInt64BE;
    assert LongBytes(a) == WriteInt64BE(a[0]) + LongBytes(a[1..]);
    AtSplit(data, pos, WriteInt64BE(a[0]), LongBytes(a[1..]));
    LongAt(a[0], data, pos);
  }

  lemma LongsStep(data: seq<byte>, pos: nat, v: i64, vs: seq<i64>, q: nat)
    requires ParseLong(data, pos) == Ok(Parsed(v, pos + 8))
    requires ParseLongs(data, pos + 8, |vs|) == Ok(Parsed(vs, q))
    ensures ParseLongs(data, pos, |vs| + 1) == Ok(Parsed([v] + vs, q))
  {
    hide ParseLong;
  }

  lemma CountRoundTrip(n: nat, data: seq<byte>, pos: nat)
    requires n < 0x8000_0000 && At(data, pos, WriteInt32BE(n))
    ensures ParseCount(data, pos) == Ok(Parsed(n, pos + 4))
  {
    hide ParseInteger, WriteInt32BE;
    IntegerAt(n, data, pos);
  }

  /** The uniform statement of every payload lemma below: the payload of `t`, written at
      `pos`, reads back as `t` canonical and unnamed, and the reader stops right after it. */
  lemma ByteRoundTrip(t: Tag, data: seq<byte>, pos: nat)
    requires (t.ByteTag? || t.BooleanTag?) && Payload(t).Ok? && At(data, pos, Payload(t).value)
    ensures ParsePayload(data, pos, GetPrefix(t)) == Ok(Parsed(Unnamed(Canonical(t)), pos + |Payload(t).value|))
  {
    hide ParseSByte, ParseShort, ParseInteger, ParseLong, ParseFloat, ParseDouble, ParseString;
    hide ParseList, ParseCompound, ParseArray, Elements, Children, CanonicalList, CanonicalChildren;
    hide At, SByteToByte;
    assert Payload(t) == Ok([SByteToByte(ByteValue(t))]);
    ByteAt(ByteValue(t), data, pos);
    assert Unnamed(Canonical(t)) == ByteTag(None, ByteValue(t));
  }

  lemma ShortRoundTrip(t: Tag, data: seq<byte>, pos: nat)
    requires t.ShortTag? && Payload(t).Ok? && At(data, pos, Payload(t).value)
    ensures ParsePayload(data, pos, GetPrefix(t)) == Ok(Parsed(Unnamed(Canonical(t)), pos + |Payload(t).value|))
  {
    hide ParseSByte, ParseShort, ParseInteger, ParseLong, ParseFloat, ParseDouble, ParseString;
    hide ParseList, ParseCompound, ParseArray, Elements, Children, CanonicalList, CanonicalChildren;
    hide At, WriteInt16BE;
    assert Payload(t) == Ok(WriteInt16BE(t.s));
    ShortAt(t.s, data, pos);
    assert Unnamed(Canonical(t)) == ShortTag(None, t.s);
  }

  lemma IntegerRoundTrip(t: Tag, data: seq<byte>, pos: nat)
    requires t.IntegerTag? && Payload(t).Ok? && At(data, pos, Payload(t).value)
    ensures ParsePayload(data, pos, GetPrefix(t)) == Ok(Parsed(Unnamed(Canonical(t)), pos + |Payload(t).value|))
  {
    hide ParseSByte, ParseShort, ParseInteger, ParseLong, ParseFloat, ParseDouble, ParseString;
    hide ParseList, ParseCompound, ParseArray, Elements, Children, CanonicalList, CanonicalChildren;
    hide At, WriteInt32BE;
    assert Payload(t) == Ok(WriteInt32BE(t.i));
    IntegerAt(t.i, data, pos);
    assert Unnamed(Canonical(t)) == IntegerTag(None, t.i);
  }

  lemma LongRoundTrip(t: Tag, data: seq<byte>, pos: nat)
    requires t.LongTag? && Payload(t).Ok? && At(data, pos, Payload(t).value)
    ensures ParsePayload(data, pos, GetPrefix(t)) == Ok(Parsed(Unnamed(Canonical(t)), pos + |Payload(t).value|))
  {
    hide ParseSByte, ParseShort, ParseInteger, ParseLong, ParseFloat, ParseDouble, ParseString;
    hide ParseList, ParseCompound, ParseArray, Elements, Children, CanonicalList, CanonicalChildren;
    hide At, WriteInt64BE;
    assert Payload(t) == Ok(WriteInt64BE(t.l));
    LongAt(t.l, data, pos);
    assert Unnamed(Canonical(t)) == LongTag(None, t.l);
  }

  lemma FloatRoundTrip(t: Tag, data: seq<byte>, pos: nat)
    requires t.FloatTag? && Payload(t).Ok? && At(data, pos, Payload(t).value)
    ensures ParsePayload(data, pos, GetPrefix(t)) == Ok(Parsed(Unnamed(Canonical(t)), pos + |Payload(t).value|))
  {
    hide ParseSByte, ParseShort, ParseInteger, ParseLong, ParseFloat, ParseDouble, ParseString;
    hide ParseList, ParseCompound, ParseArray, Elements, Children, CanonicalList, CanonicalChildren;
    hide At, WriteSingleBE;
    assert Payload(t) == Ok(WriteSingleBE(t.f));
    FloatAt(t.f, data, pos);
    assert Unnamed(Canonical(t)) == FloatTag(None, t.f);
  }

  lemma DoubleRoundTrip(t: Tag, data: seq<byte>, pos: nat)
    requires t.DoubleTag? && Payload(t).Ok? && At(data, pos, Payload(t).value)
    ensures ParsePayload(data, pos, GetPrefix(t)) == Ok(Parsed(Unnamed(Canonical(t)), pos + |Payload(t).value|))
  {
    hide ParseSByte, ParseShort, ParseInteger, ParseLong, ParseFloat, ParseDouble, ParseString;
    hide ParseList, ParseCompound, ParseArray, Elements, Children, CanonicalList, CanonicalChildren;
    hide At, WriteDoubleBE;
    assert Payload(t) == Ok(WriteDoubleBE(t.d));
    DoubleAt(t.d, data, pos);
    assert Unnamed(Canonical(t)) == DoubleTag(None, t.d);
  }

  lemma StringTagRoundTrip(t: Tag, data: seq<byte>, pos: nat)
    requires t.StringTag? && Payload(t).Ok? && At(data, pos, Payload(t).value)
    ensures ParsePayload(data, pos, GetPrefix(t)) == Ok(Parsed(Unnamed(Canonical(t)), pos + |Payload(t).value|))
  {
    hide ParseSByte, ParseShort, ParseInteger, ParseLong, ParseFloat, ParseDouble, ParseString;
    hide ParseList, ParseCompound, ParseArray, Elements, Children, CanonicalList, CanonicalChildren;
    hide At, StringBytes;
    assert Payload(t) == StringBytes(t.text);
    StringRoundTrip(t.text, data, pos, pos + |Payload(t).value|);
    assert Unnamed(Canonical(t)) == StringTag(None, t.text);
  }

  lemma ByteArrayTagRoundTrip(t: Tag, data: seq<byte>, pos: nat)
    requires t.ByteArrayTag? && Payload(t).Ok? && At(data, pos, Payload(t).value)
    ensures ParsePayload(data, pos, GetPrefix(t)) == Ok(Parsed(Unnamed(Canonical(t)), pos + |Payload(t).value|))
  {
    hide ParseSByte, ParseShort, ParseInteger, ParseLong, ParseFloat, ParseDouble, ParseString;
    hide ParseList, ParseCompound, ParseArray, Elements, Children, CanonicalList, CanonicalChildren;
    hide At, WriteInt32BE, SByteBytes;
    assert Payload(t) == Ok(WriteInt32BE(|t.bytes|) + SByteBytes(t.bytes));
    ByteArrayRoundTrip(t.bytes, data, pos);
    assert Unnamed(Canonical(t)) == ByteArrayTag(None, t.bytes);
  }

  lemma IntArrayTagRoundTrip(t: Tag, data: seq<byte>, pos: nat)
    requires t.IntArrayTag? && Payload(t).Ok? && At(data, pos, Payload(t).value)
    ensures ParsePayload(data, pos, GetPrefix(t)) == Ok(Parsed(Unnamed(Canonical(t)), pos + |Payload(t).value|))
  {
    hide ParseSByte, ParseShort, ParseInteger, ParseLong, ParseFloat, ParseDouble, ParseString;
    hide ParseList, ParseCompound, ParseArray, Elements, Children, CanonicalList, CanonicalChildren;
    hide At, WriteInt32BE, IntBytes;
    assert Payload(t) == Ok(WriteInt32BE(|t.ints|) + IntBytes(t.ints));
    IntArrayRoundTrip(t.ints, data, pos);
    assert Unnamed(Canonical(t)) == IntArrayTag(None, t.ints);
  }

  lemma LongArrayTagRoundTrip(t: Tag, data: seq<byte>, pos: nat)
    requires t.LongArrayTag? && Payload(t).Ok? && At(data, pos, Payload(t).value)
    ensures ParsePayload(data, pos, GetPrefix(t)) == Ok(Parsed(Unnamed(Canonical(t)), pos + |Payload(t).value|))
  {
    hide ParseSByte, ParseShort, ParseInteger, ParseLong, ParseFloat, ParseDouble, ParseString;
    hide ParseList, ParseCompound, ParseArray, Elements, Children, CanonicalList, CanonicalChildren;
    hide At, WriteInt32BE, LongBytes;
    assert Payload(t) == Ok(WriteInt32BE(|t.longs|) + LongBytes(t.longs));
    LongArrayRoundTrip(t.longs, data, pos);
    assert Unnamed(Canonical(t)) == LongArrayTag(None, t.longs);
  }

  lemma ByteArrayRoundTrip(a: seq<i8>, data: seq<byte>, pos: nat)
    requires |a| < 0x8000_0000 && At(data, pos, WriteInt32BE(|a|) + SByteBytes(a))
    ensures ParseArray(data, pos, Bytes) == Ok(Parsed(ByteArrayTag(None, a), pos + 4 + |a|))
  {
    hide *;
    ByteArrayParts(a, data, pos);
    ByteArrayStep(data, pos, a, pos + 4 + |a|);
  }

  lemma ByteArrayParts(a: seq<i8>, data: seq<byte>, pos: nat)
    requires |a| < 0x8000_0000 && At(data, pos, WriteInt32BE(|a|) + SByteBytes(a))
    ensures ParseCount(data, pos) == Ok(Parsed(|a|, pos + 4))
    ensures ParseSBytes(data, pos + 4, |a|) == Ok(Parsed(a, pos + 4 + |a|))
  {
    hide *;
    AtSplit(data, pos, WriteInt32BE(|a|), SByteBytes(a));
    CountRoundTrip(|a|, data, pos);
    SBytesRoundTrip(a, data, pos + 4, pos + 4 + |a|);
  }

  lemma ByteArrayStep(data: seq<byte>, pos: nat, a: seq<i8>, q: nat)
    requires ParseCount(data, pos) == Ok(Parsed(|a|, pos + 4))
    requires ParseSBytes(data, pos + 4, |a|) == Ok(Parsed(a, q))
    ensures ParseArray(data, pos, Bytes) == Ok(Parsed(ByteArrayTag(None, a), q))
  {
    hide ParseCount, ParseSBytes, ParseInts, ParseLongs;
  }

  lemma IntArrayRoundTrip(a: seq<i32>, data: seq<byte>, pos: nat)
    requires |a| < 0x8000_0000 && At(data, pos, WriteInt32BE(|a|) + IntBytes(a))
    ensures ParseArray(data, pos, Integers) == Ok(Parsed(IntArrayTag(None, a), pos + 4 + 4 * |a|))
  {
    hide *;
    IntArrayParts(a, data, pos);
    IntArrayStep(data, pos, a, pos + 4 + 4 * |a|);
  }

  lemma IntArrayParts(a: seq<i32>, data: seq<byte>, pos: nat)
    requires |a| < 0x8000_0000 && At(data, pos, WriteInt32BE(|a|) + IntBytes(a))
    ensures ParseCount(data, pos) == Ok(Parsed(|a|, pos + 4))
    ensures ParseInts(data, pos + 4, |a|) == Ok(Parsed(a, pos + 4 + 4 * |a|))
  {
    hide *;
    AtSplit(data, pos, WriteInt32BE(|a|), IntBytes(a));
    CountRoundTrip(|a|, data, pos);
    IntsRoundTrip(a, data, pos + 4, pos + 4 + 4 * |a|);
  }

  lemma IntArrayStep(data: seq<byte>, pos: nat, a: seq<i32>, q: nat)
    requires ParseCount(data, pos) == Ok(Parsed(|a|, pos + 4))
    requires ParseInts(data, pos + 4, |a|) == Ok(Parsed(a, q))
    ensures ParseArray(data, pos, Integers) == Ok(Parsed(IntArrayTag(None, a), q))
  {
    hide ParseCount, ParseSBytes, ParseInts, ParseLongs;
  }

  lemma LongArrayRoundTrip(a: seq<i64>, data: seq<byte>, pos: nat)
    requires |a| < 0x8000_0000 && At(data, pos, WriteInt32BE(|a|) + LongBytes(a))
    ensures ParseArray(data, pos, Longs) == Ok(Parsed(LongArrayTag(None, a), pos + 4 + 8 * |a|))
  {
    hide *;
    LongArrayParts(a, data, pos);
    LongArrayStep(data, pos, a, pos + 4 + 8 * |a|);
  }

  lemma LongArrayParts(a: seq<i64>, data: seq<byte>, pos: nat)
    requires |a| < 0x8000_0000 && At(data, pos, WriteInt32BE(|a|) + LongBytes(a))
    ensures ParseCount(data, pos) == Ok(Parsed(|a|, pos + 4))
    ensures ParseLongs(data, pos + 4, |a|) == Ok(Parsed(a, pos + 4 + 8 * |a|))
  {
    hide *;
    AtSplit(data, pos, WriteInt32BE(|a|), LongBytes(a));
    CountRoundTrip(|a|, data, pos);
    LongsRoundTrip(a, data, pos + 4, pos + 4 + 8 * |a|);
  }

  lemma LongArrayStep(data: seq<byte>, pos: nat, a: seq<i64>, q: nat)
    requires ParseCount(data, pos) == Ok(Parsed(|a|, pos + 4))
    requires ParseLongs(data, pos + 4, |a|) == Ok(Parsed(a, q))
    ensures ParseArray(data, pos, Longs) == Ok(Parsed(LongArrayTag(None, a), q))
  {
    hide ParseCount, ParseSBytes, ParseInts, ParseLongs;
  }

  /** A payload that was written at `pos` reads back as the canonical tag, unnamed, and the
      reader stops right after it. */
  lemma {:induction false} PayloadRoundTrip(t: Tag, data: seq<byte>, pos: nat)
    requires !t.EmptyTag? && Encodable(t) && Payload(t).Ok? && At(data, pos, Payload(t).value)
    ensures ParsePayload(data, pos, GetPrefix(t)) == Ok(Parsed(Unnamed(Canonical(t)), pos + |Payload(t).value|))
    decreases t, 2
  {
    hide *;
    match t
    case ByteTag(_, _) => ByteRoundTrip(t, data, pos);
    case BooleanTag(_, _) => ByteRoundTrip(t, data, pos);
    case ShortTag(_, _) => ShortRoundTrip(t, data, pos);
    case IntegerTag(_, _) => IntegerRoundTrip(t, data, pos);
    case LongTag(_, _) => LongRoundTrip(t, data, pos);
    case FloatTag(_, _) => FloatRoundTrip(t, data, pos);
    case DoubleTag(_, _) => DoubleRoundTrip(t, data, pos);
    case StringTag(_, _) => StringTagRoundTrip(t, data, pos);
    case ByteArrayTag(_, _) => ByteArrayTagRoundTrip(t, data, pos);
    case IntArrayTag(_, _) => IntArrayTagRoundTrip(t, data, pos);
    case LongArrayTag(_, _) => LongArrayTagRoundTrip(t, data, pos);
    case ListTag(_, _) => ListRoundTrip(t, data, pos);
    case CompoundTag(_, _) => CompoundRoundTrip(t, data, pos);
  }

  lemma {:induction false} ListRoundTrip(t: Tag, data: seq<byte>, pos: nat)
    requires t.ListTag? && Encodable(t) && Payload(t).Ok? && At(data, pos, Payload(t).value)
    ensures ParsePayload(data, pos, List) == Ok(Parsed(Unnamed(Canonical(t)), pos + |Payload(t).value|))
    decreases t, 1
  {
    hide ParseSByte, ParseShort, ParseInteger, ParseLong, ParseFloat, ParseDouble, ParseString;
    hide ParseList, ParseElements, ParseCompound, ParseArray, Payload, Elements, Children;
    hide Encodable, EncodableElement, CanonicalList, CanonicalChildren, At, WriteInt32BE;
    var tags := t.tags;
    ListLayout(t, data, pos);
    IntegerAt(|tags|, data, pos + 1);
    var q := pos + |Payload(t).value|;
    if tags == [] {
      ListStep(data, pos, 0, Some(End), 0, [], q);
    } else {
      var p := GetPrefix(tags[0]);
      FromCodeOfCode(p, End);
      assert q == pos + 5 + |Elements(tags).value|;
      ElementsRoundTrip(tags, p, data, pos + 5, q);
      ListStep(data, pos, Code(p), Some(p), |tags|, CanonicalList(tags), q);
    }
  }

  /** A list payload is its element type byte, its count and its elements. */
  lemma ListLayout(t: Tag, data: seq<byte>, pos: nat)
    requires t.ListTag? && Encodable(t) && Payload(t).Ok? && At(data, pos, Payload(t).value)
    ensures Elements(t.tags).Ok? && |Payload(t).value| == 5 + |Elements(t.tags).value|
    ensures t.tags == [] ==> |Payload(t).value| == 5
    ensures pos < |data| && data[pos] == ElementType(t.tags)
    ensures At(data, pos + 1, WriteInt32BE(|t.tags|)) && At(data, pos + 5, Elements(t.tags).value)
    ensures t.tags != [] ==> !t.tags[0].EmptyTag?
    ensures t.tags != [] ==> forall k :: 0 <= k < |t.tags| ==> EncodableElement(t.tags[k], GetPrefix(t.tags[0]))
  {
    hide ParseSByte, ParseShort, ParseInteger, ParseLong, ParseFloat, ParseDouble, ParseString;
    hide ParseList, ParseElements, ParseCompound, ParseArray, ParsePayload, Children, Serialise;
    hide WriteInt32BE, ElementType, CanonicalList, CanonicalChildren, Canonical;
    var head := [ElementType(t.tags)] + WriteInt32BE(|t.tags|);
    assert Payload(t) == Ok(head + Elements(t.tags).value);
    AtSplit(data, pos, head, Elements(t.tags).value);
    AtSplit(data, pos, [ElementType(t.tags)], WriteInt32BE(|t.tags|));
    assert t.tags == [] ==> Elements(t.tags) == Ok([]);
    assert t.tags != [] ==> EncodableElement(t.tags[0], GetPrefix(t.tags[0]));
  }

  /** ReadList after its bytes were read: an End element type (the count ignored), or `n`
      elements of a known type. */
  lemma ListStep(data: seq<byte>, pos: nat, code: byte, p: Option<Prefix>, n: nat, elems: seq<Tag>, q: nat)
    requires pos < |data| && data[pos] == code && FromCode(code) == p
    requires ParseInteger(data, pos + 1) == Ok(Parsed(n, pos + 5))
    requires code == 0 ==> elems == [] && q == pos + 5
    requires code != 0 ==>
      p.Some? && p.value != End && ParseElements(data, pos + 5, p.value, n) == Ok(Parsed(elems, q))
    ensures ParsePayload(data, pos, List) == Ok(Parsed(ListTag(None, elems), q))
  {
    hide ParseSByte, ParseShort, ParseInteger, ParseLong, ParseFloat, ParseDouble, ParseString;
    hide ParseElements, ParseCompound, ParseArray, FromCode;
  }

  /** The elements of a list, written one after the other, read back as the canonical elements. */
  lemma {:induction false} ElementsRoundTrip(tags: seq<Tag>, p: PayloadPrefix, data: seq<byte>, pos: nat, q: nat)
    requires forall k :: 0 <= k < |tags| ==> EncodableElement(tags[k], p)
    requires Elements(tags).Ok? && At(data, pos, Elements(tags).value) && q == pos + |Elements(tags).value|
    ensures ParseElements(data, pos, p, |tags|) == Ok(Parsed(CanonicalList(tags), q))
    decreases tags, 0
  {
    hide *;
    if tags == [] {
      ElementsNil(p, data, pos);
    } else {
      var e := tags[0];
      ElementsCons(tags, p, data, pos);
      var m := pos + |Payload(e).value|;
      assert m + |Elements(tags[1..]).value| == q;
      PayloadRoundTrip(e, data, pos);
      UnnamedElement(e);
      ElementsRoundTrip(tags[1..], p, data, m, q);
      ElementStep(data, pos, p, Canonical(e), m, |tags|, CanonicalList(tags[1..]), q);
    }
  }

  lemma ElementsNil(p: PayloadPrefix, data: seq<byte>, pos: nat)
    requires Elements([]).Ok? && At(data, pos, Elements([]).value)
    ensures ParseElements(data, pos, p, 0) == Ok(Parsed(CanonicalList([]), pos + |Elements([]).value|))
  {
    hide ParsePayload, Serialise, Canonical;
  }

  /** How the first element of a non-empty list splits off on both sides. */
  lemma ElementsCons(tags: seq<Tag>, p: PayloadPrefix, data: seq<byte>, pos: nat)
    requires tags != [] && forall k :: 0 <= k < |tags| ==> EncodableElement(tags[k], p)
    requires Elements(tags).Ok? && At(data, pos, Elements(tags).value)
    ensures !tags[0].EmptyTag? && tags[0].name.None? && GetPrefix(tags[0]) == p && Encodable(tags[0])
    ensures Payload(tags[0]).Ok? && Elements(tags[1..]).Ok?
    ensures forall k :: 0 <= k < |tags[1..]| ==> EncodableElement(tags[1..][k], p)
    ensures |Elements(tags).value| == |Payload(tags[0]).value| + |Elements(tags[1..]).value|
    ensures At(data, pos, Payload(tags[0]).value)
    ensures At(data, pos + |Payload(tags[0]).value|, Elements(tags[1..]).value)
    ensures CanonicalList(tags) == [Canonical(tags[0])] + CanonicalList(tags[1..])
  {
    hide ParsePayload, Payload, Encodable, Canonical;
    var e := tags[0];
    assert EncodableElement(e, p);
    assert Serialise(e, true) == Ok([] + [] + Payload(e).value);
    assert [] + [] + Payload(e).value == Payload(e).value;
    assert Elements(tags).value == Payload(e).value + Elements(tags[1..]).value;
    AtSplit(data, pos, Payload(e).value, Elements(tags[1..]).value);
    assert forall k :: 0 <= k < |tags[1..]| ==> tags[1..][k] == tags[k + 1];
  }

  /** A list element, unnamed, reads back with no name to strip. */
  lemma UnnamedElement(e: Tag)
    requires !e.EmptyTag? && e.name.None?
    ensures Unnamed(Canonical(e)) == Canonical(e)
  {
    hide CanonicalList, CanonicalChildren;
    WithOwnName(Canonical(e));
  }

  /** One element read by ReadList's loop, in front of the rest. */
  lemma ElementStep(data: seq<byte>, pos: nat, p: PayloadPrefix, e: Tag, m: nat, n: nat, es: seq<Tag>, q: nat)
    requires n > 0 && pos <= |data| && ParsePayload(data, pos, p) == Ok(Parsed(e, m))
    requires ParseElements(data, m, p, n - 1) == Ok(Parsed(es, q))
    ensures ParseElements(data, pos, p, n) == Ok(Parsed([e] + es, q))
  {
    hide ParsePayload;
  }

  lemma {:induction false} CompoundRoundTrip(t: Tag, data: seq<byte>, pos: nat)
    requires t.CompoundTag? && Encodable(t) && Payload(t).Ok? && At(data, pos, Payload(t).value)
    ensures ParsePayload(data, pos, Compound) == Ok(Parsed(Unnamed(Canonical(t)), pos + |Payload(t).value|))
    decreases t, 1
  {
    hide ParseSByte, ParseShort, ParseInteger, ParseLong, ParseFloat, ParseDouble, ParseString;
    hide ParseList, ParseChildren, ParseArray, Elements, Children, EncodableChild;
    hide CanonicalList, CanonicalChildren, At;
    var cb := Children(t.children).value;
    assert Payload(t) == Ok(cb + [0]);
    ChildrenRoundTrip(t.children, data, pos);
    assert Unnamed(Canonical(t)) == CompoundTag(None, CanonicalChildren(t.children));
  }

  /** The children of a compound and its End byte read back as the canonical children. */
  lemma {:induction false} ChildrenRoundTrip(cs: seq<Option<Tag>>, data: seq<byte>, pos: nat)
    requires forall k :: 0 <= k < |cs| && cs[k].Some? ==> EncodableChild(cs[k].value)
    requires Children(cs).Ok? && At(data, pos, Children(cs).value + [0])
    ensures ParseChildren(data, pos) == Ok(Parsed(CanonicalChildren(cs), pos + |Children(cs).value| + 1))
    decreases cs, 2
  {
    hide *;
    if cs == [] {
      ChildrenEnd(data, pos);
    } else {
      ChildrenCons(cs, data, pos);
      var m := pos + |Child(cs[0]).value|;
      var q := pos + |Children(cs).value| + 1;
      assert m + |Children(cs[1..]).value| + 1 == q;
      ChildrenRoundTrip(cs[1..], data, m);
      SlotRoundTrip(cs[0], data, pos, m, CanonicalChildren(cs[1..]), q);
    }
  }

  /** The End byte closes a compound. */
  lemma ChildrenEnd(data: seq<byte>, pos: nat)
    requires At(data, pos, Children([]).value + [0])
    ensures ParseChildren(data, pos) == Ok(Parsed(CanonicalChildren([]), pos + |Children([]).value| + 1))
  {
    hide ParseNamedChild, Child, CanonicalSlot;
    assert Children([]) == Ok([]);
    assert data[pos] == ([] + [0])[0];
  }

  /** How the first slot of a non-empty children sequence splits off on both sides. */
  lemma ChildrenCons(cs: seq<Option<Tag>>, data: seq<byte>, pos: nat)
    requires cs != [] && Children(cs).Ok? && At(data, pos, Children(cs).value + [0])
    requires forall k :: 0 <= k < |cs| && cs[k].Some? ==> EncodableChild(cs[k].value)
    ensures Child(cs[0]).Ok? && Children(cs[1..]).Ok?
    ensures |Children(cs).value| == |Child(cs[0]).value| + |Children(cs[1..]).value|
    ensures At(data, pos, Child(cs[0]).value)
    ensures At(data, pos + |Child(cs[0]).value|, Children(cs[1..]).value + [0])
    ensures CanonicalChildren(cs) == CanonicalSlot(cs[0]) + CanonicalChildren(cs[1..])
    ensures cs[0].Some? ==> EncodableChild(cs[0].value)
    ensures forall k :: 0 <= k < |cs[1..]| && cs[1..][k].Some? ==> EncodableChild(cs[1..][k].value)
  {
    hide Child, CanonicalSlot, EncodableChild, Serialise, Payload, GetPrefix, Children, Canonical;
    ChildrenUnfold(cs);
    AtSplitEnd(data, pos, Child(cs[0]).value, Children(cs[1..]).value);
    assert forall k :: 0 <= k < |cs[1..]| ==> cs[1..][k] == cs[k + 1];
  }

  /** One step of the compound body: the first slot's bytes, then the rest's. */
  lemma ChildrenUnfold(cs: seq<Option<Tag>>)
    requires cs != [] && Children(cs).Ok?
    ensures Child(cs[0]).Ok? && Children(cs[1..]).Ok?
    ensures Children(cs).value == Child(cs[0]).value + Children(cs[1..]).value
  {
    hide Child, Serialise, Payload, GetPrefix;
  }

  lemma AtSplitEnd(data: seq<byte>, pos: nat, a: seq<byte>, b: seq<byte>)
    requires At(data, pos, a + b + [0])
    ensures At(data, pos, a) && At(data, pos + |a|, b + [0])
  {
    assert a + b + [0] == a + (b + [0]);
    AtSplit(data, pos, a, b + [0]);
  }

  /** One slot written at `pos` reads back in front of whatever follows it: a null slot was
      not written at all, and a named child reads back as its canonical tag. */
  lemma {:induction false} SlotRoundTrip(o: Option<Tag>, data: seq<byte>, pos: nat, n: nat, rs: seq<Option<Tag>>, q: nat)
    requires o.Some? ==> EncodableChild(o.value)
    requires Child(o).Ok? && At(data, pos, Child(o).value) && n == pos + |Child(o).value|
    requires ParseChildren(data, n) == Ok(Parsed(rs, q))
    ensures ParseChildren(data, pos) == Ok(Parsed(CanonicalSlot(o) + rs, q))
    decreases o, 2
  {
    hide ParseChildren, ParseNamedChild, Serialise, GetName, Canonical, EncodableChild, At;
    if o.None? {
      assert Child(o).value == [] && CanonicalSlot(o) == [];
      assert [] + rs == rs;
    } else {
      var c := o.value;
      ChildRoundTrip(o, data, pos);
      assert CanonicalSlot(o) == [Some(Canonical(c))];
      ChildStep(data, pos, Code(GetPrefix(c)), Canonical(c), n, rs, q);
    }
  }

  /** One pass of ReadCompoundTag's loop: a non-End type byte and a named child in front of
      the rest of the children. */
  lemma ChildStep(data: seq<byte>, pos: nat, code: byte, child: Tag, n: nat, rs: seq<Option<Tag>>, q: nat)
    requires code != 0 && pos < |data| && data[pos] == code
    requires ParseNamedChild(data, pos + 1, code) == Ok(Parsed(child, n))
    requires ParseChildren(data, n) == Ok(Parsed(rs, q))
    ensures ParseChildren(data, pos) == Ok(Parsed([Some(child)] + rs, q))
  {
    hide ParseNamedChild;
  }

  /** One named child, written with its type and name, reads back as its canonical tag. */
  lemma {:induction false} ChildRoundTrip(o: Option<Tag>, data: seq<byte>, pos: nat)
    requires o.Some? && EncodableChild(o.value) && Child(o).Ok? && At(data, pos, Child(o).value)
    ensures pos < |data| && data[pos] == Code(GetPrefix(o.value)) != 0
    ensures ParseNamedChild(data, pos + 1, Code(GetPrefix(o.value)))
      == Ok(Parsed(Canonical(o.value), pos + |Child(o).value|))
    decreases o, 1
  {
    hide *;
    var c := o.value;
    var p := GetPrefix(c);
    ChildLayout(o, data, pos);
    var m := pos + 1 + |StringBytes(c.name.value).value|;
    var n := pos + |Child(o).value|;
    ChildPartsRoundTrip(o, data, pos, m, n);
    FromCodeOfCode(p, End);
    RenameCanonical(c);
    NamedChildStep(data, pos + 1, Code(p), p, c.name.value, Unnamed(Canonical(c)), m, n);
  }

  /** The name and the payload of a written child read back. */
  lemma {:induction false} ChildPartsRoundTrip(o: Option<Tag>, data: seq<byte>, pos: nat, m: nat, n: nat)
    requires o.Some? && EncodableChild(o.value) && Child(o).Ok? && At(data, pos, Child(o).value)
    requires StringBytes(o.value.name.value).Ok? && m == pos + 1 + |StringBytes(o.value.name.value).value|
    requires n == pos + |Child(o).value|
    ensures ParseString(data, pos + 1) == Ok(Parsed(o.value.name.value, m))
    ensures ParsePayload(data, m, GetPrefix(o.value)) == Ok(Parsed(Unnamed(Canonical(o.value)), n))
    decreases o, 0
  {
    hide *;
    var c := o.value;
    ChildLayout(o, data, pos);
    assert m + |Payload(c).value| == n;
    StringRoundTrip(c.name.value, data, pos + 1, m);
    PayloadRoundTrip(c, data, m);
  }

  /** Naming the unnamed canonical tag with the tag's own name gives the canonical tag. */
  lemma RenameCanonical(c: Tag)
    requires !c.EmptyTag? && c.name.Some?
    ensures WithName(Unnamed(Canonical(c)), Some(c.name.value)).value == Canonical(c)
  {
    hide CanonicalList, CanonicalChildren;
    WithNameLastWins(Canonical(c), None, c.name);
    WithOwnName(Canonical(c));
  }

  /** A named child is written as its type byte, its name and its payload. */
  lemma ChildLayout(o: Option<Tag>, data: seq<byte>, pos: nat)
    requires o.Some? && EncodableChild(o.value) && Child(o).Ok? && At(data, pos, Child(o).value)
    ensures !o.value.EmptyTag? && o.value.name.Some? && Encodable(o.value)
    ensures StringBytes(o.value.name.value).Ok? && Payload(o.value).Ok?
    ensures |Child(o).value| == 1 + |StringBytes(o.value.name.value).value| + |Payload(o.value).value|
    ensures pos < |data| && data[pos] == Code(GetPrefix(o.value))
    ensures At(data, pos + 1, StringBytes(o.value.name.value).value)
    ensures At(data, pos + 1 + |StringBytes(o.value.name.value).value|, Payload(o.value).value)
  {
    hide ParseSByte, ParseShort, ParseInteger, ParseLong, ParseFloat, ParseDouble, ParseString;
    hide ParseList, ParseCompound, ParseArray, ParsePayload, Payload, StringBytes, Encodable;
    var c := o.value;
    assert Child(o) == Serialise(c, false);
    var nb := StringBytes(c.name.value).value;
    var pb := Payload(c).value;
    assert Child(o).value == [Code(GetPrefix(c))] + nb + pb;
    AtSplit(data, pos, [Code(GetPrefix(c))] + nb, pb);
    AtSplit(data, pos, [Code(GetPrefix(c))], nb);
  }

  /** One pass of ReadCompoundTag's loop after the type byte: the name, then the payload. */
  lemma NamedChildStep(data: seq<byte>, pos: nat, code: byte, p: PayloadPrefix, name: Text, payload: Tag, m: nat, n: nat)
    requires FromCode(code) == Some(p) && !payload.EmptyTag?
    requires ParseString(data, pos) == Ok(Parsed(name, m))
    requires ParsePayload(data, m, p) == Ok(Parsed(payload, n))
    ensures ParseNamedChild(data, pos, code) == Ok(Parsed(WithName(payload, Some(name)).value, n))
  {
    hide ParseString, ParsePayload, FromCode, WithName;
  }

  /** A tag the reader can read back is one Serialise accepts: every name it writes fits. */
  lemma {:induction false} EncodableSerialisable(t: Tag)
    requires Encodable(t) && NameFits(t.name)
    ensures Serialisable(t)
    decreases t
  {
    match t
    case ListTag(_, tags) =>
      forall k | 0 <= k < |tags|
        ensures Serialisable(tags[k])
      {
        EncodableSerialisable(tags[k]);
      }
    case CompoundTag(_, cs) =>
      forall k | 0 <= k < |cs| && cs[k].Some?
        ensures Serialisable(cs[k].value)
      {
        EncodableSerialisable(cs[k].value);
      }
    case _ =>
  }

  /** The root round trip: ReadNbt of what a root tag's Serialise() wrote, without implied
      root and without compression, is the tag itself, canonical. */
  lemma ReadNbtRoundTrip(t: Tag)
    requires RootEncodable(t)
    ensures Serialise(t, false).Ok?
    ensures ReadNbt(Serialise(t, false).value, false, NoCompression) == Ok(Canonical(t))
  {
    hide *;
    RootSerialisable(t);
    var data := Serialise(t, false).value;
    RootRoundTrip(t, data);
    ReadNbtStep(data, Canonical(t));
  }

  lemma RootSerialisable(t: Tag)
    requires RootEncodable(t)
    ensures Serialise(t, false).Ok?
  {
    hide Encodable, Serialise;
    if !t.EmptyTag? {
      EncodableSerialisable(t);
    }
    SerialiseOkIff(t, false);
  }

  /** ToTag on the written bytes of a root: its type byte, then its payload. */
  lemma RootRoundTrip(t: Tag, data: seq<byte>)
    requires RootEncodable(t) && Serialise(t, false) == Ok(data)
    ensures ParseRoot(data, 0) == Ok(Parsed(Canonical(t), |data|))
  {
    hide *;
    if t.EmptyTag? {
      EmptyRoot(t, data);
    } else {
      RootLayout(t, data);
      var p := GetPrefix(t);
      FromCodeOfCode(p, End);
      PayloadRoundTrip(t, data, 1);
      UnnamedElement(t);
      RootStep(data, Code(p), p, Canonical(t), |data|);
    }
  }

  lemma EmptyRoot(t: Tag, data: seq<byte>)
    requires t.EmptyTag? && Serialise(t, false) == Ok(data)
    ensures ParseRoot(data, 0) == Ok(Parsed(Canonical(t), |data|))
  {
  }

  /** A non-empty unnamed root is written as its type byte and its payload. */
  lemma RootLayout(t: Tag, data: seq<byte>)
    requires RootEncodable(t) && !t.EmptyTag? && Serialise(t, false) == Ok(data)
    ensures Encodable(t) && t.name.None? && Payload(t).Ok?
    ensures 0 < |data| && data[0] == Code(GetPrefix(t)) && |data| == 1 + |Payload(t).value|
    ensures At(data, 1, Payload(t).value)
  {
    hide Payload, Encodable;
    assert data == [Code(GetPrefix(t))] + Payload(t).value;
    assert data[1..1 + |Payload(t).value|] == Payload(t).value;
  }

  /** ToTag's dispatch on a known, non-End type byte: the payload of that type. */
  lemma RootStep(data: seq<byte>, code: byte, p: PayloadPrefix, t: Tag, n: nat)
    requires 0 < |data| && data[0] == code && FromCode(code) == Some(p)
    requires ParsePayload(data, 1, p) == Ok(Parsed(t, n))
    ensures ParseRoot(data, 0) == Ok(Parsed(t, n))
  {
    hide ParsePayload, FromCode;
  }

  /** ReadNbt without implied root and compression is ToTag from position 0. */
  lemma ReadNbtStep(data: seq<byte>, t: Tag)
    requires ParseRoot(data, 0) == Ok(Parsed(t, |data|))
    ensures ReadNbt(data, false, NoCompression) == Ok(t)
  {
    hide ParseRoot;
  }

  /** Implied root: ReadNbt of a compound's children without its header reads them as an
      unnamed compound, because the reader frames them with a Compound type byte and an End
      byte. */
  lemma ImpliedRootRoundTrip(cs: seq<Option<Tag>>)
    requires forall k :: 0 <= k < |cs| && cs[k].Some? ==> EncodableChild(cs[k].value)
    requires Children(cs).Ok?
    ensures ReadNbt(Children(cs).value, true, NoCompression) == Ok(CompoundTag(None, CanonicalChildren(cs)))
  {
    hide *;
    var body := Children(cs).value;
    var framed := Framed(body, 0, true);
    FramedLayout(body, framed);
    ChildrenRoundTrip(cs, framed, 1);
    ImpliedRootStep(body, framed, CanonicalChildren(cs), |framed|);
  }

  lemma FramedLayout(body: seq<byte>, framed: seq<byte>)
    requires framed == Framed(body, 0, true)
    ensures At(framed, 1, body + [0])
  {
    hide Framed;
    assert framed[1..1 + |body + [0]|] == body + [0];
  }

  /** ToTag on the framed bytes: the Compound type byte, then the children. */
  lemma ImpliedRootStep(body: seq<byte>, framed: seq<byte>, cs: seq<Option<Tag>>, n: nat)
    requires framed == Framed(body, 0, true)
    requires ParseChildren(framed, 1) == Ok(Parsed(cs, n))
    ensures ReadNbt(body, true, NoCompression) == Ok(CompoundTag(None, cs))
  {
    hide ParseChildren, Framed;
    assert framed[0] == Code(Compound);
    assert ParseCompound(framed, 1) == Ok(Parsed(CompoundTag(None, cs), n));
    assert ParsePayload(framed, 1, Compound) == Ok(Parsed(CompoundTag(None, cs), n));
    assert ParseRoot(framed, 0) == Ok(Parsed(CompoundTag(None, cs), n));
  }
}
