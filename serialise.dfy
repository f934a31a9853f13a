/** The tag classes' Serialise methods as the C# writes them: a fresh NbtBuilder per tag,
    the type, the name, then the payload, with a loop over list elements, compound
    children and array values. Each is proved to produce exactly `Encoding.Serialise`. */
module Serialiser {
  import opened Binary
  import opened Results
  import opened NbtTagPrefix
  import opened Tags
  import opened Encoding
  import opened Builder

  /** `acc` followed by the bytes of `r`, or the failure of `r`. */
  function Prepend(acc: seq<byte>, r: Result<seq<byte>>): (q: Result<seq<byte>>)
    ensures q.Ok? <==> r.Ok?
    ensures q.Err? ==> q == r
  {
    if r.Err? then r else Ok(acc + r.value)
  }

  /** The bytes of one step, then the rest, after `acc`. */
  lemma PrependStep(acc: seq<byte>, first: seq<byte>, rest: Result<seq<byte>>)
    ensures Prepend(acc, if rest.Err? then rest else Ok(first + rest.value)) == Prepend(acc + first, rest)
  {
    if rest.Ok? {
      assert acc + (first + rest.value) == acc + first + rest.value;
    }
  }

  /** INbtTag.Serialise(noType), dispatched on the tag's class. */
  method SerialiseTag(t: Tag, noType: bool) returns (r: Result<seq<byte>>)
    ensures r == Serialise(t, noType)
    decreases t, 2
  {
    hide Payload, Elements, Children, Child, TypeBytes, NameBytes, StringBytes;
    var b := new NbtBuilder();
    if t.EmptyTag? {
      b.WriteOne(Code(GetPrefix(t)));
      var bytes := b.ToArray();
      assert bytes == [0];
      return Ok(bytes);
    }
    b.WriteType(GetPrefix(t), noType);
    var named := b.WriteName(t.name);
    if named.Fail? {
      return Err(named.error);
    }
    var written := WritePayload(b, t);
    if written.Fail? {
      return Err(written.error);
    }
    var bytes := b.ToArray();
    assert bytes == TypeBytes(GetPrefix(t), noType) + NameBytes(t.name).value + Payload(t).value;
    return Ok(bytes);
  }

  /** NbtBuilder.Write(INbtTag): append the tag's `Serialise()`. */
  method WriteTag(b: NbtBuilder, t: Tag) returns (o: Outcome)
    modifies b
    ensures o.Pass? <==> Serialise(t, false).Ok?
    ensures o.Fail? ==> Serialise(t, false) == Err(o.error) && b.data == old(b.data)
    ensures o.Pass? ==> b.data == old(b.data) + Serialise(t, false).value
  {
    var bytes := SerialiseTag(t, false);
    if bytes.Err? {
      return Fail(bytes.error);
    }
    b.Write(bytes.value);
    return Pass;
  }

  /** What each class writes after its name. */
  method WritePayload(b: NbtBuilder, t: Tag) returns (o: Outcome)
    requires !t.EmptyTag?
    modifies b
    ensures o.Pass? <==> Payload(t).Ok?
    ensures o.Fail? ==> Payload(t) == Err(o.error)
    ensures o.Pass? ==> b.data == old(b.data) + Payload(t).value
    decreases t, 1
  {
    hide *;
    if t.ListTag? {
      ListPayload(t);
      o := WriteList(b, t, t.tags);
    } else if t.CompoundTag? {
      CompoundPayload(t);
      o := WriteCompound(b, t, t.children);
    } else {
      o := WriteValue(b, t);
    }
  }

  /** A list's payload is its element type, its count and its elements, or their failure. */
  lemma ListPayload(t: Tag)
    requires t.ListTag?
    ensures Payload(t).Ok? <==> Elements(t.tags).Ok?
    ensures Payload(t).Err? ==> Payload(t) == Elements(t.tags)
    ensures Payload(t).Ok? ==> Payload(t).value == [ElementType(t.tags)] + WriteInt32BE(|t.tags|) + Elements(t.tags).value
  {
    hide Elements, ElementType, WriteInt32BE;
  }

  /** A compound's payload is its children followed by End, or their failure. */
  lemma CompoundPayload(t: Tag)
    requires t.CompoundTag?
    ensures Payload(t).Ok? <==> Children(t.children).Ok?
    ensures Payload(t).Err? ==> Payload(t) == Children(t.children)
    ensures Payload(t).Ok? ==> Payload(t).value == Children(t.children).value + [0]
  {
    hide Children;
  }

  /** The payload of a tag that holds no other tags. */
  method WriteValue(b: NbtBuilder, t: Tag) returns (o: Outcome)
    requires !t.EmptyTag? && !t.ListTag? && !t.CompoundTag?
    modifies b
    ensures o.Pass? <==> Payload(t).Ok?
    ensures o.Fail? ==> Payload(t) == Err(o.error)
    ensures o.Pass? ==> b.data == old(b.data) + Payload(t).value
  {
    hide Elements, Children, StringBytes, SByteBytes, IntBytes, LongBytes;
    hide WriteInt16BE, WriteInt32BE, WriteInt64BE, WriteSingleBE, WriteDoubleBE, SByteToByte;
    o := Pass;
    match t
    case ByteTag(_, v) => b.WriteByte(v);
    case BooleanTag(_, _) => b.WriteByte(ByteValue(t));
    case ShortTag(_, v) => b.WriteShort(v);
    case IntegerTag(_, v) => b.WriteInteger(v);
    case LongTag(_, v) => b.WriteLong(v);
    case FloatTag(_, v) => b.WriteFloat(v);
    case DoubleTag(_, v) => b.WriteDouble(v);
    case StringTag(_, v) => o := b.WriteString(v);
    case ByteArrayTag(_, a) => WriteBytes(b, a);
    case IntArrayTag(_, a) => WriteInts(b, a);
    case LongArrayTag(_, a) => WriteLongs(b, a);
  }

  /** ArrayTag<sbyte>.Serialise after the name: the count, then WriteByte per value. */
  method WriteBytes(b: NbtBuilder, a: ClrArray<i8>)
    modifies b
    ensures b.data == old(b.data) + WriteInt32BE(|a|) + SByteBytes(a)
  {
    b.WriteInteger(|a|);
    ghost var head := b.data;
    ghost var built: seq<byte> := [];
    for i := 0 to |a|
      invariant b.data == head + built
      invariant SByteBytes(a) == built + SByteBytes(a[i..])
    {
      assert a[i..][1..] == a[i + 1..];
      b.WriteByte(a[i]);
      built := built + [SByteToByte(a[i])];
    }
  }

  /** ArrayTag<int>.Serialise after the name: the count, then WriteInteger per value. */
  method WriteInts(b: NbtBuilder, a: ClrArray<i32>)
    modifies b
    ensures b.data == old(b.data) + WriteInt32BE(|a|) + IntBytes(a)
  {
    b.WriteInteger(|a|);
    ghost var head := b.data;
    ghost var built: seq<byte> := [];
    for i := 0 to |a|
      invariant b.data == head + built
      invariant IntBytes(a) == built + IntBytes(a[i..])
    {
      assert a[i..][1..] == a[i + 1..];
      b.WriteInteger(a[i]);
      built := built + WriteInt32BE(a[i]);
    }
  }

  /** ArrayTag<long>.Serialise after the name: the count, then WriteLong per value. */
  method WriteLongs(b: NbtBuilder, a: ClrArray<i64>)
    modifies b
    ensures b.data == old(b.data) + WriteInt32BE(|a|) + LongBytes(a)
  {
    b.WriteInteger(|a|);
    ghost var head := b.data;
    ghost var built: seq<byte> := [];
    for i := 0 to |a|
      invariant b.data == head + built
      invariant LongBytes(a) == built + LongBytes(a[i..])
    {
      assert a[i..][1..] == a[i + 1..];
      b.WriteLong(a[i]);
      built := built + WriteInt64BE(a[i]);
    }
  }

  /** ListTag.Serialise after the name: the element type, the count, then each element's
      `Serialise(true)`. */
  method WriteList(b: NbtBuilder, ghost t: Tag, tags: ClrArray<Tag>) returns (o: Outcome)
    requires t.ListTag? && tags == t.tags
    modifies b
    ensures o.Pass? <==> Elements(tags).Ok?
    ensures o.Fail? ==> Elements(tags) == Err(o.error)
    ensures o.Pass? ==> b.data == old(b.data) + [ElementType(tags)] + WriteInt32BE(|tags|) + Elements(tags).value
    decreases t, 0
  {
    hide Serialise, Payload, Children, Child, ElementType, WriteInt32BE;
    b.WriteOne(ElementType(tags));
    b.WriteInteger(|tags|);
    ghost var head := b.data;
    ghost var built: seq<byte> := [];
    assert tags[0..] == tags;
    assert Elements(tags).Ok? ==> [] + Elements(tags).value == Elements(tags).value;
    for i := 0 to |tags|
      invariant b.data == head + built
      invariant Elements(tags) == Prepend(built, Elements(tags[i..]))
    {
      assert tags[i..][0] == tags[i] && tags[i..][1..] == tags[i + 1..];
      var bytes := SerialiseTag(tags[i], true);
      if bytes.Err? {
        return Fail(bytes.error);
      }
      b.Write(bytes.value);
      PrependStep(built, bytes.value, Elements(tags[i + 1..]));
      built := built + bytes.value;
    }
    assert tags[|tags|..] == [];
    return Pass;
  }

  /** CompoundTag.Serialise after the name: each non-null child's `Serialise()`, then End. */
  method WriteCompound(b: NbtBuilder, ghost t: Tag, children: seq<Option<Tag>>) returns (o: Outcome)
    requires t.CompoundTag? && children == t.children
    modifies b
    ensures o.Pass? <==> Children(children).Ok?
    ensures o.Fail? ==> Children(children) == Err(o.error)
    ensures o.Pass? ==> b.data == old(b.data) + Children(children).value + [0]
    decreases t, 0
  {
    hide Serialise, Payload, Elements, NameBytes;
    ghost var head := b.data;
    ghost var built: seq<byte> := [];
    assert children[0..] == children;
    assert Children(children).Ok? ==> [] + Children(children).value == Children(children).value;
    for i := 0 to |children|
      invariant b.data == head + built
      invariant Children(children) == Prepend(built, Children(children[i..]))
    {
      assert children[i..][0] == children[i] && children[i..][1..] == children[i + 1..];
      var child := children[i];
      if child.Some? {
        var name := GetName(child.value);
        if name.Err? {
          return Fail(name.error);
        }
        if name.value.None? {
          return Fail(UnnamedChild);
        }
        var bytes := SerialiseTag(child.value, false);
        if bytes.Err? {
          return Fail(bytes.error);
        }
        b.Write(bytes.value);
        assert Child(child) == bytes;
        PrependStep(built, bytes.value, Children(children[i + 1..]));
        built := built + bytes.value;
      } else {
        assert Child(child) == Ok([]);
        assert Children(children[i + 1..]).Ok? ==>
          [] + Children(children[i + 1..]).value == Children(children[i + 1..]).value;
        assert Children(children[i..]) == Children(children[i + 1..]);
      }
    }
    assert children[|children|..] == [];
    b.WriteOne(Code(End));
    return Pass;
  }
}
