/** The bytes each tag class's `Serialise(noType)` produces (the Serialise method of every
    class under NBT/Tags, built with NbtBuilder), as functions of the tag: the reference the
    builder-based methods are proved against and the decoder is proved to invert. */
module Encoding {
  import opened Binary
  import opened Results
  import opened NbtTagPrefix
  import opened Tags

  /** WriteType: the prefix byte, unless the type is omitted. */
  function TypeBytes(p: Prefix, noType: bool): (r: seq<byte>)
    ensures noType ==> r == []
    ensures !noType ==> r == [Code(p)]
  {
    if noType then [] else [Code(p)]
  }

  /** WriteString: a big-endian u16 byte count, then the UTF-8 bytes; more than 65535 bytes throw. */
  function StringBytes(s: Text): (r: Result<seq<byte>>)
    ensures r.Ok? <==> |s| <= 0xFFFF
    ensures r.Err? ==> r.error == StringTooLong(|s|)
    ensures r.Ok? ==> |r.value| == 2 + |s| && r.value[2..] == s && FromUnsignedBE(r.value[..2]) == |s|
  {
    if |s| > 0xFFFF then Err(StringTooLong(|s|))
    else
      WriteUInt16RoundTrip(|s|);
      assert (WriteUInt16BE(|s|) + s)[..2] == WriteUInt16BE(|s|);
      Ok(WriteUInt16BE(|s|) + s)
  }

  /** WriteName: nothing for a null name, otherwise the name as a string. */
  function NameBytes(n: Name): (r: Result<seq<byte>>)
    ensures n.None? ==> r == Ok([])
    ensures n.Some? ==> r == StringBytes(n.value)
  {
    if n.None? then Ok([]) else StringBytes(n.value)
  }

  /** Whether a name can be written (at most 65535 UTF-8 bytes). */
  predicate NameFits(n: Name) {
    n.None? || |n.value| <= 0xFFFF
  }

  /** The payload bytes of WriteByte for each element of a byte array. */
  function SByteBytes(a: seq<i8>): (r: seq<byte>)
    ensures |r| == |a|
  {
    if a == [] then [] else [SByteToByte(a[0])] + SByteBytes(a[1..])
  }

  function IntBytes(a: seq<i32>): (r: seq<byte>)
    ensures |r| == 4 * |a|
  {
    if a == [] then [] else WriteInt32BE(a[0]) + IntBytes(a[1..])
  }

  function LongBytes(a: seq<i64>): (r: seq<byte>)
    ensures |r| == 8 * |a|
  {
    if a == [] then [] else WriteInt64BE(a[0]) + LongBytes(a[1..])
  }

  /** The type byte ListTag writes before the count: End for an empty list, else the first tag's prefix. */
  function ElementType(tags: seq<Tag>): (b: byte)
    ensures tags == [] ==> b == 0
    ensures tags != [] ==> b == Code(GetPrefix(tags[0]))
  {
    if tags == [] then 0 else Code(GetPrefix(tags[0]))
  }

  /** `Serialise(noType)`: EmptyTag writes the single End byte (even with `noType`); every
      other tag writes its type (unless omitted), its name (if any), then its payload. */
  function Serialise(t: Tag, noType: bool): (r: Result<seq<byte>>)
    ensures t.EmptyTag? ==> r == Ok([0])
    ensures r.Ok? ==> |r.value| > 0
    ensures !t.EmptyTag? && !noType && r.Ok? ==> r.value[0] == Code(GetPrefix(t))
    decreases t, 2
  {
    if t.EmptyTag? then Ok([0])
    else
      var nb :- NameBytes(t.name);
      var pb :- Payload(t);
      Ok(TypeBytes(GetPrefix(t), noType) + nb + pb)
  }

  /** What each class's Serialise writes after the name. */
  function Payload(t: Tag): (r: Result<seq<byte>>)
    requires !t.EmptyTag?
    ensures r.Ok? ==> |r.value| > 0
    ensures t.CompoundTag? && r.Ok? ==> r.value[|r.value| - 1] == 0
    decreases t, 1
  {
    match t
    case ByteTag(_, b) => Ok([SByteToByte(b)])
    case BooleanTag(_, _) => Ok([SByteToByte(ByteValue(t))])
    case ShortTag(_, s) => Ok(WriteInt16BE(s))
    case IntegerTag(_, i) => Ok(WriteInt32BE(i))
    case LongTag(_, l) => Ok(WriteInt64BE(l))
    case FloatTag(_, f) => Ok(WriteSingleBE(f))
    case DoubleTag(_, d) => Ok(WriteDoubleBE(d))
    case StringTag(_, s) => StringBytes(s)
    case ByteArrayTag(_, a) => Ok(WriteInt32BE(|a|) + SByteBytes(a))
    case IntArrayTag(_, a) => Ok(WriteInt32BE(|a|) + IntBytes(a))
    case LongArrayTag(_, a) => Ok(WriteInt32BE(|a|) + LongBytes(a))
    case ListTag(_, tags) =>
      var eb :- Elements(tags);
      Ok([ElementType(tags)] + WriteInt32BE(|tags|) + eb)
    case CompoundTag(_, children) =>
      var cb :- Children(children);
      Ok(cb + [0])
  }

  /** The list elements, each written with `Serialise(true)`, in order. */
  function Elements(tags: seq<Tag>): (r: Result<seq<byte>>)
    ensures r.Ok? ==> |r.value| >= |tags|
    decreases tags, 0
  {
    if tags == [] then Ok([])
    else
      var first :- Serialise(tags[0], true);
      var rest :- Elements(tags[1..]);
      Ok(first + rest)
  }

  /** The compound's children in order: null ones are skipped; an unnamed one throws
      ArgumentException (EmptyTag's GetName throws first); the rest write `Serialise()`. */
  function Children(children: seq<Option<Tag>>): (r: Result<seq<byte>>)
    ensures children == [] ==> r == Ok([])
    decreases children, 1
  {
    if children == [] then Ok([])
    else
      var first :- Child(children[0]);
      var rest :- Children(children[1..]);
      Ok(first + rest)
  }

  /** One child slot of a compound. */
  function Child(c: Option<Tag>): (r: Result<seq<byte>>)
    ensures c.None? ==> r == Ok([])
    ensures c.Some? && c.value.EmptyTag? ==> r == Err(NotSupported)
    ensures c.Some? && !c.value.EmptyTag? && c.value.name.None? ==> r == Err(UnnamedChild)
    ensures c.Some? && !c.value.EmptyTag? && c.value.name.Some? ==> r == Serialise(c.value, false)
    decreases c, 0
  {
    if c.None? then Ok([])
    else
      var n :- GetName(c.value);
      if n.None? then Err(UnnamedChild) else Serialise(c.value, false)
  }

  /** The tags whose serialisation does not throw: every name and string fits in 65535 bytes,
      and every non-null compound child is a named, non-empty tag. */
  predicate Serialisable(t: Tag)
    decreases t
  {
    match t
    case EmptyTag => true
    case StringTag(n, s) => NameFits(n) && |s| <= 0xFFFF
    case ListTag(n, tags) => NameFits(n) && forall k :: 0 <= k < |tags| ==> Serialisable(tags[k])
    case CompoundTag(n, cs) =>
      && NameFits(n)
      && forall k :: 0 <= k < |cs| && cs[k].Some? ==>
           !cs[k].value.EmptyTag? && cs[k].value.name.Some? && Serialisable(cs[k].value)
    case _ => NameFits(t.name)
  }

  /** Serialise succeeds exactly on the serialisable tags, with or without the type byte. */
  lemma {:induction false} SerialiseOkIff(t: Tag, noType: bool)
    ensures Serialise(t, noType).Ok? <==> Serialisable(t)
    decreases t, 2
  {
    if !t.EmptyTag? {
      PayloadOkIff(t);
    }
  }

  lemma {:induction false} PayloadOkIff(t: Tag)
    requires !t.EmptyTag?
    ensures Payload(t).Ok? <==> PayloadFits(t)
    ensures Serialisable(t) <==> NameFits(t.name) && PayloadFits(t)
    decreases t, 1
  {
    match t
    case ListTag(_, tags) => ElementsOkIff(tags);
    case CompoundTag(_, cs) => ChildrenOkIff(cs);
    case _ =>
  }

  /** Serialisability of a tag, apart from its own name. */
  predicate PayloadFits(t: Tag)
    requires !t.EmptyTag?
  {
    match t
    case StringTag(n, s) => |s| <= 0xFFFF
    case ListTag(n, tags) => forall k :: 0 <= k < |tags| ==> Serialisable(tags[k])
    case CompoundTag(n, cs) =>
      forall k :: 0 <= k < |cs| && cs[k].Some? ==>
        !cs[k].value.EmptyTag? && cs[k].value.name.Some? && Serialisable(cs[k].value)
    case _ => true
  }

  lemma {:induction false} ElementsOkIff(tags: seq<Tag>)
    ensures Elements(tags).Ok? <==> forall k :: 0 <= k < |tags| ==> Serialisable(tags[k])
    decreases tags, 0
  {
    if tags != [] {
      SerialiseOkIff(tags[0], true);
      ElementsOkIff(tags[1..]);
      assert forall k :: 1 <= k < |tags| ==> tags[k] == tags[1..][k - 1];
    }
  }

  lemma {:induction false} ChildrenOkIff(cs: seq<Option<Tag>>)
    ensures Children(cs).Ok? <==> forall k :: 0 <= k < |cs| && cs[k].Some? ==>
      !cs[k].value.EmptyTag? && cs[k].value.name.Some? && Serialisable(cs[k].value)
    decreases cs, 1
  {
    if cs != [] {
      ChildOkIff(cs[0]);
      ChildrenOkIff(cs[1..]);
      assert forall k :: 1 <= k < |cs| ==> cs[k] == cs[1..][k - 1];
    }
  }

  lemma {:induction false} ChildOkIff(c: Option<Tag>)
    ensures Child(c).Ok? <==> c.None? || (!c.value.EmptyTag? && c.value.name.Some? && Serialisable(c.value))
    decreases c, 0
  {
    if c.Some? {
      SerialiseOkIff(c.value, false);
    }
  }

  /** With the type byte, a non-empty tag's encoding is its prefix code followed by its typeless encoding. */
  lemma TypeByteFirst(t: Tag)
    requires !t.EmptyTag? && Serialise(t, true).Ok?
    ensures Serialise(t, false) == Ok([Code(GetPrefix(t))] + Serialise(t, true).value)
  {
    hide Payload, NameBytes, GetPrefix;
    var nb := NameBytes(t.name).value;
    var pb := Payload(t).value;
    assert [Code(GetPrefix(t))] + nb + pb == [Code(GetPrefix(t))] + ([] + nb + pb);
  }

  /** The payload widths: one write call for a scalar; the i32 count, then one write call per
      value, for an array; the u16 length and the bytes for a string; the element type and the
      i32 count ahead of a list's elements. */
  lemma PayloadWidths(t: Tag)
    requires !t.EmptyTag?
    ensures t.ByteTag? || t.BooleanTag? ==> Payload(t).Ok? && |Payload(t).value| == 1
    ensures t.ShortTag? ==> Payload(t).Ok? && |Payload(t).value| == 2
    ensures t.IntegerTag? || t.FloatTag? ==> Payload(t).Ok? && |Payload(t).value| == 4
    ensures t.LongTag? || t.DoubleTag? ==> Payload(t).Ok? && |Payload(t).value| == 8
    ensures t.StringTag? ==> (Payload(t).Ok? <==> |t.text| <= 0xFFFF)
    ensures t.StringTag? && Payload(t).Ok? ==> |Payload(t).value| == 2 + |t.text|
    ensures t.ByteArrayTag? ==> Payload(t).Ok? && |Payload(t).value| == 4 + |t.bytes|
    ensures t.IntArrayTag? ==> Payload(t).Ok? && |Payload(t).value| == 4 + 4 * |t.ints|
    ensures t.LongArrayTag? ==> Payload(t).Ok? && |Payload(t).value| == 4 + 8 * |t.longs|
    ensures t.ListTag? && Payload(t).Ok? ==>
      && |Payload(t).value| >= 5 && Payload(t).value[0] == ElementType(t.tags)
      && Payload(t).value[1..5] == WriteInt32BE(|t.tags|)
  {
  }

  /** A compound whose children are all null writes no child bytes. */
  lemma {:induction false} NullChildrenWriteNothing(children: seq<Option<Tag>>)
    requires forall k :: 0 <= k < |children| ==> children[k].None?
    ensures Children(children) == Ok([])
    decreases |children|
  {
    if children != [] {
      assert forall k :: 0 <= k < |children[1..]| ==> children[1..][k] == children[k + 1];
      NullChildrenWriteNothing(children[1..]);
      assert Child(children[0]) == Ok([]);
      var rest: seq<byte> := Children(children[1..]).value;
      assert rest == [] && [] + rest == [];
      assert Children(children) == Ok([] + rest);
    }
  }
}
