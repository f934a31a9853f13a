/** The coercing accessors of TagExtensions (NBT/INbtTag.cs): each reads a tag as a C# value,
    widening smaller integer classes, range-checking narrowing ones, and failing with the exception
    the cast or the check throws. The argument is nullable, so it is an `Option<Tag>`. */
module Accessors {
  import opened Binary
  import opened Results
  import opened Tags
  import Encoding
  import Decoding
  import RoundTrip

  /** The exception a failed `(SomeTag)tag!` cast followed by a member access throws: a null tag
      casts to null and the access throws NullReferenceException; any other class throws
      InvalidCastException. */
  function CastError(tag: Option<Tag>): (e: Error)
    ensures e == NullReference <==> tag.None?
    ensures tag.Some? ==> e == InvalidCast
  {
    if tag.None? then NullReference else InvalidCast
  }

  /** The integer classes an accessor can read: ByteTag (with BooleanTag), ShortTag, IntegerTag, LongTag. */
  predicate Integral(t: Tag) {
    t.ByteTag? || t.BooleanTag? || t.ShortTag? || t.IntegerTag? || t.LongTag?
  }

  /** The number an integer-class tag stores. */
  function StoredValue(t: Tag): (v: int)
    requires Integral(t)
    ensures -0x8000_0000_0000_0000 <= v < 0x8000_0000_0000_0000
    ensures IsInstanceOf(t, ByteTagClass) ==> v == ByteValue(t)
  {
    match t
    case ByteTag(_, b) => b
    case BooleanTag(_, _) => ByteValue(t)
    case ShortTag(_, s) => s
    case IntegerTag(_, i) => i
    case LongTag(_, l) => l
  }

  /** C#'s unchecked `(sbyte)` conversion: the low eight bits as a two's-complement byte. */
  function SByteCast(v: int): (r: i8)
    ensures SByteToByte(r) == v % 0x100
    ensures -0x80 <= v < 0x80 ==> r == v
  {
    ByteToSByte(v % 0x100)
  }

  /** GetString: `((StringTag)tag!).Value`. */
  function GetString(tag: Option<Tag>): (r: Result<Text>)
    ensures r.Ok? <==> tag.Some? && tag.value.StringTag?
    ensures r.Ok? ==> r.value == tag.value.text
    ensures r.Err? ==> r.error == CastError(tag)
  {
    match tag
    case Some(StringTag(_, s)) => Ok(s)
    case _ => Err(CastError(tag))
  }

  /** GetByte: an IntegerTag is accepted from -128 to 128 inclusive and cast unchecked, so 128
      reads as -128; otherwise the tag must be a ByteTag (a BooleanTag is one). */
  function GetByte(tag: Option<Tag>): (r: Result<i8>)
    ensures r.Ok? <==> tag.Some? && (IsInstanceOf(tag.value, ByteTagClass) || (tag.value.IntegerTag? && -0x80 <= tag.value.i <= 0x80))
    ensures r.Ok? && IsInstanceOf(tag.value, ByteTagClass) ==> r.value == ByteValue(tag.value)
    ensures r.Ok? && tag.value.IntegerTag? ==> SByteToByte(r.value) == tag.value.i % 0x100
    ensures r.Err? && tag.Some? && tag.value.IntegerTag? ==> r.error == OutOfRange(tag.value.i)
    ensures r.Err? && !(tag.Some? && tag.value.IntegerTag?) ==> r.error == CastError(tag)
  {
    match tag
    case Some(IntegerTag(_, i)) =>
      if i > 0x80 || i < -0x80 then Err(OutOfRange(i)) else Ok(SByteCast(i))
    case Some(ByteTag(_, b)) => Ok(b)
    case Some(BooleanTag(_, _)) => Ok(ByteValue(tag.value))
    case _ => Err(CastError(tag))
  }

  /** GetShort: ByteTag widens, IntegerTag must lie in the `short` range, otherwise the tag must be a ShortTag. */
  function GetShort(tag: Option<Tag>): (r: Result<i16>)
    ensures r.Ok? <==> tag.Some? && (IsInstanceOf(tag.value, ByteTagClass) || tag.value.ShortTag? ||
                                     (tag.value.IntegerTag? && -0x8000 <= tag.value.i < 0x8000))
    ensures r.Ok? ==> r.value == StoredValue(tag.value)
    ensures r.Err? && tag.Some? && tag.value.IntegerTag? ==> r.error == OutOfRange(tag.value.i)
    ensures r.Err? && !(tag.Some? && tag.value.IntegerTag?) ==> r.error == CastError(tag)
  {
    match tag
    case Some(ByteTag(_, b)) => Ok(b)
    case Some(BooleanTag(_, _)) => Ok(ByteValue(tag.value))
    case Some(IntegerTag(_, i)) =>
      if i < -0x8000 || i > 0x7FFF then Err(OutOfRange(i)) else Ok(i)
    case Some(ShortTag(_, s)) => Ok(s)
    case _ => Err(CastError(tag))
  }

  /** GetInteger: ByteTag widens, LongTag must lie in the `int` range, otherwise the tag must be
      an IntegerTag; a ShortTag is rejected. */
  function GetInteger(tag: Option<Tag>): (r: Result<i32>)
    ensures r.Ok? <==> tag.Some? && (IsInstanceOf(tag.value, ByteTagClass) || tag.value.IntegerTag? ||
                                     (tag.value.LongTag? && -0x8000_0000 <= tag.value.l < 0x8000_0000))
    ensures r.Ok? ==> r.value == StoredValue(tag.value)
    ensures r.Err? && tag.Some? && tag.value.LongTag? ==> r.error == OutOfRange(tag.value.l)
    ensures r.Err? && !(tag.Some? && tag.value.LongTag?) ==> r.error == CastError(tag)
  {
    match tag
    case Some(ByteTag(_, b)) => Ok(b)
    case Some(BooleanTag(_, _)) => Ok(ByteValue(tag.value))
    case Some(LongTag(_, l)) =>
      if l < -0x8000_0000 || l > 0x7FFF_FFFF then Err(OutOfRange(l)) else Ok(l)
    case Some(IntegerTag(_, i)) => Ok(i)
    case _ => Err(CastError(tag))
  }

  /** GetLong: ByteTag and IntegerTag widen, otherwise the tag must be a LongTag; a ShortTag is rejected. */
  function GetLong(tag: Option<Tag>): (r: Result<i64>)
    ensures r.Ok? <==> tag.Some? && (IsInstanceOf(tag.value, ByteTagClass) || tag.value.IntegerTag? || tag.value.LongTag?)
    ensures r.Ok? ==> r.value == StoredValue(tag.value)
    ensures r.Err? ==> r.error == CastError(tag)
  {
    match tag
    case Some(ByteTag(_, b)) => Ok(b)
    case Some(BooleanTag(_, _)) => Ok(ByteValue(tag.value))
    case Some(IntegerTag(_, i)) => Ok(i)
    case Some(LongTag(_, l)) => Ok(l)
    case _ => Err(CastError(tag))
  }

  /** GetBoolean: a ByteTag (a BooleanTag included) gives BoolValue and an IntegerTag gives
      `Value != 0`; a null tag throws its own exception, any other class InvalidCastException.
      The source's final `booleanTag.Value` is never reached: a BooleanTag is a ByteTag. */
  function GetBoolean(tag: Option<Tag>): (r: Result<bool>)
    ensures r.Ok? <==> tag.Some? && (IsInstanceOf(tag.value, ByteTagClass) || tag.value.IntegerTag?)
    ensures r.Ok? ==> r.value == (StoredValue(tag.value) != 0)
    ensures r.Ok? && tag.value.BooleanTag? ==> r.value == tag.value.flag
    ensures r.Err? ==> r.error == if tag.None? then NullTag else InvalidCast
  {
    match tag
    case Some(ByteTag(_, _)) => Ok(BoolValue(tag.value))
    case Some(BooleanTag(_, _)) => Ok(BoolValue(tag.value))
    case Some(IntegerTag(_, i)) => Ok(i != 0)
    case None => Err(NullTag)
    case _ => Err(InvalidCast)
  }

  /** GetCompound: the tag itself when it is a CompoundTag; anything else, null included, throws
      InvalidCastException. */
  function GetCompound(tag: Option<Tag>): (r: Result<Tag>)
    ensures r.Ok? <==> tag.Some? && tag.value.CompoundTag?
    ensures r.Ok? ==> r.value == tag.value
    ensures r.Err? ==> r.error == InvalidCast
  {
    if tag.Some? && tag.value.CompoundTag? then Ok(tag.value) else Err(InvalidCast)
  }

  /** GetList: the tag itself when it is a ListTag; anything else, null included, throws InvalidCastException. */
  function GetList(tag: Option<Tag>): (r: Result<Tag>)
    ensures r.Ok? <==> tag.Some? && tag.value.ListTag?
    ensures r.Ok? ==> r.value == tag.value
    ensures r.Err? ==> r.error == InvalidCast
  {
    if tag.Some? && tag.value.ListTag? then Ok(tag.value) else Err(InvalidCast)
  }

  /** A scalar accessor applied to each list element in order, stopping at the first failure. */
  function Each<T>(tags: ClrArray<Tag>, get: Option<Tag> -> Result<T>): (r: Result<ClrArray<T>>)
    ensures r.Ok? <==> forall k :: 0 <= k < |tags| ==> get(Some(tags[k])).Ok?
    ensures r.Ok? ==> |r.value| == |tags| && forall k :: 0 <= k < |tags| ==> get(Some(tags[k])) == Ok(r.value[k])
    ensures r.Err? ==> exists k :: 0 <= k < |tags| && get(Some(tags[k])) == Err(r.error) &&
                                   forall j :: 0 <= j < k ==> get(Some(tags[j])).Ok?
  {
    var rs := seq(|tags|, k requires 0 <= k < |tags| => get(Some(tags[k])));
    assert forall k :: 0 <= k < |tags| ==> rs[k] == get(Some(tags[k]));
    match Collect(rs)
    case Ok(vs) => Ok(vs)
    case Err(e) => Err(e)
  }

  /** Values the accessor returns for every element, in order, are what Each returns. */
  lemma EachSucceeds<T>(tags: ClrArray<Tag>, get: Option<Tag> -> Result<T>, vs: seq<T>)
    requires |vs| == |tags| && forall k :: 0 <= k < |tags| ==> get(Some(tags[k])) == Ok(vs[k])
    ensures Each(tags, get) == Ok(vs)
  {
    var r := Each(tags, get);
    assert r.Ok? && |r.value| == |vs|;
    assert forall k :: 0 <= k < |vs| ==> r.value[k] == vs[k];
    assert r.value == vs;
  }

  /** A failure at element `i` after successes at every earlier element is the failure Each reports. */
  lemma EachFails<T>(tags: ClrArray<Tag>, get: Option<Tag> -> Result<T>, i: nat)
    requires i < |tags| && get(Some(tags[i])).Err? && forall j :: 0 <= j < i ==> get(Some(tags[j])).Ok?
    ensures Each(tags, get) == Err(get(Some(tags[i])).error)
  {
    var r := Each(tags, get);
    var k :| 0 <= k < |tags| && get(Some(tags[k])) == Err(r.error) && forall j :: 0 <= j < k ==> get(Some(tags[j])).Ok?;
    assert k == i;
  }

  /** What GetIntegers returns: GetInteger of each element of a list, or an `int` array's values. */
  function Integers(tag: Option<Tag>): (r: Result<ClrArray<i32>>)
    ensures tag.Some? && tag.value.ListTag? ==> r == Each(tag.value.tags, GetInteger)
    ensures tag.Some? && tag.value.IntArrayTag? ==> r == Ok(tag.value.ints)
    ensures !(tag.Some? && (tag.value.ListTag? || tag.value.IntArrayTag?)) ==> r == Err(CastError(tag))
  {
    match tag
    case Some(ListTag(_, tags)) => Each(tags, GetInteger)
    case Some(IntArrayTag(_, a)) => Ok(a)
    case _ => Err(CastError(tag))
  }

  /** What GetBytes returns: GetByte of each element of a list, or an `sbyte` array's values. */
  function SBytes(tag: Option<Tag>): (r: Result<ClrArray<i8>>)
    ensures tag.Some? && tag.value.ListTag? ==> r == Each(tag.value.tags, GetByte)
    ensures tag.Some? && tag.value.ByteArrayTag? ==> r == Ok(tag.value.bytes)
    ensures !(tag.Some? && (tag.value.ListTag? || tag.value.ByteArrayTag?)) ==> r == Err(CastError(tag))
  {
    match tag
    case Some(ListTag(_, tags)) => Each(tags, GetByte)
    case Some(ByteArrayTag(_, a)) => Ok(a)
    case _ => Err(CastError(tag))
  }

  /** What GetLongs returns: GetLong of each element of a list, or a `long` array's values. */
  function Longs(tag: Option<Tag>): (r: Result<ClrArray<i64>>)
    ensures tag.Some? && tag.value.ListTag? ==> r == Each(tag.value.tags, GetLong)
    ensures tag.Some? && tag.value.LongArrayTag? ==> r == Ok(tag.value.longs)
    ensures !(tag.Some? && (tag.value.ListTag? || tag.value.LongArrayTag?)) ==> r == Err(CastError(tag))
  {
    match tag
    case Some(ListTag(_, tags)) => Each(tags, GetLong)
    case Some(LongArrayTag(_, a)) => Ok(a)
    case _ => Err(CastError(tag))
  }

  /** GetIntegers: fills a new `int[]` with GetInteger of each list element in a `for` loop. */
  method GetIntegers(tag: Option<Tag>) returns (r: Result<ClrArray<i32>>)
    ensures r == Integers(tag)
  {
    match tag
    case Some(ListTag(_, tags)) =>
      if |tags| == 0 {
        EachSucceeds(tags, GetInteger, []);
        return Ok([]);
      }
      r := FillIntegers(tags);
    case Some(IntArrayTag(_, a)) => return Ok(a);
    case _ => return Err(CastError(tag));
  }

  /** The loop of GetIntegers over a non-empty list. */
  method FillIntegers(tags: ClrArray<Tag>) returns (r: Result<ClrArray<i32>>)
    requires |tags| > 0
    ensures r == Each(tags, GetInteger)
  {
    hide *;
    var integers := new i32[|tags|];
    for i := 0 to |tags|
      invariant forall k :: 0 <= k < i ==> GetInteger(Some(tags[k])) == Ok(integers[k])
    {
      var v := GetInteger(Some(tags[i]));
      if v.Err? {
        EachFails(tags, GetInteger, i);
        return Err(v.error);
      }
      integers[i] := v.value;
    }
    EachSucceeds(tags, GetInteger, integers[..]);
    return Ok(integers[..]);
  }

  /** GetBytes: fills a new `sbyte[]` with GetByte of each list element in a `for` loop. */
  method GetBytes(tag: Option<Tag>) returns (r: Result<ClrArray<i8>>)
    ensures r == SBytes(tag)
  {
    match tag
    case Some(ListTag(_, tags)) =>
      if |tags| == 0 {
        EachSucceeds(tags, GetByte, []);
        return Ok([]);
      }
      r := FillBytes(tags);
    case Some(ByteArrayTag(_, a)) => return Ok(a);
    case _ => return Err(CastError(tag));
  }

  /** The loop of GetBytes over a non-empty list. */
  method FillBytes(tags: ClrArray<Tag>) returns (r: Result<ClrArray<i8>>)
    requires |tags| > 0
    ensures r == Each(tags, GetByte)
  {
    hide *;
    var bytes := new i8[|tags|];
    for i := 0 to |tags|
      invariant forall k :: 0 <= k < i ==> GetByte(Some(tags[k])) == Ok(bytes[k])
    {
      var v := GetByte(Some(tags[i]));
      if v.Err? {
        EachFails(tags, GetByte, i);
        return Err(v.error);
      }
      bytes[i] := v.value;
    }
    EachSucceeds(tags, GetByte, bytes[..]);
    return Ok(bytes[..]);
  }

  /** GetLongs: fills a new `long[]` with GetLong of each list element in a `for` loop. */
  method GetLongs(tag: Option<Tag>) returns (r: Result<ClrArray<i64>>)
    ensures r == Longs(tag)
  {
    match tag
    case Some(ListTag(_, tags)) =>
      if |tags| == 0 {
        EachSucceeds(tags, GetLong, []);
        return Ok([]);
      }
      r := FillLongs(tags);
    case Some(LongArrayTag(_, a)) => return Ok(a);
    case _ => return Err(CastError(tag));
  }

  /** The loop of GetLongs over a non-empty list. */
  method FillLongs(tags: ClrArray<Tag>) returns (r: Result<ClrArray<i64>>)
    requires |tags| > 0
    ensures r == Each(tags, GetLong)
  {
    hide *;
    var longs := new i64[|tags|];
    for i := 0 to |tags|
      invariant forall k :: 0 <= k < i ==> GetLong(Some(tags[k])) == Ok(longs[k])
    {
      var v := GetLong(Some(tags[i]));
      if v.Err? {
        EachFails(tags, GetLong, i);
        return Err(v.error);
      }
      longs[i] := v.value;
    }
    EachSucceeds(tags, GetLong, longs[..]);
    return Ok(longs[..]);
  }

  /** The `(sbyte)` cast in GetByte wraps at the one out-of-range value the check lets through:
      128 reads as -128, while 129 and -129 are rejected. */
  lemma GetByteWrapsAt128(n: Name)
    ensures GetByte(Some(IntegerTag(n, 0x80))) == Ok(-0x80)
    ensures GetByte(Some(IntegerTag(n, 0x81))) == Err(OutOfRange(0x81))
    ensures GetByte(Some(IntegerTag(n, -0x81))) == Err(OutOfRange(-0x81))
  {
  }

  /** Read as a byte, the IntegerTag holding 128 gives -128, while GetInteger and GetShort
      read the same tag as 128. */
  lemma GetByteDisagreesAt128(n: Name)
    ensures GetInteger(Some(IntegerTag(n, 0x80))) == Ok(0x80) && GetShort(Some(IntegerTag(n, 0x80))) == Ok(0x80)
    ensures GetByte(Some(IntegerTag(n, 0x80))).Ok? && GetByte(Some(IntegerTag(n, 0x80))).value != 0x80
  {
    GetByteWrapsAt128(n);
  }

  /** GetByte with the range check it evidently means, `sbyte.MinValue..sbyte.MaxValue`: it
      differs from GetByte only on the IntegerTag holding 128, which it rejects. */
  function GetByteInRange(tag: Option<Tag>): (r: Result<i8>)
    ensures r.Ok? <==> tag.Some? && (IsInstanceOf(tag.value, ByteTagClass) || (tag.value.IntegerTag? && -0x80 <= tag.value.i < 0x80))
    ensures r.Ok? ==> r.value == StoredValue(tag.value)
    ensures r.Err? && tag.Some? && tag.value.IntegerTag? ==> r.error == OutOfRange(tag.value.i)
    ensures r.Err? && !(tag.Some? && tag.value.IntegerTag?) ==> r.error == CastError(tag)
    ensures tag.Some? && tag.value.IntegerTag? && tag.value.i == 0x80 ==> r == Err(OutOfRange(0x80))
    ensures !(tag.Some? && tag.value.IntegerTag? && tag.value.i == 0x80) ==> r == GetByte(tag)
  {
    match tag
    case Some(IntegerTag(_, i)) =>
      if i > 0x7F || i < -0x80 then Err(OutOfRange(i)) else Ok(i)
    case _ => GetByte(tag)
  }

  /** With the corrected check, every integer accessor that accepts a tag reads the same number:
      a byte never disagrees with the int or the short it was read from. */
  lemma GetByteInRangeAgrees(tag: Option<Tag>)
    ensures GetByteInRange(tag).Ok? && GetInteger(tag).Ok? ==> GetByteInRange(tag).value == GetInteger(tag).value
    ensures GetByteInRange(tag).Ok? && GetShort(tag).Ok? ==> GetByteInRange(tag).value == GetShort(tag).value
    ensures GetByteInRange(tag).Ok? ==> GetLong(tag).Ok? && GetByteInRange(tag).value == GetLong(tag).value
  {
  }

  /** Below 128, reading an IntegerTag as a byte, a short, an int or a long gives the same number. */
  lemma NarrowIntegerAgrees(n: Name, v: i32)
    requires -0x80 <= v < 0x80
    ensures GetByte(Some(IntegerTag(n, v))) == Ok(v)
    ensures GetShort(Some(IntegerTag(n, v))) == Ok(v)
    ensures GetInteger(Some(IntegerTag(n, v))) == Ok(v)
    ensures GetLong(Some(IntegerTag(n, v))) == Ok(v)
  {
  }

  /** Whatever GetInteger accepts, GetLong accepts with the same value: int widens to long. */
  lemma IntegerWidensToLong(tag: Option<Tag>)
    ensures GetInteger(tag).Ok? ==> GetLong(tag).Ok? && GetLong(tag).value == GetInteger(tag).value
  {
  }

  /** GetShort and GetInteger agree wherever both succeed, and a ShortTag is readable only as a short. */
  lemma ShortAndInteger(tag: Option<Tag>)
    ensures GetShort(tag).Ok? && GetInteger(tag).Ok? ==> GetShort(tag).value == GetInteger(tag).value
    ensures tag.Some? && tag.value.ShortTag? ==>
      GetShort(tag) == Ok(tag.value.s) && GetInteger(tag) == Err(InvalidCast) && GetLong(tag) == Err(InvalidCast)
  {
  }

  /** A BooleanTag reads back its flag, and as a number it is 1 or 0. */
  lemma BooleanTagAccessors(n: Name, b: bool)
    ensures GetBoolean(Some(BooleanTag(n, b))) == Ok(b)
    ensures GetByte(Some(BooleanTag(n, b))) == Ok(if b then 1 else 0)
    ensures GetInteger(Some(BooleanTag(n, b))) == Ok(if b then 1 else 0)
  {
  }

  /** The scalar accessors read only the stored value: renaming a tag (which turns a BooleanTag
      into the ByteTag holding its byte) changes none of them. */
  lemma AccessorsIgnoreName(t: Tag, n: Name)
    requires !t.EmptyTag?
    ensures var u := Some(WithName(t, n).value);
      && GetByte(u) == GetByte(Some(t)) && GetShort(u) == GetShort(Some(t))
      && GetInteger(u) == GetInteger(Some(t)) && GetLong(u) == GetLong(Some(t))
      && GetBoolean(u) == GetBoolean(Some(t)) && GetString(u) == GetString(Some(t))
  {
    hide GetName;
  }

  /** The reader's canonical form of a tag (a BooleanTag read back as the ByteTag of its byte)
      answers every scalar accessor as the tag does. */
  lemma CanonicalAccessors(t: Tag)
    ensures var c := Some(RoundTrip.Canonical(t));
      && GetByte(c) == GetByte(Some(t)) && GetShort(c) == GetShort(Some(t))
      && GetInteger(c) == GetInteger(Some(t)) && GetLong(c) == GetLong(Some(t))
      && GetBoolean(c) == GetBoolean(Some(t)) && GetString(c) == GetString(Some(t))
  {
  }

  /** Serialising a root tag and reading it back preserves what every scalar accessor returns,
      so `BooleanTag(true)` comes back as a ByteTag that GetBoolean still reads as true. */
  lemma ReadBackAccessors(t: Tag)
    requires RoundTrip.RootEncodable(t)
    ensures Encoding.Serialise(t, false).Ok?
    ensures var r := Decoding.ReadNbt(Encoding.Serialise(t, false).value, false, Decoding.NoCompression);
      && r.Ok?
      && GetByte(Some(r.value)) == GetByte(Some(t)) && GetShort(Some(r.value)) == GetShort(Some(t))
      && GetInteger(Some(r.value)) == GetInteger(Some(t)) && GetLong(Some(r.value)) == GetLong(Some(t))
      && GetBoolean(Some(r.value)) == GetBoolean(Some(t)) && GetString(Some(r.value)) == GetString(Some(t))
  {
    hide *;
    RoundTrip.ReadNbtRoundTrip(t);
    CanonicalAccessors(t);
  }
}
