/** The tag classes of the NBT model (NBT/Tags) as one immutable value type, with the
    members every tag shares: its prefix, its name, and a renamed copy. */
module Tags {
  import opened Binary
  import opened Results
  import opened NbtTagPrefix

  /** A C# string, represented by its UTF-8 bytes (the form every name and value takes on the wire). */
  type Text = seq<byte>

  /** A tag's name: `null` for a root or a list element, a string for a compound child. */
  type Name = Option<Text>

  /** A C# array: at most `int.MaxValue` elements. */
  type ClrArray<T> = s: seq<T> | |s| <= 0x7FFF_FFFF witness []

  /** One case per tag class. A BooleanTag is the ByteTag subclass whose byte is 1 or 0;
      `ListTag<T>` shares ListTag's representation; compound children may be `null`. */
  datatype Tag =
    | EmptyTag
    | ByteTag(name: Name, b: i8)
    | BooleanTag(name: Name, flag: bool)
    | ShortTag(name: Name, s: i16)
    | IntegerTag(name: Name, i: i32)
    | LongTag(name: Name, l: i64)
    | FloatTag(name: Name, f: bv32)
    | DoubleTag(name: Name, d: bv64)
    | StringTag(name: Name, text: Text)
    | ByteArrayTag(name: Name, bytes: ClrArray<i8>)
    | IntArrayTag(name: Name, ints: ClrArray<i32>)
    | LongArrayTag(name: Name, longs: ClrArray<i64>)
    | ListTag(name: Name, tags: ClrArray<Tag>)
    | CompoundTag(name: Name, children: seq<Option<Tag>>)

  /** GetPrefix of each class; an ArrayTag's prefix follows its element type. */
  function GetPrefix(t: Tag): (p: Prefix)
    ensures p == End <==> t.EmptyTag?
    ensures p == Byte <==> t.ByteTag? || t.BooleanTag?
    ensures p == List <==> t.ListTag?
    ensures p == Compound <==> t.CompoundTag?
    ensures t.ShortTag? ==> p == Short
    ensures t.IntegerTag? ==> p == Integer
    ensures t.LongTag? ==> p == Long
    ensures t.FloatTag? ==> p == Float
    ensures t.DoubleTag? ==> p == Double
    ensures t.StringTag? ==> p == String
    ensures t.ByteArrayTag? ==> p == Bytes
    ensures t.IntArrayTag? ==> p == Integers
    ensures t.LongArrayTag? ==> p == Longs
  {
    match t
    case EmptyTag => End
    case ByteTag(_, _) => Byte
    case BooleanTag(_, _) => Byte
    case ShortTag(_, _) => Short
    case IntegerTag(_, _) => Integer
    case LongTag(_, _) => Long
    case FloatTag(_, _) => Float
    case DoubleTag(_, _) => Double
    case StringTag(_, _) => String
    case ByteArrayTag(_, _) => Bytes
    case IntArrayTag(_, _) => Integers
    case LongArrayTag(_, _) => Longs
    case ListTag(_, _) => List
    case CompoundTag(_, _) => Compound
  }

  /** GetName: the stored name; EmptyTag throws NotSupportedException. */
  function GetName(t: Tag): (r: Result<Name>)
    ensures r.Err? <==> t.EmptyTag?
    ensures r.Err? ==> r.error == NotSupported
    ensures r.Ok? ==> r.value == t.name
  {
    if t.EmptyTag? then Err(NotSupported) else Ok(t.name)
  }

  /** The `sbyte Value` a ByteTag stores; a BooleanTag stores 1 for true and 0 for false. */
  function ByteValue(t: Tag): (v: i8)
    requires t.ByteTag? || t.BooleanTag?
    ensures t.BooleanTag? ==> (v == 1 <==> t.flag) && (v == 0 <==> !t.flag)
  {
    if t.ByteTag? then t.b else if t.flag then 1 else 0
  }

  /** ByteTag.BoolValue: whether the stored byte is non-zero. */
  function BoolValue(t: Tag): (r: bool)
    requires t.ByteTag? || t.BooleanTag?
    ensures r <==> ByteValue(t) != 0
    ensures t.BooleanTag? ==> r == t.flag
  {
    if t.ByteTag? then t.b != 0 else t.flag
  }

  /** INbtTag.WithName: a copy carrying the given name. BooleanTag inherits ByteTag's
      implementation, so its copy is a ByteTag holding 1 or 0; EmptyTag throws. */
  function WithName(t: Tag, n: Name): (r: Result<Tag>)
    ensures r.Err? <==> t.EmptyTag?
    ensures r.Err? ==> r.error == NotSupported
    ensures r.Ok? ==> GetName(r.value) == Ok(n) && GetPrefix(r.value) == GetPrefix(t)
    ensures r.Ok? && t.BooleanTag? ==> r.value == ByteTag(n, ByteValue(t))
    ensures r.Ok? && !t.BooleanTag? ==> SamePayload(r.value, t)
  {
    hide GetName, ByteValue;
    match t
    case EmptyTag => Err(NotSupported)
    case ByteTag(_, b) => Ok(ByteTag(n, b))
    case BooleanTag(_, _) => Ok(ByteTag(n, ByteValue(t)))
    case ShortTag(_, s) => Ok(ShortTag(n, s))
    case IntegerTag(_, i) => Ok(IntegerTag(n, i))
    case LongTag(_, l) => Ok(LongTag(n, l))
    case FloatTag(_, f) => Ok(FloatTag(n, f))
    case DoubleTag(_, d) => Ok(DoubleTag(n, d))
    case StringTag(_, s) => Ok(StringTag(n, s))
    case ByteArrayTag(_, a) => Ok(ByteArrayTag(n, a))
    case IntArrayTag(_, a) => Ok(IntArrayTag(n, a))
    case LongArrayTag(_, a) => Ok(LongArrayTag(n, a))
    case ListTag(_, tags) => Ok(ListTag(n, tags))
    case CompoundTag(_, children) => Ok(CompoundTag(n, children))
  }

  /** Same class and same stored value; names may differ. */
  predicate SamePayload(a: Tag, b: Tag) {
    match a
    case EmptyTag => b.EmptyTag?
    case ByteTag(_, x) => b.ByteTag? && b.b == x
    case BooleanTag(_, x) => b.BooleanTag? && b.flag == x
    case ShortTag(_, x) => b.ShortTag? && b.s == x
    case IntegerTag(_, x) => b.IntegerTag? && b.i == x
    case LongTag(_, x) => b.LongTag? && b.l == x
    case FloatTag(_, x) => b.FloatTag? && b.f == x
    case DoubleTag(_, x) => b.DoubleTag? && b.d == x
    case StringTag(_, x) => b.StringTag? && b.text == x
    case ByteArrayTag(_, x) => b.ByteArrayTag? && b.bytes == x
    case IntArrayTag(_, x) => b.IntArrayTag? && b.ints == x
    case LongArrayTag(_, x) => b.LongArrayTag? && b.longs == x
    case ListTag(_, x) => b.ListTag? && b.tags == x
    case CompoundTag(_, x) => b.CompoundTag? && b.children == x
  }

  /** Renaming twice is renaming once with the last name. */
  lemma WithNameLastWins(t: Tag, m: Name, n: Name)
    requires !t.EmptyTag?
    ensures WithName(WithName(t, m).value, n) == WithName(t, n)
  {
  }

  /** Renaming a tag to its own name gives the tag back, except that a BooleanTag becomes a ByteTag. */
  lemma WithOwnName(t: Tag)
    requires !t.EmptyTag?
    ensures t.BooleanTag? ==> WithName(t, t.name) == Ok(ByteTag(t.name, ByteValue(t))) != Ok(t)
    ensures !t.BooleanTag? ==> WithName(t, t.name) == Ok(t)
  {
  }

  /** The C# classes a `ListTag<T>` can be instantiated with; `INbtTagClass` is the interface itself. */
  datatype TagClass =
    | INbtTagClass | EmptyTagClass | ByteTagClass | BooleanTagClass | ShortTagClass
    | IntegerTagClass | LongTagClass | FloatTagClass | DoubleTagClass | StringTagClass
    | ByteArrayClass | IntArrayClass | LongArrayClass | ListTagClass | CompoundTagClass

  /** Whether a tag is an instance of a class: every tag is an INbtTag, a BooleanTag is also a ByteTag. */
  predicate IsInstanceOf(t: Tag, c: TagClass) {
    match c
    case INbtTagClass => true
    case EmptyTagClass => t.EmptyTag?
    case ByteTagClass => t.ByteTag? || t.BooleanTag?
    case BooleanTagClass => t.BooleanTag?
    case ShortTagClass => t.ShortTag?
    case IntegerTagClass => t.IntegerTag?
    case LongTagClass => t.LongTag?
    case FloatTagClass => t.FloatTag?
    case DoubleTagClass => t.DoubleTag?
    case StringTagClass => t.StringTag?
    case ByteArrayClass => t.ByteArrayTag?
    case IntArrayClass => t.IntArrayTag?
    case LongArrayClass => t.LongArrayTag?
    case ListTagClass => t.ListTag?
    case CompoundTagClass => t.CompoundTag?
  }

  /** The `ListTag<T>` constructor: `T[] tags` (so every element is a `T`); `T == INbtTag` throws. */
  function NewTypedList(n: Name, c: TagClass, tags: ClrArray<Tag>): (r: Result<Tag>)
    requires forall k :: 0 <= k < |tags| ==> IsInstanceOf(tags[k], c)
    ensures r.Err? <==> c == INbtTagClass
    ensures r.Err? ==> r.error == NotOneType
    ensures r.Ok? ==> r.value.ListTag? && r.value.name == n && r.value.tags == tags
    ensures r.Ok? ==> forall k :: 0 <= k < |tags| ==> GetPrefix(tags[k]) == GetPrefix(tags[0])
  {
    if c == INbtTagClass then Err(NotOneType)
    else
      assert forall k :: 0 <= k < |tags| ==> GetPrefix(tags[k]) == GetPrefix(tags[0]) by {
        forall k | 0 <= k < |tags|
          ensures GetPrefix(tags[k]) == GetPrefix(tags[0])
        {
          assert IsInstanceOf(tags[k], c) && IsInstanceOf(tags[0], c);
        }
      }
      Ok(ListTag(n, tags))
  }

  /** `ListTag<T>.WithName` as written: it builds the copy from the old `Name`, ignoring its argument. */
  function TypedListWithNameAsWritten(t: Tag, n: Text): (r: Tag)
    requires t.ListTag?
    ensures r.ListTag? && r.tags == t.tags && r.name == t.name
  {
    ListTag(t.name, t.tags)
  }

  /** `ListTag<T>.WithName` as intended: the copy carries the given name, like every other WithName. */
  function TypedListWithName(t: Tag, n: Text): (r: Tag)
    requires t.ListTag?
    ensures Ok(r) == WithName(t, Some(n))
    ensures GetName(r) == Ok(Some(n)) && r.tags == t.tags
  {
    ListTag(Some(n), t.tags)
  }

  /** The as-written typed WithName leaves the name of an unnamed list `null`, where the
      intended one names it. */
  lemma TypedListWithNameIgnoresName()
    ensures TypedListWithNameAsWritten(ListTag(None, []), [0x61]).name == None
    ensures TypedListWithName(ListTag(None, []), [0x61]).name == Some([0x61])
  {
  }

  /** The element types `ArrayTag<T>` is instantiated with; `Unsupported` stands for any other `T`. */
  datatype ArrayValues =
    | SByteValues(bytes: ClrArray<i8>)
    | IntValues(ints: ClrArray<i32>)
    | LongValues(longs: ClrArray<i64>)
    | Unsupported

  /** The ArrayTag constructor: int, long and sbyte element types give the three array tags,
      any other throws. */
  function NewArrayTag(n: Name, values: ArrayValues): (r: Result<Tag>)
    ensures r.Err? <==> values.Unsupported?
    ensures r.Err? ==> r.error == UnsupportedArrayType
    ensures r.Ok? ==> GetName(r.value) == Ok(n)
    ensures r.Ok? && values.SByteValues? ==> GetPrefix(r.value) == Bytes && r.value.bytes == values.bytes
    ensures r.Ok? && values.IntValues? ==> GetPrefix(r.value) == Integers && r.value.ints == values.ints
    ensures r.Ok? && values.LongValues? ==> GetPrefix(r.value) == Longs && r.value.longs == values.longs
  {
    match values
    case SByteValues(a) => Ok(ByteArrayTag(n, a))
    case IntValues(a) => Ok(IntArrayTag(n, a))
    case LongValues(a) => Ok(LongArrayTag(n, a))
    case Unsupported => Err(UnsupportedArrayType)
  }
}
