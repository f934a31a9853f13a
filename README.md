# NBT codec: a verified Dafny model

This project models the core of an NBT (Named Binary Tag) library written in C#. It covers:

- the tag classes and their names, prefixes and renaming (`Tags`);
- the binary writer, `NbtBuilder`, and each tag's `Serialise` (`Builder`, `Encoding`, `Serialiser`);
- the binary reader, `NbtReader` (`Decoding`, `Reader`);
- the compound tag's lazily built `ChildrenMap` and its lookups (`Compound`);
- the coercing accessors of `TagExtensions` (`Accessors`);
- the JSON mapping `ToJson`/`FromJson` (`Json`);
- the structural equality that the test suite requires of tags (`Equality`).

Two kinds of member model behaviour. Functions model pure logic: `Serialise`, the parsers, `ChildrenMap`, the accessors and the JSON mapping. Classes with `modifies` clauses model the objects the source changes in place: the builder's byte list, the reader's position and the compound tag's cache. Each method is proved equal to a specification function, and the properties are proved about those functions.

The main results are:

- **Binary round trip.** Serialising any encodable root tag and reading the bytes back gives the tag in canonical form: a `BooleanTag` comes back as the `ByteTag` holding its byte, and null compound children are dropped. The implied-root mode does the same for a sequence of compound children.
- **Failure conditions.** Serialisation succeeds exactly when every name and string fits in 65535 bytes and every non-null compound child is a named, non-empty tag.
- **JSON round trips in both directions.** One runs from a JSON tree to tags and back; the other from a tag to JSON and back. Each is proved for exactly the trees or tags that survive it, and proofs show how the others change.
- **Equality.** It is an equivalence on tags whose compounds can be mapped. Compound child order does not matter, list order does, and a `BooleanTag` never equals a `ByteTag`.

Numbers are big-endian. A byte is `0..255`. `sbyte`, `short`, `int` and `long` are bounded integer subset types, and every C# cast is written out as the wrap-around or check it performs. A C# array is a sequence of at most `int.MaxValue` elements. A string is the sequence of its UTF-8 bytes. `float` and `double` values are opaque 32- and 64-bit patterns. `null` is `None`. Every exception the source throws is an `Error` value in a `Result`.

## Model

| member | source | states |
|---|---|---|
| NbtTagPrefix.Code | NBT/NbtTagPrefix.cs:7-19 | each prefix's byte lies in 0..12 and only End is 0 |
| NbtTagPrefix.FromCode | NBT/NbtReader.cs:87-101 | a type byte is recognised exactly when it is at most 12 (otherwise the reader throws "Unknown type"), and the recognised prefix has that byte |
| NbtTagPrefix.FromCodeOfCode | NBT/NbtTagPrefix.cs:7-19 | the constants are distinct: decoding a prefix's byte gives the prefix back, and no two prefixes share a byte |
| Binary.FromUnsignedBEOfUnsignedBE | NBT/NbtBuilder.cs:62-63 | an unsigned number written big-endian in w bytes reads back as itself |
| Binary.UnsignedBEOfFromUnsignedBE | NBT/NbtReader.cs:311 | every byte sequence is the big-endian encoding of the number it is read as |
| Binary.ToSigned | NBT/NbtReader.cs:373 | the two's-complement reading of w bytes lies in the signed range of that width and is the inverse of the unsigned encoding |
| Binary.SignedOfUnsigned | NBT/NbtBuilder.cs:85 | encoding a signed value as two's complement and decoding it gives the value |
| Binary.SignedRoundTrip | NBT/NbtReader.cs:371-380 | reading the big-endian two's-complement bytes of a value gives the value, at any width |
| Binary.WriteUInt16BE | NBT/NbtBuilder.cs:62-63 | WriteUInt16BigEndian writes the high byte and then the low byte |
| Binary.WriteInt16BE | NBT/NbtBuilder.cs:83-87 | WriteInt16BigEndian writes exactly two bytes; which two is fixed by Binary.WriteInt16RoundTrip and Binary.UnsignedBEOfFromUnsignedBE |
| Binary.WriteInt32BE | NBT/NbtBuilder.cs:71-75 | WriteInt32BigEndian writes exactly four bytes; which four is fixed by Binary.WriteInt32RoundTrip and Binary.UnsignedBEOfFromUnsignedBE |
| Binary.WriteInt64BE | NBT/NbtBuilder.cs:77-81 | WriteInt64BigEndian writes exactly eight bytes; which eight is fixed by Binary.WriteInt64RoundTrip and Binary.UnsignedBEOfFromUnsignedBE |
| Binary.WriteSingleBE | NBT/NbtBuilder.cs:19-23 | a float's bit pattern is written as exactly four bytes, which read back by Binary.WriteSingleRoundTrip |
| Binary.WriteDoubleBE | NBT/NbtBuilder.cs:13-17 | a double's bit pattern is written as exactly eight bytes, which read back by Binary.WriteDoubleRoundTrip |
| Binary.ReadSignedBE | NBT/NbtReader.cs:347-380 | ReadInt16/32/64BigEndian give a value in the signed range of the width read |
| Binary.WriteInt16RoundTrip | NBT/NbtReader.cs:371-380 | ReadInt16BigEndian of what WriteInt16BigEndian wrote is the same short |
| Binary.WriteInt32RoundTrip | NBT/NbtReader.cs:347-356 | ReadInt32BigEndian of what WriteInt32BigEndian wrote is the same int |
| Binary.WriteInt64RoundTrip | NBT/NbtReader.cs:359-368 | ReadInt64BigEndian of what WriteInt64BigEndian wrote is the same long |
| Binary.WriteUInt16RoundTrip | NBT/NbtReader.cs:311 | a string's u16 length prefix reads back as the length |
| Binary.WriteSingleRoundTrip | NBT/NbtReader.cs:383-392 | a float's four big-endian bytes read back as the same bit pattern |
| Binary.WriteDoubleRoundTrip | NBT/NbtReader.cs:395-404 | a double's eight big-endian bytes read back as the same bit pattern |
| Binary.SByteToByte | NBT/NbtBuilder.cs:89-92 | a non-negative sbyte is written unchanged and a negative one as 256 plus its value |
| Binary.ByteToSByte | NBT/NbtReader.cs:243-250 | the byte read is the one whose write gives it: bytes 128 and above become negative |
| Binary.SByteRoundTrip | NBT/NbtReader.cs:243-250 | ReadByte inverts WriteByte on every sbyte |
| Results.Collect | NBT/INbtTag.cs:84-89 | a loop that evaluates each element and stops at the first exception: it succeeds exactly when every element does and then holds every value in order; otherwise it reports the first failure |
| Tags.GetPrefix | NBT/Tags/ArrayTag.cs:25-32 | End exactly for EmptyTag, Byte exactly for ByteTag and BooleanTag, List exactly for lists and Compound exactly for compounds; Short, Integer, Long, Float, Double and String for the scalar and string classes; the sbyte, int and long arrays have Bytes (7), Integers (11) and Longs (12) |
| Tags.GetName | NBT/Tags/EmptyTag.cs:9-11 | GetName throws NotSupportedException exactly on an EmptyTag and otherwise returns the tag's (possibly null) name |
| Tags.ByteValue | NBT/Tags/BooleanTag.cs:3 | a BooleanTag stores the byte 1 for true and 0 for false |
| Tags.BoolValue | NBT/Tags/ByteTag.cs:7 | BoolValue is true exactly when the byte is non-zero, so a BooleanTag gives back its flag |
| Tags.WithName | NBT/Tags/ByteTag.cs:17-21 | renaming throws on an EmptyTag. Otherwise the new tag has the new name, the same prefix and the same payload. A BooleanTag is renamed through ByteTag's implementation and so becomes a ByteTag |
| Tags.WithNameLastWins | NBT/Tags/ShortTag.cs:15-17 | renaming twice is the same as renaming once to the last name |
| Tags.WithOwnName | NBT/Tags/BooleanTag.cs:3-4 | renaming a tag to its own name gives it back, except a BooleanTag, which becomes a different tag (the ByteTag of its byte) |
| Tags.NewTypedList | NBT/Tags/ListTag.cs:6-10 | `ListTag<INbtTag>` throws "List must only be of one type"; any other element class gives the list of exactly the given tags, all of one prefix |
| Tags.TypedListWithNameAsWritten | NBT/Tags/ListTag.cs:12-14 | `ListTag<T>.WithName` as written: the result keeps the old name and the elements |
| Tags.TypedListWithName | NBT/Tags/ListTag.cs:12-14 | the corrected `ListTag<T>.WithName` agrees with `WithName`: the new name, the same elements |
| Tags.TypedListWithNameIgnoresName | NBT/Tags/ListTag.cs:12-14 | renaming an unnamed typed list to "a" leaves it unnamed as written and names it "a" once corrected |
| Tags.NewArrayTag | NBT/Tags/ArrayTag.cs:14-20 | an element type other than int, long or sbyte throws; otherwise the tag keeps the name and the values and has that type's array prefix |
| Builder.NbtBuilder.constructor | NBT/NbtBuilder.cs:7 | a new builder holds no bytes |
| Builder.NbtBuilder.ToArray | NBT/NbtBuilder.cs:9-11 | returns exactly the bytes written so far |
| Builder.NbtBuilder.Write | NBT/NbtBuilder.cs:25-37 | appends the given bytes and changes nothing else |
| Builder.NbtBuilder.WriteOne | NBT/NbtBuilder.cs:39-42 | appends the one byte |
| Builder.NbtBuilder.WriteType | NBT/NbtBuilder.cs:44-47 | appends the type byte unless `noType` |
| Builder.NbtBuilder.WriteString | NBT/NbtBuilder.cs:58-69 | fails exactly when the text exceeds 65535 bytes, and then writes nothing; otherwise appends the u16 big-endian length and the bytes |
| Builder.NbtBuilder.WriteName | NBT/NbtBuilder.cs:49-52 | a null name writes nothing; a name is written as WriteString writes it, with the same failure |
| Builder.NbtBuilder.WriteShort | NBT/NbtBuilder.cs:83-87 | appends the short's two big-endian bytes |
| Builder.NbtBuilder.WriteInteger | NBT/NbtBuilder.cs:71-75 | appends the int's four big-endian bytes |
| Builder.NbtBuilder.WriteLong | NBT/NbtBuilder.cs:77-81 | appends the long's eight big-endian bytes |
| Builder.NbtBuilder.WriteFloat | NBT/NbtBuilder.cs:19-23 | appends the float's four big-endian bytes |
| Builder.NbtBuilder.WriteDouble | NBT/NbtBuilder.cs:13-17 | appends the double's eight big-endian bytes |
| Builder.NbtBuilder.WriteByte | NBT/NbtBuilder.cs:89-92 | appends the sbyte as one unsigned byte |
| Encoding.TypeBytes | NBT/NbtBuilder.cs:44-47 | the type byte is omitted exactly when `noType` is set |
| Encoding.StringBytes | NBT/NbtBuilder.cs:58-69 | a string fails with its length exactly when it exceeds 65535 bytes; otherwise it is its big-endian u16 length followed by its bytes |
| Encoding.NameBytes | NBT/NbtBuilder.cs:49-52 | a null name is no bytes and a name is written as a string |
| Encoding.ElementType | NBT/Tags/ListTag.cs:36 | an empty list records type End; any other list records its first element's prefix |
| Encoding.Serialise | NBT/Tags/ShortTag.cs:21-23 | an EmptyTag writes the single End byte even with `noType` (NBT/Tags/EmptyTag.cs:21-25); a successful encoding is never empty, and with the type it starts with the tag's prefix byte |
| Encoding.Payload | NBT/Tags/CompoundTag.cs:60-70 | a successful payload is never empty, and a compound's ends with the End byte |
| Encoding.PayloadWidths | NBT/Tags/ArrayTag.cs:44-65 | a scalar payload is 1, 2, 4 or 8 bytes by class; an array is its four-byte count then 1, 4 or 8 bytes per value; a string fails exactly when too long and is otherwise two bytes longer than its text; a list starts with its element type and its four-byte count (NBT/Tags/ListTag.cs:35-43) |
| Encoding.Elements | NBT/Tags/ListTag.cs:39-41 | a list body that is written holds at least one byte per element |
| Encoding.Children | NBT/Tags/CompoundTag.cs:62-68 | no children write no bytes |
| Encoding.NullChildrenWriteNothing | NBT/Tags/CompoundTag.cs:63 | null children are skipped: children that are all null write no bytes |
| Encoding.Child | NBT/Tags/CompoundTag.cs:63-67 | a null child writes nothing; an EmptyTag child throws NotSupported from GetName; an unnamed child throws ArgumentException; a named child writes its `Serialise()`, type byte included |
| Encoding.SerialiseOkIff | NBT/Tags/CompoundTag.cs:60-70 | Serialise succeeds exactly on the serialisable tags: every name and string fits, and every non-null compound child is named and not an EmptyTag |
| Encoding.PayloadOkIff | NBT/Tags/StringTag.cs:21-23 | a payload fails exactly when a string or name inside it is too long or a child is unnamed |
| Encoding.ElementsOkIff | NBT/Tags/ListTag.cs:39-41 | the list body is written exactly when every element can be |
| Encoding.ChildrenOkIff | NBT/Tags/CompoundTag.cs:62-67 | the compound body is written exactly when every non-null child is named, non-empty and serialisable |
| Encoding.ChildOkIff | NBT/Tags/CompoundTag.cs:63-67 | a null child is skipped; an EmptyTag child throws from GetName, an unnamed child throws ArgumentException |
| Encoding.TypeByteFirst | NBT/Tags/ShortTag.cs:21-23 | `Serialise()` is the prefix byte followed by `Serialise(true)` |
| Serialiser.SerialiseTag | NBT/INbtTag.cs:41-49 | the imperative Serialise, building through NbtBuilder, returns exactly the bytes or the failure of the specification encoding |
| Serialiser.WriteTag | NBT/NbtBuilder.cs:54-56 | writing a tag appends its `Serialise()` bytes, or fails with Serialise's error and leaves the builder unchanged |
| Serialiser.WritePayload | NBT/Tags/ShortTag.cs:21-23 | appends exactly the class's payload bytes, or fails as the payload does |
| Serialiser.WriteValue | NBT/Tags/StringTag.cs:21-23 | the scalar classes append their value's bytes; a string longer than 65535 bytes fails |
| Serialiser.WriteBytes | NBT/Tags/ArrayTag.cs:44-65 | an sbyte array appends its int length then one byte per value |
| Serialiser.WriteInts | NBT/Tags/ArrayTag.cs:44-65 | an int array appends its length then four bytes per value |
| Serialiser.WriteLongs | NBT/Tags/ArrayTag.cs:44-65 | a long array appends its length then eight bytes per value |
| Serialiser.WriteList | NBT/Tags/ListTag.cs:35-43 | a list appends its element type, its length and each element written without its type byte, stopping at the first failure |
| Serialiser.WriteCompound | NBT/Tags/CompoundTag.cs:60-70 | a compound appends each non-null child fully written and then End, stopping at the first failure |
| Serialiser.ListPayload | NBT/Tags/ListTag.cs:35-43 | a list payload is the element type, the int count and the elements in order, and fails as the elements do |
| Serialiser.CompoundPayload | NBT/Tags/CompoundTag.cs:60-70 | a compound payload is the children's bytes then one End byte, and fails as the children do |
| Compound.AddChild | NBT/Tags/CompoundTag.cs:22 | `Dictionary.Add` of a child's name succeeds exactly for a named, non-empty child whose name is not yet a key, and appends that entry |
| Compound.ChildrenMap | NBT/Tags/CompoundTag.cs:14-27 | the dictionary is built exactly when no Add in the loop throws |
| Compound.ChildrenMapSpec | NBT/Tags/CompoundTag.cs:20-23 | ChildrenMap succeeds exactly when the non-null children are named and pairwise distinctly named, and its entries are then those children in order, keyed by name |
| Compound.EntriesInChildren | NBT/Tags/CompoundTag.cs:20-23 | every entry of the map is one of the children, non-empty and named with its key |
| Compound.BuildStopsAtFailure | NBT/Tags/CompoundTag.cs:21-22 | once an Add throws, the later children change nothing |
| Compound.Find | NBT/Tags/CompoundTag.cs:29 | a key is found exactly when it is in the map, and what is found is stored under it |
| Compound.Lookup | NBT/Tags/CompoundTag.cs:29 | the indexer throws exactly when ChildrenMap does |
| Compound.Contains | NBT/Tags/CompoundTag.cs:31 | Contains throws exactly when ChildrenMap does, and otherwise says whether the indexer finds a child |
| Compound.FindInEntries | NBT/Tags/CompoundTag.cs:29 | in a map of uniquely named tags, a key finds a tag exactly when that tag is present with that name |
| Compound.LookupFindsNamedChild | NBT/Tags/CompoundTag.cs:29-31 | with uniquely named children, the indexer returns t exactly when t is a child named by the key, and Contains holds exactly when some child has that name |
| Compound.WithChild | NBT/Tags/CompoundTag.cs:43-54 | fails exactly on a null child (ArgumentNullException, `NullChild`), an EmptyTag child (its GetName throws NotSupportedException, `NotSupported`) or an unnamed child (ArgumentException, `UnnamedChild`), each with its own error; otherwise the children are the whole old array, null slots included, with the new child appended, under the same name |
| Compound.WithChildThenLookup | NBT/Tags/CompoundTag.cs:43-54 | adding a child whose name is already taken makes ChildrenMap throw; otherwise the new child is found under its name |
| Compound.AccessAsWritten | NBT/Tags/CompoundTag.cs:14-27 | the getter as written: a cached map is returned unchanged; otherwise the map is built, and the partly built dictionary is cached even when Add throws |
| Compound.Access | NBT/Tags/CompoundTag.cs:14-27 | the getter as intended: a cached map is returned unchanged; otherwise the result is ChildrenMap, and the cache is set exactly when the build succeeds, to the map returned |
| Compound.AccessIsChildrenMap | NBT/Tags/CompoundTag.cs:14-27 | with the cache set only after a complete build, every access returns ChildrenMap and the cache stays sound |
| Compound.PartialCacheAfterDuplicate | NBT/Tags/CompoundTag.cs:20-22 | two children named "a": the first access throws, and the second access, as written, returns the partial one-entry map; the corrected getter throws again |
| Compound.CompoundTagObject.constructor | NBT/Tags/CompoundTag.cs:8-13 | a new compound has the given name and children and no cached map |
| Compound.CompoundTagObject.ChildrenMapAsWritten | NBT/Tags/CompoundTag.cs:14-27 | the getter as written, on the object's cache field |
| Compound.CompoundTagObject.GetChildrenMap | NBT/Tags/CompoundTag.cs:14-27 | the corrected getter returns ChildrenMap on every call and keeps the cache valid |
| Decoding.ParseU8 | NBT/NbtReader.cs:188-191 | one byte is read exactly when one remains; otherwise the read is past the end |
| Decoding.ParseBytes | NBT/NbtReader.cs:223-229 | n bytes are read exactly when n remain, and they are the next n |
| Decoding.ParseSByte | NBT/NbtReader.cs:243-250 | ReadByte reads one byte as the sbyte whose write gives it |
| Decoding.ParseShort | NBT/NbtReader.cs:371-380 | a short needs two bytes and advances by two |
| Decoding.ParseInteger | NBT/NbtReader.cs:347-356 | an int needs four bytes and advances by four |
| Decoding.ParseLong | NBT/NbtReader.cs:359-368 | a long needs eight bytes and advances by eight |
| Decoding.ParseFloat | NBT/NbtReader.cs:383-392 | a float needs four bytes and advances by four |
| Decoding.ParseDouble | NBT/NbtReader.cs:395-404 | a double needs eight bytes and advances by eight |
| Decoding.ParseString | NBT/NbtReader.cs:308-328 | with two length bytes present, the read succeeds exactly when the u16 big-endian length they hold fits in the remaining data; the text is the next that many bytes and the reader stops after it; every failure is a read past the end |
| Decoding.ParseSBytes | NBT/NbtReader.cs:178-185 | n sbytes take n bytes |
| Decoding.ParseInts | NBT/NbtReader.cs:178-185 | n ints take 4n bytes |
| Decoding.ParseLongs | NBT/NbtReader.cs:178-185 | n longs take 8n bytes |
| Decoding.ParseCount | NBT/NbtReader.cs:179-180 | an array length is a non-negative int; a negative one fails when the array is allocated |
| Decoding.ParseArray | NBT/NbtReader.cs:178-185 | an array tag is its count and values, unnamed, with the requested array prefix |
| Decoding.ParsePayload | NBT/NbtReader.cs:87-100 | a payload of type p reads an unnamed tag of prefix p, never a BooleanTag, using at least one byte |
| Decoding.ParseValue | NBT/NbtReader.cs:88-94 | the scalar payloads read unnamed tags of the requested prefix |
| Decoding.ParseList | NBT/NbtReader.cs:118-176 | fewer than five bytes fail as a read past the end; element type End gives an empty list whatever the count; a type byte above 12 fails as unknown; a negative count of a known type fails; a successful list of a known type has exactly `count` unnamed elements, all of that type |
| Decoding.ParseElements | NBT/NbtReader.cs:125-172 | n elements of type p are n unnamed tags of prefix p |
| Decoding.ParseCompound | NBT/NbtReader.cs:252-305 | a compound reads children up to an End byte and gives an unnamed CompoundTag |
| Decoding.ParseChildren | NBT/NbtReader.cs:256-260 | every child read is non-null, non-empty and named |
| Decoding.ParseNamedChild | NBT/NbtReader.cs:262-303 | a child is its name then a payload of the type byte's prefix: the child's name is the string read at the start, a failing name read is the child's failure, and once the name is read an End or unknown type byte fails as unknown |
| Decoding.ParseRoot | NBT/NbtReader.cs:84-102 | no byte left is a read past the end; type byte 0 gives an EmptyTag after one byte; a type byte above 12 fails as unknown; a successful root has the prefix its type byte names and, unless it is an EmptyTag, no name |
| Decoding.Framed | NBT/NbtReader.cs:62-70 | the implied root wraps the remaining bytes in a Compound type byte and an End byte |
| Decoding.ReadNbt | NBT/NbtReader.cs:105-107 | GZip input throws NotImplementedException; a successful read with an implied root always gives a compound; without one, empty data fails as a read past the end, a first byte 0 gives an EmptyTag, a first byte above 12 fails as unknown, and a successful read has the prefix the first byte names |
| RoundTrip.Canonical | Tests/SerialiseTest.cs:9-12 | what reading back gives: the same prefix and name, never a BooleanTag |
| RoundTrip.StringRoundTrip | NBT/NbtReader.cs:308-328 | a string that fits reads back and the reader stops right after it |
| RoundTrip.SBytesRoundTrip | NBT/NbtReader.cs:181-183 | written sbytes read back |
| RoundTrip.IntsRoundTrip | NBT/NbtReader.cs:181-183 | written ints read back |
| RoundTrip.LongsRoundTrip | NBT/NbtReader.cs:181-183 | written longs read back |
| RoundTrip.CountRoundTrip | NBT/NbtReader.cs:179 | an array length written as an int reads back |
| RoundTrip.ByteArrayRoundTrip | NBT/NbtReader.cs:178-185 | an sbyte array tag reads back |
| RoundTrip.IntArrayRoundTrip | NBT/NbtReader.cs:178-185 | an int array tag reads back |
| RoundTrip.LongArrayRoundTrip | NBT/NbtReader.cs:178-185 | a long array tag reads back |
| RoundTrip.ByteRoundTrip | Tests/SerialiseTest.cs:9-16 | a ByteTag's payload reads back as itself, and a BooleanTag's as the ByteTag holding 1 or 0 |
| RoundTrip.ShortRoundTrip | NBT/NbtReader.cs:92 | a ShortTag payload reads back |
| RoundTrip.IntegerRoundTrip | Tests/SerialiseTest.cs:25-28 | an IntegerTag payload reads back |
| RoundTrip.LongRoundTrip | NBT/NbtReader.cs:91 | a LongTag payload reads back |
| RoundTrip.FloatRoundTrip | Tests/SerialiseTest.cs:21-24 | a FloatTag payload reads back with the same bits |
| RoundTrip.DoubleRoundTrip | Tests/SerialiseTest.cs:17-20 | a DoubleTag payload reads back with the same bits |
| RoundTrip.StringTagRoundTrip | Tests/SerialiseTest.cs:29-32 | a StringTag payload reads back |
| RoundTrip.PayloadRoundTrip | NBT/NbtReader.cs:87-100 | the payload of any encodable tag reads back as the tag in canonical form without its name, and the reader stops right after it |
| RoundTrip.ListRoundTrip | Tests/SerialiseTest.cs:56-73 | an encodable list's payload reads back element by element, and an empty list reads back empty |
| RoundTrip.ElementsRoundTrip | NBT/NbtReader.cs:125-172 | list elements of one type read back in order |
| RoundTrip.CompoundRoundTrip | Tests/SerialiseTest.cs:37-55 | a compound's payload reads back with null children dropped and the others in canonical form |
| RoundTrip.ChildrenRoundTrip | NBT/NbtReader.cs:256-304 | the children read back in order up to the End byte |
| RoundTrip.ChildRoundTrip | NBT/NbtReader.cs:262-299 | a named child reads back under its name via WithName |
| RoundTrip.EncodableSerialisable | NBT/Tags/CompoundTag.cs:60-70 | every encodable tag whose name fits can be serialised |
| RoundTrip.ReadNbtRoundTrip | Tests/SerialiseTest.cs:9-73 | serialising an unnamed encodable root, or an EmptyTag, and reading the bytes gives the canonical form of the tag |
| RoundTrip.RootRoundTrip | NBT/NbtReader.cs:84-102 | the root reader consumes exactly the serialised bytes |
| RoundTrip.ImpliedRootRoundTrip | NBT/NbtReader.cs:62-70 | the serialised children of a compound, read with an implied root, give the unnamed compound of those children in canonical form |
| Reader.NbtReader.constructor | NBT/NbtReader.cs:20-25 | a reader over bytes starts at position 0 with the given compression |
| Reader.NbtReader.ReadNbt | NBT/NbtReader.cs:105-107 | the imperative reader gives exactly the specification's result |
| Reader.NbtReader.ToTag | NBT/NbtReader.cs:38-103 | GZip throws at once; otherwise the source is framed for an implied root, and the result and final position agree with reading the root from the start |
| Reader.NbtReader.Read | NBT/NbtReader.cs:188-202 | reads one byte and advances by one, or fails at the end |
| Reader.NbtReader.ReadByte | NBT/NbtReader.cs:243-250 | agrees with ParseSByte |
| Reader.NbtReader.ReadShort | NBT/NbtReader.cs:371-380 | agrees with ParseShort |
| Reader.NbtReader.ReadInteger | NBT/NbtReader.cs:347-356 | agrees with ParseInteger |
| Reader.NbtReader.ReadLong | NBT/NbtReader.cs:359-368 | agrees with ParseLong |
| Reader.NbtReader.ReadFloat | NBT/NbtReader.cs:383-392 | agrees with ParseFloat |
| Reader.NbtReader.ReadDouble | NBT/NbtReader.cs:395-404 | agrees with ParseDouble |
| Reader.NbtReader.ReadString | NBT/NbtReader.cs:308-328 | agrees with ParseString |
| Reader.NbtReader.ReadPayload | NBT/NbtReader.cs:87-100 | agrees with ParsePayload |
| Reader.NbtReader.ReadValue | NBT/NbtReader.cs:88-94 | agrees with ParseValue |
| Reader.NbtReader.ReadList | NBT/NbtReader.cs:118-176 | agrees with ParseList |
| Reader.NbtReader.ReadElements | NBT/NbtReader.cs:125-172 | the element loops agree with ParseElements |
| Reader.NbtReader.ReadCompoundTag | NBT/NbtReader.cs:252-305 | agrees with ParseCompound |
| Reader.NbtReader.ReadNamedChild | NBT/NbtReader.cs:262-303 | agrees with ParseNamedChild |
| Reader.NbtReader.ReadArray | NBT/NbtReader.cs:178-185 | agrees with ParseArray |
| Reader.NbtReader.ReadSBytes | NBT/NbtReader.cs:181-183 | the value loop with ReadByte agrees with ParseSBytes |
| Reader.NbtReader.ReadInts | NBT/NbtReader.cs:181-183 | the value loop with ReadInteger agrees with ParseInts |
| Reader.NbtReader.ReadLongs | NBT/NbtReader.cs:181-183 | the value loop with ReadLong agrees with ParseLongs |
| Accessors.CastError | NBT/INbtTag.cs:166-168 | a failed cast of null throws NullReferenceException; of any other tag, InvalidCastException |
| Accessors.StoredValue | NBT/INbtTag.cs:195-215 | every integer class stores a number in the long range, and a ByteTag stores its byte |
| Accessors.SByteCast | NBT/INbtTag.cs:175 | the unchecked `(sbyte)` cast keeps the low eight bits, so values in range are unchanged |
| Accessors.GetString | NBT/INbtTag.cs:166-168 | succeeds exactly on a StringTag, with its text |
| Accessors.GetByte | NBT/INbtTag.cs:170-178 | accepts a ByteTag, or an IntegerTag from -128 to 128 taken modulo 256; other integers are out of range; other tags fail the cast |
| Accessors.GetByteDisagreesAt128 | NBT/INbtTag.cs:172-175 | the IntegerTag holding 128 reads as 128 through GetInteger and GetShort but not through GetByte |
| Accessors.GetByteInRange | NBT/INbtTag.cs:170-178 | the corrected GetByte accepts integers from -128 to 127 with their value; it differs from GetByte only at 128 |
| Accessors.GetByteInRangeAgrees | NBT/INbtTag.cs:170-215 | with the corrected check, a byte read agrees with the int, short and long reads of the same tag |
| Accessors.GetShort | NBT/INbtTag.cs:217-228 | accepts a ByteTag, a ShortTag or an IntegerTag in the short range, with the stored value; anything else fails the range check or the cast |
| Accessors.GetInteger | NBT/INbtTag.cs:194-205 | accepts a ByteTag, an IntegerTag or a LongTag in the int range, with the stored value |
| Accessors.GetLong | NBT/INbtTag.cs:207-215 | accepts a ByteTag, an IntegerTag or a LongTag, with the stored value |
| Accessors.GetBoolean | NBT/INbtTag.cs:230-245 | accepts a ByteTag or an IntegerTag and is true exactly when the value is non-zero, so a BooleanTag gives its flag; null throws "Tag is null", anything else is an invalid cast |
| Accessors.GetCompound | NBT/INbtTag.cs:295-305 | succeeds exactly on a compound, giving it back |
| Accessors.GetList | NBT/INbtTag.cs:307-312 | succeeds exactly on a list, giving it back |
| Accessors.Each | NBT/INbtTag.cs:253-257 | converting each element succeeds exactly when every element converts, with the values in order; otherwise it fails as the first element that fails |
| Accessors.Integers | NBT/INbtTag.cs:247-261 | a list converts each element with GetInteger, an int array gives its values, anything else fails the cast |
| Accessors.SBytes | NBT/INbtTag.cs:263-277 | a list converts each element with GetByte, an sbyte array gives its values |
| Accessors.Longs | NBT/INbtTag.cs:279-293 | a list converts each element with GetLong, a long array gives its values |
| Accessors.GetIntegers | NBT/INbtTag.cs:247-261 | the loop, with its early return for an empty list, computes Integers |
| Accessors.FillIntegers | NBT/INbtTag.cs:253-257 | the array-filling loop over a non-empty list computes Each with GetInteger |
| Accessors.GetBytes | NBT/INbtTag.cs:263-277 | the loop computes SBytes |
| Accessors.FillBytes | NBT/INbtTag.cs:269-273 | the array-filling loop computes Each with GetByte |
| Accessors.GetLongs | NBT/INbtTag.cs:279-293 | the loop computes Longs |
| Accessors.FillLongs | NBT/INbtTag.cs:285-289 | the array-filling loop computes Each with GetLong |
| Accessors.GetByteWrapsAt128 | NBT/INbtTag.cs:172-175 | the range check lets 128 through and the cast turns it into -128, while 129 and -129 are rejected |
| Accessors.NarrowIntegerAgrees | NBT/INbtTag.cs:170-228 | an IntegerTag in the sbyte range reads as the same number through all four integer accessors |
| Accessors.IntegerWidensToLong | NBT/INbtTag.cs:194-215 | whatever GetInteger accepts, GetLong accepts with the same value |
| Accessors.ShortAndInteger | NBT/INbtTag.cs:194-228 | GetShort and GetInteger agree where both succeed; a ShortTag reads only as a short |
| Accessors.BooleanTagAccessors | Tests/NbtJsonTest.cs:37-43 | a BooleanTag reads back its flag, and as a number it is 1 or 0 |
| Accessors.AccessorsIgnoreName | NBT/Tags/ByteTag.cs:17-21 | renaming a tag, even the BooleanTag that becomes a ByteTag, changes no scalar accessor |
| Accessors.CanonicalAccessors | Tests/SerialiseTest.cs:9-12 | the form a tag reads back in answers every scalar accessor as the tag does |
| Accessors.ReadBackAccessors | Tests/SerialiseTest.cs:9-12 | serialising a tag and reading it back preserves every scalar accessor's answer |
| Json.Numbers | NBT/INbtTag.cs:91-108 | an array tag's JArray holds one integer per value, in order |
| Json.Properties | NBT/INbtTag.cs:76-79 | a JObject's properties are the map's keys in order with their converted values |
| Json.JsonOf | NBT/INbtTag.cs:55-114 | only compounds and lists can fail; a BooleanTag becomes its boolean, every other integer class its number; a compound needs its ChildrenMap and has one property per entry; a list has one item per element |
| Json.TagOf | NBT/INbtTag.cs:120-161 | null becomes an EmptyTag and every other result carries the given name; an integer outside int overflows; an unknown token kind throws; arrays and objects give lists and compounds of the same size |
| Json.TagOfProperty | NBT/INbtTag.cs:124-126 | a property becomes the tag FromJson builds under the property's key |
| Json.PresentOfSlots | NBT/INbtTag.cs:127 | tags placed in a compound's child array come back, in order, as its non-null children |
| Json.JsonRoundTrip | NBT/INbtTag.cs:120-161 | a representable JSON tree read by FromJson and written by ToJson is the same tree |
| Json.PropertiesRoundTrip | NBT/INbtTag.cs:124-126 | every representable property comes back through FromJson then ToJson |
| Json.ArrayRoundTrip | NBT/INbtTag.cs:130-137 | an array whose items come back comes back |
| Json.ObjectRoundTrip | NBT/INbtTag.cs:121-128 | an object with distinct keys and non-null values that come back comes back |
| Json.TagRoundTrip | Tests/NbtJsonTest.cs:9-34 | a stable tag written by ToJson and read by FromJson under its own name is the same tag |
| Json.ChildRoundTrip | NBT/INbtTag.cs:75-82 | a stable compound child comes back |
| Json.ListComesBack | NBT/INbtTag.cs:83-90 | a list of unnamed elements that come back comes back |
| Json.CompoundComesBack | NBT/INbtTag.cs:75-82 | a compound of uniquely named children that come back comes back |
| Json.ToJson | NBT/INbtTag.cs:55-114 | the imperative ToJson, with its loops, computes JsonOf |
| Json.ObjectToJson | NBT/INbtTag.cs:75-82 | the property loop over ChildrenMap computes JsonOf of the compound |
| Json.ListToJson | NBT/INbtTag.cs:83-90 | the item loop computes JsonOf of the list |
| Json.NumbersToJson | NBT/INbtTag.cs:91-108 | the value loop computes Numbers |
| Json.FromJson | NBT/INbtTag.cs:120-161 | the imperative FromJson computes TagOf |
| Json.ObjectFromJson | NBT/INbtTag.cs:121-128 | the property loop computes TagOf of the object |
| Json.ArrayFromJson | NBT/INbtTag.cs:130-137 | the item loop computes TagOf of the array |
| Json.PropertyFromJson | NBT/INbtTag.cs:125 | one property becomes its tag |
| Json.BooleanThroughJson | Tests/NbtJsonTest.cs:37-43 | a BooleanTag becomes a JSON boolean, and FromJson makes it a BooleanTag again that GetBoolean reads as the same flag |
| Json.IntegralThroughJson | NBT/INbtTag.cs:152-154 | a ByteTag, ShortTag, IntegerTag or LongTag comes back from JSON as the IntegerTag of its number; a LongTag outside the int range makes FromJson overflow |
| Json.NullPropertyNotWritable | NBT/INbtTag.cs:140-142 | FromJson turns a null property into an EmptyTag child, and ToJson of that compound then throws because the EmptyTag has no name |
| Equality.EqualReflexive | Tests/EqualsHashCodeTest.cs:10-17 | every tag whose compounds can be mapped equals itself |
| Equality.Equal | Tests/EqualsHashCodeTest.cs:10-442 | the equality the tests require: equal tags have the same prefix, are both BooleanTags or neither, and, unless EmptyTags, have the same name |
| Equality.UnmappableCompound | NBT/Tags/CompoundTag.cs:22 | a compound whose ChildrenMap throws equals nothing |
| Equality.CompoundEqual | Tests/EqualsHashCodeTest.cs:387-442 | two compounds are equal exactly when they have the same name, both map, have the same key set and have equal values under each key |
| Equality.EqualSymmetric | Tests/EqualsHashCodeTest.cs:387-411 | equality is symmetric |
| Equality.EqualTransitive | Tests/EqualsHashCodeTest.cs:387-442 | equality is transitive |
| Equality.ChildOrderIgnored | Tests/EqualsHashCodeTest.cs:401-411 | compounds with the same name whose children are a permutation of each other are equal |
| Equality.ListOrderMatters | Tests/EqualsHashCodeTest.cs:298-303 | swapping two unequal elements of a list gives an unequal list |
| Equality.EqualWithoutCompounds | Tests/EqualsHashCodeTest.cs:10-365 | without compounds inside, equality is exactly same class, same name and same values |
| Equality.BooleanIsNotByte | Tests/EqualsHashCodeTest.cs:548-555 | a ByteTag never equals a BooleanTag, in either order |
| Equality.EqualLookups | Tests/EqualsHashCodeTest.cs:387-398 | equal compounds answer every indexer lookup alike: both find a child or neither does, and found children are equal |

## Left out

- ZLib decompression and every stream-based path of NbtReader (`NbtReader(Stream)`, `ReadIntoSpan`, `DecompressZlib`). The model reads only from a byte array, where ZLib is a call into .NET's compression library. GZip is modelled: it throws at once.
- The text encoding: names and strings are their UTF-8 bytes, so `Encoding.UTF8` is the identity here. The model cannot see invalid UTF-8 being replaced on read.
- `GetDouble` and `GetFloat` (NBT/INbtTag.cs:180-192) compute with floating point, and float values are only bit patterns here. FromJson's `ToObject<float>` widened to double is a function parameter `single`.
- The JSON text form: `ToJsonString` and `FromJson(string)` call Newtonsoft's serializer. The model works on the token tree. A JObject setter replacing an existing key is not modelled, because ToJson's keys come from a dictionary and are distinct.
- `CompoundTagSerialisable` and its branches in `ToJson` and `GetCompound`: CompoundTagSerialisable.cs is not part of this model.
- `GetHashCode`, reference equality `==`, and the `HashSet`/`Dictionary` tests: the tag classes define no `Equals`. `Equality.Equal` is the structural equality that Tests/EqualsHashCodeTest.cs requires. It compares float and double values by bit pattern, so NaN and the two zeros may be treated differently from .NET.
- The reader's position after an exception: the reader methods promise nothing about it once they fail.
- Reader.NbtReader.ToTag requires the position to be within the data. The public constructor always starts at 0.
- The run-time class of a list (`ListTag` against `ListTag<T>`): the reader builds typed lists, which only changes behaviour through `ListTag<T>.WithName` (see Findings).
- GetBoolean's final `booleanTag.Value` return (NBT/INbtTag.cs:244) cannot be reached, because a BooleanTag is a ByteTag and returns earlier. The model has no case for it.
- RoundTrip.ReadNbtRoundTrip excludes lists of EmptyTag elements, named list elements and named roots, and lists whose elements do not all have the first element's prefix (possible through the plain `ListTag` constructor and `FromJson` of a mixed array), because `Serialise` records only the first element's type. Each element is written with `Serialise(true)`, which still writes a non-null name, while the reader reads neither an element's name nor the root's. An EmptyTag element is written as a lone End byte that the reader reads as an empty list. The library documents that a tag outside a compound should have a null name (NBT/INbtTag.cs:26-27, and the `name` parameter of NBT/Tags/CompoundTag.cs:6).
- Benchmarks, compression helpers in the tests, and the test harness itself.

## Findings

| source | as written | input that shows it | evidently intended | confidence | as-written member | corrected member |
|---|---|---|---|---|---|---|
| NBT/Tags/CompoundTag.cs:20-22 | `_childrenMap` is assigned before the loop, so an `Add` that throws leaves a partial dictionary cached | children named "a" and "a": the first access throws, the second returns a map holding only the first child | the map is cached only once it is complete, so every access throws again | not executed | Compound.PartialCacheAfterDuplicate | Compound.AccessIsChildrenMap |
| NBT/Tags/ListTag.cs:12-14 | `new ListTag<T>(Name, Tags)` passes the old name, so the argument is ignored | renaming an unnamed typed list to "a" | the result carries the new name, like every other WithName | not executed | Tags.TypedListWithNameIgnoresName | Tags.TypedListWithName |
| NBT/INbtTag.cs:172-175 | GetByte rejects values `> 128 or < -128`, so 128 passes and `(sbyte)128` is -128 | `new IntegerTag(null, 128).GetByte()` | the sbyte range -128..127, rejecting 128 as out of range | not executed | Accessors.GetByteDisagreesAt128 | Accessors.GetByteInRangeAgrees |

The compound object uses the corrected getter (Compound.CompoundTagObject.GetChildrenMap); the as-written getter is kept beside it. The accessors built on GetByte (GetBytes, JSON) keep the byte check as written, because they model the code; Accessors.GetByteInRange is the corrected check.
