/** NbtBuilder (NBT/NbtBuilder.cs): a growable byte list that the tag serialisers append to. */
module Builder {
  import opened Binary
  import opened Results
  import opened NbtTagPrefix
  import opened Tags
  import opened Encoding

  class NbtBuilder {
    /** The `List<byte> _data` written so far. */
    var data: seq<byte>

    constructor ()
      ensures data == []
    {
      data := [];
    }

    /** ToArray: a copy of everything written so far. */
    method ToArray() returns (r: seq<byte>)
      ensures r == data
    {
      r := data;
    }

    /** Write(byte[]), Write(IEnumerable<byte>) and Write(Span<byte>): append the bytes in order. */
    method Write(value: seq<byte>)
      modifies this
      ensures data == old(data) + value
    {
      data := data + value;
    }

    /** Write(byte): append one byte. */
    method WriteOne(value: byte)
      modifies this
      ensures data == old(data) + [value]
    {
      data := data + [value];
    }

    /** WriteType: the prefix byte unless `noType`. */
    method WriteType(value: Prefix, noType: bool)
      modifies this
      ensures data == old(data) + TypeBytes(value, noType)
    {
      if !noType {
        WriteOne(Code(value));
      }
    }

    /** WriteString: the length check comes before any byte is written, so a throw appends nothing. */
    method WriteString(value: Text) returns (o: Outcome)
      modifies this
      ensures o.Pass? <==> StringBytes(value).Ok?
      ensures o.Fail? ==> o.error == StringBytes(value).error && data == old(data)
      ensures o.Pass? ==> data == old(data) + StringBytes(value).value
    {
      var length := |value|;
      if length > 0xFFFF {
        return Fail(StringTooLong(length));
      }
      var span := WriteUInt16BE(length);
      Write(span);
      Write(value);
      return Pass;
    }

    /** WriteName: nothing for a null name, else WriteString. */
    method WriteName(name: Name) returns (o: Outcome)
      modifies this
      ensures o.Pass? <==> NameBytes(name).Ok?
      ensures o.Fail? ==> o.error == NameBytes(name).error && data == old(data)
      ensures o.Pass? ==> data == old(data) + NameBytes(name).value
    {
      if name.Some? {
        o := WriteString(name.value);
      } else {
        o := Pass;
      }
    }

    method WriteShort(value: i16)
      modifies this
      ensures data == old(data) + WriteInt16BE(value)
    {
      Write(WriteInt16BE(value));
    }

    method WriteInteger(value: i32)
      modifies this
      ensures data == old(data) + WriteInt32BE(value)
    {
      Write(WriteInt32BE(value));
    }

    method WriteLong(value: i64)
      modifies this
      ensures data == old(data) + WriteInt64BE(value)
    {
      Write(WriteInt64BE(value));
    }

    method WriteFloat(value: bv32)
      modifies this
      ensures data == old(data) + WriteSingleBE(value)
    {
      Write(WriteSingleBE(value));
    }

    method WriteDouble(value: bv64)
      modifies this
      ensures data == old(data) + WriteDoubleBE(value)
    {
      Write(WriteDoubleBE(value));
    }

    /** WriteByte: the two's-complement byte of an sbyte. */
    method WriteByte(value: i8)
      modifies this
      ensures data == old(data) + [SByteToByte(value)]
    {
      WriteOne(if value < 0 then 256 + value else value);
    }
  }
}
