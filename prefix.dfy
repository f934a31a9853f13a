/** The one-byte wire discriminants of the thirteen NBT tag kinds (NbtTagPrefix). */
module NbtTagPrefix {
  import opened Binary
  import opened Results

  datatype Prefix =
    | End | Byte | Short | Integer | Long | Float | Double
    | Bytes | String | List | Compound | Integers | Longs

  /** A prefix that introduces a payload; `End` only ever terminates. */
  type PayloadPrefix = p: Prefix | p != End witness Byte

  /** The constant byte of each prefix. */
  function Code(p: Prefix): (b: byte)
    ensures b <= 12
    ensures (b == 0) == (p == End)
  {
    match p
    case End => 0
    case Byte => 1
    case Short => 2
    case Integer => 3
    case Long => 4
    case Float => 5
    case Double => 6
    case Bytes => 7
    case String => 8
    case List => 9
    case Compound => 10
    case Integers => 11
    case Longs => 12
  }

  /** The prefix a type byte stands for; the readers' `switch (type)`, whose default throws. */
  function FromCode(b: byte): (r: Option<Prefix>)
    ensures r.Some? <==> b <= 12
    ensures r.Some? ==> Code(r.value) == b
  {
    if b == 0 then Some(End)
    else if b == 1 then Some(Byte)
    else if b == 2 then Some(Short)
    else if b == 3 then Some(Integer)
    else if b == 4 then Some(Long)
    else if b == 5 then Some(Float)
    else if b == 6 then Some(Double)
    else if b == 7 then Some(Bytes)
    else if b == 8 then Some(String)
    else if b == 9 then Some(List)
    else if b == 10 then Some(Compound)
    else if b == 11 then Some(Integers)
    else if b == 12 then Some(Longs)
    else None
  }

  /** Decoding a prefix's own code gives the prefix back, so distinct prefixes have distinct codes. */
  lemma FromCodeOfCode(p: Prefix, q: Prefix)
    ensures FromCode(Code(p)) == Some(p)
    ensures Code(p) == Code(q) ==> p == q
  {
  }
}
