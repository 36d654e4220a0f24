// The custom-attribute blob of IL2CPP metadata (version 29 and later) as
// Il2CppMember reads it: Unity's compressed integers and the tagged values of
// attribute constructor arguments.  Each read has a reference definition
// here, a function of the blob bytes and the cursor position that gives the
// decoded value and the position after it, or the exception the read raises.
module Il2CppBlob {
  import opened Util
  import opened MemoryReaders

  const UInt32Max: nat := 0xFFFF_FFFF
  const Int32Min: int := -0x8000_0000
  const Int32Max: int := 0x7FFF_FFFF

  // Il2CppTypeEnum values used by the blob (the element types of ECMA-335
  // Partition II, section II.23.1.16, plus the two IL2CPP extensions).
  const TagBoolean: uint8 := 0x02
  const TagChar: uint8 := 0x03
  const TagI1: uint8 := 0x04
  const TagU1: uint8 := 0x05
  const TagI2: uint8 := 0x06
  const TagU2: uint8 := 0x07
  const TagI4: uint8 := 0x08
  const TagU4: uint8 := 0x09
  const TagI8: uint8 := 0x0a
  const TagU8: uint8 := 0x0b
  const TagR4: uint8 := 0x0c
  const TagR8: uint8 := 0x0d
  const TagString: uint8 := 0x0e
  const TagValueType: uint8 := 0x11
  const TagClass: uint8 := 0x12
  const TagGenericInst: uint8 := 0x15
  const TagObject: uint8 := 0x1c
  const TagSzArray: uint8 := 0x1d
  const TagEnum: uint8 := 0x55
  const TagTypeIndex: uint8 := 0xff

  /** The tags ReadValue knows how to read; every other tag is unsupported. */
  predicate ReadableTag(tag: uint8)
  {
    tag in {TagEnum, TagSzArray, TagTypeIndex, TagBoolean, TagChar, TagI1, TagU1, TagI2,
            TagU2, TagI4, TagU4, TagI8, TagU8, TagR4, TagR8, TagString}
  }

  // --------------------------------------------------- compressed integers

  /** The number of bytes a compressed unsigned integer with this lead byte occupies. */
  function LeadLength(b: uint8): nat
  {
    if b < 128 || b == 254 || b == 255 then 1
    else if b == 240 then 5
    else if b >= 192 then 4
    else 2
  }

  /**
   * ReadUnityCompressedUInt32.  A lead byte below 128 is the value; 240 is
   * followed by a 4-byte little-endian value; 254 and 255 stand for
   * uint.MaxValue - 1 and uint.MaxValue; any other lead byte 11xxxxxx gives
   * its low six bits followed by three big-endian bytes, and 10xxxxxx its
   * low six bits followed by one byte.  Every lead byte falls in one of these
   * classes, so the only failure is running out of bytes.
   */
  function CompressedUInt32At(data: seq<uint8>, pos: nat): (r: Result<Decoded<nat>>)
    requires pos <= |data|
    ensures r.Success? <==> pos < |data| && LeadLength(data[pos]) <= |data| - pos
    ensures r.Failure? ==> r.error == EndOfData
    ensures r.Success? ==> r.value.next == pos + LeadLength(data[pos]) && r.value.value <= UInt32Max
    ensures r.Success? && r.value.next == pos + 2 ==> r.value.value < 0x4000
    ensures r.Success? && r.value.next == pos + 4 ==> r.value.value < 0x4000_0000
    ensures r.Success? && data[pos] < 0x80 ==> r.value.value == data[pos]
    ensures r.Success? && data[pos] == 0xF0 ==> r.value.value == LittleEndian(data[pos + 1..pos + 5])
    ensures r.Success? && data[pos] == 0xFE ==> r.value.value == UInt32Max - 1
    ensures r.Success? && data[pos] == 0xFF ==> r.value.value == UInt32Max
    ensures r.Success? && 0xC0 <= data[pos] && data[pos] !in {0xF0, 0xFE, 0xFF} ==>
              r.value.value == (data[pos] as int - 0xC0) * 0x100_0000 + (data[pos + 1] as int) * 0x1_0000
                               + (data[pos + 2] as int) * 0x100 + data[pos + 3]
    ensures r.Success? && 0x80 <= data[pos] < 0xC0 ==> r.value.value == (data[pos] as int - 0x80) * 0x100 + data[pos + 1]
  {
    match ByteAt(data, pos)
    case Failure(e) => Failure(e)
    case Success(lead) =>
      var b, p := lead.value as int, lead.next;
      if b < 128 then Success(Decoded(b, p))
      else if b == 240 then UIntAt(data, p, 4)
      else if b == 254 then Success(Decoded(UInt32Max - 1, p))
      else if b == 255 then Success(Decoded(UInt32Max, p))
      else if b >= 192 then
        if p + 3 <= |data| then
          Success(Decoded((b - 192) * 0x100_0000 + (data[p] as int) * 0x1_0000 + (data[p + 1] as int) * 0x100
                          + data[p + 2], p + 3))
        else Failure(EndOfData)
      else
        if p < |data| then Success(Decoded((b - 128) * 0x100 + (data[p] as int), p + 1))
        else Failure(EndOfData)
  }

  /**
   * The signed reading of a compressed integer (ReadUnityCompressedInt32):
   * uint.MaxValue is int.MinValue, an even value u is u / 2 and an odd value
   * u is -(u / 2 + 1).  No case leaves the int range.
   */
  function ZigZagDecode(u: nat): (n: int)
    requires u <= UInt32Max
    ensures Int32Min <= n <= Int32Max
    ensures n < 0 <==> u % 2 == 1
  {
    if u == UInt32Max then Int32Min
    else if u % 2 == 1 then -(u / 2 + 1)
    else u / 2
  }

  function CompressedInt32At(data: seq<uint8>, pos: nat): (r: Result<Decoded<int>>)
    requires pos <= |data|
    ensures r.Success? <==> CompressedUInt32At(data, pos).Success?
    ensures r.Success? ==> r.value.next == CompressedUInt32At(data, pos).value.next
    ensures r.Success? ==> r.value.value == ZigZagDecode(CompressedUInt32At(data, pos).value.value)
    ensures r.Failure? ==> r.error == EndOfData
  {
    match CompressedUInt32At(data, pos)
    case Success(d) => Success(Decoded(ZigZagDecode(d.value), d.next))
    case Failure(e) => Failure(e)
  }

  /** The inverse of ZigZagDecode. */
  function ZigZagEncode(n: int): (u: nat)
    requires Int32Min <= n <= Int32Max
    ensures u <= UInt32Max
  {
    if n == Int32Min then UInt32Max
    else if n < 0 then 2 * (-n - 1) + 1
    else 2 * n
  }

  lemma ZigZagDecodeEncode(n: int)
    requires Int32Min <= n <= Int32Max
    ensures ZigZagDecode(ZigZagEncode(n)) == n
  {
  }

  lemma ZigZagEncodeDecode(u: nat)
    requires u <= UInt32Max
    ensures ZigZagEncode(ZigZagDecode(u)) == u
  {
  }

  /** Distinct unsigned values give distinct signed values. */
  lemma ZigZagInjective(u1: nat, u2: nat)
    requires u1 <= UInt32Max && u2 <= UInt32Max
    requires ZigZagDecode(u1) == ZigZagDecode(u2)
    ensures u1 == u2
  {
    ZigZagEncodeDecode(u1);
    ZigZagEncodeDecode(u2);
  }

  /** A shortest encoding of a compressed unsigned integer, Unity's writer. */
  function EncodeCompressedUInt32(v: nat): (s: seq<uint8>)
    requires v <= UInt32Max
    ensures |s| == 1 || |s| == 2 || |s| == 4 || |s| == 5
  {
    if v < 0x80 then [v]
    else if v < 0x4000 then [0x80 + v / 0x100, v % 0x100]
    else if v < 0x2000_0000 then
      [0xC0 + v / 0x100_0000, (v / 0x1_0000) % 0x100, (v / 0x100) % 0x100, v % 0x100]
    else [240] + LittleEndianBytes(v, 4)
  }

  /** Decoding an encoded value, wherever it sits in the blob, gives the value back. */
  lemma CompressedUInt32RoundTrip(prefix: seq<uint8>, v: nat, rest: seq<uint8>)
    requires v <= UInt32Max
    ensures CompressedUInt32At(prefix + EncodeCompressedUInt32(v) + rest, |prefix|)
            == Success(Decoded(v, |prefix| + |EncodeCompressedUInt32(v)|))
  {
    var e := EncodeCompressedUInt32(v);
    var data := prefix + e + rest;
    var p := |prefix|;
    assert forall k :: 0 <= k < |e| ==> data[p + k] == e[k];
    if v >= 0x2000_0000 {
      assert data[p + 1..p + 5] == e[1..];
      DecodeFiveBytes(data, p, v);
    } else if v >= 0x4000 {
      DecodeFourBytes(data, p, v);
    }
  }

  lemma DecodeFourBytes(data: seq<uint8>, p: nat, v: nat)
    requires 0x4000 <= v < 0x2000_0000 && p + 4 <= |data|
    requires data[p] == 0xC0 + v / 0x100_0000 && data[p + 1] == (v / 0x1_0000) % 0x100
    requires data[p + 2] == (v / 0x100) % 0x100 && data[p + 3] == v % 0x100
    ensures CompressedUInt32At(data, p) == Success(Decoded(v, p + 4))
  {
    assert 0xC0 <= data[p] < 0xE0 && LeadLength(data[p]) == 4;
    var r := CompressedUInt32At(data, p);
    assert r.value.value == (data[p] as int - 0xC0) * 0x100_0000 + (data[p + 1] as int) * 0x1_0000
                            + (data[p + 2] as int) * 0x100 + data[p + 3];
    FourByteDigits(v);
  }

  lemma FourByteDigits(v: nat)
    requires v < 0x2000_0000
    ensures (v / 0x100_0000) * 0x100_0000 + ((v / 0x1_0000) % 0x100) * 0x1_0000
            + ((v / 0x100) % 0x100) * 0x100 + v % 0x100 == v
  {
  }

  lemma DecodeFiveBytes(data: seq<uint8>, p: nat, v: nat)
    requires 0x2000_0000 <= v <= UInt32Max && p + 5 <= |data|
    requires data[p] == 240 && data[p + 1..p + 5] == LittleEndianBytes(v, 4)
    ensures CompressedUInt32At(data, p) == Success(Decoded(v, p + 5))
  {
    assert Pow256(4) == 0x1_0000_0000;
    LittleEndianRoundTrip(v, 4);
  }

  function EncodeCompressedInt32(n: int): seq<uint8>
    requires Int32Min <= n <= Int32Max
  {
    EncodeCompressedUInt32(ZigZagEncode(n))
  }

  lemma CompressedInt32RoundTrip(prefix: seq<uint8>, n: int, rest: seq<uint8>)
    requires Int32Min <= n <= Int32Max
    ensures CompressedInt32At(prefix + EncodeCompressedInt32(n) + rest, |prefix|)
            == Success(Decoded(n, |prefix| + |EncodeCompressedInt32(n)|))
  {
    CompressedUInt32RoundTrip(prefix, ZigZagEncode(n), rest);
    ZigZagDecodeEncode(n);
  }

  // --------------------------------------------------------------- values

  /** A decoded constructor argument. */
  datatype Value =
    | VBool(b: bool)
    | VChar(code: nat)
    | VI1(i: int)
    | VU1(u: nat)
    | VI2(i: int)
    | VU2(u: nat)
    | VI4(i: int)
    | VU4(u: nat)
    | VI8(i: int)
    | VU8(u: nat)
    | VR4(bits: seq<uint8>)                 // IEEE single, kept as its bytes
    | VR8(bits: seq<uint8>)                 // IEEE double, kept as its bytes
    | VString(text: Option<seq<uint8>>)     // UTF-8 bytes; None is a null string
    | VNullArray
    | VArray(elems: seq<Value>)
    | VType(index: nat)                     // an index into the binary's types

  /** The tag a value of this shape is read under (ENUM values read as their underlying tag). */
  function TagOf(v: Value): uint8
  {
    match v
    case VBool(_) => TagBoolean
    case VChar(_) => TagChar
    case VI1(_) => TagI1
    case VU1(_) => TagU1
    case VI2(_) => TagI2
    case VU2(_) => TagU2
    case VI4(_) => TagI4
    case VU4(_) => TagU4
    case VI8(_) => TagI8
    case VU8(_) => TagU8
    case VR4(_) => TagR4
    case VR8(_) => TagR8
    case VString(_) => TagString
    case VNullArray => TagSzArray
    case VArray(_) => TagSzArray
    case VType(_) => TagTypeIndex
  }

  /** Every number lies in the range of its CLR type and floats have their width. */
  predicate InRange(v: Value)
    decreases v
  {
    match v
    case VBool(_) => true
    case VChar(c) => c < 0x1_0000
    case VI1(i) => -0x80 <= i < 0x80
    case VU1(u) => u < 0x100
    case VI2(i) => -0x8000 <= i < 0x8000
    case VU2(u) => u < 0x1_0000
    case VI4(i) => Int32Min <= i <= Int32Max
    case VU4(u) => u <= UInt32Max
    case VI8(i) => -0x8000_0000_0000_0000 <= i < 0x8000_0000_0000_0000
    case VU8(u) => u < 0x1_0000_0000_0000_0000
    case VR4(bits) => |bits| == 4
    case VR8(bits) => |bits| == 8
    case VString(_) => true
    case VNullArray => true
    case VArray(elems) => forall e :: e in elems ==> InRange(e)
    case VType(_) => true
  }

  // ------------------------------------------------ the type-index oracle

  /** An Il2CppType of the binary: its tag and its Data.ClassIndex. */
  datatype TypeEntry = TypeEntry(tag: uint8, classIndex: int)

  /** An Il2CppTypeDefinition; for an enum, ElementTypeIndex is its underlying type. */
  datatype TypeDefEntry = TypeDefEntry(elementTypeIndex: int)

  /** The tables of the loaded binary and metadata the decoder looks types up in. */
  datatype Binary = Binary(types: seq<TypeEntry>, typeDefs: seq<TypeDefEntry>)

  /** LibCpp2IL's Binary.GetType: an index into the types table. */
  function GetType(bin: Binary, index: int): (r: Result<TypeEntry>)
    ensures r.Success? <==> 0 <= index < |bin.types|
    ensures r.Success? ==> r.value == bin.types[index]
    ensures r.Failure? ==> r.error == IndexOutOfRange
  {
    if 0 <= index < |bin.types| then Success(bin.types[index]) else Failure(IndexOutOfRange)
  }

  /** Il2CppType.AsClass: the definition of a class or value type. */
  function AsClass(bin: Binary, t: TypeEntry): (r: Result<TypeDefEntry>)
    ensures r.Success? ==> t.tag in {TagClass, TagValueType} && 0 <= t.classIndex < |bin.typeDefs|
                           && r.value == bin.typeDefs[t.classIndex]
  {
    if t.tag != TagClass && t.tag != TagValueType then Failure(InvalidOperation)
    else if 0 <= t.classIndex < |bin.typeDefs| then Success(bin.typeDefs[t.classIndex])
    else Failure(IndexOutOfRange)
  }

  /** The tag of the underlying type of the enum with this type index. */
  function UnderlyingTag(bin: Binary, typeIndex: int): (r: Result<uint8>)
  {
    match GetType(bin, typeIndex)
    case Failure(e) => Failure(e)
    case Success(enumType) =>
      match AsClass(bin, enumType)
      case Failure(e) => Failure(e)
      case Success(def) =>
        match GetType(bin, def.elementTypeIndex)
        case Failure(e) => Failure(e)
        case Success(underlying) => Success(underlying.tag)
  }

  /** ReadEnumUnderlyingType: a compressed type index, then the lookups. */
  function EnumUnderlyingTagAt(bin: Binary, data: seq<uint8>, pos: nat): (r: Result<Decoded<uint8>>)
    requires pos <= |data|
    ensures r.Success? ==> CompressedInt32At(data, pos).Success?
    ensures r.Success? ==> r.value.next == CompressedInt32At(data, pos).value.next
    ensures r.Success? ==> UnderlyingTag(bin, CompressedInt32At(data, pos).value.value) == Success(r.value.value)
  {
    match CompressedInt32At(data, pos)
    case Failure(e) => Failure(e)
    case Success(idx) =>
      match UnderlyingTag(bin, idx.value)
      case Failure(e) => Failure(e)
      case Success(tag) => Success(Decoded(tag, idx.next))
  }

  /** ReadString: a compressed length, -1 for null, then that many raw bytes. */
  function StringAt(data: seq<uint8>, pos: nat): (r: Result<Decoded<Option<seq<uint8>>>>)
    requires pos <= |data|
    ensures var len := CompressedInt32At(data, pos);
      r.Success? <==> len.Success? && (len.value.value == -1 || 0 <= len.value.value <= |data| - len.value.next)
    ensures r.Success? ==>
      var len := CompressedInt32At(data, pos).value;
      if len.value == -1 then r.value == Decoded(None, len.next)
      else r.value == Decoded(Some(data[len.next..len.next + len.value]), len.next + len.value)
    ensures r.Failure? ==> r.error == EndOfData
  {
    match CompressedInt32At(data, pos)
    case Failure(e) => Failure(e)
    case Success(len) =>
      if len.value == -1 then Success(Decoded(None, len.next))
      else
        match BytesAt(data, len.next, len.value)
        case Failure(e) => Failure(e)
        case Success(bytes) => Success(Decoded(Some(bytes.value), bytes.next))
  }

  /** ReadValue(ref reader, type): one value of the given tag. */
  function ValueAt(bin: Binary, data: seq<uint8>, pos: nat, tag: uint8): (r: Result<Decoded<Value>>)
    requires pos <= |data|
    ensures r.Success? ==> pos < r.value.next <= |data|
    ensures r.Success? ==> InRange(r.value.value)
    ensures r.Success? && tag != TagEnum ==> TagOf(r.value.value) == tag
    ensures !ReadableTag(tag) ==> r == Failure(NotSupported)
    ensures tag == TagSzArray ==>
      var a := SzArrayAt(bin, data, pos);
      (r.Success? <==> a.Success?) && (r.Failure? ==> r.error == a.error)
      && (r.Success? ==> r.value == Decoded(if a.value.value.Some? then VArray(a.value.value.value) else VNullArray, a.value.next))
    ensures tag == TagTypeIndex ==>
      var idx := CompressedInt32At(data, pos);
      (r.Success? <==> idx.Success? && 0 <= idx.value.value < |bin.types|)
      && (r.Success? ==> r.value == Decoded(VType(idx.value.value), idx.value.next))
      && (r.Failure? ==> r.error == if idx.Failure? then EndOfData else IndexOutOfRange)
    ensures tag !in {TagEnum, TagSzArray, TagTypeIndex} ==> r == ScalarValueAt(data, pos, tag)
    decreases |data| - pos, 1
  {
    if tag == TagEnum then
      match EnumUnderlyingTagAt(bin, data, pos)
      case Failure(e) => Failure(e)
      case Success(u) => ValueAt(bin, data, u.next, u.value)
    else if tag == TagSzArray then
      (match SzArrayAt(bin, data, pos)
       case Failure(e) => Failure(e)
       case Success(a) => Success(Decoded(if a.value.Some? then VArray(a.value.value) else VNullArray, a.next)))
    else if tag == TagTypeIndex then
      match CompressedInt32At(data, pos)
      case Failure(e) => Failure(e)
      case Success(idx) =>
        if 0 <= idx.value < |bin.types| then Success(Decoded(VType(idx.value), idx.next))
        else Failure(IndexOutOfRange)
    else ScalarValueAt(data, pos, tag)
  }

  /** An ENUM value is the value of its underlying tag, read after the type index. */
  lemma EnumValueAt(bin: Binary, data: seq<uint8>, pos: nat)
    requires pos <= |data|
    ensures var u := EnumUnderlyingTagAt(bin, data, pos);
      (u.Failure? ==> ValueAt(bin, data, pos, TagEnum) == Failure(u.error))
      && (u.Success? ==> ValueAt(bin, data, pos, TagEnum) == ValueAt(bin, data, u.value.next, u.value.value))
  {
  }

  /** ReadValue(ref reader, type) for the tags of a boolean, a char or a number. */
  function ScalarValueAt(data: seq<uint8>, pos: nat, tag: uint8): (r: Result<Decoded<Value>>)
    requires pos <= |data|
    ensures r.Success? ==> pos < r.value.next <= |data|
    ensures r.Success? ==> InRange(r.value.value) && TagOf(r.value.value) == tag
    ensures !ReadableTag(tag) ==> r == Failure(NotSupported)
    ensures tag in {TagBoolean, TagI1, TagU1} ==> (r.Success? <==> pos < |data|)
    ensures tag == TagBoolean && r.Success? ==> r.value == Decoded(VBool(data[pos] != 0), pos + 1)
    ensures tag == TagI1 && r.Success? ==>
              r.value == Decoded(VI1(if data[pos] >= 0x80 then data[pos] as int - 0x100 else data[pos]), pos + 1)
    ensures tag == TagU1 && r.Success? ==> r.value == Decoded(VU1(data[pos]), pos + 1)
    ensures tag in {TagChar, TagI2, TagU2} ==> (r.Success? <==> 2 <= |data| - pos)
    ensures tag == TagChar && r.Success? ==> r.value == Decoded(VChar(data[pos] + 0x100 * (data[pos + 1] as int)), pos + 2)
    ensures tag == TagI2 && r.Success? ==>
              var u := data[pos] + 0x100 * (data[pos + 1] as int);
              r.value == Decoded(VI2(if u >= 0x8000 then u - 0x1_0000 else u), pos + 2)
    ensures tag == TagU2 && r.Success? ==> r.value == Decoded(VU2(data[pos] + 0x100 * (data[pos + 1] as int)), pos + 2)
    ensures tag in {TagBoolean, TagChar, TagI1, TagU1, TagI2, TagU2} && r.Failure? ==> r.error == EndOfData
    ensures tag !in {TagBoolean, TagChar, TagI1, TagU1, TagI2, TagU2} ==> r == WideValueAt(data, pos, tag)
  {
    if tag == TagBoolean then
      (match ByteAt(data, pos) case Failure(e) => Failure(e) case Success(d) => Success(Decoded(VBool(d.value != 0), d.next)))
    else if tag == TagChar then
      (match UIntAt(data, pos, 2) case Failure(e) => Failure(e) case Success(d) => Success(Decoded(VChar(d.value), d.next)))
    else if tag == TagI1 then
      (match SIntAt(data, pos, 1) case Failure(e) => Failure(e) case Success(d) => Success(Decoded(VI1(d.value), d.next)))
    else if tag == TagU1 then
      (match ByteAt(data, pos) case Failure(e) => Failure(e) case Success(d) => Success(Decoded(VU1(d.value), d.next)))
    else if tag == TagI2 then
      (match SIntAt(data, pos, 2) case Failure(e) => Failure(e) case Success(d) => Success(Decoded(VI2(d.value), d.next)))
    else if tag == TagU2 then
      (match UIntAt(data, pos, 2) case Failure(e) => Failure(e) case Success(d) => Success(Decoded(VU2(d.value), d.next)))
    else WideValueAt(data, pos, tag)
  }

  /** ReadValue(ref reader, type) for the tags of a 32- or 64-bit number, a float or a string. */
  function WideValueAt(data: seq<uint8>, pos: nat, tag: uint8): (r: Result<Decoded<Value>>)
    requires pos <= |data|
    ensures r.Success? ==> pos < r.value.next <= |data|
    ensures r.Success? ==> InRange(r.value.value) && TagOf(r.value.value) == tag
    ensures !ReadableTag(tag) ==> r == Failure(NotSupported)
    ensures tag in {TagI4, TagU4, TagI8, TagU8} ==> r == IntegerValueAt(data, pos, tag)
    ensures tag !in {TagI4, TagU4, TagI8, TagU8} ==> r == FloatOrStringAt(data, pos, tag)
  {
    if tag == TagI4 || tag == TagU4 || tag == TagI8 || tag == TagU8 then IntegerValueAt(data, pos, tag)
    else FloatOrStringAt(data, pos, tag)
  }

  /** ReadValue(ref reader, type) for the tags of a 32- or 64-bit integer. */
  function IntegerValueAt(data: seq<uint8>, pos: nat, tag: uint8): (r: Result<Decoded<Value>>)
    requires pos <= |data|
    ensures r.Success? ==> pos < r.value.next <= |data|
    ensures r.Success? ==> InRange(r.value.value) && TagOf(r.value.value) == tag
    ensures !ReadableTag(tag) ==> r == Failure(NotSupported)
    ensures tag == TagI4 ==>
      var c := CompressedInt32At(data, pos);
      (r.Success? <==> c.Success?) && (r.Success? ==> r.value == Decoded(VI4(c.value.value), c.value.next))
    ensures tag == TagU4 ==>
      var c := CompressedUInt32At(data, pos);
      (r.Success? <==> c.Success?) && (r.Success? ==> r.value == Decoded(VU4(c.value.value), c.value.next))
    ensures tag in {TagI8, TagU8} ==> (r.Success? <==> 8 <= |data| - pos)
    ensures tag == TagI8 && r.Success? ==> r.value == Decoded(VI8(SIntAt(data, pos, 8).value.value), pos + 8)
    ensures tag == TagU8 && r.Success? ==> r.value == Decoded(VU8(UIntAt(data, pos, 8).value.value), pos + 8)
    ensures tag in {TagI4, TagU4, TagI8, TagU8} && r.Failure? ==> r.error == EndOfData
    ensures tag !in {TagI4, TagU4, TagI8, TagU8} ==> r == Failure(NotSupported)
  {
    if tag == TagI4 then
      (match CompressedInt32At(data, pos) case Failure(e) => Failure(e) case Success(d) => Success(Decoded(VI4(d.value), d.next)))
    else if tag == TagU4 then
      (match CompressedUInt32At(data, pos) case Failure(e) => Failure(e) case Success(d) => Success(Decoded(VU4(d.value), d.next)))
    else if tag == TagI8 then
      Pow256Of8();
      (match SIntAt(data, pos, 8) case Failure(e) => Failure(e) case Success(d) => Success(Decoded(VI8(d.value), d.next)))
    else if tag == TagU8 then
      Pow256Of8();
      (match UIntAt(data, pos, 8) case Failure(e) => Failure(e) case Success(d) => Success(Decoded(VU8(d.value), d.next)))
    else Failure(NotSupported)
  }

  /** ReadValue(ref reader, type) for the tags of a float or a string. */
  function FloatOrStringAt(data: seq<uint8>, pos: nat, tag: uint8): (r: Result<Decoded<Value>>)
    requires pos <= |data|
    ensures r.Success? ==> pos < r.value.next <= |data|
    ensures r.Success? ==> InRange(r.value.value) && TagOf(r.value.value) == tag
    ensures !ReadableTag(tag) ==> r == Failure(NotSupported)
    ensures tag == TagR4 ==> (r.Success? <==> 4 <= |data| - pos)
                             && (r.Success? ==> r.value == Decoded(VR4(data[pos..pos + 4]), pos + 4))
    ensures tag == TagR8 ==> (r.Success? <==> 8 <= |data| - pos)
                             && (r.Success? ==> r.value == Decoded(VR8(data[pos..pos + 8]), pos + 8))
    ensures tag == TagString ==>
      var str := StringAt(data, pos);
      (r.Success? <==> str.Success?) && (r.Success? ==> r.value == Decoded(VString(str.value.value), str.value.next))
    ensures tag in {TagR4, TagR8, TagString} && r.Failure? ==> r.error == EndOfData
    ensures tag !in {TagR4, TagR8, TagString} ==> r == Failure(NotSupported)
  {
    if tag == TagR4 then
      (match BytesAt(data, pos, 4) case Failure(e) => Failure(e) case Success(d) => Success(Decoded(VR4(d.value), d.next)))
    else if tag == TagR8 then
      (match BytesAt(data, pos, 8) case Failure(e) => Failure(e) case Success(d) => Success(Decoded(VR8(d.value), d.next)))
    else if tag == TagString then
      (match StringAt(data, pos) case Failure(e) => Failure(e) case Success(d) => Success(Decoded(VString(d.value), d.next)))
    else Failure(NotSupported)
  }

  /**
   * ReadSzArray: a compressed length (-1 for a null array), the element tag
   * (an ENUM tag is replaced by its underlying tag), the type-prefixed flag,
   * then the elements.  Type-prefixed elements are only allowed in an
   * object array, and a negative length other than -1 cannot be allocated.
   */
  function SzArrayAt(bin: Binary, data: seq<uint8>, pos: nat): (r: Result<Decoded<Option<seq<Value>>>>)
    requires pos <= |data|
    ensures r.Success? ==> pos < r.value.next <= |data|
    ensures r.Success? ==> CompressedInt32At(data, pos).Success?
    ensures r.Success? ==>
      var len := CompressedInt32At(data, pos).value;
      (r.value.value.None? <==> len.value == -1)
      && (len.value == -1 ==> r.value.next == len.next)
      && (r.value.value.Some? ==> |r.value.value.value| == len.value)
    ensures r.Success? && r.value.value.Some? ==> forall e :: e in r.value.value.value ==> InRange(e)
    decreases |data| - pos, 0
  {
    match CompressedInt32At(data, pos)
    case Failure(e) => Failure(e)
    case Success(len) =>
      if len.value == -1 then Success(Decoded(None, len.next))
      else
        match ArrayTagAt(bin, data, len.next)
        case Failure(e) => Failure(e)
        case Success(arrayType) =>
          match ByteAt(data, arrayType.next)
          case Failure(e) => Failure(e)
          case Success(flag) =>
            var typePrefixed := flag.value != 0;
            if typePrefixed && arrayType.value != TagObject then Failure(InvalidData)
            else if len.value < 0 then Failure(Overflow)
            else
              Present(ElementsAt(bin, data, flag.next, len.value, typePrefixed, arrayType.value))
  }

  /**
   * Each outcome of ReadSzArray, branch by branch: EndOfData when the length
   * cannot be read, a null array for the length -1, the failure of the
   * element tag or of the flag byte, InvalidData for type-prefixed elements
   * in an array that is not an object array, Overflow for any other negative
   * length, and otherwise exactly the elements read from after the flag
   * byte.  (A lemma rather than postconditions of SzArrayAt: there they would
   * have ValueAt, SzArrayAt and the element reader instantiate one another.)
   */
  lemma SzArrayCases(bin: Binary, data: seq<uint8>, pos: nat)
    requires pos <= |data|
    ensures CompressedInt32At(data, pos).Failure? ==> SzArrayAt(bin, data, pos) == Failure(EndOfData)
    ensures var len := CompressedInt32At(data, pos);
      len.Success? && len.value.value == -1 ==> SzArrayAt(bin, data, pos) == Success(Decoded(None, len.value.next))
    ensures var len := CompressedInt32At(data, pos);
      len.Success? && len.value.value != -1 ==>
        var r := SzArrayAt(bin, data, pos);
        var t := ArrayTagAt(bin, data, len.value.next);
        (t.Failure? ==> r == Failure(t.error))
        && (t.Success? ==>
              var f := ByteAt(data, t.value.next);
              (f.Failure? ==> r == Failure(EndOfData))
              && (f.Success? && f.value.value != 0 && t.value.value != TagObject ==> r == Failure(InvalidData))
              && (f.Success? && (f.value.value == 0 || t.value.value == TagObject) && len.value.value < -1 ==>
                    r == Failure(Overflow))
              && (f.Success? && (f.value.value == 0 || t.value.value == TagObject) && len.value.value >= 0 ==>
                    r == Present(ElementsAt(bin, data, f.value.next, len.value.value, f.value.value != 0, t.value.value))))
  {
  }

  /** Decoded elements as a non-null array. */
  function Present(r: Result<Decoded<seq<Value>>>): (q: Result<Decoded<Option<seq<Value>>>>)
  {
    match r
    case Failure(e) => Failure(e)
    case Success(d) => Success(Decoded(Some(d.value), d.next))
  }

  /** The element tag of an array: a byte, with ENUM replaced by the underlying tag. */
  function ArrayTagAt(bin: Binary, data: seq<uint8>, pos: nat): (r: Result<Decoded<uint8>>)
    requires pos <= |data|
    ensures r.Success? ==> pos < r.value.next <= |data|
  {
    match ByteAt(data, pos)
    case Failure(e) => Failure(e)
    case Success(t) =>
      if t.value == TagEnum then EnumUnderlyingTagAt(bin, data, t.next) else Success(t)
  }

  /** One array element: its own tag byte first when the array is type-prefixed. */
  function ElementAt(bin: Binary, data: seq<uint8>, pos: nat, typePrefixed: bool, arrayType: uint8)
    : (r: Result<Decoded<Value>>)
    requires pos <= |data|
    ensures r.Success? ==> pos < r.value.next <= |data| && InRange(r.value.value)
    ensures typePrefixed && pos == |data| ==> r == Failure(EndOfData)
    ensures typePrefixed && pos < |data| ==> r == ValueAt(bin, data, pos + 1, data[pos])
    ensures !typePrefixed ==> r == ValueAt(bin, data, pos, arrayType)
    decreases |data| - pos, 2
  {
    if typePrefixed then
      match ByteAt(data, pos)
      case Failure(e) => Failure(e)
      case Success(t) => ValueAt(bin, data, t.next, t.value)
    else ValueAt(bin, data, pos, arrayType)
  }

  /** `n` consecutive array elements. */
  function ElementsAt(bin: Binary, data: seq<uint8>, pos: nat, n: nat, typePrefixed: bool, arrayType: uint8)
    : (r: Result<Decoded<seq<Value>>>)
    requires pos <= |data|
    ensures r.Success? ==> |r.value.value| == n && pos <= r.value.next <= |data|
    ensures r.Success? && n > 0 ==> pos < r.value.next
    ensures r.Success? ==> forall e :: e in r.value.value ==> InRange(e)
    decreases |data| - pos, 3, n
  {
    if n == 0 then Success(Decoded([], pos))
    else
      match ElementAt(bin, data, pos, typePrefixed, arrayType)
      case Failure(e) => Failure(e)
      case Success(first) =>
        Prepend([first.value], ElementsAt(bin, data, first.next, n - 1, typePrefixed, arrayType))
  }

  /** A proof step: ElementsAt unfolded once, for the element loop of ReadElements. */
  lemma ElementsStep(bin: Binary, data: seq<uint8>, pos: nat, n: nat, typePrefixed: bool, arrayType: uint8)
    requires pos <= |data| && n > 0
    ensures var first := ElementAt(bin, data, pos, typePrefixed, arrayType);
      ElementsAt(bin, data, pos, n, typePrefixed, arrayType)
      == if first.Failure? then Failure(first.error)
         else Prepend([first.value.value], ElementsAt(bin, data, first.value.next, n - 1, typePrefixed, arrayType))
  {
  }

  /** ReadValue(ref reader): a tag byte, then a value of that tag. */
  function TaggedValueAt(bin: Binary, data: seq<uint8>, pos: nat): (r: Result<Decoded<Value>>)
    requires pos <= |data|
    ensures r.Success? ==> pos + 1 < r.value.next <= |data| && InRange(r.value.value)
    ensures pos == |data| ==> r == Failure(EndOfData)
    ensures pos < |data| ==> r == ValueAt(bin, data, pos + 1, data[pos])
  {
    match ByteAt(data, pos)
    case Failure(e) => Failure(e)
    case Success(t) => ValueAt(bin, data, t.next, t.value)
  }

  /**
   * ResolveMember: a compressed member index and, when it is negative, a
   * compressed type index.  The value is the resolved member index.
   */
  function MemberAt(data: seq<uint8>, pos: nat): (r: Result<Decoded<nat>>)
    requires pos <= |data|
    ensures r.Success? ==> CompressedInt32At(data, pos).Success?
    ensures r.Success? ==>
      var m := CompressedInt32At(data, pos).value;
      if m.value < 0 then CompressedUInt32At(data, m.next).Success?
                          && r.value.next == CompressedUInt32At(data, m.next).value.next
                          && r.value.value == -(m.value + 1)
      else r.value == Decoded(m.value, m.next)
    ensures r.Success? ==> pos < r.value.next <= |data|
    ensures r.Failure? ==> r.error == EndOfData
  {
    match CompressedInt32At(data, pos)
    case Failure(e) => Failure(e)
    case Success(m) =>
      if m.value < 0 then
        match CompressedUInt32At(data, m.next)
        case Failure(e) => Failure(e)
        case Success(t) => Success(Decoded(-(m.value + 1), t.next))
      else Success(Decoded(m.value, m.next))
  }

}
