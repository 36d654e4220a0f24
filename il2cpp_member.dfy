// Il2CppMember: the custom attributes of an IL2CPP type, method, field or
// property.  Metadata before version 29 lists only attribute types; from
// version 29 on, a blob per member holds the constructor of each attribute
// and its arguments, which the static readers below decode.
module Il2CppMember {
  import opened Util
  import opened MemoryReaders
  import opened Il2CppBlob
  import opened Il2CppAttribute

  // ------------------------------------------------------- blob readers

  method ReadUnityCompressedUInt32(reader: MemoryReader) returns (r: Result<nat>)
    requires reader.Valid()
    modifies reader
    ensures reader.Valid() && Agrees(r, CompressedUInt32At(reader.data, old(reader.pos)), reader.pos)
  {
    var byt :- reader.ReadByte();
    if byt < 128 {
      return Success(byt);
    }
    if byt == 240 {
      r := reader.ReadUIntLittleEndian(4);
      return;
    }
    if byt == 254 {
      return Success(UInt32Max - 1);
    }
    if byt == 255 {
      return Success(UInt32Max);
    }
    LeadByteBits(byt);
    if (byt as bv8) & 192 == 192 {
      var b1 :- reader.ReadByte();
      var b2 :- reader.ReadByte();
      var b3 :- reader.ReadByte();
      // the low six bits of the lead byte, then three bytes, most significant first
      return Success((byt as int % 64) * 0x100_0000 + (b1 as int) * 0x1_0000 + (b2 as int) * 0x100 + b3);
    }
    // the InvalidData throw after this test cannot be reached
    assert (byt as bv8) & 128 == 128;
    var b1 :- reader.ReadByte();
    return Success((byt as int % 128) * 0x100 + b1);
  }

  /** The bit tests of the lead byte, as comparisons. */
  lemma LeadByteBits(b: uint8)
    ensures ((b as bv8) & 192 == 192) <==> b >= 192
    ensures ((b as bv8) & 128 == 128) <==> b >= 128
  {
  }

  method ReadUnityCompressedInt32(reader: MemoryReader) returns (r: Result<int>)
    requires reader.Valid()
    modifies reader
    ensures reader.Valid() && Agrees(r, CompressedInt32At(reader.data, old(reader.pos)), reader.pos)
  {
    var unsigned :- ReadUnityCompressedUInt32(reader);
    if unsigned == UInt32Max {
      return Success(Int32Min);
    }
    var isNegative := unsigned % 2 == 1;
    var half := unsigned / 2;
    var signed: int := if isNegative then -(half as int + 1) else half;
    return Success(signed);
  }

  method ReadEnumUnderlyingType(bin: Binary, reader: MemoryReader) returns (r: Result<uint8>)
    requires reader.Valid()
    modifies reader
    ensures reader.Valid() && Agrees(r, EnumUnderlyingTagAt(bin, reader.data, old(reader.pos)), reader.pos)
  {
    var typeIdx :- ReadUnityCompressedInt32(reader);
    var enumType :- GetType(bin, typeIdx);
    var enumDef :- AsClass(bin, enumType);
    var underlyingType :- GetType(bin, enumDef.elementTypeIndex);
    return Success(underlyingType.tag);
  }

  /** ReadString; the bytes are kept as they are, without UTF-8 decoding. */
  method ReadString(reader: MemoryReader) returns (r: Result<Option<seq<uint8>>>)
    requires reader.Valid()
    modifies reader
    ensures reader.Valid() && Agrees(r, StringAt(reader.data, old(reader.pos)), reader.pos)
  {
    var length :- ReadUnityCompressedInt32(reader);
    if length == -1 {
      return Success(None);
    }
    var bytes :- reader.ReadBytes(length);
    return Success(Some(bytes));
  }

  /** ResolveMember, returning the member index it computes and discards. */
  method ResolveMember(reader: MemoryReader) returns (r: Result<nat>)
    requires reader.Valid()
    modifies reader
    ensures reader.Valid() && Agrees(r, MemberAt(reader.data, old(reader.pos)), reader.pos)
  {
    var memberIndex :- ReadUnityCompressedInt32(reader);
    if memberIndex < 0 {
      var typeIndex :- ReadUnityCompressedUInt32(reader);
      memberIndex := -(memberIndex + 1);
    }
    return Success(memberIndex);
  }

  /** ReadValue(ref reader, type). */
  method ReadTypedValue(bin: Binary, reader: MemoryReader, tag: uint8) returns (r: Result<Value>)
    requires reader.Valid()
    modifies reader
    ensures reader.Valid() && Agrees(r, ValueAt(bin, reader.data, old(reader.pos), tag), reader.pos)
    decreases |reader.data| - reader.pos, 1
  {
    if tag == TagEnum {
      var underlyingType :- ReadEnumUnderlyingType(bin, reader);
      r := ReadTypedValue(bin, reader, underlyingType);
    } else if tag == TagSzArray {
      var a :- ReadSzArray(bin, reader);
      r := Success(if a.Some? then VArray(a.value) else VNullArray);
    } else if tag == TagTypeIndex {
      var typeIndex :- ReadUnityCompressedInt32(reader);
      var typ :- GetType(bin, typeIndex);
      r := Success(VType(typeIndex));
    } else {
      r := ReadScalarValue(reader, tag);
    }
  }

  /** ReadValue(ref reader, type) for the tags of a boolean, a char or a number. */
  method ReadScalarValue(reader: MemoryReader, tag: uint8) returns (r: Result<Value>)
    requires reader.Valid()
    modifies reader
    ensures reader.Valid() && Agrees(r, ScalarValueAt(reader.data, old(reader.pos), tag), reader.pos)
  {
    if tag == TagBoolean {
      var b :- reader.ReadBoolean();
      r := Success(VBool(b));
    } else if tag == TagChar {
      var i :- reader.ReadIntLittleEndian(2);
      // the (char) cast keeps the sixteen bits of the short
      assert Pow256(2) == 0x1_0000;
      r := Success(VChar(i % 0x1_0000));
    } else if tag == TagI1 {
      var i :- reader.ReadIntLittleEndian(1);
      r := Success(VI1(i));
    } else if tag == TagU1 {
      var b :- reader.ReadByte();
      r := Success(VU1(b));
    } else if tag == TagI2 {
      var i :- reader.ReadIntLittleEndian(2);
      r := Success(VI2(i));
    } else if tag == TagU2 {
      var u :- reader.ReadUIntLittleEndian(2);
      r := Success(VU2(u));
    } else {
      r := ReadWideValue(reader, tag);
    }
  }

  /** ReadValue(ref reader, type) for the tags of a 32- or 64-bit number, a float or a string. */
  method ReadWideValue(reader: MemoryReader, tag: uint8) returns (r: Result<Value>)
    requires reader.Valid()
    modifies reader
    ensures reader.Valid() && Agrees(r, WideValueAt(reader.data, old(reader.pos), tag), reader.pos)
  {
    if tag == TagI4 || tag == TagU4 || tag == TagI8 || tag == TagU8 {
      r := ReadIntegerValue(reader, tag);
    } else {
      r := ReadFloatOrString(reader, tag);
    }
  }

  /** ReadValue(ref reader, type) for the tags of a 32- or 64-bit integer. */
  method ReadIntegerValue(reader: MemoryReader, tag: uint8) returns (r: Result<Value>)
    requires reader.Valid()
    modifies reader
    ensures reader.Valid() && Agrees(r, IntegerValueAt(reader.data, old(reader.pos), tag), reader.pos)
  {
    if tag == TagI4 {
      var i :- ReadUnityCompressedInt32(reader);
      r := Success(VI4(i));
    } else if tag == TagU4 {
      var u :- ReadUnityCompressedUInt32(reader);
      r := Success(VU4(u));
    } else if tag == TagI8 {
      var i :- reader.ReadIntLittleEndian(8);
      r := Success(VI8(i));
    } else if tag == TagU8 {
      var u :- reader.ReadUIntLittleEndian(8);
      r := Success(VU8(u));
    } else {
      r := Failure(NotSupported);
    }
  }

  /** ReadValue(ref reader, type) for the tags of a float or a string. */
  method ReadFloatOrString(reader: MemoryReader, tag: uint8) returns (r: Result<Value>)
    requires reader.Valid()
    modifies reader
    ensures reader.Valid() && Agrees(r, FloatOrStringAt(reader.data, old(reader.pos), tag), reader.pos)
  {
    if tag == TagR4 {
      var bits :- reader.ReadBytes(4);
      r := Success(VR4(bits));
    } else if tag == TagR8 {
      var bits :- reader.ReadBytes(8);
      r := Success(VR8(bits));
    } else if tag == TagString {
      var s :- ReadString(reader);
      r := Success(VString(s));
    } else {
      r := Failure(NotSupported);
    }
  }

  /** ReadValue(ref reader): a tag byte, then a value of that tag. */
  method ReadValue(bin: Binary, reader: MemoryReader) returns (r: Result<Value>)
    requires reader.Valid()
    modifies reader
    ensures reader.Valid() && Agrees(r, TaggedValueAt(bin, reader.data, old(reader.pos)), reader.pos)
  {
    var tag :- reader.ReadByte();
    r := ReadTypedValue(bin, reader, tag);
  }

  method ReadSzArray(bin: Binary, reader: MemoryReader) returns (r: Result<Option<seq<Value>>>)
    requires reader.Valid()
    modifies reader
    ensures reader.Valid() && Agrees(r, SzArrayAt(bin, reader.data, old(reader.pos)), reader.pos)
    decreases |reader.data| - reader.pos, 0
  {
    ghost var data, p0 := reader.data, reader.pos;
    var arrayLength :- ReadUnityCompressedInt32(reader);
    if arrayLength == -1 {
      return Success(None);
    }
    ghost var pt := reader.pos;
    var arrayType :- reader.ReadByte();
    if arrayType == TagEnum {
      arrayType :- ReadEnumUnderlyingType(bin, reader);
    }
    assert ArrayTagAt(bin, data, pt) == Success(Decoded(arrayType, reader.pos));
    var typePrefixed :- reader.ReadBoolean();
    if typePrefixed && arrayType != TagObject {
      return Failure(InvalidData);
    }
    if arrayLength < 0 {
      return Failure(Overflow);
    }
    assert SzArrayAt(bin, data, p0) == Present(ElementsAt(bin, data, reader.pos, arrayLength, typePrefixed, arrayType));
    var elems :- ReadElements(bin, reader, arrayLength, typePrefixed, arrayType);
    return Success(Some(elems));
  }

  /** The element loop of ReadSzArray: `n` elements, each with its own tag byte when type-prefixed. */
  method ReadElements(bin: Binary, reader: MemoryReader, n: nat, typePrefixed: bool, arrayType: uint8)
    returns (r: Result<seq<Value>>)
    requires reader.Valid()
    modifies reader
    ensures reader.Valid() && Agrees(r, ElementsAt(bin, reader.data, old(reader.pos), n, typePrefixed, arrayType), reader.pos)
    decreases |reader.data| - reader.pos, 3
  {
    ghost var data, p0 := reader.data, reader.pos;
    ghost var all := ElementsAt(bin, data, p0, n, typePrefixed, arrayType);
    assert all.Success? ==> [] + all.value.value == all.value.value;
    var arr := new Value[n];
    var i := 0;
    ghost var done: seq<Value> := [];
    ghost var left := n;
    while i < n
      invariant 0 <= i <= n && left == n - i && reader.Valid() && reader.data == data && p0 <= reader.pos
      invariant i > 0 ==> p0 < reader.pos
      invariant arr[..i] == done
      invariant all == Prepend(done, ElementsAt(bin, data, reader.pos, left, typePrefixed, arrayType))
    {
      ghost var before, was, prev := reader.pos, left, done;
      var v := ReadElement(bin, reader, typePrefixed, arrayType);
      if v.Failure? {
        ElementsFailed(bin, data, before, left, typePrefixed, arrayType, done);
        return Failure(v.error);
      }
      arr[i] := v.value;
      assert arr[..i + 1] == arr[..i] + [v.value];
      done, left := done + [v.value], left - 1;
      ElementsStepped(bin, data, before, was, left, typePrefixed, arrayType, prev, done, v.value, reader.pos);
      i := i + 1;
    }
    assert arr[..] == done && done + [] == done;
    return Success(arr[..]);
  }

  /** One element: its tag byte when type-prefixed, then its value. */
  method ReadElement(bin: Binary, reader: MemoryReader, typePrefixed: bool, arrayType: uint8) returns (r: Result<Value>)
    requires reader.Valid()
    modifies reader
    ensures reader.Valid() && Agrees(r, ElementAt(bin, reader.data, old(reader.pos), typePrefixed, arrayType), reader.pos)
    decreases |reader.data| - reader.pos, 2
  {
    var elementType := arrayType;
    if typePrefixed {
      elementType :- reader.ReadByte();
    }
    r := ReadTypedValue(bin, reader, elementType);
  }

  lemma ElementsStepped(bin: Binary, data: seq<uint8>, pos: nat, n: nat, m: nat, typePrefixed: bool, arrayType: uint8,
                        prev: seq<Value>, done: seq<Value>, v: Value, next: nat)
    requires pos <= |data| && n > 0 && m == n - 1 && done == prev + [v]
    requires ElementAt(bin, data, pos, typePrefixed, arrayType) == Success(Decoded(v, next))
    ensures pos < next <= |data|
    ensures Prepend(prev, ElementsAt(bin, data, pos, n, typePrefixed, arrayType))
            == Prepend(done, ElementsAt(bin, data, next, m, typePrefixed, arrayType))
  {
    ElementsStep(bin, data, pos, n, typePrefixed, arrayType);
    PrependPrepend(prev, [v], ElementsAt(bin, data, next, m, typePrefixed, arrayType));
  }

  lemma ElementsFailed(bin: Binary, data: seq<uint8>, pos: nat, n: nat, typePrefixed: bool, arrayType: uint8,
                       done: seq<Value>)
    requires pos <= |data| && n > 0
    requires ElementAt(bin, data, pos, typePrefixed, arrayType).Failure?
    ensures Prepend(done, ElementsAt(bin, data, pos, n, typePrefixed, arrayType))
            == Failure(ElementAt(bin, data, pos, typePrefixed, arrayType).error)
  {
    ElementsStep(bin, data, pos, n, typePrefixed, arrayType);
  }

  // ------------------------------------------------------ token search

  /**
   * The search BinarySearchToken performs over the window [lo, hi] of a
   * token table: the index of the probed entry whose token is the key, or
   * ~lo (that is, -(lo + 1)) once the window is empty.
   */
  function Search(tokens: seq<int>, token: int, lo: int, hi: int): Result<int>
    decreases hi - lo + 1
  {
    if lo > hi then Success(-(lo + 1))
    else
      var i := lo + (hi - lo) / 2;
      if !(0 <= i < |tokens|) then Failure(IndexOutOfRange)
      else if tokens[i] == token then Success(i)
      else if tokens[i] < token then Search(tokens, token, i + 1, hi)
      else Search(tokens, token, lo, i - 1)
  }

  method BinarySearchToken(tokens: seq<int>, token: int, start: int, count: int) returns (r: Result<int>)
    ensures r == Search(tokens, token, start, start + count - 1)
  {
    var lo := start;
    var hi := start + count - 1;
    while lo <= hi
      invariant Search(tokens, token, lo, hi) == Search(tokens, token, start, start + count - 1)
      decreases hi - lo + 1
    {
      // (hi - lo) >> 1 of a non-negative difference
      var i := lo + (hi - lo) / 2;
      if !(0 <= i < |tokens|) {
        return Failure(IndexOutOfRange);
      }
      if tokens[i] == token {
        return Success(i);
      } else if tokens[i] < token {
        lo := i + 1;
      } else {
        hi := i - 1;
      }
    }
    return Success(-(lo + 1));
  }

  /** The tokens of the window [lo, hi] are in ascending order. */
  predicate SortedWindow(tokens: seq<int>, lo: int, hi: int)
  {
    forall j, k :: 0 <= lo <= j < k <= hi < |tokens| ==> tokens[j] <= tokens[k]
  }

  /**
   * The search reads only the window: two tables that agree on it give the
   * same result, and a window inside the table never fails.
   */
  lemma {:induction false} SearchReadsOnlyWindow(t1: seq<int>, t2: seq<int>, token: int, lo: int, hi: int)
    requires 0 <= lo && hi < |t1| && hi < |t2|
    requires forall k :: lo <= k <= hi ==> t1[k] == t2[k]
    ensures Search(t1, token, lo, hi) == Search(t2, token, lo, hi)
    ensures Search(t1, token, lo, hi).Success?
    decreases hi - lo + 1
  {
    if lo <= hi {
      var i := lo + (hi - lo) / 2;
      if t1[i] < token {
        SearchReadsOnlyWindow(t1, t2, token, i + 1, hi);
      } else if t1[i] > token {
        SearchReadsOnlyWindow(t1, t2, token, lo, i - 1);
      }
    }
  }

  /**
   * What a search of the window [lo, hi] may return on a sorted window: a
   * non-negative result is an index of the window holding the key, and a
   * negative result -(p + 1) gives the insertion point p, every token before
   * it smaller than the key and every token from it on larger.
   */
  predicate SearchOutcome(tokens: seq<int>, token: int, lo: int, hi: int, s: Result<int>)
  {
    s.Success?
    && (s.value >= 0 ==> lo <= s.value <= hi && 0 <= s.value < |tokens| && tokens[s.value] == token)
    && (s.value < 0 ==> lo <= -(s.value + 1) <= hi + 1
                        && (forall k :: lo <= k < -(s.value + 1) && 0 <= k < |tokens| ==> tokens[k] < token)
                        && (forall k :: -(s.value + 1) <= k <= hi && 0 <= k < |tokens| ==> token < tokens[k]))
  }

  /** On a sorted window inside the table, the search returns as SearchOutcome says. */
  lemma {:induction false} SearchSorted(tokens: seq<int>, token: int, lo: int, hi: int)
    requires 0 <= lo <= hi + 1 && hi < |tokens|
    requires SortedWindow(tokens, lo, hi)
    ensures SearchOutcome(tokens, token, lo, hi, Search(tokens, token, lo, hi))
    decreases hi - lo + 1
  {
    if lo <= hi {
      var i := lo + (hi - lo) / 2;
      assert lo <= i <= hi;
      if tokens[i] < token {
        SearchSorted(tokens, token, i + 1, hi);
        assert Search(tokens, token, lo, hi) == Search(tokens, token, i + 1, hi);
        SearchRightHalf(tokens, token, lo, i, hi, Search(tokens, token, i + 1, hi));
      } else if tokens[i] > token {
        SearchSorted(tokens, token, lo, i - 1);
        assert Search(tokens, token, lo, hi) == Search(tokens, token, lo, i - 1);
        SearchLeftHalf(tokens, token, lo, i, hi, Search(tokens, token, lo, i - 1));
      } else {
        assert Search(tokens, token, lo, hi) == Success(i);
        SearchFound(tokens, token, lo, i, hi);
      }
    } else {
      assert Search(tokens, token, lo, hi) == Success(-(lo + 1));
      SearchEmptyWindow(tokens, token, lo, hi);
    }
  }

  lemma SearchFound(tokens: seq<int>, token: int, lo: int, i: int, hi: int)
    requires lo <= i <= hi && 0 <= i < |tokens| && tokens[i] == token
    ensures SearchOutcome(tokens, token, lo, hi, Success(i))
  {
  }

  lemma SearchEmptyWindow(tokens: seq<int>, token: int, lo: int, hi: int)
    requires 0 <= lo && lo == hi + 1
    ensures SearchOutcome(tokens, token, lo, hi, Success(-(lo + 1)))
  {
    assert -(-(lo + 1) + 1) == lo;
  }

  /** A result for the window right of a probe smaller than the key is one for the whole window. */
  lemma SearchRightHalf(tokens: seq<int>, token: int, lo: int, i: int, hi: int, s: Result<int>)
    requires 0 <= lo <= i <= hi < |tokens| && SortedWindow(tokens, lo, hi) && tokens[i] < token
    requires SearchOutcome(tokens, token, i + 1, hi, s)
    ensures SearchOutcome(tokens, token, lo, hi, s)
  {
    if s.value < 0 {
      forall k | lo <= k < -(s.value + 1) && 0 <= k < |tokens|
        ensures tokens[k] < token
      {
        if k <= i {
          assert tokens[k] <= tokens[i];
        }
      }
    }
  }

  /** A result for the window left of a probe larger than the key is one for the whole window. */
  lemma SearchLeftHalf(tokens: seq<int>, token: int, lo: int, i: int, hi: int, s: Result<int>)
    requires 0 <= lo <= i <= hi < |tokens| && SortedWindow(tokens, lo, hi) && tokens[i] > token
    requires SearchOutcome(tokens, token, lo, i - 1, s)
    ensures SearchOutcome(tokens, token, lo, hi, s)
  {
    if s.value < 0 {
      forall k | -(s.value + 1) <= k <= hi && 0 <= k < |tokens|
        ensures token < tokens[k]
      {
        if k >= i {
          assert tokens[i] <= tokens[k];
        }
      }
    }
  }

  /** On a sorted window, the search finds the key exactly when the window holds it. */
  lemma SearchFindsPresentKey(tokens: seq<int>, token: int, lo: int, hi: int)
    requires 0 <= lo <= hi + 1 && hi < |tokens|
    requires SortedWindow(tokens, lo, hi)
    ensures Search(tokens, token, lo, hi).Success?
    ensures Search(tokens, token, lo, hi).value >= 0 <==> exists k :: lo <= k <= hi && tokens[k] == token
  {
    SearchSorted(tokens, token, lo, hi);
    var r := Search(tokens, token, lo, hi).value;
    if r >= 0 {
      assert tokens[r] == token;
    } else {
      forall k | lo <= k <= hi
        ensures tokens[k] != token
      {
        if k < -(r + 1) {
          assert tokens[k] < token;
        } else {
          assert token < tokens[k];
        }
      }
    }
  }

  // -------------------------------------------------- the metadata tables

  type uint32 = u: int | 0 <= u <= 0xFFFF_FFFF

  /** Il2CppCustomAttributeTypeRange: a member token and its window of attributeTypes. */
  datatype TypeRange = TypeRange(token: uint32, start: int, count: int)

  /** Il2CppCustomAttributeDataRange: a member token and where its blob starts. */
  datatype DataRange = DataRange(token: uint32, startOffset: int)

  /**
   * What the getter reads from the loaded metadata and binary: the version,
   * the range tables of both layouts, the attribute type indices of the old
   * layout, the base offset of the attribute blobs and the raw file bytes,
   * the declaring type of every method definition, and the binary's types.
   */
  datatype Metadata = Metadata(
    version: real,
    attributeTypeRanges: seq<TypeRange>,
    attributeTypes: seq<int>,
    attributeDataRanges: seq<DataRange>,
    attributeDataOffset: int,
    raw: seq<uint8>,
    methodDeclaringTypes: seq<int>,
    bin: Binary)

  /**
   * What a member contributes: its token, its CustomAttributeIndex (the old
   * per-member index) and the attribute window of its declaring image.
   */
  datatype MemberInfo = MemberInfo(token: uint32, customAttributeIndex: int, imageStart: int, imageCount: uint32)

  /** The (int) cast of a uint: values above Int32Max wrap to negatives. */
  function Int32Of(u: uint32): (i: int)
    ensures Int32Min <= i <= Int32Max
    ensures i % 0x1_0000_0000 == u
  {
    if u > Int32Max then u - 0x1_0000_0000 else u
  }

  /** The tokens of a range table, in table order: the keys its search runs over. */
  function RangeTokens<R>(ranges: seq<R>, token: R -> int): (t: seq<int>)
    ensures |t| == |ranges| && forall k :: 0 <= k < |ranges| ==> t[k] == token(ranges[k])
  {
    seq(|ranges|, k requires 0 <= k < |ranges| => token(ranges[k]))
  }

  function TypeRangeTokens(ranges: seq<TypeRange>): (t: seq<int>)
    ensures |t| == |ranges| && forall k :: 0 <= k < |ranges| ==> t[k] == ranges[k].token
  {
    RangeTokens(ranges, (r: TypeRange) => r.token)
  }

  function DataRangeTokens(ranges: seq<DataRange>): (t: seq<int>)
    ensures |t| == |ranges| && forall k :: 0 <= k < |ranges| ==> t[k] == ranges[k].token
  {
    RangeTokens(ranges, (r: DataRange) => r.token)
  }

  /** The search of a member's token over its image's window of a range table. */
  function SearchImage(tokens: seq<int>, info: MemberInfo): Result<int>
  {
    Search(tokens, info.token, info.imageStart, info.imageStart + Int32Of(info.imageCount) - 1)
  }

  /**
   * ReadByteArrayAtRawAddress: `length` bytes of the file from `start`.  A
   * negative length is a negative array size; a window outside the file is
   * a read past its end or before its start.
   */
  function RawBytes(raw: seq<uint8>, start: int, length: int): (r: Result<seq<uint8>>)
    ensures r.Success? <==> 0 <= length && 0 <= start && start + length <= |raw|
    ensures r.Success? ==> |r.value| == length && forall k :: 0 <= k < length ==> r.value[k] == raw[start + k]
  {
    if length < 0 then Failure(Overflow)
    else if !(0 <= start && start + length <= |raw|) then Failure(EndOfData)
    else Success(raw[start..start + length])
  }

  // --------------------------------------- reference definition of the getter

  /**
   * The attributes built before the loop stopped, and the exception that
   * stopped it, if any.
   */
  datatype Fill = Fill(built: seq<Attribute>, failure: Option<Error>)

  function PrependFill(done: seq<Attribute>, f: Fill): Fill
  {
    Fill(done + f.built, f.failure)
  }

  lemma PrependFillStep(done: seq<Attribute>, a: Attribute, f: Fill)
    ensures PrependFill(done, PrependFill([a], f)) == PrependFill(done + [a], f)
  {
    assert done + ([a] + f.built) == (done + [a]) + f.built;
  }

  /**
   * The cached array after `built` has been stored into its first slots:
   * the attributes, then the slots still null.
   */
  function Slots(built: seq<Attribute>, count: nat): (s: seq<Option<Attribute>>)
    requires |built| <= count
    ensures |s| == count
    ensures forall j :: 0 <= j < count ==> s[j] == if j < |built| then Some(built[j]) else None
  {
    seq(count, j requires 0 <= j < count => if j < |built| then Some(built[j]) else None)
  }

  /** A loop that stops after `built` leaves those attributes cached and reports its exception. */
  lemma FinishStopped(built: seq<Attribute>, e: Error, count: nat)
    requires |built| <= count
    ensures Finish(PrependFill(built, Fill([], Some(e))), count) == Outcome(Failure(e), Some(Slots(built, count)))
  {
    assert built + [] == built;
  }

  lemma SlotsStep(built: seq<Attribute>, a: Attribute, count: nat)
    requires |built| < count
    ensures Slots(built, count)[|built| := Some(a)] == Slots(built + [a], count)
  {
  }

  /** The result of a getter call and the cache it leaves behind. */
  datatype Outcome = Outcome(result: Result<seq<Option<Attribute>>>, cache: Option<seq<Option<Attribute>>>)

  /** A loop over `count` attributes: the array is cached first, then filled. */
  function Finish(f: Fill, count: nat): (o: Outcome)
    requires |f.built| <= count
    ensures o.cache == Some(Slots(f.built, count))
    ensures o.result.Success? <==> f.failure.None?
    ensures o.result.Success? ==> o.result.value == Slots(f.built, count)
    ensures o.result.Failure? ==> o.result.error == f.failure.value
  {
    var slots := Slots(f.built, count);
    Outcome(if f.failure.Some? then Failure(f.failure.value) else Success(slots), Some(slots))
  }

  /** Attribute `k` of an old-layout range: only its type is known. */
  function LegacyAttribute(md: Metadata, rng: TypeRange, k: nat): (r: Result<Attribute>)
    ensures r.Success? ==> r.value.ctorArgValues.None? && r.value.typeDef < |md.bin.typeDefs|
    ensures r.Failure? ==> r.error == IndexOutOfRange
  {
    var at := rng.start + k;
    if !(0 <= at < |md.attributeTypes|) then Failure(IndexOutOfRange)
    else
      match GetType(md.bin, md.attributeTypes[at])
      case Failure(e) => Failure(e)
      case Success(t) =>
        if 0 <= t.classIndex < |md.bin.typeDefs| then Success(Attribute(t.classIndex, None))
        else Failure(IndexOutOfRange)
  }

  /** Attributes k .. count - 1 of an old-layout range, up to the first failure. */
  function LegacyFill(md: Metadata, rng: TypeRange, k: nat): (f: Fill)
    requires k <= rng.count
    ensures |f.built| <= rng.count - k
    ensures f.failure.None? ==> |f.built| == rng.count - k
    ensures forall a :: a in f.built ==> !CanReadConstructorArgumentValues(a)
    decreases rng.count - k
  {
    if k == rng.count then Fill([], None)
    else
      match LegacyAttribute(md, rng, k)
      case Failure(e) => Fill([], Some(e))
      case Success(a) => PrependFill([a], LegacyFill(md, rng, k + 1))
  }

  /**
   * A successful call caches the array it returns, which has no null slot;
   * in any cached array no filled slot follows a null one.
   */
  predicate WellCached(o: Outcome)
  {
    (o.result.Success? ==> o.cache == Some(o.result.value) && forall s :: s in o.result.value ==> s.Some?)
    && (o.cache.Some? ==> forall j :: 0 <= j < |o.cache.value| && o.cache.value[j].None? ==>
                            forall k :: j <= k < |o.cache.value| ==> o.cache.value[k].None?)
  }

  /** Every attribute returned can, or every one cannot, give its constructor arguments. */
  predicate ArgumentsReadable(o: Outcome, readable: bool)
  {
    o.result.Success? ==> forall s :: s in o.result.value ==> s.Some? && CanReadConstructorArgumentValues(s.value) == readable
  }

  /** The old layout's range index: CustomAttributeIndex up to version 24, the token search after it. */
  function LegacyIndex(md: Metadata, info: MemberInfo): Result<int>
  {
    if md.version <= 24.0 then Success(info.customAttributeIndex)
    else SearchImage(TypeRangeTokens(md.attributeTypeRanges), info)
  }

  /**
   * The getter on metadata before version 29.  A successful call returns as
   * many attributes as the range found declares.
   */
  function LegacyOutcome(md: Metadata, info: MemberInfo): (o: Outcome)
    ensures WellCached(o) && ArgumentsReadable(o, false)
    ensures o.result.Success? ==>
              var index := LegacyIndex(md, info);
              index.Success? && if index.value < 0 then o.result.value == []
                                else index.value < |md.attributeTypeRanges|
                                     && |o.result.value| == md.attributeTypeRanges[index.value].count
  {
    match LegacyIndex(md, info)
    case Failure(e) => Outcome(Failure(e), None)
    case Success(i) =>
      if i < 0 then Outcome(Success([]), Some([]))
      else if i >= |md.attributeTypeRanges| then Outcome(Failure(IndexOutOfRange), None)
      else
        var rng := md.attributeTypeRanges[i];
        if rng.count < 0 then Outcome(Failure(Overflow), None)
        else Finish(LegacyFill(md, rng, 0), rng.count)
  }

  /** `n` tagged values, the constructor arguments of one attribute. */
  function ValuesAt(bin: Binary, data: seq<uint8>, pos: nat, n: nat): (r: Result<Decoded<seq<Value>>>)
    requires pos <= |data|
    ensures r.Success? ==> |r.value.value| == n && pos + 2 * n <= r.value.next <= |data|
    ensures r.Success? ==> forall v :: v in r.value.value ==> InRange(v)
    decreases n
  {
    if n == 0 then Success(Decoded([], pos))
    else
      match TaggedValueAt(bin, data, pos)
      case Failure(e) => Failure(e)
      case Success(v) => Prepend([v.value], ValuesAt(bin, data, v.next, n - 1))
  }

  /** One value read: it moves from the values still to read to those read. */
  lemma ValuesStep(bin: Binary, data: seq<uint8>, pos: nat, n: nat, m: nat, prev: seq<Value>, done: seq<Value>,
                   v: Value, next: nat)
    requires pos <= |data| && next <= |data| && n > 0 && m == n - 1 && done == prev + [v]
    requires TaggedValueAt(bin, data, pos) == Success(Decoded(v, next))
    ensures Prepend(prev, ValuesAt(bin, data, pos, n)) == Prepend(done, ValuesAt(bin, data, next, m))
  {
    assert ValuesAt(bin, data, pos, n) == Prepend([v], ValuesAt(bin, data, next, m));
    PrependPrepend(prev, [v], ValuesAt(bin, data, next, m));
  }

  /** One named field or property: a tagged value, then the member it sets. */
  function NamedArgumentAt(bin: Binary, data: seq<uint8>, pos: nat): (r: Result<Decoded<()>>)
    requires pos <= |data|
    ensures r.Success? ==> pos + 3 <= r.value.next <= |data|
  {
    match TaggedValueAt(bin, data, pos)
    case Failure(e) => Failure(e)
    case Success(v) =>
      match MemberAt(data, v.next)
      case Failure(e) => Failure(e)
      case Success(m) => Success(Decoded((), m.next))
  }

  /** `n` named arguments, each a tagged value and a member reference, read and dropped. */
  function NamedArgumentsAt(bin: Binary, data: seq<uint8>, pos: nat, n: nat): (r: Result<Decoded<()>>)
    requires pos <= |data|
    ensures r.Success? ==> pos + 3 * n <= r.value.next <= |data|
    decreases n
  {
    if n == 0 then Success(Decoded((), pos))
    else
      match NamedArgumentAt(bin, data, pos)
      case Failure(e) => Failure(e)
      case Success(a) => NamedArgumentsAt(bin, data, a.next, n - 1)
  }

  /**
   * One attribute of a version-29 blob: the three counts, the constructor
   * arguments, the named fields and properties, and the type declaring its
   * constructor.
   */
  function AttributeAt(md: Metadata, data: seq<uint8>, pos: nat, ctorIndex: nat): (r: Result<Decoded<Attribute>>)
    requires pos <= |data|
    ensures r.Success? ==> pos + 3 <= r.value.next <= |data|
    ensures r.Success? ==> CanReadConstructorArgumentValues(r.value.value)
    ensures r.Success? ==> CompressedUInt32At(data, pos).Success?
                           && |r.value.value.ctorArgValues.value| == CompressedUInt32At(data, pos).value.value
    ensures r.Success? ==> ctorIndex < |md.methodDeclaringTypes|
                           && r.value.value.typeDef == md.methodDeclaringTypes[ctorIndex]
                           && r.value.value.typeDef < |md.bin.typeDefs|
  {
    match CompressedUInt32At(data, pos)
    case Failure(e) => Failure(e)
    case Success(ctorArgCount) =>
      match CompressedUInt32At(data, ctorArgCount.next)
      case Failure(e) => Failure(e)
      case Success(fieldCount) =>
        match CompressedUInt32At(data, fieldCount.next)
        case Failure(e) => Failure(e)
        case Success(propCount) =>
          match ValuesAt(md.bin, data, propCount.next, ctorArgCount.value)
          case Failure(e) => Failure(e)
          case Success(args) =>
            match NamedArgumentsAt(md.bin, data, args.next, fieldCount.value)
            case Failure(e) => Failure(e)
            case Success(fields) =>
              match NamedArgumentsAt(md.bin, data, fields.next, propCount.value)
              case Failure(e) => Failure(e)
              case Success(props) =>
                if ctorIndex >= |md.methodDeclaringTypes| then Failure(IndexOutOfRange)
                else
                  var declaring := md.methodDeclaringTypes[ctorIndex];
                  if !(0 <= declaring < |md.bin.typeDefs|) then Failure(IndexOutOfRange)
                  else Success(Decoded(Attribute(declaring, Some(args.value)), props.next))
  }

  /** Attributes k .. |ctors| - 1 of a version-29 blob, up to the first failure. */
  function DataFill(md: Metadata, data: seq<uint8>, pos: nat, ctors: seq<nat>, k: nat): (f: Fill)
    requires pos <= |data| && k <= |ctors|
    ensures |f.built| <= |ctors| - k
    ensures f.failure.None? ==> |f.built| == |ctors| - k
    ensures forall a :: a in f.built ==> CanReadConstructorArgumentValues(a)
    decreases |ctors| - k
  {
    if k == |ctors| then Fill([], None)
    else
      match AttributeAt(md, data, pos, ctors[k])
      case Failure(e) => Fill([], Some(e))
      case Success(a) => PrependFill([a.value], DataFill(md, data, a.next, ctors, k + 1))
  }

  lemma DataFillStep(md: Metadata, data: seq<uint8>, pos: nat, ctors: seq<nat>, k: nat)
    requires pos <= |data| && k < |ctors|
    ensures var a := AttributeAt(md, data, pos, ctors[k]);
      DataFill(md, data, pos, ctors, k)
      == if a.Failure? then Fill([], Some(a.error))
         else PrependFill([a.value.value], DataFill(md, data, a.value.next, ctors, k + 1))
  {
  }

  /** `n` little-endian uint32 values: the constructor index of every attribute. */
  function UInt32sAt(data: seq<uint8>, pos: nat, n: nat): (r: Result<Decoded<seq<nat>>>)
    requires pos <= |data|
    ensures r.Success? <==> pos + 4 * n <= |data|
    ensures r.Success? ==> |r.value.value| == n && r.value.next == pos + 4 * n
    ensures r.Failure? ==> r.error == EndOfData
    decreases n
  {
    if n == 0 then Success(Decoded([], pos))
    else
      match UIntAt(data, pos, 4)
      case Failure(e) => Failure(e)
      case Success(c) => Prepend([c.value], UInt32sAt(data, c.next, n - 1))
  }

  /** The k-th index read is the little-endian value of the k-th group of four bytes. */
  lemma {:induction false} UInt32sAtValues(data: seq<uint8>, pos: nat, n: nat)
    requires pos + 4 * n <= |data|
    ensures forall k :: 0 <= k < n ==>
              UInt32sAt(data, pos, n).value.value[k] == LittleEndian(data[pos + 4 * k..pos + 4 * k + 4])
    decreases n
  {
    if n > 0 {
      UInt32sAtValues(data, pos + 4, n - 1);
      var r := UInt32sAt(data, pos, n);
      var rest := UInt32sAt(data, pos + 4, n - 1);
      assert r.value.value == [LittleEndian(data[pos..pos + 4])] + rest.value.value;
      forall k | 1 <= k < n
        ensures r.value.value[k] == LittleEndian(data[pos + 4 * k..pos + 4 * k + 4])
      {
        assert pos + 4 * k == (pos + 4) + 4 * (k - 1);
      }
    }
  }

  /** One pass of the index loop; `done` already holds the index `c` it read. */
  lemma IndicesStep(data: seq<uint8>, pos: nat, n: nat, m: nat, prev: seq<nat>, done: seq<nat>, c: nat, next: nat)
    requires pos <= |data| && n > 0 && m == n - 1 && done == prev + [c]
    requires UIntAt(data, pos, 4) == Success(Decoded(c, next))
    ensures next <= |data|
    ensures Prepend(prev, UInt32sAt(data, pos, n)) == Prepend(done, UInt32sAt(data, next, m))
  {
    PrependPrepend(prev, [c], UInt32sAt(data, next, m));
  }

  /**
   * The number of attributes the blob of data range `i` declares: its
   * leading compressed count, when the blob and the count can be read.
   */
  function BlobCount(md: Metadata, i: int): Option<nat>
  {
    if 0 <= i && i + 1 < |md.attributeDataRanges| then
      match RangeBlob(md, i)
      case Failure(_) => None
      case Success(blob) =>
        match CompressedUInt32At(blob, 0)
        case Failure(_) => None
        case Success(count) => Some(count.value)
    else None
  }

  /**
   * The getter on metadata of version 29 and later.  A successful call
   * returns as many attributes as the blob of the range found declares.
   */
  function DataOutcome(md: Metadata, info: MemberInfo): (o: Outcome)
    ensures WellCached(o) && ArgumentsReadable(o, true)
    ensures o.result.Success? ==>
              var index := SearchImage(DataRangeTokens(md.attributeDataRanges), info);
              index.Success? && if index.value < 0 then o.result.value == []
                                else BlobCount(md, index.value) == Some(|o.result.value|)
  {
    match SearchImage(DataRangeTokens(md.attributeDataRanges), info)
    case Failure(e) => Outcome(Failure(e), None)
    case Success(i) =>
      if i < 0 then Outcome(Success([]), Some([])) else RangeOutcome(md, i)
  }

  lemma DataOutcomeBySearch(md: Metadata, info: MemberInfo, search: Result<int>)
    requires search == SearchImage(DataRangeTokens(md.attributeDataRanges), info)
    ensures search.Failure? ==> DataOutcome(md, info) == Outcome(Failure(search.error), None)
    ensures search.Success? && search.value < 0 ==> DataOutcome(md, info) == Outcome(Success([]), Some([]))
    ensures search.Success? && search.value >= 0 ==> DataOutcome(md, info) == RangeOutcome(md, search.value)
  {
  }

  /** The blob of the `i`-th data range, which ends where the next range starts. */
  function RangeBlob(md: Metadata, i: nat): Result<seq<uint8>>
    requires i + 1 < |md.attributeDataRanges|
  {
    var start := md.attributeDataOffset + md.attributeDataRanges[i].startOffset;
    var end := md.attributeDataOffset + md.attributeDataRanges[i + 1].startOffset;
    RawBytes(md.raw, start, end - start)
  }

  /** The getter's result for the `i`-th data range; there must be a range after it. */
  function RangeOutcome(md: Metadata, i: nat): (o: Outcome)
    ensures i + 1 >= |md.attributeDataRanges| ==> o == Outcome(Failure(IndexOutOfRange), None)
    ensures WellCached(o) && ArgumentsReadable(o, true)
    ensures o.result.Success? ==> BlobCount(md, i) == Some(|o.result.value|)
  {
    if i + 1 >= |md.attributeDataRanges| then Outcome(Failure(IndexOutOfRange), None)
    else
      match RangeBlob(md, i)
      case Failure(e) => Outcome(Failure(e), None)
      case Success(blob) => BlobOutcome(md, blob)
  }

  /**
   * The attribute blob of one member: the attribute count, the constructor
   * indices, then the attributes.
   */
  function BlobOutcome(md: Metadata, blob: seq<uint8>): (o: Outcome)
    ensures WellCached(o) && ArgumentsReadable(o, true)
    ensures o.cache.Some? ==> CompressedUInt32At(blob, 0).Success?
                              && |o.cache.value| == CompressedUInt32At(blob, 0).value.value
    ensures o.result.Success? ==> CompressedUInt32At(blob, 0).Success?
                                  && |o.result.value| == CompressedUInt32At(blob, 0).value.value
  {
    match CompressedUInt32At(blob, 0)
    case Failure(e) => Outcome(Failure(e), None)
    case Success(count) =>
      if count.value > Int32Max then Outcome(Failure(Overflow), None)
      else
        match UInt32sAt(blob, count.next, count.value)
        case Failure(e) => Outcome(Failure(e), None)
        case Success(ctors) => Finish(DataFill(md, blob, ctors.next, ctors.value, 0), count.value)
  }

  /**
   * The first call of the getter: what it returns and what it caches.  A
   * member without attributes gets an empty array; every successful call
   * caches and returns one array with no null slot, whose attributes carry
   * constructor arguments exactly on version-29 metadata.  A failure during
   * the loop leaves the partly filled array cached.
   */
  function CustomAttributesOf(md: Metadata, info: MemberInfo): (o: Outcome)
    ensures o.result.Success? ==> o.cache == Some(o.result.value)
    ensures o.result.Success? ==> forall s :: s in o.result.value ==> s.Some?
    ensures o.result.Success? && md.version < 29.0 ==>
              forall s :: s in o.result.value ==> !CanReadConstructorArgumentValues(s.value)
    ensures o.result.Success? && md.version >= 29.0 ==>
              forall s :: s in o.result.value ==> CanReadConstructorArgumentValues(s.value)
    ensures o.cache.Some? ==> (forall j :: 0 <= j < |o.cache.value| && o.cache.value[j].None? ==>
                                 forall k :: j <= k < |o.cache.value| ==> o.cache.value[k].None?)
    ensures o.result.Success? && md.version < 29.0 ==>
              var index := LegacyIndex(md, info);
              index.Success? && if index.value < 0 then o.result.value == []
                                else index.value < |md.attributeTypeRanges|
                                     && |o.result.value| == md.attributeTypeRanges[index.value].count
    ensures o.result.Success? && md.version >= 29.0 ==>
              var index := SearchImage(DataRangeTokens(md.attributeDataRanges), info);
              index.Success? && if index.value < 0 then o.result.value == []
                                else BlobCount(md, index.value) == Some(|o.result.value|)
  {
    if md.version < 29.0 then LegacyOutcome(md, info) else DataOutcome(md, info)
  }

  /** A member whose range search misses has no attributes, on either layout. */
  lemma NoRangeNoAttributes(md: Metadata, info: MemberInfo)
    requires md.version < 29.0 ==> md.version > 24.0
    requires var tokens := if md.version < 29.0 then TypeRangeTokens(md.attributeTypeRanges)
                           else DataRangeTokens(md.attributeDataRanges);
             SearchImage(tokens, info).Success? && SearchImage(tokens, info).value < 0
    ensures CustomAttributesOf(md, info) == Outcome(Success([]), Some([]))
  {
  }

  // -------------------------------------------------------------- the member

  /**
   * A type, method, field or property of the IL2CPP metadata, with its
   * lazily built attribute array.
   */
  class Member {
    const info: MemberInfo
    var customAttributes: Option<seq<Option<Attribute>>>

    constructor (info: MemberInfo)
      ensures this.info == info && customAttributes == None
    {
      this.info := info;
      customAttributes := None;
    }

    /**
     * The CustomAttributes getter: the cached array when there is one,
     * otherwise the array built from the metadata, which is cached.
     */
    method CustomAttributes(md: Metadata) returns (r: Result<seq<Option<Attribute>>>)
      modifies this
      ensures old(customAttributes).Some? ==>
                r == Success(old(customAttributes).value) && customAttributes == old(customAttributes)
      ensures old(customAttributes).None? ==>
                r == CustomAttributesOf(md, info).result && customAttributes == CustomAttributesOf(md, info).cache
    {
      if customAttributes.None? {
        if md.version < 29.0 {
          r := LoadLegacy(md);
        } else {
          r := LoadFromData(md);
        }
        return;
      }
      return Success(customAttributes.value);
    }

    method LoadLegacy(md: Metadata) returns (r: Result<seq<Option<Attribute>>>)
      requires customAttributes.None?
      modifies this
      ensures r == LegacyOutcome(md, info).result && customAttributes == LegacyOutcome(md, info).cache
    {
      var attrTypeRngIdx: int;
      if md.version <= 24.0 {
        attrTypeRngIdx := info.customAttributeIndex;
      } else {
        attrTypeRngIdx :- BinarySearchToken(TypeRangeTokens(md.attributeTypeRanges), info.token,
                                            info.imageStart, Int32Of(info.imageCount));
      }
      if attrTypeRngIdx < 0 {
        customAttributes := Some([]);
        return Success([]);
      }
      if attrTypeRngIdx >= |md.attributeTypeRanges| {
        return Failure(IndexOutOfRange);
      }
      var attrTypeRng := md.attributeTypeRanges[attrTypeRngIdx];
      if attrTypeRng.count < 0 {
        return Failure(Overflow);
      }
      customAttributes := Some(Slots([], attrTypeRng.count));
      r := FillLegacy(md, attrTypeRng);
    }

    /** The attribute loop of the old layout: the cached array filled slot by slot. */
    method FillLegacy(md: Metadata, attrTypeRng: TypeRange) returns (r: Result<seq<Option<Attribute>>>)
      requires attrTypeRng.count >= 0 && customAttributes == Some(Slots([], attrTypeRng.count))
      modifies this
      ensures var o := Finish(LegacyFill(md, attrTypeRng, 0), attrTypeRng.count);
              r == o.result && customAttributes == o.cache
    {
      ghost var built: seq<Attribute> := [];
      assert LegacyFill(md, attrTypeRng, 0) == PrependFill(built, LegacyFill(md, attrTypeRng, 0));
      var attrTypeIdx := 0;
      while attrTypeIdx < attrTypeRng.count
        invariant 0 <= attrTypeIdx <= attrTypeRng.count && |built| == attrTypeIdx
        invariant customAttributes == Some(Slots(built, attrTypeRng.count))
        invariant LegacyFill(md, attrTypeRng, 0) == PrependFill(built, LegacyFill(md, attrTypeRng, attrTypeIdx))
      {
        var typeIndexAt := attrTypeRng.start + attrTypeIdx;
        if !(0 <= typeIndexAt < |md.attributeTypes|) {
          FinishStopped(built, IndexOutOfRange, attrTypeRng.count);
          return Failure(IndexOutOfRange);
        }
        var typ := GetType(md.bin, md.attributeTypes[typeIndexAt]);
        if typ.Failure? || !(0 <= typ.value.classIndex < |md.bin.typeDefs|) {
          FinishStopped(built, IndexOutOfRange, attrTypeRng.count);
          return Failure(IndexOutOfRange);
        }
        var a := Attribute(typ.value.classIndex, None);
        SlotsStep(built, a, attrTypeRng.count);
        PrependFillStep(built, a, LegacyFill(md, attrTypeRng, attrTypeIdx + 1));
        customAttributes := Some(customAttributes.value[attrTypeIdx := Some(a)]);
        built := built + [a];
        attrTypeIdx := attrTypeIdx + 1;
      }
      assert built + [] == built;
      return Success(customAttributes.value);
    }

    method LoadFromData(md: Metadata) returns (r: Result<seq<Option<Attribute>>>)
      requires customAttributes.None?
      modifies this
      ensures r == DataOutcome(md, info).result && customAttributes == DataOutcome(md, info).cache
    {
      var search := BinarySearchToken(DataRangeTokens(md.attributeDataRanges), info.token,
                                      info.imageStart, Int32Of(info.imageCount));
      DataOutcomeBySearch(md, info, search);
      if search.Failure? {
        return Failure(search.error);
      }
      var attrDataRngIdx := search.value;
      if attrDataRngIdx < 0 {
        customAttributes := Some([]);
        return Success([]);
      }
      r := LoadRange(md, attrDataRngIdx);
    }

    /** The blob of one data range, read from the file. */
    method LoadRange(md: Metadata, attrDataRngIdx: nat) returns (r: Result<seq<Option<Attribute>>>)
      requires customAttributes.None?
      modifies this
      ensures r == RangeOutcome(md, attrDataRngIdx).result && customAttributes == RangeOutcome(md, attrDataRngIdx).cache
    {
      if attrDataRngIdx + 1 >= |md.attributeDataRanges| {
        return Failure(IndexOutOfRange);
      }
      var attrDataRange := md.attributeDataRanges[attrDataRngIdx];
      var attrDataRngNext := md.attributeDataRanges[attrDataRngIdx + 1];
      var attrDataStart := md.attributeDataOffset + attrDataRange.startOffset;
      var attrDataEnd := md.attributeDataOffset + attrDataRngNext.startOffset;
      var attrData :- RawBytes(md.raw, attrDataStart, attrDataEnd - attrDataStart);
      r := LoadBlob(md, attrData);
    }

    method LoadBlob(md: Metadata, attrData: seq<uint8>) returns (r: Result<seq<Option<Attribute>>>)
      requires customAttributes.None?
      modifies this
      ensures r == BlobOutcome(md, attrData).result && customAttributes == BlobOutcome(md, attrData).cache
    {
      var reader := new MemoryReader(attrData);
      var attributeCount :- ReadUnityCompressedUInt32(reader);
      if attributeCount > Int32Max {
        // the (int) cast gives a negative size, which stackalloc rejects
        return Failure(Overflow);
      }
      var ctorIndices :- ReadCtorIndices(reader, attributeCount);
      customAttributes := Some(Slots([], attributeCount));
      r := ReadAttributes(md, reader, ctorIndices);
    }

    /** The constructor index of every attribute, before the attributes. */
    static method ReadCtorIndices(reader: MemoryReader, n: nat) returns (r: Result<seq<nat>>)
      requires reader.Valid()
      modifies reader
      ensures reader.Valid() && Agrees(r, UInt32sAt(reader.data, old(reader.pos), n), reader.pos)
    {
      ghost var data, p0 := reader.data, reader.pos;
      ghost var all := UInt32sAt(data, p0, n);
      assert all.Success? ==> [] + all.value.value == all.value.value;
      var ctorIndices := new nat[n];
      var i := 0;
      ghost var done: seq<nat> := [];
      ghost var left := n;
      while i < n
        invariant 0 <= i <= n && left == n - i && reader.Valid() && reader.data == data
        invariant ctorIndices[..i] == done
        invariant all == Prepend(done, UInt32sAt(data, reader.pos, left))
      {
        ghost var before, was, prev := reader.pos, left, done;
        var c := reader.ReadUIntLittleEndian(4);
        if c.Failure? {
          return Failure(c.error);
        }
        ctorIndices[i] := c.value;
        assert ctorIndices[..i + 1] == ctorIndices[..i] + [c.value];
        done, left := done + [c.value], left - 1;
        IndicesStep(data, before, was, left, prev, done, c.value, reader.pos);
        i := i + 1;
      }
      assert ctorIndices[..] == done && done + [] == done;
      return Success(ctorIndices[..]);
    }

    /** The attribute loop: the cached array filled slot by slot. */
    method ReadAttributes(md: Metadata, reader: MemoryReader, ctors: seq<nat>) returns (r: Result<seq<Option<Attribute>>>)
      requires reader.Valid() && customAttributes == Some(Slots([], |ctors|))
      modifies this, reader
      ensures var f := DataFill(md, reader.data, old(reader.pos), ctors, 0);
              r == Finish(f, |ctors|).result && customAttributes == Finish(f, |ctors|).cache
    {
      ghost var p0 := reader.pos;
      ghost var built: seq<Attribute> := [];
      assert DataFill(md, reader.data, p0, ctors, 0) == PrependFill(built, DataFill(md, reader.data, p0, ctors, 0));
      var i := 0;
      while i < |ctors|
        invariant 0 <= i <= |ctors| && |built| == i && reader.Valid()
        invariant customAttributes == Some(Slots(built, |ctors|))
        invariant DataFill(md, reader.data, p0, ctors, 0) == PrependFill(built, DataFill(md, reader.data, reader.pos, ctors, i))
      {
        ghost var before := reader.pos;
        DataFillStep(md, reader.data, before, ctors, i);
        var a := ReadAttribute(md, reader, ctors[i]);
        if a.Failure? {
          FinishStopped(built, a.error, |ctors|);
          return Failure(a.error);
        }
        SlotsStep(built, a.value, |ctors|);
        PrependFillStep(built, a.value, DataFill(md, reader.data, reader.pos, ctors, i + 1));
        customAttributes := Some(customAttributes.value[i := Some(a.value)]);
        built := built + [a.value];
        i := i + 1;
      }
      assert built + [] == built;
      return Success(customAttributes.value);
    }
  }

  /** One attribute of a version-29 blob. */
  method ReadAttribute(md: Metadata, reader: MemoryReader, ctorIndex: nat) returns (r: Result<Attribute>)
    requires reader.Valid()
    modifies reader
    ensures reader.Valid() && Agrees(r, AttributeAt(md, reader.data, old(reader.pos), ctorIndex), reader.pos)
  {
    var ctorArgCount :- ReadUnityCompressedUInt32(reader);
    var fieldCount :- ReadUnityCompressedUInt32(reader);
    var propCount :- ReadUnityCompressedUInt32(reader);
    var ctorArgValues :- ReadValues(md.bin, reader, ctorArgCount);
    var _ :- SkipNamedArguments(md.bin, reader, fieldCount);
    var _ :- SkipNamedArguments(md.bin, reader, propCount);
    if ctorIndex >= |md.methodDeclaringTypes| {
      return Failure(IndexOutOfRange);
    }
    var declaring := md.methodDeclaringTypes[ctorIndex];
    if !(0 <= declaring < |md.bin.typeDefs|) {
      return Failure(IndexOutOfRange);
    }
    return Success(Attribute(declaring, Some(ctorArgValues)));
  }

  /** The constructor arguments of one attribute. */
  method ReadValues(bin: Binary, reader: MemoryReader, n: nat) returns (r: Result<seq<Value>>)
    requires reader.Valid()
    modifies reader
    ensures reader.Valid() && Agrees(r, ValuesAt(bin, reader.data, old(reader.pos), n), reader.pos)
  {
    var ctorArgValues := new Value[n];
    r := FillValues(bin, reader, ctorArgValues);
  }

  /** The loop of ReadValues: each slot of the array filled with the next value read. */
  method FillValues(bin: Binary, reader: MemoryReader, ctorArgValues: array<Value>) returns (r: Result<seq<Value>>)
    requires reader.Valid()
    modifies reader, ctorArgValues
    ensures reader.Valid() && Agrees(r, ValuesAt(bin, reader.data, old(reader.pos), ctorArgValues.Length), reader.pos)
    ensures r.Success? ==> r.value == ctorArgValues[..]
  {
    ghost var data, p0, n := reader.data, reader.pos, ctorArgValues.Length;
    ghost var all := ValuesAt(bin, data, p0, n);
    assert all.Success? ==> [] + all.value.value == all.value.value;
    var j := 0;
    ghost var done: seq<Value> := [];
    ghost var left := n;
    while j < ctorArgValues.Length
      invariant 0 <= j <= n && left == n - j && reader.Valid() && reader.data == data
      invariant ctorArgValues[..j] == done
      invariant all == Prepend(done, ValuesAt(bin, data, reader.pos, left))
    {
      ghost var before, was, prev := reader.pos, left, done;
      var v := ReadValue(bin, reader);
      if v.Failure? {
        return Failure(v.error);
      }
      ctorArgValues[j] := v.value;
      assert ctorArgValues[..j + 1] == ctorArgValues[..j] + [v.value];
      done, left := done + [v.value], left - 1;
      ValuesStep(bin, data, before, was, left, prev, done, v.value, reader.pos);
      j := j + 1;
    }
    assert ctorArgValues[..] == done && done + [] == done;
    return Success(ctorArgValues[..]);
  }

  /** What one named argument read, or the exception it raised, leaves of the whole run. */
  lemma NamedArgumentsNext(bin: Binary, data: seq<uint8>, pos: nat, n: nat, m: nat, a: Result<()>, next: nat)
    requires pos <= |data| && next <= |data| && n > 0 && m == n - 1 && Agrees(a, NamedArgumentAt(bin, data, pos), next)
    ensures a.Failure? ==> NamedArgumentsAt(bin, data, pos, n) == Failure(a.error)
    ensures a.Success? ==> NamedArgumentsAt(bin, data, pos, n) == NamedArgumentsAt(bin, data, next, m)
  {
    var first := NamedArgumentAt(bin, data, pos);
    assert first.Failure? ==> NamedArgumentsAt(bin, data, pos, n) == Failure(first.error);
    assert first.Success? ==> NamedArgumentsAt(bin, data, pos, n) == NamedArgumentsAt(bin, data, first.value.next, m);
  }

  /** One pass of the named-argument loops: ReadValue, then ResolveMember. */
  method SkipNamedArgument(bin: Binary, reader: MemoryReader) returns (r: Result<()>)
    requires reader.Valid()
    modifies reader
    ensures reader.Valid() && Agrees(r, NamedArgumentAt(bin, reader.data, old(reader.pos)), reader.pos)
  {
    var v :- ReadValue(bin, reader);
    var m :- ResolveMember(reader);
    return Success(());
  }

  /** The named fields or properties of one attribute, whose values are dropped. */
  method SkipNamedArguments(bin: Binary, reader: MemoryReader, n: nat) returns (r: Result<()>)
    requires reader.Valid()
    modifies reader
    ensures reader.Valid() && Agrees(r, NamedArgumentsAt(bin, reader.data, old(reader.pos), n), reader.pos)
  {
    ghost var data, p0 := reader.data, reader.pos;
    ghost var all := NamedArgumentsAt(bin, data, p0, n);
    var j := 0;
    ghost var left := n;
    while j < n
      invariant 0 <= j <= n && left == n - j && reader.Valid() && reader.data == data
      invariant all == NamedArgumentsAt(bin, data, reader.pos, left)
    {
      ghost var before, was := reader.pos, left;
      var a := SkipNamedArgument(bin, reader);
      j, left := j + 1, left - 1;
      NamedArgumentsNext(bin, data, before, was, left, a, reader.pos);
      if a.Failure? {
        return Failure(a.error);
      }
    }
    return Success(());
  }
}
