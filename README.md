# protodec, modelled in Dafny

protodec rebuilds `.proto` schema files from the C# assemblies that `protoc`
generated. It reads the generated classes either through .NET reflection or
from a Unity IL2CPP metadata file. It recovers the messages, enums, oneofs and
services from those classes and writes each one out as `.proto` text. The
repository holds several revisions side by side, and their behaviour
differs, so each revision gets a model of its own:

- **the stand-alone tool**: `Protodec.cs`, `ProtobufMessage.cs`, `ProtobufEnum.cs` and `StringExtensions.cs` at the root;
- **the library revision**: `src/LibProtodec/ProtodecContext.cs` and its
  predecessor `src/LibProtodec/Protodec.cs`. Its serializers are in
  `src/LibProtodec/Message.cs`, `Enum.cs` and `Protobuf.cs`, and
  `LibProtodec/Protobuf.cs` is an identical copy of the last;
- **the model classes**: `src/LibProtodec/Models`, a tree of top-levels and fields that can write themselves as `.proto` text, plus the IL2CPP metadata readers under `Models/Cil/Il2Cpp`.

The modules:

- `Util` holds optional values, and results that stand for the exceptions
  the C# code throws. It also holds the decimal text of an integer.
- `MemoryReaders` is the byte cursor that the decoders advance. Each read
  has a reference function that gives the value, the position after it, or
  the exception.
- `Il2CppBlob` holds the reference definitions of the attribute-blob format.
  This covers Unity's compressed integers, zig-zag signed integers, tagged
  constructor-argument values, length-prefixed strings and arrays, and named
  arguments.
- `Il2CppMember` holds the imperative readers, the binary search over the
  token-sorted range tables, and class `Member`. That class has a cached
  `CustomAttributes` getter covering metadata before version 29 and from 29
  on.
- `Il2CppAttribute` is an attribute found in the metadata.
- `Il2CppTypes` covers the type-definition flags, the recursive
  `IsAssignableTo`, a handle table that keeps one handle per name, and the
  generic arguments of a handle, which are computed once.
- `CilReader` reads one CIL opcode, with the 0xFE prefix of ECMA-335
  Partition III, section III.1.2.1. It also gives the width of each operand
  kind.
- `Naming` holds the reference definitions of the identifier rules: lower and
  upper snake case, the "beebyted" test for 11 ASCII capitals, counting
  capitals, and suffix trimming. `Extensions` and `StringExtensions` are the
  C# loops of the two revisions, proved against those definitions.
- `CilAssemblyLoaders` is the cache of the three well-known types. Each type
  is looked up at most once.
- `Reflection` is what the engines read from `System.Type`. The loaded types
  form a universe indexed by type id, so that property types can refer back
  and form cycles.
- `LibraryParsing` gives the library engine's parse as functions. It covers
  the two-cursor property/id-constant walk, oneof detection, Has companions,
  field-type resolution, name translation, and the memo and descent set.
  `ProtodecContexts` is the engine's class. Its methods are proved to leave
  exactly the state, and return exactly the result, that those functions
  describe. One configuration value selects between ProtodecContext and its
  predecessor, Protodec, where the two differ:
  - the oneof test compares against the class name in ProtodecContext, and
    against the translated message name in Protodec;
  - the two order the property skip filters differently.
- `StandaloneEngine` is the original tool's engine, as specification
  functions and class `Protodec`, which holds the `Messages` and `Enums`
  dictionaries.
  - One index drives both properties and id constants.
  - A message is recorded only after its property loop, so a class that
    reaches itself through its fields recurses until the stack runs out.
  - A `depth` parameter, the stack frames left, models that.
- `Schema` is the tree of top-levels, fields and field types. It has
  `QualifyName` and `QualifyTypeName` (the parent walk, then reversed), and
  `WriteTypeNameTo`.
- `Writer` models `IndentedTextWriter` as the sequence of calls made on it:
  Write, WriteLine, and Indent up or down one step. `Render` gives the lines
  those calls produce, each at its indentation level.
  - Each serializer is a writer method whose `ensures` is exactly the calls
    it makes.
  - Its Render lemma then states the resulting lines.
  - A serializer that can throw produces a trace: the calls made, and whether
    it returned. Its "Ok" lemma states exactly when it returns.
- `ProtoWriter`, `TopLevels` and `ProtobufFiles` are the serializers of the
  model classes. `LegacyWriters` holds the serializers of the library
  revision and of the stand-alone tool.

The C# reference identity of a top-level (`Parent == this`) becomes an index
into one declaration table. The message being built during a parse is a
value passed down and back up: in the C# code only the call that builds it
can see it, so no alias of it is ever observed.

Two details of the code that the model keeps:

- The compressed unsigned integer's 2-byte and 4-byte forms carry 14 and 30
  bits: the low 6 bits of the lead byte, then one or three more bytes,
  big-endian.
- The snake-case functions accept the empty string. `string.Create` with
  length 0 returns "" without calling the fill callback.

`Service.WriteTo` (`src/LibProtodec/Models/Protobuf/TopLevels/Service.cs:31`)
calls `method.WriteTo(writer)` without the top-level argument that
`ServiceMethod.WriteTo`
(`src/LibProtodec/Models/Protobuf/Fields/ServiceMethod.cs:23`) takes. The
model passes the service itself, which is the scope its methods' type names
are written from.

## Model

| member | source | states |
|---|---|---|
| CilAssemblyLoaders.CilAssemblyLoader.constructor | src/LibProtodec/Loaders/CilAssemblyLoader.cs:13-17 | a new loader has all three caches empty and has made no FindType call |
| CilAssemblyLoaders.CilAssemblyLoader.IMessage | src/LibProtodec/Loaders/CilAssemblyLoader.cs:20-21 | the result is FindType("Google.Protobuf.IMessage", "Google.Protobuf"); the first access makes exactly one lookup and fills the cache, a later access makes none and returns the cached type; the other two caches are unchanged |
| CilAssemblyLoaders.CilAssemblyLoader.ClientBase | src/LibProtodec/Loaders/CilAssemblyLoader.cs:23-24 | the result is FindType("Grpc.Core.ClientBase", "Grpc.Core.Api"), looked up at most once and then cached; the other two caches are unchanged |
| CilAssemblyLoaders.CilAssemblyLoader.BindServiceMethodAttribute | src/LibProtodec/Loaders/CilAssemblyLoader.cs:26-27 | the result is FindType("Grpc.Core.BindServiceMethodAttribute", "Grpc.Core.Api"), looked up at most once and then cached; the other two caches are unchanged |
| CilAssemblyLoaders.CilAssemblyLoader.Dispose | src/LibProtodec/Loaders/CilAssemblyLoader.cs:31 | changes no cache and makes no lookup |
| CilAssemblyLoaders.IMessageTwice | src/LibProtodec/Loaders/CilAssemblyLoader.cs:20-21 | two reads of IMessage on an empty cache return the same type and make a single lookup |
| CilReader.SizeOf | src/LibProtodec/CilReader.cs:38-66 | the width is one of 0, 1, 2, 4 and 8; it is 1 exactly for ShortInlineBrTarget, ShortInlineI and ShortInlineVar, 2 exactly for InlineVar, 8 exactly for InlineI8 and InlineR, 0 exactly for InlineNone and the remaining kind InlinePhi, and 4 for the rest |
| CilReader.SizeOfMatchesEcma | src/LibProtodec/CilReader.cs:38-66 | SizeOf agrees with the operand widths of ECMA-335 Partition III for every fixed-width kind; for InlineSwitch it is the width of the target count only |
| CilReader.OpCodeKeyAt | src/LibProtodec/CilReader.cs:26-29 | the read succeeds iff a byte is there and, after the 0xFE prefix, a second byte too; a non-prefix byte is the key and consumes one byte; a prefixed key has 0xFE as high byte and the second byte as low byte and consumes two; running out of bytes is EndOfData |
| CilReader.OpCodeKeyRoundTrip | src/LibProtodec/CilReader.cs:26-29 | reading back the one- or two-byte encoding of an opcode value gives that value and consumes exactly the encoding |
| CilReader.CilOpCodeAt | src/LibProtodec/CilReader.cs:24-35 | a successful read returns the table's opcode for the key read and SizeOf of its operand kind, and moves past the key; a failure is EndOfData when the key cannot be read and KeyNotFound when the table lacks it |
| CilReader.CilOpCodeAtEncoding | src/LibProtodec/CilReader.cs:19-35 | with the table keyed by each opcode's ushort value, reading an opcode's encoding returns that opcode and its operand width and consumes exactly the encoding |
| CilReader.ReadCilOpCode | src/LibProtodec/CilReader.cs:24-35 | the method's result and the reader's new position are those CilOpCodeAt gives for the old position |
| Il2CppAttribute.ConstructorArgumentValues | src/LibProtodec/Models/Cil/Il2Cpp/Il2CppAttribute.cs:18-24 | succeeds iff CanReadConstructorArgumentValues holds, that is iff an argument array was supplied; success returns exactly that array, and otherwise the error is NotSupported |
| MemoryReaders.LittleEndianRoundTrip | src/LibProtodec/Models/Cil/Il2Cpp/Il2CppMember.cs:76 | decoding the n-byte little-endian encoding of a value below 256^n gives the value back |
| MemoryReaders.BytesAt | src/LibProtodec/Models/Cil/Il2Cpp/Il2CppMember.cs:290 | reading n bytes succeeds iff 0 <= n and n bytes remain; it gives exactly the next n bytes and advances by n; otherwise the error is EndOfData |
| MemoryReaders.ByteAt | src/LibProtodec/Models/Cil/Il2Cpp/Il2CppMember.cs:150 | reading a byte succeeds iff one remains, gives it and advances by one; otherwise EndOfData |
| MemoryReaders.UIntAt | src/LibProtodec/Models/Cil/Il2Cpp/Il2CppMember.cs:76 | an n-byte unsigned read succeeds exactly when n bytes are left; the value is the little-endian value of those bytes, below 256^n, and the read advances by n; a failure is EndOfData (also lines 224, 232 of the same file) |
| MemoryReaders.SIntAt | src/LibProtodec/Models/Cil/Il2Cpp/Il2CppMember.cs:218 | an n-byte signed read succeeds exactly when n bytes are left; the value is the two's-complement reading of the bytes' little-endian value (the value minus 256^n when it is at least half of 256^n), so it lies in the signed range of n bytes, and the read advances by n (also lines 222, 230 of the same file) |
| MemoryReaders.MemoryReader.constructor | src/LibProtodec/Models/Cil/Il2Cpp/Il2CppMember.cs:71 | a reader over a buffer starts at position 0 |
| MemoryReaders.MemoryReader.ReadBytes | src/LibProtodec/Models/Cil/Il2Cpp/Il2CppMember.cs:290 | the bytes read and the new position are those of BytesAt; a failed read raises its error |
| MemoryReaders.MemoryReader.ReadByte | src/LibProtodec/Models/Cil/Il2Cpp/Il2CppMember.cs:150 | the byte read and the new position are those of ByteAt (also line 197 of the same file) |
| MemoryReaders.MemoryReader.ReadBoolean | src/LibProtodec/Models/Cil/Il2Cpp/Il2CppMember.cs:214 | reads one byte; the result is true iff the byte is non-zero (also line 267 of the same file) |
| MemoryReaders.MemoryReader.ReadUIntLittleEndian | src/LibProtodec/Models/Cil/Il2Cpp/Il2CppMember.cs:76 | the value read, the new position, and the failure are those of UIntAt: the little-endian value of the next n bytes (also lines 157, 224, 232 of the same file) |
| MemoryReaders.MemoryReader.ReadIntLittleEndian | src/LibProtodec/Models/Cil/Il2Cpp/Il2CppMember.cs:216-222 | the value read, the new position, and the failure are those of SIntAt: the two's-complement value of the next n bytes (also line 230 of the same file) |
| Il2CppBlob.CompressedUInt32At | src/LibProtodec/Models/Cil/Il2Cpp/Il2CppMember.cs:148-179 | succeeds iff the lead byte and all the bytes its form needs are there, and then consumes exactly LeadLength bytes (1 below 128 and for 254 and 255, 5 for 240, 4 for other 11xxxxxx bytes, 2 for 10xxxxxx bytes); the value of each form: a lead byte below 128 is itself, 240 is followed by a 4-byte little-endian value, 254 and 255 are uint.MaxValue - 1 and uint.MaxValue, 11xxxxxx gives its low bits and three big-endian bytes, 10xxxxxx its low bits and one byte; the value fits in 32 bits, the 2-byte form is below 2^14 and the 4-byte form below 2^30; the only failure is EndOfData, so the invalid-data throw is unreachable |
| Il2CppBlob.ZigZagDecode | src/LibProtodec/Models/Cil/Il2Cpp/Il2CppMember.cs:181-193 | the signed value lies in the int range, and is negative iff the unsigned value is odd |
| Il2CppBlob.CompressedInt32At | src/LibProtodec/Models/Cil/Il2Cpp/Il2CppMember.cs:181-193 | succeeds iff the unsigned read does, consumes the same bytes, and gives ZigZagDecode of its value |
| Il2CppBlob.ZigZagDecodeEncode | src/LibProtodec/Models/Cil/Il2Cpp/Il2CppMember.cs:184-192 | every int is the decoding of its encoding, so the signed decode reaches the whole int range |
| Il2CppBlob.ZigZagEncodeDecode | src/LibProtodec/Models/Cil/Il2Cpp/Il2CppMember.cs:184-192 | every 32-bit unsigned value is the encoding of its decoding |
| Il2CppBlob.ZigZagInjective | src/LibProtodec/Models/Cil/Il2Cpp/Il2CppMember.cs:184-192 | distinct unsigned values decode to distinct signed values |
| Il2CppBlob.EncodeCompressedUInt32 | src/LibProtodec/Models/Cil/Il2Cpp/Il2CppMember.cs:148-179 | the shortest encoding of a 32-bit value is 1, 2, 4 or 5 bytes long |
| Il2CppBlob.CompressedUInt32RoundTrip | src/LibProtodec/Models/Cil/Il2Cpp/Il2CppMember.cs:148-179 | at any position of a blob, reading the encoding of v gives v and consumes exactly the encoding (the 4-byte form is big-endian, the 5-byte form little-endian) |
| Il2CppBlob.DecodeFourBytes | src/LibProtodec/Models/Cil/Il2Cpp/Il2CppMember.cs:164-170 | a 11xxxxxx lead byte and three more bytes holding v big-endian decode to v in four bytes |
| Il2CppBlob.DecodeFiveBytes | src/LibProtodec/Models/Cil/Il2Cpp/Il2CppMember.cs:156-157 | the lead byte 240 followed by v in four little-endian bytes decodes to v in five bytes |
| Il2CppBlob.CompressedInt32RoundTrip | src/LibProtodec/Models/Cil/Il2Cpp/Il2CppMember.cs:181-193 | at any position, reading the signed encoding of an int gives it back and consumes exactly the encoding |
| Il2CppBlob.GetType | src/LibProtodec/Models/Cil/Il2Cpp/Il2CppMember.cs:212 | a type index inside the binary's type table gives that entry, any other index IndexOutOfRange (also lines 250-252 of the same file) |
| Il2CppBlob.AsClass | src/LibProtodec/Models/Cil/Il2Cpp/Il2CppMember.cs:251-252 | only a class or value type with a definition in the table has a definition, and it is that entry |
| Il2CppBlob.EnumUnderlyingTagAt | src/LibProtodec/Models/Cil/Il2Cpp/Il2CppMember.cs:247-255 | reads a compressed signed type index, and gives the tag of the underlying type of that enum, ending where the index ends |
| Il2CppBlob.StringAt | src/LibProtodec/Models/Cil/Il2Cpp/Il2CppMember.cs:284-292 | succeeds exactly when the compressed length reads and is -1 or fits in the bytes left; -1 gives a null string after consuming only the length; any other length gives exactly the bytes that follow the length, that many of them; a failure is EndOfData |
| Il2CppBlob.ValueAt | src/LibProtodec/Models/Cil/Il2Cpp/Il2CppMember.cs:201-245 | a successful read consumes at least one byte and stays inside the blob, the value is in the range of its CLR type, and for every tag but ENUM its shape is the tag's; SZARRAY gives the array SzArrayAt reads, or the null array; a type index is the compressed integer read when it indexes the binary's types, IndexOutOfRange otherwise; every other tag is read as ScalarValueAt says; any tag outside the supported ones (CLASS, OBJECT, GENERICINST and the unknown ones included) is NotSupported; the ENUM case is EnumValueAt |
| Il2CppBlob.EnumValueAt | src/LibProtodec/Models/Cil/Il2Cpp/Il2CppMember.cs:205-207 | an ENUM value is the value of the enum's underlying tag, read right after the type index, and a failed underlying-type lookup is the read's failure |
| Il2CppBlob.ScalarValueAt | src/LibProtodec/Models/Cil/Il2Cpp/Il2CppMember.cs:213-224 | BOOLEAN is one byte, true when not zero; I1 and U1 are one byte, signed and unsigned; CHAR, I2 and U2 are two little-endian bytes (I2 signed); each succeeds exactly when its bytes are there and otherwise fails with EndOfData; every other tag is read as WideValueAt says |
| Il2CppBlob.WideValueAt | src/LibProtodec/Models/Cil/Il2Cpp/Il2CppMember.cs:225-238 | the 32- and 64-bit integer tags are read as IntegerValueAt says, the other tags as FloatOrStringAt says; the value has the tag's shape and range |
| Il2CppBlob.IntegerValueAt | src/LibProtodec/Models/Cil/Il2Cpp/Il2CppMember.cs:225-232 | I4 is the compressed signed integer and U4 the compressed unsigned integer, succeeding exactly when those read; I8 and U8 are the signed and unsigned values of eight little-endian bytes, succeeding exactly when eight bytes are left; a failure of these is EndOfData; any other tag is NotSupported |
| Il2CppBlob.FloatOrStringAt | src/LibProtodec/Models/Cil/Il2Cpp/Il2CppMember.cs:233-238 | R4 and R8 are the next 4 and 8 raw bytes, succeeding exactly when they are there; STRING is the string StringAt reads, succeeding exactly when it does; a failure of these is EndOfData; any other tag is NotSupported |
| Il2CppBlob.SzArrayAt | src/LibProtodec/Models/Cil/Il2Cpp/Il2CppMember.cs:257-282 | the array is null iff the length is -1, and then only the length is consumed; otherwise it has exactly length elements, all in range; each outcome branch by branch is SzArrayCases |
| Il2CppBlob.SzArrayCases | src/LibProtodec/Models/Cil/Il2Cpp/Il2CppMember.cs:257-282 | an unreadable length is EndOfData and the length -1 is the null array right after it; otherwise a failed element tag is that failure and a missing flag byte EndOfData; type-prefixed elements in an array whose type is not OBJECT fail with InvalidData; a length below -1 fails with Overflow, as allocating the array does; otherwise the array is exactly the elements read from right after the flag byte, each with its own tag byte when type-prefixed |
| Il2CppBlob.ArrayTagAt | src/LibProtodec/Models/Cil/Il2Cpp/Il2CppMember.cs:263-265 | the element tag byte, replaced by the underlying tag for ENUM, consumes at least one byte |
| Il2CppBlob.ElementAt | src/LibProtodec/Models/Cil/Il2Cpp/Il2CppMember.cs:274-278 | a type-prefixed element is the value of the tag in its first byte, read after that byte (EndOfData with no byte left); otherwise it is the value of the array's tag; either way it consumes bytes and is in range |
| Il2CppBlob.ElementsAt | src/LibProtodec/Models/Cil/Il2Cpp/Il2CppMember.cs:271-279 | n elements read in a row are exactly n values, all in range, inside the blob |
| Il2CppBlob.TaggedValueAt | src/LibProtodec/Models/Cil/Il2Cpp/Il2CppMember.cs:195-199 | the value of the tag in the first byte, read after that byte, and EndOfData with no byte left; it consumes at least two bytes and gives a value in range |
| Il2CppBlob.MemberAt | src/LibProtodec/Models/Cil/Il2Cpp/Il2CppMember.cs:294-305 | reads a compressed member index, followed by a compressed type index only when the member index is negative; the resolved index is -(m + 1) for a negative m and m otherwise; the only failure is EndOfData |
| Il2CppMember.ReadUnityCompressedUInt32 | src/LibProtodec/Models/Cil/Il2Cpp/Il2CppMember.cs:148-179 | the value read and the bytes consumed are those of CompressedUInt32At, and the throw after the two bit tests is never reached |
| Il2CppMember.LeadByteBits | src/LibProtodec/Models/Cil/Il2Cpp/Il2CppMember.cs:164 | the masks `& 192 == 192` and `& 128 == 128` on a byte are the comparisons `>= 192` and `>= 128` (also line 172 of the same file) |
| Il2CppMember.ReadUnityCompressedInt32 | src/LibProtodec/Models/Cil/Il2Cpp/Il2CppMember.cs:181-193 | the value read and the bytes consumed are those of CompressedInt32At |
| Il2CppMember.ReadEnumUnderlyingType | src/LibProtodec/Models/Cil/Il2Cpp/Il2CppMember.cs:247-255 | the tag read and the bytes consumed are those of EnumUnderlyingTagAt |
| Il2CppMember.ReadString | src/LibProtodec/Models/Cil/Il2Cpp/Il2CppMember.cs:284-292 | the string read (as bytes) and the bytes consumed are those of StringAt |
| Il2CppMember.ResolveMember | src/LibProtodec/Models/Cil/Il2Cpp/Il2CppMember.cs:294-305 | the bytes consumed, and the member index computed, are those of MemberAt |
| Il2CppMember.ReadTypedValue | src/LibProtodec/Models/Cil/Il2Cpp/Il2CppMember.cs:201-245 | the value read and the bytes consumed are those of ValueAt, for every tag |
| Il2CppMember.ReadScalarValue | src/LibProtodec/Models/Cil/Il2Cpp/Il2CppMember.cs:213-224 | the value, the new position, and the failure are those of ScalarValueAt; the char read keeps the 16 bits of the short read |
| Il2CppMember.ReadWideValue | src/LibProtodec/Models/Cil/Il2Cpp/Il2CppMember.cs:225-244 | the value, the new position, and the failure are those of WideValueAt |
| Il2CppMember.ReadIntegerValue | src/LibProtodec/Models/Cil/Il2Cpp/Il2CppMember.cs:225-232 | the value, the new position, and the failure are those of IntegerValueAt |
| Il2CppMember.ReadFloatOrString | src/LibProtodec/Models/Cil/Il2Cpp/Il2CppMember.cs:233-244 | the value, the new position, and the failure are those of FloatOrStringAt |
| Il2CppMember.ReadValue | src/LibProtodec/Models/Cil/Il2Cpp/Il2CppMember.cs:195-199 | agrees with TaggedValueAt: a tag byte, then the value of that tag |
| Il2CppMember.ReadSzArray | src/LibProtodec/Models/Cil/Il2Cpp/Il2CppMember.cs:257-282 | the array read and the bytes consumed are those of SzArrayAt |
| Il2CppMember.ReadElements | src/LibProtodec/Models/Cil/Il2Cpp/Il2CppMember.cs:271-281 | the array filled by the loop and the bytes consumed are those of ElementsAt |
| Il2CppMember.ReadElement | src/LibProtodec/Models/Cil/Il2Cpp/Il2CppMember.cs:274-278 | the value, the new position, and the failure are those of ElementAt |
| Il2CppMember.ElementsStepped | src/LibProtodec/Models/Cil/Il2Cpp/Il2CppMember.cs:272-279 | one element read moves it from the elements still to read to those read, without changing the whole result |
| Il2CppMember.ElementsFailed | src/LibProtodec/Models/Cil/Il2Cpp/Il2CppMember.cs:272-279 | an element read that fails makes the whole array read fail with its error |
| Il2CppMember.BinarySearchToken | src/LibProtodec/Models/Cil/Il2Cpp/Il2CppMember.cs:124-146 | the loop returns what Search gives for the window [start, start + count - 1]; a probe outside the table is IndexOutOfRange |
| Il2CppMember.SearchReadsOnlyWindow | src/LibProtodec/Models/Cil/Il2Cpp/Il2CppMember.cs:124-146 | the search reads only the window: two tables that agree on it give the same result, and a window inside the table never fails |
| Il2CppMember.SearchSorted | src/LibProtodec/Models/Cil/Il2Cpp/Il2CppMember.cs:124-146 | on a window sorted by token, a non-negative result is an index of the window whose token is the key, and a negative result ~p gives the insertion point p: every token of the window before p is smaller than the key, and every token from p on is larger |
| Il2CppMember.SearchFound | src/LibProtodec/Models/Cil/Il2Cpp/Il2CppMember.cs:134-135 | a probe holding the key is a correct answer |
| Il2CppMember.SearchEmptyWindow | src/LibProtodec/Models/Cil/Il2Cpp/Il2CppMember.cs:145 | ~lo for an empty window is a correct answer |
| Il2CppMember.SearchRightHalf | src/LibProtodec/Models/Cil/Il2Cpp/Il2CppMember.cs:136-138 | on a sorted window, an answer for the part right of a probe smaller than the key answers the whole window |
| Il2CppMember.SearchLeftHalf | src/LibProtodec/Models/Cil/Il2Cpp/Il2CppMember.cs:139-141 | on a sorted window, an answer for the part left of a probe larger than the key answers the whole window |
| Il2CppMember.SearchFindsPresentKey | src/LibProtodec/Models/Cil/Il2Cpp/Il2CppMember.cs:124-146 | on a sorted window the result is non-negative exactly when some token of the window is the key |
| Il2CppMember.Int32Of | src/LibProtodec/Models/Cil/Il2Cpp/Il2CppMember.cs:36 | the (int) cast of a uint lies in the int range and agrees with it modulo 2^32 (also line 59 of the same file) |
| Il2CppMember.RawBytes | src/LibProtodec/Models/Cil/Il2Cpp/Il2CppMember.cs:67-69 | succeeds iff the length is non-negative and the window lies in the file, and then gives exactly the bytes of the window |
| Il2CppMember.Slots | src/LibProtodec/Models/Cil/Il2Cpp/Il2CppMember.cs:43 | the cached array has `count` slots: the attributes built so far, then null slots (also line 78 of the same file) |
| Il2CppMember.FinishStopped | src/LibProtodec/Models/Cil/Il2Cpp/Il2CppMember.cs:43-51 | a loop stopped by an exception raises it and leaves the partly filled array cached (also lines 78-110 of the same file) |
| Il2CppMember.Finish | src/LibProtodec/Models/Cil/Il2Cpp/Il2CppMember.cs:43-51 | the array is cached whether or not the loop completes; it is returned iff the loop raised nothing, and otherwise the loop's exception is raised (also lines 78-114 of the same file) |
| Il2CppMember.LegacyAttribute | src/LibProtodec/Models/Cil/Il2Cpp/Il2CppMember.cs:46-50 | an attribute of the old layout has a type definition of the table and no constructor arguments |
| Il2CppMember.LegacyFill | src/LibProtodec/Models/Cil/Il2Cpp/Il2CppMember.cs:44-51 | the old-layout loop builds at most its remaining count of attributes, all of them if nothing fails, none with readable arguments |
| Il2CppMember.ValuesAt | src/LibProtodec/Models/Cil/Il2Cpp/Il2CppMember.cs:89-92 | n constructor arguments read in a row are exactly n values, all in range, taking at least two bytes each |
| Il2CppMember.ValuesStep | src/LibProtodec/Models/Cil/Il2Cpp/Il2CppMember.cs:89-92 | one argument read moves it from the values still to read to those read |
| Il2CppMember.NamedArgumentAt | src/LibProtodec/Models/Cil/Il2Cpp/Il2CppMember.cs:96-97 | one named field or property (a tagged value and a member reference) takes at least three bytes |
| Il2CppMember.NamedArgumentsAt | src/LibProtodec/Models/Cil/Il2Cpp/Il2CppMember.cs:94-104 | n named arguments take at least 3n bytes and stay inside the blob |
| Il2CppMember.AttributeAt | src/LibProtodec/Models/Cil/Il2Cpp/Il2CppMember.cs:81-109 | a version-29 attribute reads its three counts, then exactly ctorArgCount arguments, which it carries, then skips the named fields and properties; its type is the one declaring its constructor |
| Il2CppMember.DataFill | src/LibProtodec/Models/Cil/Il2Cpp/Il2CppMember.cs:79-110 | the version-29 loop builds at most one attribute per constructor index, all of them if nothing fails, each with readable arguments |
| Il2CppMember.DataFillStep | src/LibProtodec/Models/Cil/Il2Cpp/Il2CppMember.cs:79-110 | one pass of the version-29 loop: a failing attribute stops the loop with its exception |
| Il2CppMember.UInt32sAt | src/LibProtodec/Models/Cil/Il2Cpp/Il2CppMember.cs:74-76 | n constructor indices are read iff 4n bytes remain, and then take exactly 4n bytes |
| Il2CppMember.UInt32sAtValues | src/LibProtodec/Models/Cil/Il2Cpp/Il2CppMember.cs:74-76 | the k-th index read is the little-endian value of the k-th group of four bytes |
| Il2CppMember.IndicesStep | src/LibProtodec/Models/Cil/Il2Cpp/Il2CppMember.cs:75-76 | one index read moves it from the indices still to read to those read |
| Il2CppMember.DataOutcomeBySearch | src/LibProtodec/Models/Cil/Il2Cpp/Il2CppMember.cs:55-64 | a failed search fails the getter without caching; a negative search result caches and returns the empty array; otherwise the range found is loaded |
| Il2CppMember.CustomAttributesOf | src/LibProtodec/Models/Cil/Il2Cpp/Il2CppMember.cs:22-116 | a successful first call caches exactly the array it returns, which has no null slot; its attributes carry constructor arguments exactly on metadata of version 29 and later; in a cached array no filled slot follows a null one; a successful call returns as many attributes as the member's range declares: before version 29 the count of the type range found (an empty array for a negative index), from version 29 the leading count of the blob of the data range found (an empty array for a negative search result) |
| Il2CppMember.LegacyOutcome | src/LibProtodec/Models/Cil/Il2Cpp/Il2CppMember.cs:28-52 | before version 29 a successful call caches exactly the array it returns, with no null slot and no attribute carrying constructor arguments; a negative LegacyIndex gives the empty array, any other index names a type range and the array has that range's count of attributes |
| Il2CppMember.DataOutcome | src/LibProtodec/Models/Cil/Il2Cpp/Il2CppMember.cs:55-111 | from version 29 a successful call caches exactly the array it returns, with no null slot and every attribute carrying constructor arguments; a negative search result gives the empty array, otherwise the array has as many attributes as the blob of the range found declares |
| Il2CppMember.RangeOutcome | src/LibProtodec/Models/Cil/Il2Cpp/Il2CppMember.cs:64-69 | the range found needs a range after it (IndexOutOfRange otherwise, with nothing cached); a successful result has as many attributes as the range's blob declares, is what is cached, and every attribute carries constructor arguments |
| Il2CppMember.BlobOutcome | src/LibProtodec/Models/Cil/Il2Cpp/Il2CppMember.cs:71-110 | any array cached has as many slots as the blob's leading count, and so does a successful result, which is what is cached, with no null slot and every attribute carrying constructor arguments; in a cached array no filled slot follows a null one |
| Il2CppMember.NoRangeNoAttributes | src/LibProtodec/Models/Cil/Il2Cpp/Il2CppMember.cs:38-39 | when the range search misses, on either layout, the getter returns and caches the empty array instead of failing (also lines 61-62 of the same file) |
| Il2CppMember.Member.constructor | src/LibProtodec/Models/Cil/Il2Cpp/Il2CppMember.cs:20 | a new member has no cached array |
| Il2CppMember.Member.CustomAttributes | src/LibProtodec/Models/Cil/Il2Cpp/Il2CppMember.cs:22-116 | with a cached array the getter returns it and changes nothing; otherwise it returns and caches what CustomAttributesOf describes |
| Il2CppMember.Member.LoadLegacy | src/LibProtodec/Models/Cil/Il2Cpp/Il2CppMember.cs:28-52 | the old-layout path: the range index is CustomAttributeIndex up to version 24 and the token search after it; the result and cache are those of LegacyOutcome |
| Il2CppMember.Member.FillLegacy | src/LibProtodec/Models/Cil/Il2Cpp/Il2CppMember.cs:43-51 | the loop leaves the result and cache that Finish gives for LegacyFill |
| Il2CppMember.Member.LoadFromData | src/LibProtodec/Models/Cil/Il2Cpp/Il2CppMember.cs:55-62 | the version-29 path leaves the result and cache of DataOutcome |
| Il2CppMember.Member.LoadRange | src/LibProtodec/Models/Cil/Il2Cpp/Il2CppMember.cs:64-69 | the blob runs from this range's start offset to the next range's, and the result and cache are those of RangeOutcome |
| Il2CppMember.Member.LoadBlob | src/LibProtodec/Models/Cil/Il2Cpp/Il2CppMember.cs:71-78 | reads the attribute count and the constructor indices, then caches a null-filled array before the attribute loop; the result and cache are those of BlobOutcome |
| Il2CppMember.Member.ReadCtorIndices | src/LibProtodec/Models/Cil/Il2Cpp/Il2CppMember.cs:74-76 | the indices read and the bytes consumed are those of UInt32sAt |
| Il2CppMember.Member.ReadAttributes | src/LibProtodec/Models/Cil/Il2Cpp/Il2CppMember.cs:78-110 | the loop leaves the result and cache that Finish gives for DataFill |
| Il2CppMember.ReadAttribute | src/LibProtodec/Models/Cil/Il2Cpp/Il2CppMember.cs:81-109 | the attribute read and the bytes consumed are those of AttributeAt |
| Il2CppMember.ReadValues | src/LibProtodec/Models/Cil/Il2Cpp/Il2CppMember.cs:85-92 | the arguments read and the bytes consumed are those of ValuesAt |
| Il2CppMember.FillValues | src/LibProtodec/Models/Cil/Il2Cpp/Il2CppMember.cs:89-92 | the array ends up holding the values ValuesAt describes, and the reader is where ValuesAt ends |
| Il2CppMember.NamedArgumentsNext | src/LibProtodec/Models/Cil/Il2Cpp/Il2CppMember.cs:94-104 | a failing named argument fails the whole run with its error; a successful one leaves one fewer to read |
| Il2CppMember.SkipNamedArgument | src/LibProtodec/Models/Cil/Il2Cpp/Il2CppMember.cs:96-97 | agrees with NamedArgumentAt |
| Il2CppMember.SkipNamedArguments | src/LibProtodec/Models/Cil/Il2Cpp/Il2CppMember.cs:94-104 | the bytes consumed are those of NamedArgumentsAt, and its failure is the method's |
| Il2CppTypes.IsAssignableTo | src/LibProtodec/Models/Cil/Il2Cpp/Il2CppType.cs:174-196 | a type is assignable to itself; a type without a base type is assignable exactly to itself and to the interfaces it lists; the only failure is an exhausted stack |
| Il2CppTypes.IsAssignableToChain | src/LibProtodec/Models/Cil/Il2Cpp/Il2CppType.cs:174-196 | the recursion is true exactly when some type of the base chain within the stack depth is the target or, for an interface target, lists it; false only when the chain ends with no match; a stack overflow only when that many ancestors exist and none matches |
| Il2CppTypes.IsAssignableToMoreFuel | src/LibProtodec/Models/Cil/Il2Cpp/Il2CppType.cs:192-195 | an answer reached with some stack depth is the answer with any deeper stack |
| Il2CppTypes.Ancestor | src/LibProtodec/Models/Cil/Il2Cpp/Il2CppType.cs:192 | every type reached along the base chain is in the definition table |
| Il2CppTypes.Il2CppType.constructor | src/LibProtodec/Models/Cil/Il2Cpp/Il2CppType.cs:24-25 | a handle holds its definition and generic arguments and has no argument array yet |
| Il2CppTypes.Il2CppType.GenericTypeArguments | src/LibProtodec/Models/Cil/Il2Cpp/Il2CppType.cs:72-90 | a cached array is returned unchanged, with no lookup; on the first read the cached array has one slot per generic argument, and the read succeeds iff every argument denotes a type, each slot then holding the lookup table's handle for its argument; entries of the lookup table are never replaced |
| Il2CppTypes.TypeLookup.constructor | src/LibProtodec/Models/Cil/Il2Cpp/Il2CppType.cs:154 | the handle table starts empty |
| Il2CppTypes.TypeLookup.GetOrCreateDefinition | src/LibProtodec/Models/Cil/Il2Cpp/Il2CppType.cs:156-161 | a full name already in the table gives its handle and changes nothing; otherwise a fresh handle without generic arguments is created and stored under the full name |
| Il2CppTypes.TypeLookup.GetOrCreate | src/LibProtodec/Models/Cil/Il2Cpp/Il2CppType.cs:163-172 | data that is not a type fails the guard; a known text gives the stored handle and changes nothing; otherwise a fresh handle of the data's definition and generic parameters is stored under the text |
| Il2CppTypes.TypeLookup.BaseType | src/LibProtodec/Models/Cil/Il2Cpp/Il2CppType.cs:48-54 | no base type exactly when ParentIndex is -1; otherwise the failure of the parent's reflection-data lookup, GuardFailed when that data is not a type, or the handle GetOrCreate gives for it: the one in the table under its text, or a new handle of its definition and generic parameters, added under that text; table entries are kept |
| Il2CppTypes.TypeLookup.DeclaringType | src/LibProtodec/Models/Cil/Il2Cpp/Il2CppType.cs:40-46 | no declaring type exactly when the type is not nested (DeclaringTypeIndex < 0); otherwise the failure of the declaring type's reflection-data lookup, GuardFailed when that data is not a type, or the handle GetOrCreate gives for it, as for BaseType; table entries are kept |
| Il2CppTypes.TypeLookup.IsAssignableToType | src/LibProtodec/Models/Cil/Il2Cpp/Il2CppType.cs:134-142 | an IL2CPP handle is compared by the static recursion on the two definitions; any other kind of type fails with NotSupported |
| Il2CppTypes.SameKeySameHandle | src/LibProtodec/Models/Cil/Il2Cpp/Il2CppType.cs:163-172 | two requests with the same key return the same handle object |
| Naming.ToLower | src/LibProtodec/Extensions.cs:37 | the result is never an ASCII capital, and raising a lowered capital gives it back (also line 47 of the same file) |
| Naming.ToUpper | src/LibProtodec/Extensions.cs:59 | the result is never an ASCII lower-case letter, and a character that is not one is kept (also line 73 of the same file) |
| Naming.UpperCountAppend | src/LibProtodec/Extensions.cs:84-93 | the capitals of a concatenation are those of its parts |
| Naming.UpperCountAll | src/LibProtodec/Extensions.cs:80-81 | the count of capitals equals the length exactly when every character is an ASCII capital |
| Naming.SnakeLengths | src/LibProtodec/Extensions.cs:35 | both snake cases of a non-empty name are as long as the name plus its capitals after the first character, the length string.Create is given (also line 57 of the same file) |
| Naming.TailLengths | src/LibProtodec/Extensions.cs:40-53 | the characters after the first become one character each, and two for a capital (also lines 62-75 of the same file) |
| Naming.SnakeLowerHasNoUpper | src/LibProtodec/Extensions.cs:37-53 | the lower snake case of a name holds no ASCII capital |
| Naming.LowerTailHasNoUpper | src/LibProtodec/Extensions.cs:40-53 | the part after the first character of the lower snake case holds no ASCII capital |
| Naming.SnakeUpperHasNoLower | src/LibProtodec/Extensions.cs:59-75 | the upper snake case of a name holds no ASCII lower-case letter |
| Naming.UpperTailHasNoLower | src/LibProtodec/Extensions.cs:62-75 | the part after the first character of the upper snake case holds no ASCII lower-case letter |
| Naming.MapUpperAppend | src/LibProtodec/Extensions.cs:73 | raising a concatenation raises each part |
| Naming.UpperTailIsUpperOfLowerTail | src/LibProtodec/Extensions.cs:40-53 | after the first character, the upper snake case is the lower snake case raised (also lines 62-75 of the same file) |
| Naming.SnakeUpperIsUpperOfSnakeLower | src/LibProtodec/Extensions.cs:34-76 | the upper snake case of a name is its lower snake case raised to upper case: the two rewritings insert the same separators |
| Naming.LowerTailFixed | src/LibProtodec/Extensions.cs:40-53 | text without capitals passes through the lower snake loop unchanged |
| Naming.SnakeLowerIdempotent | src/LibProtodec/Extensions.cs:34-54 | lower snake casing a lower snake cased name changes nothing |
| Naming.BeebytedMeansElevenCapitals | src/LibProtodec/Extensions.cs:80-81 | a name is beebyted exactly when it has eleven characters, all ASCII capitals |
| Naming.TrimEnd | src/LibProtodec/Extensions.cs:29-32 | a name ending with the suffix loses exactly one occurrence of it (the result followed by the suffix is the name); any other name is returned unchanged |
| Naming.TrimEndOfAppended | src/LibProtodec/Extensions.cs:29-32 | trimming a suffix from a name followed by that suffix gives the name back |
| Naming.TailStep | src/LibProtodec/Extensions.cs:42-52 | one character more of the input adds the loop's one or two characters to either snake case, and the capital it may be to the count (also lines 64-74 of the same file) |
| Naming.CountStep | src/LibProtodec/Extensions.cs:88-90 | the capitals from index i on are the one at i, if it is one, plus those after it |
| Naming.LowerFillStep | src/LibProtodec/Extensions.cs:40-53 | one pass of the lower fill loop writes at j the characters that extend the output to the lower snake case of one more input character, and stays inside the buffer |
| Naming.UpperFillStep | src/LibProtodec/Extensions.cs:62-75 | one pass of the upper fill loop writes at j the characters that extend the output to the upper snake case of one more input character, and stays inside the buffer |
| Extensions.ContainsDuplicateKey | src/LibProtodec/Extensions.cs:12-27 | true exactly when two distinct positions of the pair sequence hold the same key |
| Extensions.CountUpper | src/LibProtodec/Extensions.cs:83-93 | the number of ASCII capitals from index `start` to the end, and 0 for a start past the end |
| Extensions.IsBeebyted | src/LibProtodec/Extensions.cs:78-81 | true exactly when the name has eleven characters, all ASCII capitals |
| Extensions.ToSnakeCaseLower | src/LibProtodec/Extensions.cs:34-54 | the result is the lower snake case: the first character lowered, every later capital replaced by '_' and its lower-case letter, every other character copied, in order; the empty name gives the empty string |
| Extensions.FillLower | src/LibProtodec/Extensions.cs:35-54 | the callback fills the whole buffer as long as the input plus its capitals after the first with the lower snake case |
| Extensions.ToSnakeCaseUpper | src/LibProtodec/Extensions.cs:56-76 | the result is the upper snake case: the first character raised, every later capital preceded by '_', every other character raised; the empty name gives the empty string |
| Extensions.FillUpper | src/LibProtodec/Extensions.cs:57-76 | the callback fills the whole buffer with the upper snake case |
| Extensions.Put | src/LibProtodec/Extensions.cs:46-51 | the one or two characters of a pass are written at j and j + 1, after what is already there (also lines 68-73 of the same file) |
| StringExtensions.CountUpper | StringExtensions.cs:7-17 | the number of ASCII capitals from index `start` to the end, 0 past the end |
| StringExtensions.IsBeebyted | StringExtensions.cs:19-22 | true exactly when the name has eleven characters, all ASCII capitals |
| StringExtensions.ToSnakeCaseLower | StringExtensions.cs:24-44 | the result is the lower snake case of the name |
| StringExtensions.ToSnakeCaseUpper | StringExtensions.cs:46-66 | the result is the upper snake case of the name |
| Util.IntToString | src/LibProtodec/Models/Protobuf/Fields/MessageField.cs:34 | the text `writer.Write(int)` puts out for a field id: non-empty, a leading minus sign exactly when the id is negative, decimal digits everywhere else (also src/LibProtodec/Models/Protobuf/Fields/EnumField.cs:20) |
| Util.NatToStringRoundTrip | src/LibProtodec/Models/Protobuf/Fields/EnumField.cs:20 | the digits written for a non-negative id read back as that id, so distinct ids are written differently |
| Util.LookupKey | src/LibProtodec/Message.cs:95 | a dictionary kept as its key/value pairs answers a key exactly when some pair carries it, and then with the value of such a pair |
| Util.Reverse | src/LibProtodec/Models/Protobuf/TopLevels/TopLevel.cs:36 | `List.Reverse`: same length, the k-th element is the k-th from the end |
| Reflection.UnseenMonotone | src/LibProtodec/ProtodecContext.cs:67-68 | the current descent only grows during a parse, so the number of loaded type names it does not hold never goes up |
| Reflection.UnseenAdd | src/LibProtodec/ProtodecContext.cs:67-68 | when `_currentDescent.Add` admits a new loaded type name, one name fewer is left unseen (what makes the recursive parse terminate) |
| Reflection.ScalarTypeName | src/LibProtodec/ProtodecContext.cs:166-186 | the switch on CLR type names answers only with one of the nine protobuf scalar names, and maps String, Int32 and ByteString to string, int32 and bytes (also src/LibProtodec/Protodec.cs:158-178) |
| Reflection.OriginalNameAttributes | src/LibProtodec/ProtodecContext.cs:244-245 | the attributes kept are exactly those of the field named OriginalNameAttribute |
| Reflection.OriginalName | src/LibProtodec/ProtodecContext.cs:244-251 | `SingleOrDefault` fails exactly when more than one OriginalNameAttribute is present; a name it yields is the string argument of an OriginalNameAttribute of the field |
| Reflection.PositiveConstants | src/LibProtodec/ProtodecContext.cs:106-109 | the oneof ids: no more of them than enum fields, all above zero, and a value is among them exactly when some field's raw constant is that positive value |
| Reflection.Constants | src/LibProtodec/ProtodecContext.cs:107 | the raw constants of the enum's fields, one per field, in declaration order |
| Reflection.PositiveConstantsFilter | src/LibProtodec/ProtodecContext.cs:106-109 | the oneof ids are the constants with the non-positive ones filtered out and the order kept (`Select` then `Where`) |
| ProtodecContexts.ProtodecContext.constructor | src/LibProtodec/ProtodecContext.cs:23-28 | a new context holds the given types and lookups, no protobufs and an empty descent |
| ProtodecContexts.ProtodecContext.Protobufs | src/LibProtodec/ProtodecContext.cs:30-31 | the property is the context's dictionary of top-level protobufs |
| ProtodecContexts.ProtodecContext.WriteAllTo | src/LibProtodec/ProtodecContext.cs:33-43 | the writer receives the preamble, then each protobuf in insertion order followed by two line ends, exactly as the rendering function describes (also src/LibProtodec/Protodec.cs:25-35) |
| ProtodecContexts.ProtodecContext.ParseMessage | src/LibProtodec/ProtodecContext.cs:45-51 | the thrown exception and the new state are exactly those of the parse function: a guard failure for a non-class, otherwise the internal parse, with the descent cleared when it returns normally (also src/LibProtodec/Protodec.cs:37-43) |
| ProtodecContexts.ProtodecContext.ParseEnum | src/LibProtodec/ProtodecContext.cs:53-59 | as ParseMessage, for an enum type and a guard on IsEnum (also src/LibProtodec/Protodec.cs:45-51) |
| ProtodecContexts.ProtodecContext.IsParsed | src/LibProtodec/ProtodecContext.cs:61-69 | parsed when the chosen dictionary (the parent's nested one for a nested type with a parent, else the top level) already holds the name, or the descent did; the name is added to the descent only when the dictionary did not hold it (also src/LibProtodec/Protodec.cs:53-61) |
| ProtodecContexts.ProtodecContext.AddProto | src/LibProtodec/ProtodecContext.cs:136 | `Dictionary.Add` on the dictionary IsParsed chose: DuplicateKey when the name is already there, otherwise the entry is appended and nothing else changes (also line 161 of the same file) |
| ProtodecContexts.ProtodecContext.ParseEnumInternal | src/LibProtodec/ProtodecContext.cs:139-162 | result and new state are those of the enum parse function: nothing when already parsed, else the translated name, one member per static field and the Add (also src/LibProtodec/Protodec.cs:131-154) |
| ProtodecContexts.ProtodecContext.EnumMembers | src/LibProtodec/ProtodecContext.cs:153-159 | the foreach yields exactly the members the enum member function lists, or its first exception |
| ProtodecContexts.ProtodecContext.ParseFieldType | src/LibProtodec/ProtodecContext.cs:164-224 | the exception, new state, new enclosing message and type name are exactly those of the field type function (scalar, repeated, map, custom lookup, skipped enum, parsed enum or message with its import) (also src/LibProtodec/Protodec.cs:156-216) |
| ProtodecContexts.ProtodecContext.ParseMessageInternal | src/LibProtodec/ProtodecContext.cs:71-137 | the exception, new state and new parent are exactly those of the message parse function (also src/LibProtodec/Protodec.cs:63-129) |
| ProtodecContexts.ProtodecContext.ParseProperties | src/LibProtodec/ProtodecContext.cs:88-134 | the property loop with its two cursors ends in exactly the exception, state and message the planned run of the loop describes (also src/LibProtodec/Protodec.cs:80-126) |
| ProtodecContexts.ProtodecContext.ParseProperty | src/LibProtodec/ProtodecContext.cs:99-133 | one property: a oneof adds its translated name and positive ids (DuplicateKey if present); a field needs an id field at the cursor (IndexOutOfRange), literal and Int32 (guard failure), then parses its type and adds the field under its id (DuplicateKey if present) |
| LibraryParsing.Values | src/LibProtodec/ProtodecContext.cs:37 | the values of the protobuf dictionary in insertion order, one per entry |
| LibraryParsing.AddImport | src/LibProtodec/ProtodecContext.cs:218-221 | `Imports.Add` on a set: the imports before are kept in order, the new name is among them, and nothing else is added |
| LibraryParsing.TranslateEnumFieldName | src/LibProtodec/ProtodecContext.cs:242-264 | fails exactly when the member carries several OriginalNameAttributes; with none and a name the lookup knows, the lookup's answer wins |
| LibraryParsing.MessageFieldNameIsSnakeCase | src/LibProtodec/ProtodecContext.cs:237-240 | a property name is translated by the lookup when it knows it, kept when it is beebyted, and otherwise made lower snake case with no ASCII upper-case letter left (also lines 266-275 of the same file) |
| LibraryParsing.OneOfNameDropsCase | src/LibProtodec/ProtodecContext.cs:231-235 | the `XCase` property of an untranslated oneof gives the oneof name `x` in lower snake case, its `Case` suffix trimmed |
| LibraryParsing.GeneratedEnumFieldNameIsUpper | src/LibProtodec/ProtodecContext.cs:258-263 | an enum member with no OriginalNameAttribute and an untranslated name gets a generated ENUM_NAME_FIELD_NAME with no ASCII lower-case letter |
| LibraryParsing.EnumFieldsOf | src/LibProtodec/ProtodecContext.cs:153-159 | the enum's members fail exactly when some field carries several OriginalNameAttributes; otherwise member i has the i-th field's constant and its translated name (also src/LibProtodec/Protodec.cs:145-151) |
| LibraryParsing.EnumFieldsFailureStays | src/LibProtodec/ProtodecContext.cs:153-159 | the member loop stops at the first exception: once a prefix of the fields throws, the whole loop throws the same |
| LibraryParsing.Plan | src/LibProtodec/ProtodecContext.cs:88-134 | the slots the property loop produces from a property on, all within the class's properties |
| LibraryParsing.FieldSlotsOf | src/LibProtodec/ProtodecContext.cs:117-133 | the field slots among the loop's slots, in order |
| LibraryParsing.PlanReadsIdFieldsInOrder | src/LibProtodec/ProtodecContext.cs:88 | because skipped properties and oneofs undo the `fi++`, the k-th field slot reads the k-th public static field (also lines 95, 113, 117 of the same file) |
| LibraryParsing.PlanStep | src/LibProtodec/ProtodecContext.cs:88-131 | the loop at a property it does not skip: a oneof slot that moves only the property cursor, or a field slot that moves both, passing over the "Has" companion of an optional field |
| LibraryParsing.PlanSlotsFollowProperties | src/LibProtodec/ProtodecContext.cs:88-131 | the slots come in property order, a companion gets no slot, and each slot's property is not skipped, is a oneof exactly when the oneof test holds and is optional exactly when its companion follows |
| LibraryParsing.PlanCoversProperties | src/LibProtodec/ProtodecContext.cs:88-131 | nothing is dropped: every property that is not skipped and not an optional field's companion gets a slot |
| LibraryParsing.IsParsedF | src/LibProtodec/ProtodecContext.cs:61-69 | parsed exactly when the chosen dictionary holds the CLR name or the descent did; the protobufs are untouched and the name joins the descent unless the dictionary held it (also src/LibProtodec/Protodec.cs:53-61) |
| LibraryParsing.AddTo | src/LibProtodec/ProtodecContext.cs:136 | `Dictionary.Add` on the chosen dictionary: the descent is untouched, the top level only grows, and the parent gains at most one nested declaration (also line 161 of the same file) |
| LibraryParsing.ParseEnumF | src/LibProtodec/ProtodecContext.cs:139-162 | the enum parse only grows the descent and the top level, at most adds one nested declaration to the parent, and does nothing for a type already met or stored (also src/LibProtodec/Protodec.cs:131-154) |
| LibraryParsing.ParseMessageF | src/LibProtodec/ProtodecContext.cs:71-137 | the same three facts for the message parse (also src/LibProtodec/Protodec.cs:63-129) |
| LibraryParsing.BuildF | src/LibProtodec/ProtodecContext.cs:88-134 | the property loop only grows the descent and the top level, and keeps the message's name and origin |
| LibraryParsing.BuildCons | src/LibProtodec/ProtodecContext.cs:88-134 | the loop on a first slot and the rest is that slot's step followed, unless it threw, by the loop on the rest |
| LibraryParsing.BuildAt | src/LibProtodec/ProtodecContext.cs:88-134 | the loop from a property: a skipped property changes nothing; any other is one step followed, unless it threw, by the loop from the property and id field after it |
| LibraryParsing.StepF | src/LibProtodec/ProtodecContext.cs:99-133 | one loop body: keeps the message's name and origin; a oneof step adds exactly its oneof entry; a field step adds exactly one field, numbered by the id field's constant, optional as the slot says, named after its property (also src/LibProtodec/Protodec.cs:92-125) |
| LibraryParsing.FieldTypeF | src/LibProtodec/ProtodecContext.cs:164-224 | the field type parse only grows the descent and the top level, and the enclosing message only gains imports and nested declarations (also src/LibProtodec/Protodec.cs:156-216) |
| LibraryParsing.NamedTypeF | src/LibProtodec/ProtodecContext.cs:204-223 | the same facts for the message or enum the field type names |
| LibraryParsing.ParseMessageTop | src/LibProtodec/ProtodecContext.cs:45-51 | the public ParseMessage: a guard failure for a non-class with nothing changed, the descent cleared after a normal return and kept after an exception, and no change but the cleared descent for a class already met or stored (also src/LibProtodec/Protodec.cs:37-43) |
| LibraryParsing.ParseEnumTop | src/LibProtodec/ProtodecContext.cs:53-59 | the same for ParseEnum, with the guard on IsEnum (also src/LibProtodec/Protodec.cs:45-51) |
| LibraryParsing.BuildOneOfsFollowSlots | src/LibProtodec/ProtodecContext.cs:101-115 | a loop that throws nothing adds one oneof per oneof slot, in order |
| LibraryParsing.BuildFieldsFollowSlots | src/LibProtodec/ProtodecContext.cs:117-133 | a loop that throws nothing appends one field per field slot, in order, after the fields already there |
| LibraryParsing.PlannedMessageShape | src/LibProtodec/ProtodecContext.cs:78-134 | from an empty message, a loop that throws nothing yields the oneofs of the oneof properties and one field per field slot, the k-th numbered by the k-th public static field |
| LibraryParsing.FollowingFieldsNumbered | src/LibProtodec/ProtodecContext.cs:117-121 | fields made by slots that read id fields 0, 1, 2, ... are numbered by those fields in order |
| LibraryParsing.ParsedMessageStored | src/LibProtodec/ProtodecContext.cs:71-137 | a message parse of a new class that throws nothing stores, last, the message its property loop built |
| LibraryParsing.ParsedMessageShape | src/LibProtodec/ProtodecContext.cs:45-137 | a successful top-level ParseMessage of a new class stores, last, a message under the translated name with the class's origin, the oneofs of its oneof properties and its k-th field numbered by the k-th public static field |
| LibraryParsing.ParsedEnumShape | src/LibProtodec/ProtodecContext.cs:53-59 | a successful top-level ParseEnum of a new enum stores exactly one more protobuf, last: an enum under the translated name with the enum's origin and one member per static field carrying its constant, in order (also lines 139-162 of the same file) |
| LibraryParsing.RenamedClassReparseThrows | src/LibProtodec/ProtodecContext.cs:67 | types are looked up by CLR name but stored by translated name: when the renamed name is already stored, parsing the class throws (also lines 80, 136 of the same file) |
| LibraryParsing.ThrownParseLeavesClassSkipped | src/LibProtodec/ProtodecContext.cs:45-51 | an exception leaves the class in the descent, which only a normal return clears, so parsing it again does nothing (also lines 67-68 of the same file) |
| LibraryParsing.DistinctIdsSnoc | src/LibProtodec/ProtodecContext.cs:133 | adding a field under an id the dictionary lacks keeps the ids distinct |
| LibraryParsing.FieldSlotOutcome | src/LibProtodec/ProtodecContext.cs:117-133 | a field step throws IndexOutOfRange when the cursor is past the id fields and a guard failure when the id field is not a literal Int32; otherwise its id was not in the message yet |
| LibraryParsing.BuildKeepsIdsDistinct | src/LibProtodec/ProtodecContext.cs:133 | the property loop keeps the field ids distinct |
| LibraryParsing.ParsedMessageIdsDistinct | src/LibProtodec/ProtodecContext.cs:45-137 | a message stored by a successful top-level ParseMessage has no two fields with the same id |
| LibraryParsing.FieldTypeResolution | src/LibProtodec/ProtodecContext.cs:164-224 | the order the field type is resolved in: scalar names, then repeated (one type argument) or map (two), then the type lookup, then int32 for a skipped enum; anything else is parsed, named by its CLR name and imported exactly when it is not nested |
| StandaloneEngine.FieldName | Protodec.cs:159-161 | a property name that is not beebyted becomes lower snake case, with no ASCII upper-case letter |
| StandaloneEngine.EnumFieldName | Protodec.cs:163-165 | an enum member name that is not beebyted becomes upper snake case, with no ASCII lower-case letter |
| StandaloneEngine.MemberName | Protodec.cs:117-123 | fails exactly when the field carries several OriginalNameAttributes; with none, the translated CLR name |
| StandaloneEngine.Members | Protodec.cs:115-126 | the foreach succeeds exactly when no field has an ambiguous original name and no two fields share a constant, and then yields each field in order under its constant and member name |
| StandaloneEngine.MembersSnoc | Protodec.cs:115-126 | one more field is ambiguous or clashes exactly when it adds an ambiguous name or repeats an earlier constant |
| StandaloneEngine.MemberIdsSnoc | Protodec.cs:125 | `Fields.Add` meets an id already there exactly when an earlier field has that constant; otherwise the members stay named in order |
| StandaloneEngine.ParseEnumS | Protodec.cs:108-137 | only grows the two dictionaries, only adds imports or nested declarations to the message, and does nothing for an enum nested in the message already or already in Enums |
| StandaloneEngine.ParseMessageS | Protodec.cs:19-58 | only grows the dictionaries; a guard failure with nothing changed for a non-class; nothing for a name already in Messages |
| StandaloneEngine.LoopS | Protodec.cs:29-55 | the property loop only grows the dictionaries and keeps the message's name |
| StandaloneEngine.StepS | Protodec.cs:31-54 | a oneof property adds exactly its oneof entry; any other adds exactly one field numbered by the id constant at the same index and named after the property |
| StandaloneEngine.TypeS | Protodec.cs:60-106 | ParseType only grows the dictionaries and only adds imports or nested declarations to the message |
| StandaloneEngine.FieldIndices | Protodec.cs:29-34 | the indices of the non-oneof properties from an index on, in order |
| StandaloneEngine.LoopBuilds | Protodec.cs:29-55 | a loop that completes adds exactly the oneofs of the remaining properties and one field per remaining non-oneof property, numbered by the id constant at that property's own index |
| StandaloneEngine.BuildsStep | Protodec.cs:29-55 | one property's step followed by the rest of the loop adds what the loop from that property adds |
| StandaloneEngine.ParsedMessageShape | Protodec.cs:19-58 | a class parsed for the first time without an exception is stored last under its CLR name, with the oneofs of its properties and one field per other property numbered by the id constant at that property's index |
| StandaloneEngine.ParsedMessageLast | Protodec.cs:25-57 | a class parsed for the first time is added last, as its property loop, run one stack frame deeper, built it |
| StandaloneEngine.ParsedMessageStored | Protodec.cs:19-58 | a class parsed without an exception is a class and is in Messages |
| StandaloneEngine.FieldPropertyOutcome | Protodec.cs:46-54 | a non-oneof property throws IndexOutOfRange with no id constant at its index, a guard failure when that constant is not a literal Int32, and otherwise adds a field under an id the message lacked |
| StandaloneEngine.LoopKeepsIdsDistinct | Protodec.cs:54 | the property loop keeps the field ids distinct |
| StandaloneEngine.ParsedMessageIdsDistinct | Protodec.cs:19-58 | a message ParseMessage adds has no two fields with the same id |
| StandaloneEngine.ReparseIsNoOp | Protodec.cs:22-23 | parsing a class again after a successful parse changes nothing |
| StandaloneEngine.FieldPastIdFieldsThrows | Protodec.cs:29 | a non-oneof property at an index past the id constants makes the parse throw (also line 46 of the same file) |
| StandaloneEngine.FieldIndexOf | Protodec.cs:29-34 | every non-oneof property from an index on has a place among the field indices |
| StandaloneEngine.OneOfShiftsIdIndex | Protodec.cs:34-46 | one index serves properties and id constants, so a oneof before the only field, with one id constant, makes the parse throw |
| StandaloneEngine.SelfReferenceExhaustsStack | Protodec.cs:22-57 | nothing is recorded before the loop ends, so a class whose first property has the class as its type recurses until the stack is gone, however deep it is |
| StandaloneEngine.TypeResolution | Protodec.cs:60-106 | scalars by name; RepeatedField`1 is repeated of its argument and throws without one; MapField`2 throws without two; an enum is int32 when skipped, else its name; a message is named, imported and in Messages |
| StandaloneEngine.ParsedEnumPlacement | Protodec.cs:108-137 | a new nested enum goes into the message only; a new top-level one is imported and added last to Enums; one already in Enums adds no import; a new enum's members are its fields in order |
| StandaloneEngine.Protodec.constructor | Protodec.cs:14-15 | a new Protodec has both dictionaries empty |
| StandaloneEngine.Protodec.Dictionaries | Protodec.cs:14-15 | the two public dictionaries, Messages and Enums |
| StandaloneEngine.Protodec.WriteAllTo | Protodec.cs:139-149 | the writer receives the preamble and then every message and every enum, in that order, each followed by two line ends |
| StandaloneEngine.Protodec.ParseMessage | Protodec.cs:19-58 | the thrown exception and the new dictionaries are exactly those of the message parse function |
| StandaloneEngine.Protodec.ParseProperties | Protodec.cs:29-55 | the property loop ends in exactly the exception, dictionaries and message of the loop function |
| StandaloneEngine.Protodec.ParseProperty | Protodec.cs:31-54 | one loop body ends as the step function says |
| StandaloneEngine.Protodec.ParseType | Protodec.cs:60-106 | exception, dictionaries, message and type name are exactly those of the type function |
| StandaloneEngine.Protodec.ParseEnum | Protodec.cs:108-137 | exception, dictionaries and message are exactly those of the enum function |
| StandaloneEngine.Protodec.EnumMembers | Protodec.cs:115-126 | the foreach yields exactly the members function's result |
| StandaloneEngine.MembersUnfold | Protodec.cs:117-125 | one more field: its name's exception, DuplicateKey on a repeated constant, or the member appended |
| StandaloneEngine.EnumMembersFailureStays | Protodec.cs:115-126 | once a prefix of the fields throws, the whole foreach throws the same |
| Schema.Ancestors | src/LibProtodec/Models/TopLevels/TopLevel.cs:23-28 | the top-levels the parent walk visits, innermost first, all in the table (also src/LibProtodec/Models/Protobuf/TopLevels/TopLevel.cs:29-34) |
| Schema.AncestorsWalk | src/LibProtodec/Models/TopLevels/TopLevel.cs:23-28 | the walk starts at the parent, steps from each top-level to its parent, never visits the stop top-level, and ends where the parent is missing or is the stop; it visits nothing when the parent is missing or is the stop (also src/LibProtodec/Models/Protobuf/TopLevels/TopLevel.cs:29-34) |
| Schema.NamesOf | src/LibProtodec/Models/TopLevels/TopLevel.cs:26 | the names of the visited top-levels, one per index, in order (also src/LibProtodec/Models/Protobuf/TopLevels/TopLevel.cs:32) |
| Schema.SegmentsShape | src/LibProtodec/Models/TopLevels/TopLevel.cs:19-32 | the qualified name has one segment per visited ancestor plus one, the outermost first and the declaration's own name last; the top-level it is seen from never gives a segment; the text ends with the declaration's name |
| Schema.UnqualifiedAtTop | src/LibProtodec/Models/TopLevels/TopLevel.cs:19-32 | with no parent, or seen from its own parent, a declaration is named by its bare name (also src/LibProtodec/Models/Protobuf/TopLevels/TopLevel.cs:23-25) |
| Schema.WalkParents | src/LibProtodec/Models/TopLevels/TopLevel.cs:21-28 | the loop collects the declaration's name and then the name of each ancestor the walk visits (also src/LibProtodec/Models/Protobuf/TopLevels/TopLevel.cs:27-34) |
| Schema.WalkStep | src/LibProtodec/Models/TopLevels/TopLevel.cs:24-28 | one step of the walk: the parent is visited, then the walk goes on from its own parent |
| Schema.QualifyName | src/LibProtodec/Models/TopLevels/TopLevel.cs:19-32 | QualifyName returns the segments, outermost first, joined with '.' |
| Schema.QualifyTypeName | src/LibProtodec/Models/Protobuf/TopLevels/TopLevel.cs:21-38 | QualifyTypeName returns the type's name as seen from this top-level: a top-level with a parent other than this one is qualified, anything else keeps its name; the early return agrees with the walk |
| Schema.WrittenTypeNameIsQualified | src/LibProtodec/Models/Protobuf.cs:93-104 | the two model trees agree: WriteTypeNameTo relative to a top-level writes what that top-level's QualifyTypeName returns (also src/LibProtodec/Models/Protobuf/TopLevels/TopLevel.cs:21-38) |
| ProtoWriter.RenderOption | src/LibProtodec/Models/Protobuf.cs:72-91 | an option is exactly one line `option name = value;`, the value in double quotes exactly when asked |
| ProtoWriter.WriteOptionTo | src/LibProtodec/Models/Protobuf.cs:72-91 | the writer receives the option's calls: keyword, name, " = ", the value between quotes when asked, then ';' and a line end |
| ProtoWriter.WriteTypeNameTo | src/LibProtodec/Models/Protobuf.cs:93-104 | writes the qualified name for a top-level whose parent is not the given top-level, the bare name otherwise |
| ProtoWriter.RenderBraced | src/LibProtodec/Models/TopLevels/Enum.cs:21-24 | a braced block is its header line `keyword name {`, the body's lines one level in, and `}` at the outer level, the line left open by Write('}') and closed by WriteLine('}') (also lines 46-47 of the same file; src/LibProtodec/Models/Protobuf/TopLevels/Message.cs:46-57) |
| ProtoWriter.RenderOptionIf | src/LibProtodec/Models/TopLevels/Enum.cs:26-39 | a conditional option is its one line when the condition holds and nothing otherwise |
| ProtoWriter.WriteOptionIf | src/LibProtodec/Models/TopLevels/Enum.cs:26-39 | the option's calls when the condition holds, no call otherwise (also src/LibProtodec/Models/Protobuf/TopLevels/Message.cs:28-31) |
| ProtoWriter.ConcatDeprecated | src/LibProtodec/Models/Protobuf/Fields/EnumField.cs:22-25 | the deprecation marker is plain text: " [deprecated = true]" for an obsolete field, nothing otherwise |
| ProtoWriter.RenderEnumField | src/LibProtodec/Models/Protobuf/Fields/EnumField.cs:16-28 | an enum field is exactly one line `NAME = id;`, marked deprecated when obsolete |
| ProtoWriter.WriteEnumFieldTo | src/LibProtodec/Models/Protobuf/Fields/EnumField.cs:16-28 | the writer receives the enum field's calls, the id as its decimal text |
| ProtoWriter.RenderField | src/LibProtodec/Models/Fields/MessageField.cs:22-41 | a message field is exactly one line `[optional ]type name = id[ [deprecated = true]];`, optional only for a field with a Has property outside a oneof that is not repeated (also src/LibProtodec/Models/Protobuf/Fields/MessageField.cs:22-42) |
| ProtoWriter.FieldOpsSplit | src/LibProtodec/Models/Fields/MessageField.cs:24-40 | the field's calls are the optional keyword, the type name, then the part both trees share |
| ProtoWriter.WriteFieldTail | src/LibProtodec/Models/Fields/MessageField.cs:30-40 | the shared part: a space, the name, " = ", the id, the deprecation marker and ';' with a line end (also src/LibProtodec/Models/Protobuf/Fields/MessageField.cs:31-41) |
| ProtoWriter.WriteFieldTo | src/LibProtodec/Models/Fields/MessageField.cs:22-41 | the Models tree's field writer names the type relative to the given top-level |
| ProtoWriter.WriteDeclaredFieldTo | src/LibProtodec/Models/Protobuf/Fields/MessageField.cs:22-42 | the Protobuf tree's field writer names the type by the declaring message's QualifyTypeName |
| ProtoWriter.FieldWritersAgree | src/LibProtodec/Models/Fields/MessageField.cs:29 | the two field writers make the same calls when the top-level is the declaring message (also src/LibProtodec/Models/Protobuf/Fields/MessageField.cs:29-30) |
| ProtoWriter.ConcatRpc | src/LibProtodec/Models/Fields/ServiceMethod.cs:25-43 | the rpc head is plain text `rpc Name ([stream ]Request) returns ([stream ]Response)` |
| ProtoWriter.RenderDeprecatedRpc | src/LibProtodec/Models/Fields/ServiceMethod.cs:45-54 | an obsolete rpc ends in a braced block holding only the deprecated option, one level in |
| ProtoWriter.BracedOne | src/LibProtodec/Models/Fields/ServiceMethod.cs:47-53 | a head, " {", one body line one level in, then `}` at the outer level, gives exactly those three lines |
| ProtoWriter.RenderRpcStatement | src/LibProtodec/Models/Fields/ServiceMethod.cs:23-59 | an rpc is one line ending in ';', or for an obsolete method the head with " {", the deprecated option one level in and a closing `}` |
| ProtoWriter.WriteRpcTo | src/LibProtodec/Models/Fields/ServiceMethod.cs:25-43 | the calls up to the response type's ')', each type named relative to the service |
| ProtoWriter.WriteStreamTo | src/LibProtodec/Models/Fields/ServiceMethod.cs:29-32 | "stream " before a streamed type, nothing otherwise |
| ProtoWriter.WriteServiceMethodTo | src/LibProtodec/Models/Fields/ServiceMethod.cs:23-59 | the writer receives the service method's calls (also src/LibProtodec/Models/Protobuf/Fields/ServiceMethod.cs:23-59) |
| TopLevels.OpenBrace | src/LibProtodec/Models/TopLevels/Enum.cs:21-24 | the keyword, the name and " {" on one line, then one level in (also src/LibProtodec/Models/Protobuf/TopLevels/Message.cs:23-26, src/LibProtodec/Models/Protobuf/TopLevels/Service.cs:19-22) |
| TopLevels.CloseBrace | src/LibProtodec/Models/TopLevels/Enum.cs:46-47 | one level out, then the closing brace by Write('}') or WriteLine('}') (also src/LibProtodec/Models/Protobuf/TopLevels/Message.cs:66-67, src/LibProtodec/Models/Protobuf/TopLevels/Service.cs:34-35) |
| TopLevels.BracedCalls | src/LibProtodec/Models/TopLevels/Enum.cs:21-47 | opening, body and closing make exactly the braced block's calls |
| TopLevels.ContainsDuplicateField | src/LibProtodec/Models/TopLevels/Enum.cs:52-66 | true exactly when two fields of the enum share an id |
| TopLevels.EnumFieldsLines | src/LibProtodec/Models/TopLevels/Enum.cs:41-44 | one line per field, in list order |
| TopLevels.RenderEnumFields | src/LibProtodec/Models/TopLevels/Enum.cs:41-44 | the field loop writes exactly one line per field, in list order |
| TopLevels.RenderEnumBody | src/LibProtodec/Models/TopLevels/Enum.cs:26-44 | `option allow_alias = true;` exactly when two fields share an id, then `option deprecated = true;` exactly when obsolete, then `option features.enum_type = CLOSED;` exactly when closed, then the fields |
| TopLevels.RenderEnum | src/LibProtodec/Models/TopLevels/Enum.cs:19-48 | an enum is `enum Name {`, its body one level in, and `}` with the line left open |
| TopLevels.WriteEnumOptions | src/LibProtodec/Models/TopLevels/Enum.cs:26-39 | the writer receives the three conditional options in their fixed order |
| TopLevels.WriteEnumFields | src/LibProtodec/Models/TopLevels/Enum.cs:41-44 | the writer receives each field's calls, in list order |
| TopLevels.WriteEnumBody | src/LibProtodec/Models/TopLevels/Enum.cs:26-44 | the options, then the fields |
| TopLevels.WriteEnumTo | src/LibProtodec/Models/TopLevels/Enum.cs:19-48 | the writer receives exactly the enum's calls |
| TopLevels.RenderMethods | src/LibProtodec/Models/Protobuf/TopLevels/Service.cs:29-32 | one rpc statement per method, each exactly once, in list order |
| TopLevels.RenderServiceBody | src/LibProtodec/Models/Protobuf/TopLevels/Service.cs:24-32 | the deprecated option exactly when obsolete, then the rpc statements |
| TopLevels.RenderService | src/LibProtodec/Models/Protobuf/TopLevels/Service.cs:17-36 | a service is `service Name {`, its body one level in, and `}` with the line left open |
| TopLevels.WriteServiceTo | src/LibProtodec/Models/Protobuf/TopLevels/Service.cs:17-36 | the writer receives exactly the service's calls |
| TopLevels.WriteServiceBody | src/LibProtodec/Models/Protobuf/TopLevels/Service.cs:24-32 | the deprecated option when obsolete, then the methods |
| TopLevels.WriteServiceMethods | src/LibProtodec/Models/Protobuf/TopLevels/Service.cs:29-32 | each method's calls, in list order, type names written from the service |
| TopLevels.BracedOk | src/LibProtodec/Models/Protobuf/TopLevels/Message.cs:21-68 | a braced body returns exactly when its body does |
| TopLevels.BracedTrace | src/LibProtodec/Models/Protobuf/TopLevels/Message.cs:21-68 | a body that returns is enclosed in the full braced calls; one that throws stops right after the body's calls, without the closing brace |
| TopLevels.Flatten | src/LibProtodec/Models/Protobuf/TopLevels/Message.cs:33 | `SelectMany` over the oneofs: an id is in the result exactly when some oneof holds it |
| TopLevels.RenderPlainFields | src/LibProtodec/Models/Protobuf/TopLevels/Message.cs:35-41 | the plain loop writes one line for each field whose id is in no oneof, in dictionary order, and none for the others |
| TopLevels.PlainFieldsComplete | src/LibProtodec/Models/Protobuf/TopLevels/Message.cs:35-41 | every field whose id is in no oneof has its line in the plain section |
| TopLevels.PlainFieldsSound | src/LibProtodec/Models/Protobuf/TopLevels/Message.cs:35-41 | every line of the plain section is the line of a field whose id is in no oneof |
| TopLevels.FieldByIdOk | src/LibProtodec/Models/Protobuf/TopLevels/Message.cs:53 | the `Fields[fieldId]` indexer returns exactly when the id is a key, and throws KeyNotFound otherwise |
| TopLevels.GroupOk | src/LibProtodec/Models/Protobuf/TopLevels/Message.cs:51-54 | one oneof's id loop returns exactly when every id is a field id |
| TopLevels.RenderGroup | src/LibProtodec/Models/Protobuf/TopLevels/Message.cs:51-54 | a oneof's id loop that returns writes one line per id, in the order of the ids |
| TopLevels.GroupFailStays | src/LibProtodec/Models/Protobuf/TopLevels/Message.cs:51-54 | once the id loop has thrown, the later ids add no calls |
| TopLevels.RenderOneOf | src/LibProtodec/Models/Protobuf/TopLevels/Message.cs:46-57 | a oneof is `oneof name {`, its fields one level in, and a closed `}` line |
| TopLevels.RenderOneOfs | src/LibProtodec/Models/Protobuf/TopLevels/Message.cs:43-58 | the oneof loop, when it returns, writes each oneof's block in dictionary order |
| TopLevels.OneOfsOk | src/LibProtodec/Models/Protobuf/TopLevels/Message.cs:43-58 | the oneof loop returns exactly when every id of every oneof is a field id |
| TopLevels.OneOfsFailStays | src/LibProtodec/Models/Protobuf/TopLevels/Message.cs:43-58 | once the oneof loop has thrown, the later oneofs add no calls |
| TopLevels.RenderTopLevel | src/LibProtodec/Models/Protobuf/TopLevels/Message.cs:21-68 | a top-level that returns writes its lines at the current level, the closing brace left open (also src/LibProtodec/Models/TopLevels/Enum.cs:19-48, src/LibProtodec/Models/Protobuf/TopLevels/Service.cs:17-36) |
| TopLevels.RenderMessageBody | src/LibProtodec/Models/Protobuf/TopLevels/Message.cs:28-64 | the deprecated option, the plain fields, the oneofs and the nested declarations, in that order |
| TopLevels.RenderNested | src/LibProtodec/Models/Protobuf/TopLevels/Message.cs:60-64 | each nested declaration's lines in dictionary order, each ended by the WriteLine() after it |
| TopLevels.TopLevelOk | src/LibProtodec/Models/Protobuf/TopLevels/Message.cs:21-68 | WriteTo returns exactly when the entry can be written: its only exception is the KeyNotFound of a oneof id that is not a field id, at any depth of nesting |
| TopLevels.MessageBodyOk | src/LibProtodec/Models/Protobuf/TopLevels/Message.cs:28-64 | a message body returns exactly when the message can be written |
| TopLevels.NestedOk | src/LibProtodec/Models/Protobuf/TopLevels/Message.cs:60-64 | the nested loop returns exactly when every nested declaration can be written |
| TopLevels.NestedFailStays | src/LibProtodec/Models/Protobuf/TopLevels/Message.cs:60-64 | once a nested declaration has thrown, the later ones add no calls |
| TopLevels.WriteTopLevelTo | src/LibProtodec/Models/Protobuf/TopLevels/Message.cs:21 | the writer receives the calls of the entry's WriteTo, by its kind, and the method reports whether it threw (also src/LibProtodec/Models/TopLevels/Enum.cs:19, src/LibProtodec/Models/Protobuf/TopLevels/Service.cs:17) |
| TopLevels.WriteMessageTo | src/LibProtodec/Models/Protobuf/TopLevels/Message.cs:21-68 | the writer receives exactly the message's calls, up to any exception |
| TopLevels.WriteMessageBody | src/LibProtodec/Models/Protobuf/TopLevels/Message.cs:28-64 | the calls between the braces |
| TopLevels.WritePlainFields | src/LibProtodec/Models/Protobuf/TopLevels/Message.cs:33-41 | each field whose id is in no oneof, as a plain field, in dictionary order |
| TopLevels.WriteOneOfs | src/LibProtodec/Models/Protobuf/TopLevels/Message.cs:43-58 | the oneof loop, stopping at the first oneof that throws |
| TopLevels.WriteOneOf | src/LibProtodec/Models/Protobuf/TopLevels/Message.cs:46-57 | one oneof: its header, its fields by id and its `}` line |
| TopLevels.WriteGroup | src/LibProtodec/Models/Protobuf/TopLevels/Message.cs:51-54 | the id loop of one oneof, throwing at the first id that is not a key |
| TopLevels.WriteNested | src/LibProtodec/Models/Protobuf/TopLevels/Message.cs:60-64 | each nested declaration, then an empty WriteLine() |
| ProtobufFiles.WithImport | src/LibProtodec/Models/Protobuf.cs:18-20 | `Imports.Add` on a set created on demand: no repeats, exactly the old names and the new one, the old ones first in their order |
| ProtobufFiles.ImportLines | src/LibProtodec/Models/Protobuf.cs:51-56 | one `import "x";` line per name, in set order |
| ProtobufFiles.RenderImportList | src/LibProtodec/Models/Protobuf.cs:51-56 | the import loop writes exactly those lines |
| ProtobufFiles.RenderHeader | src/LibProtodec/Models/Protobuf.cs:33-39 | the protodec comment line, then `// Assembly: A` exactly when an assembly name is known |
| ProtobufFiles.RenderImports | src/LibProtodec/Models/Protobuf.cs:47-57 | a blank line and the import lines exactly when the import set was ever created |
| ProtobufFiles.RenderNamespace | src/LibProtodec/Models/Protobuf.cs:59-63 | a blank line and the quoted csharp_namespace option exactly when a namespace is known |
| ProtobufFiles.RenderPreamble | src/LibProtodec/Models/Protobuf.cs:33-63 | the preamble's lines: comment, optional assembly line, blank line and `syntax = "proto3";` or `edition = "E";`, then the optional imports and namespace blocks |
| ProtobufFiles.JoinedOk | src/LibProtodec/Models/Protobuf.cs:65-69 | a loop of items, each after a WriteLine(), returns exactly when every item does |
| ProtobufFiles.JoinedFailStays | src/LibProtodec/Models/Protobuf.cs:65-69 | once an item has thrown, the later items add no calls |
| ProtobufFiles.JoinedStep | src/LibProtodec/Models/Protobuf.cs:65-69 | one pass of the loop after a prefix that returned: the WriteLine() and the next item |
| ProtobufFiles.TopLevelsUnfold | src/LibProtodec/Models/Protobuf.cs:65-69 | the loop over the top-levels is the loop over all but the last, then a WriteLine() and the last |
| ProtobufFiles.RenderTopLevels | src/LibProtodec/Models/Protobuf.cs:65-69 | the top-level loop writes each top-level's lines, leaving the last `}` open exactly when there is a top-level; only the first WriteLine() makes a blank line |
| ProtobufFiles.TopLevelsOk | src/LibProtodec/Models/Protobuf.cs:65-69 | the top-level loop returns exactly when every top-level can be written |
| ProtobufFiles.RenderFile | src/LibProtodec/Models/Protobuf.cs:31-70 | a file returns exactly when all its top-levels can be written, and its text is then the preamble followed by the top-levels |
| ProtobufFiles.Protobuf.constructor | src/LibProtodec/Models/Protobuf.cs:18-26 | a new file has no import set, no top-levels and no edition, and the assembly name and namespace it was given |
| ProtobufFiles.Protobuf.Imports | src/LibProtodec/Models/Protobuf.cs:19-20 | the getter creates the empty set on first use and returns the existing one afterwards; nothing else changes |
| ProtobufFiles.Protobuf.AddImport | src/LibProtodec/Models/Protobuf.cs:19-20 | the import set becomes the set with the name added |
| ProtobufFiles.Protobuf.AddTopLevel | src/LibProtodec/Models/Protobuf.cs:22 | `TopLevels.Add`: the top-level is appended; nothing else changes |
| ProtobufFiles.Protobuf.FileName | src/LibProtodec/Models/Protobuf.cs:28-29 | ends with ".proto"; is ".proto" alone without top-levels, and otherwise starts with the first top-level's name followed by exactly ".proto" |
| ProtobufFiles.Protobuf.WriteTo | src/LibProtodec/Models/Protobuf.cs:31-70 | the writer receives exactly the file's calls, and the method reports whether it threw |
| ProtobufFiles.FileOutcome | src/LibProtodec/Models/Protobuf.cs:31-70 | the preamble's calls followed by the top-level loop's are the file's calls, and the file returns exactly when the loop does |
| ProtobufFiles.WritePreamble | src/LibProtodec/Models/Protobuf.cs:33-63 | the writer receives the preamble's calls |
| ProtobufFiles.WriteHeader | src/LibProtodec/Models/Protobuf.cs:33-39 | the header's calls |
| ProtobufFiles.WriteSyntax | src/LibProtodec/Models/Protobuf.cs:41-45 | a blank line, then the syntax or edition line |
| ProtobufFiles.WriteImports | src/LibProtodec/Models/Protobuf.cs:47-57 | the import block, written exactly when the set was ever created |
| ProtobufFiles.WriteNamespace | src/LibProtodec/Models/Protobuf.cs:59-63 | the namespace block, written exactly when a namespace is known |
| ProtobufFiles.WriteImportList | src/LibProtodec/Models/Protobuf.cs:51-56 | `import "x";` for each name, in set order |
| LegacyWriters.RenderField | src/LibProtodec/Message.cs:84-97 | a field is one line `[optional ]type name = id;`, where only the library revision writes "optional " and only for an optional field (also ProtobufMessage.cs:78-86) |
| LegacyWriters.WriteField | src/LibProtodec/Message.cs:84-97 | the writer receives the field's calls, the id as its decimal text (also ProtobufMessage.cs:78-86) |
| LegacyWriters.EnumFieldsLines | src/LibProtodec/Enum.cs:35-41 | one `name = id;` line per entry, in list order (also ProtobufEnum.cs:23-29) |
| LegacyWriters.RenderEnumFields | src/LibProtodec/Enum.cs:35-41 | the member loop writes exactly those lines (also ProtobufEnum.cs:23-29) |
| LegacyWriters.RenderEnum | src/LibProtodec/Enum.cs:23-45 | an enum is `enum Name {`, then one level in `option allow_alias = true;` exactly when the library revision's list repeats an id (never in the stand-alone tool) and the members, then `}` with the line left open (also ProtobufEnum.cs:16-33) |
| LegacyWriters.WriteEnumTo | src/LibProtodec/Enum.cs:23-45 | the writer receives exactly the enum's calls (also ProtobufEnum.cs:16-33) |
| LegacyWriters.WriteEnumBody | src/LibProtodec/Enum.cs:30-41 | the alias option when an id repeats (library revision only), then the members |
| LegacyWriters.WriteEnumFields | src/LibProtodec/Enum.cs:35-41 | each member's calls, in list order (also ProtobufEnum.cs:23-29) |
| LegacyWriters.EndLines | src/LibProtodec/Protobuf.cs:29-44 | a run of WriteLine calls, one per text |
| LegacyWriters.LinesOf | src/LibProtodec/Protobuf.cs:29-44 | one line per text, at the given level |
| LegacyWriters.RenderEndLines | src/LibProtodec/Protobuf.cs:29-44 | a run of WriteLine calls writes one line per call, each with its own text |
| LegacyWriters.RenderStandalonePreamble | Protodec.cs:151-157 | the stand-alone preamble is four fixed lines: the protodec comment, a blank line, `syntax = "proto3";` and a blank line |
| LegacyWriters.RenderAssembly | src/LibProtodec/Protobuf.cs:31-35 | `// Assembly: A` exactly when an assembly name is given |
| LegacyWriters.RenderNamespace | src/LibProtodec/Protobuf.cs:41-45 | the csharp_namespace option line and a blank line exactly when a namespace is given |
| LegacyWriters.RenderSyntax | src/LibProtodec/Protobuf.cs:37-39 | a blank line, `syntax = "proto3";` and a blank line |
| LegacyWriters.RenderComment | src/LibProtodec/Protobuf.cs:29 | the protodec comment line |
| LegacyWriters.RenderLibraryPreamble | src/LibProtodec/Protobuf.cs:27-46 | the library preamble's lines: comment, optional assembly line, the syntax lines, optional namespace lines (also LibProtodec/Protobuf.cs:21-40) |
| LegacyWriters.WriteLibraryPreamble | src/LibProtodec/Protobuf.cs:27-46 | the writer receives the library preamble's calls (also LibProtodec/Protobuf.cs:21-40) |
| LegacyWriters.WriteStandalonePreamble | Protodec.cs:151-157 | the writer receives the four WriteLine calls of the stand-alone preamble |
| LegacyWriters.RenderPlainFields | src/LibProtodec/Message.cs:47-55 | the plain loop writes one line per field whose id is in no oneof, in dictionary order, and none for the others (also ProtobufMessage.cs:58-66) |
| LegacyWriters.PlainFieldsComplete | src/LibProtodec/Message.cs:49-55 | every field whose id is in no oneof has its line in the plain section |
| LegacyWriters.PlainFieldsSound | src/LibProtodec/Message.cs:49-55 | every line of the plain section is the line of a field whose id is in no oneof |
| LegacyWriters.FieldByIdOk | src/LibProtodec/Message.cs:67 | `Fields[fieldId]` returns exactly when the id is a key, and throws KeyNotFound otherwise (also ProtobufMessage.cs:51) |
| LegacyWriters.GroupOk | src/LibProtodec/Message.cs:65-68 | one oneof's id loop returns exactly when every id is a field id (also ProtobufMessage.cs:49-52) |
| LegacyWriters.RenderGroup | src/LibProtodec/Message.cs:65-68 | a oneof's id loop writes one field line per id, in the order of the ids (also ProtobufMessage.cs:49-52) |
| LegacyWriters.GroupFailStays | src/LibProtodec/Message.cs:65-68 | once the id loop has thrown, the later ids add no calls |
| LegacyWriters.RenderOneOf | src/LibProtodec/Message.cs:60-71 | a oneof is `oneof name {`, its fields by id one level in, and a closed `}` line (also ProtobufMessage.cs:44-55) |
| LegacyWriters.RenderOneOfs | src/LibProtodec/Message.cs:57-72 | the oneof loop, when it returns, writes each oneof's block in dictionary order (also ProtobufMessage.cs:41-56) |
| LegacyWriters.OneOfsOk | src/LibProtodec/Message.cs:57-72 | the oneof loop returns exactly when every id of every oneof is a field id (also ProtobufMessage.cs:41-56) |
| LegacyWriters.OneOfsFailStays | src/LibProtodec/Message.cs:57-72 | once a oneof has thrown, the later oneofs add no calls |
| LegacyWriters.RenderProto | src/LibProtodec/Message.cs:40-82 | a message or enum that returns writes its lines at the current level, the closing brace left open (also src/LibProtodec/Enum.cs:23-45, ProtobufMessage.cs:34-76, ProtobufEnum.cs:16-33) |
| LegacyWriters.RenderBody | src/LibProtodec/Message.cs:47-78 | between a message's braces: the library revision writes the plain fields then the oneofs, the stand-alone tool the oneofs then the plain fields; the nested declarations come last in both (also ProtobufMessage.cs:41-72) |
| LegacyWriters.RenderNested | src/LibProtodec/Message.cs:74-78 | each nested declaration's lines in dictionary order, each ended by the WriteLine() after it (also ProtobufMessage.cs:68-72) |
| LegacyWriters.ProtoOk | src/LibProtodec/Message.cs:40-82 | WriteTo returns exactly when the declaration can be written: its only exception is the KeyNotFound of a oneof id that is no field id, at any depth of nesting (also ProtobufMessage.cs:34-76) |
| LegacyWriters.BodyOk | src/LibProtodec/Message.cs:47-78 | a message body returns exactly when the message can be written |
| LegacyWriters.NestedOk | src/LibProtodec/Message.cs:74-78 | the nested loop returns exactly when the nested declarations so far can all be written |
| LegacyWriters.NestedFailStays | src/LibProtodec/Message.cs:74-78 | once a nested declaration has thrown, the later ones add no calls |
| LegacyWriters.WriteProtoTo | src/LibProtodec/Protobuf.cs:21 | the writer receives the calls of the declaration's WriteTo, by its kind, and the method reports whether it threw |
| LegacyWriters.WriteMessageTo | src/LibProtodec/Message.cs:40-82 | the writer receives exactly the message's calls, up to any exception (also ProtobufMessage.cs:34-76) |
| LegacyWriters.WriteBody | src/LibProtodec/Message.cs:47-78 | the body's calls in the revision's order (also ProtobufMessage.cs:41-72) |
| LegacyWriters.WritePlainFields | src/LibProtodec/Message.cs:47-55 | each field whose id is in no oneof, in dictionary order (also ProtobufMessage.cs:58-66) |
| LegacyWriters.WriteOneOfs | src/LibProtodec/Message.cs:57-72 | the oneof loop, stopping at the first oneof that throws (also ProtobufMessage.cs:41-56) |
| LegacyWriters.WriteOneOf | src/LibProtodec/Message.cs:60-71 | one oneof: header, fields by id, `}` line |
| LegacyWriters.WriteGroup | src/LibProtodec/Message.cs:65-68 | the id loop of one oneof, throwing at the first id that is not a key |
| LegacyWriters.WriteNested | src/LibProtodec/Message.cs:74-78 | each nested declaration, then an empty WriteLine() |
| LegacyWriters.NestedStep | src/LibProtodec/Message.cs:74-78 | one pass of the nested loop that returned extends its calls by the declaration's and a WriteLine() |
| LegacyWriters.ImportLines | src/LibProtodec/Message.cs:27-32 | one `import "name.proto";` line per import, in order (also ProtobufMessage.cs:21-26) |
| LegacyWriters.RenderImportList | src/LibProtodec/Message.cs:27-32 | the import loop writes exactly those lines |
| LegacyWriters.RenderFileImports | src/LibProtodec/Message.cs:25-35 | a message's imports and then a blank line, exactly when it has imports; an enum writes none (also ProtobufMessage.cs:19-29) |
| LegacyWriters.RenderFile | src/LibProtodec/Message.cs:21-38 | WriteFileTo returns exactly when the declaration can be written, and its text is then the revision's preamble (the library one with the declaration's assembly name and namespace), the imports and the declaration (also src/LibProtodec/Enum.cs:17-21, ProtobufMessage.cs:15-32, ProtobufEnum.cs:10-14) |
| LegacyWriters.WriteFileTo | src/LibProtodec/Message.cs:21-38 | the writer receives exactly the file's calls (also src/LibProtodec/Enum.cs:17-21, ProtobufMessage.cs:15-32, ProtobufEnum.cs:10-14) |
| LegacyWriters.WritePreamble | src/LibProtodec/Protobuf.cs:23-24 | the revision's preamble calls (also LibProtodec/Protobuf.cs:17-18, Protodec.cs:151-157) |
| LegacyWriters.WriteFileImports | src/LibProtodec/Message.cs:25-35 | the import block's calls |
| LegacyWriters.ProtosOk | src/LibProtodec/ProtodecContext.cs:37-42 | the WriteAllTo loop returns exactly when every declaration can be written |
| LegacyWriters.RenderProtos | src/LibProtodec/ProtodecContext.cs:37-42 | the loop writes each declaration's lines, its closing brace ended, then a blank line (also Protodec.cs:143-148) |
| LegacyWriters.ProtosFailStays | src/LibProtodec/ProtodecContext.cs:37-42 | once a declaration has thrown, the later ones add no calls |
| LegacyWriters.RenderAll | src/LibProtodec/ProtodecContext.cs:33-43 | WriteAllTo returns exactly when every declaration can be written, and its output is then the preamble followed by each declaration and a blank line (also Protodec.cs:139-149) |
| LegacyWriters.WriteAllTo | src/LibProtodec/ProtodecContext.cs:33-43 | the writer receives exactly WriteAllTo's calls (also Protodec.cs:139-149) |
| Writer.RenderTexts | src/LibProtodec/Message.cs:42-43 | Write calls on a fresh line make one open line at the current level holding all their text (also line 81 of the same file) |
| Writer.RenderLine | src/LibProtodec/Message.cs:42-44 | Write calls and then one WriteLine make exactly one ended line, at the level where it started, holding all their text |
| Writer.IndentedWriter.constructor | src/LibProtodec/Message.cs:40 | a new writer has had no calls |
| Writer.IndentedWriter.Write | src/LibProtodec/Message.cs:42-43 | Write adds one text call, whose text lands on the current line |
| Writer.IndentedWriter.WriteLine | src/LibProtodec/Message.cs:44 | WriteLine adds one call that puts its text on the current line and ends it (also lines 71, 77 of the same file) |
| Writer.IndentedWriter.StepIndent | src/LibProtodec/Message.cs:45 | Indent++ and Indent-- add one call moving the level by one step, never below zero (also lines 63, 70, 80 of the same file) |
| Writer.OutputStep | src/LibProtodec/Message.cs:40-82 | the output after one more call is the output before it changed by that call alone, so the writer's text is fixed by its calls in order |

## Left out

- Assembly loading is I/O and is not modelled. This covers `ClrAssemblyLoader.cs`, `Il2CppAssemblyLoader.cs` and the three `AssemblyInspector.cs` files, with their file-system walks, MetadataLoadContext and LibCpp2IL loading.
  - `CilAssemblyLoader.FindType` is a function parameter.
  - The engines read a given universe of types.
- The command-line programs (`src/protodec/Program.cs`, `protodec/Program.cs`, `Program.cs`) are not modelled. They hold argument parsing, file output and logger set-up, including the renaming loop that is embedded in file writing.
- `LoggerMessages.cs` is not modelled: it is only a logging sink.
- The reflection and LibCpp2IL adapters (`ClrType`, `ClrMember`, `ClrMethod`, `ClrProperty`, `ClrField`, `ClrAttribute`, `ClrModule`, `Il2CppMethod`, `Il2CppField`, `Il2CppProperty`) wrap libraries that are not part of this model.
  - The results they return are abstract inputs: `Reflection.ClrType`, `Il2CppMember.Metadata` and `Il2CppBlob.Binary`.
  - Their ConcurrentDictionary caches are left out, and the caches that are modelled are updated sequentially. Concurrency is left out.
- The `LibCpp2IlMain` globals are left out: `ReadByteArrayAtRawAddress`, the method and type definition tables, `Binary.GetType`, and the underlying type of an enum. They become fields of the `Metadata` parameter and of the `Binary` type-index oracle.
- The interfaces that carry no behaviour (`ICilType`, `ICilMethod`, `ICilProperty`, `ICilAttribute`, `ICilAssemblyLoader`, `IWriteable.cs`) appear only as the shapes of datatypes.
- Some files are not part of this model and are replaced by the nearest file that is present:
  - `Models/Protobuf/Types/Repeated.cs` and the protobuf-tree `Map.cs`: the `repeated T` and `map<K, V>` type names;
  - `Models/TopLevels/Message.cs`, `Models/Fields/EnumField.cs` and `Models/Protobuf/TopLevels/Enum.cs`: the sibling serializers in the other model tree;
  - SystemEx's `MemoryReader`: its reads as the C# readers call them.
- The constant tables (`FieldTypeName.cs`, both `Scalar.cs`, both `WellKnown.cs`) appear only as the names the engines and serializers use.
- Float and double constructor arguments are opaque reads of 4 and 8 bytes, kept as bytes. IEEE floating point is not modelled.
- String arguments keep their raw bytes, and UTF-8 decoding is not modelled.
- `char.ToLowerInvariant` and `char.ToUpperInvariant` are restricted to ASCII letters. Unicode case mapping is not modelled.
- `TryParseWriteToMethod` (`Protodec.cs:167-181`) is not modelled. It is unfinished (it throws NotImplemented), and it reads the IL bytes of a method through reflection.
- The internals of `IndentedTextWriter` are not modelled: tab handling, the newline string and buffering. Output is a sequence of lines, each tagged with its indentation level.
- Stack depth is bounded in two places:
  - `Il2CppTypes.IsAssignableTo` takes `fuel`, the call-stack depth. Without it, a cyclic base chain would exhaust the stack.
  - `StandaloneEngine` takes `depth`, the frames left. There are no other bounds on recursion. A `StackExhausted` result stands for the `StackOverflowException` of the runtime, which the runtime cannot catch.
- Enumeration order is modelled as insertion order:
  - for `Dictionary`, which keeps it as long as nothing is removed, and nothing ever is;
  - for `HashSet`, whose enumeration order .NET does not promise.
- The order in which reflection returns a class's properties and static fields is taken as given: the model receives the lists.
- StandaloneEngine: the original tool (`Protodec.cs:27`) asks for the public instance properties without `DeclaredOnly`, so it also walks the public properties a message class inherits, while the library engines (`src/LibProtodec/Protodec.cs:78`, `src/LibProtodec/ProtodecContext.cs:86`) see only the declared ones. `Reflection.ClrType.properties` is one list: the standalone engine reads it as the full list reflection returns and the library engines as the declared list, and the model does not relate the two lists of one class.
- Schema.ParentsBefore: every parent chain is taken to be acyclic, each parent standing before its child in the table. The two parsers only ever make a declaring type the parent of its nested types, so they never build a cycle; on a cycle the C# `QualifyName` (`src/LibProtodec/Models/TopLevels/TopLevel.cs:19-27`) and `QualifyTypeName` (`src/LibProtodec/Models/Protobuf/TopLevels/TopLevel.cs:21-34`) would walk the chain forever, which the model does not represent.
- Reflection.Constants: every raw constant is taken as an `int`. The cast `(int)field.GetRawConstantValue()!` (`src/LibProtodec/ProtodecContext.cs:107,121,155`, `src/LibProtodec/Protodec.cs:99,113,147`, `Protodec.cs:38,50,117`) throws InvalidCastException for a constant of another type, such as `long` or `byte`, and throws for a field that is not a literal; neither exception is modelled.
