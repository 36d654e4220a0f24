// CilReader: reading one CIL opcode from a method body and the size of the
// operand that follows it.  An opcode is one byte, or the prefix byte 0xFE
// followed by a second byte (ECMA-335 Partition III, section III.1.2.1); the
// table from opcode values to opcodes is a parameter standing for the one the
// runtime builds from the fields of System.Reflection.Emit.OpCodes.
module CilReader {
  import opened Util
  import opened MemoryReaders

  /** System.Reflection.Emit.OperandType. */
  datatype OperandType =
    | InlineBrTarget | InlineField | InlineI | InlineI8 | InlineMethod | InlineNone
    | InlinePhi | InlineR | InlineSig | InlineString | InlineSwitch | InlineTok
    | InlineType | InlineVar | ShortInlineBrTarget | ShortInlineI | ShortInlineR
    | ShortInlineVar

  /** An opcode: its name, its 16-bit value as a ushort, and its operand kind. */
  datatype OpCode = OpCode(name: string, value: nat, operandType: OperandType)

  /** OpCodes.Prefix1.Value: the first byte of every two-byte opcode. */
  const Prefix1: uint8 := 0xFE

  /** The byte length of an operand of kind `t`, as the decompiler skips it. */
  function SizeOf(t: OperandType): (n: nat)
    ensures n == 0 || n == 1 || n == 2 || n == 4 || n == 8
    ensures n == 1 <==> t in {ShortInlineBrTarget, ShortInlineI, ShortInlineVar}
    ensures n == 2 <==> t == InlineVar
    ensures n == 8 <==> t in {InlineI8, InlineR}
    ensures n == 0 <==> t in {InlineNone, InlinePhi}
  {
    match t
    case ShortInlineBrTarget | ShortInlineI | ShortInlineVar => 1
    case InlineVar => 2
    case InlineBrTarget | InlineField | InlineI | InlineMethod | InlineSig | InlineString
       | InlineSwitch | InlineTok | InlineType | ShortInlineR => 4
    case InlineI8 | InlineR => 8
    case InlineNone | InlinePhi => 0
  }

  /**
   * The operand widths of ECMA-335 Partition III, section III.1.2: every
   * operand kind except a switch has a fixed width; a switch table is a
   * 4-byte count followed by that many 4-byte targets.
   */
  function EcmaOperandWidth(t: OperandType, switchTargets: nat): nat
  {
    match t
    case ShortInlineBrTarget | ShortInlineI | ShortInlineVar => 1
    case InlineVar => 2
    case InlineSwitch => 4 + 4 * switchTargets
    case InlineBrTarget | InlineField | InlineI | InlineMethod | InlineSig | InlineString
       | InlineTok | InlineType | ShortInlineR => 4
    case InlineI8 | InlineR => 8
    case InlineNone | InlinePhi => 0
  }

  /**
   * SizeOf is the standard width for every fixed-width kind; for a switch
   * it is the width of the target count alone.
   */
  lemma SizeOfMatchesEcma(t: OperandType, switchTargets: nat)
    ensures t != InlineSwitch ==> SizeOf(t) == EcmaOperandWidth(t, switchTargets)
    ensures t == InlineSwitch ==> SizeOf(t) == EcmaOperandWidth(t, 0)
  {
  }

  /**
   * The lookup key of the opcode at `pos`: the byte itself, or the prefix
   * byte and the next byte as one big-endian 16-bit value.
   */
  function OpCodeKeyAt(data: seq<uint8>, pos: nat): (r: Result<Decoded<nat>>)
    requires pos <= |data|
    ensures r.Success? <==> pos < |data| && (data[pos] == Prefix1 ==> pos + 1 < |data|)
    ensures r.Success? && data[pos] != Prefix1 ==> r.value == Decoded(data[pos], pos + 1)
    ensures r.Success? && data[pos] == Prefix1 ==>
              r.value.next == pos + 2 && r.value.value / 256 == Prefix1 && r.value.value % 256 == data[pos + 1]
    ensures r.Failure? ==> r.error == EndOfData
  {
    match ByteAt(data, pos)
    case Failure(e) => Failure(e)
    case Success(first) =>
      if first.value != Prefix1 then Success(first)
      else
        match ByteAt(data, first.next)
        case Failure(e) => Failure(e)
        case Success(second) => Success(Decoded((first.value as int) * 256 + second.value, second.next))
  }

  /** The bytes of an opcode value: one byte, or the prefix and a second byte. */
  function EncodeOpCode(key: nat): (bytes: seq<uint8>)
    requires key < 256 || key / 256 == Prefix1
  {
    if key < 256 then [key] else [Prefix1, key % 256]
  }

  /** A one-byte value that is not the prefix itself, or a prefixed two-byte value. */
  predicate IsOpCodeKey(key: nat)
  {
    (key < 256 && key != Prefix1 as nat) || key / 256 == Prefix1
  }

  /** Reading back an encoded opcode gives its value and consumes exactly its bytes. */
  lemma OpCodeKeyRoundTrip(key: nat, rest: seq<uint8>)
    requires IsOpCodeKey(key)
    ensures OpCodeKeyAt(EncodeOpCode(key) + rest, 0) == Success(Decoded(key, |EncodeOpCode(key)|))
  {
    var data := EncodeOpCode(key) + rest;
    if key >= 256 {
      assert data[0] == Prefix1 && data[1] == key % 256;
    }
  }

  /**
   * The opcode table is consistent when every key is the ushort value of the
   * opcode stored under it, as ToDictionary(opCode => (int)(ushort)opCode.Value)
   * builds it.
   */
  predicate ConsistentTable(table: map<nat, OpCode>)
  {
    forall k :: k in table ==> table[k].value == k
  }

  /** ReadCilOpCode: the opcode at `pos` and the length of its operand. */
  function CilOpCodeAt(table: map<nat, OpCode>, data: seq<uint8>, pos: nat): (r: Result<Decoded<(OpCode, nat)>>)
    requires pos <= |data|
    ensures r.Success? ==> OpCodeKeyAt(data, pos).Success?
                           && OpCodeKeyAt(data, pos).value.value in table
                           && r.value.value.0 == table[OpCodeKeyAt(data, pos).value.value]
                           && r.value.value.1 == SizeOf(r.value.value.0.operandType)
                           && r.value.next == OpCodeKeyAt(data, pos).value.next
    ensures r.Failure? ==> r.error == (if OpCodeKeyAt(data, pos).Failure? then EndOfData else KeyNotFound)
  {
    match OpCodeKeyAt(data, pos)
    case Failure(e) => Failure(e)
    case Success(key) =>
      if key.value in table then
        var op := table[key.value];
        Success(Decoded((op, SizeOf(op.operandType)), key.next))
      else Failure(KeyNotFound)
  }

  /**
   * With a consistent table, the opcode read is the one whose encoding is at
   * `pos`, and the reader moves past exactly that encoding.
   */
  lemma CilOpCodeAtEncoding(table: map<nat, OpCode>, op: OpCode, rest: seq<uint8>)
    requires ConsistentTable(table) && op.value in table && table[op.value] == op
    requires IsOpCodeKey(op.value)
    ensures CilOpCodeAt(table, EncodeOpCode(op.value) + rest, 0)
            == Success(Decoded((op, SizeOf(op.operandType)), |EncodeOpCode(op.value)|))
  {
    OpCodeKeyRoundTrip(op.value, rest);
  }

  /** The extension method ReadCilOpCode on a reader. */
  method ReadCilOpCode(reader: MemoryReader, table: map<nat, OpCode>) returns (r: Result<(OpCode, nat)>)
    requires reader.Valid()
    modifies reader
    ensures reader.Valid() && Agrees(r, CilOpCodeAt(table, reader.data, old(reader.pos)), reader.pos)
  {
    var opCodeByte :- reader.ReadByte();
    var opCodeInt: nat := opCodeByte;
    if opCodeByte == Prefix1 {
      var second :- reader.ReadByte();
      // (opCodeByte << 8) | second: the second byte fills the low eight bits
      opCodeInt := (opCodeByte as int) * 256 + second;
    }
    if opCodeInt !in table {
      return Failure(KeyNotFound);
    }
    var opCode := table[opCodeInt];
    var operandLength := SizeOf(opCode.operandType);
    return Success((opCode, operandLength));
  }
}
