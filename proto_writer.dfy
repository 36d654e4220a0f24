// The .proto serializers of the model classes (src/LibProtodec/Models and
// src/LibProtodec/Models/Protobuf).  Each WriteTo is a method on the writer
// whose contract is the sequence of writer calls it makes; the Render lemmas
// then state the text lines those calls produce.
module ProtoWriter {
  import opened Util
  import opened Writer
  import opened Schema

  // ---------------------------------------------------------------------
  // Options and type names (src/LibProtodec/Models/Protobuf.cs)

  function QuoteOps(quote: bool): seq<Op>
  {
    if quote then [Text("\"")] else []
  }

  /** The calls of Protobuf.WriteOptionTo. */
  function OptionOps(name: string, value: string, quote: bool): seq<Op>
  {
    [Text("option "), Text(name), Text(" = ")] + QuoteOps(quote) + [Text(value)] + QuoteOps(quote) + [EndLine(";")]
  }

  /** The option statement of the protobuf language. */
  function OptionLine(name: string, value: string, quote: bool): string
  {
    if quote then "option " + name + " = " + "\"" + value + "\"" + ";"
    else "option " + name + " = " + value + ";"
  }

  /** An option is one line `option name = value;`, the value quoted iff asked. */
  lemma RenderOption(name: string, value: string, quote: bool, k: nat)
    ensures Render(OptionOps(name, value, quote), k) == State([Line(k, OptionLine(name, value, quote))], false, k)
  {
    if quote {
      var texts := [Text("option "), Text(name), Text(" = "), Text("\""), Text(value), Text("\"")];
      assert OptionOps(name, value, quote) == texts + [EndLine(";")];
      RenderLine(texts, ";", k);
      Concat6("option ", name, " = ", "\"", value, "\"");
    } else {
      var texts := [Text("option "), Text(name), Text(" = "), Text(value)];
      assert OptionOps(name, value, quote) == texts + [EndLine(";")];
      RenderLine(texts, ";", k);
      Concat4("option ", name, " = ", value);
    }
  }

  method WriteOptionTo(w: IndentedWriter, name: string, value: string, quote: bool)
    modifies w
    ensures w.trace == old(w.trace) + OptionOps(name, value, quote)
  {
    w.Write("option ");
    w.Write(name);
    w.Write(" = ");
    if quote {
      w.Write("\"");
    }
    w.Write(value);
    if quote {
      w.Write("\"");
    }
    w.WriteLine(";");
  }

  /** Protobuf.WriteTypeNameTo. */
  method WriteTypeNameTo(w: IndentedWriter, decls: seq<TopLevel>, t: FieldType, topLevel: nat)
    requires ParentsBefore(decls) && RefsIn(t, |decls|)
    modifies w
    ensures w.trace == old(w.trace) + [Text(WrittenTypeName(decls, t, topLevel))]
  {
    if t.Ref? && decls[t.decl].parent.Some? && decls[t.decl].parent != Some(topLevel) {
      var qualified := QualifyName(decls, t.decl, topLevel);
      w.Write(qualified);
    } else {
      w.Write(TypeName(decls, t));
    }
  }

  // ---------------------------------------------------------------------
  // Braced blocks: `keyword name {`, the body one level in, then `}`.

  /**
   * The calls every top-level and oneof makes around its body; `close` is
   * Write('}') for a top-level and WriteLine('}') for a oneof.
   */
  function BracedOps(keyword: string, name: string, body: seq<Op>, close: Op): seq<Op>
  {
    [Text(keyword), Text(name), EndLine(" {"), Indent(1)] + body + [Indent(-1), close]
  }

  /**
   * A braced block is its header line, the body's lines one level in, and a
   * closing line `}` at the outer level, left open by Write('}').
   */
  lemma RenderBraced(keyword: string, name: string, body: seq<Op>, close: Op, k: nat, lb: seq<Line>)
    requires Block(body, k + 1, lb)
    requires close == Text("}") || close == EndLine("}")
    ensures Render(BracedOps(keyword, name, body, close), k)
            == State([Line(k, keyword + name + " {")] + lb + [Line(k, "}")], close.Text?, k)
  {
    var head := [Text(keyword), Text(name)];
    LineBlock(head, " {", k);
    Concat2(keyword, name);
    BlockIndented(body, k, lb);
    BlockAppend(head + [EndLine(" {")], [Indent(1)] + body + [Indent(-1)], k, [Line(k, keyword + name + " {")], lb);
    var a := head + [EndLine(" {")] + ([Indent(1)] + body + [Indent(-1)]);
    assert BracedOps(keyword, name, body, close) == a + [close];
    RenderAppend(a, [close], k);
    assert [close][..0] == [];
  }

  /** An optional option statement, one level in. */
  function OptionIf(cond: bool, name: string, value: string): seq<Op>
  {
    if cond then OptionOps(name, value, false) else []
  }

  function OptionLinesIf(cond: bool, name: string, value: string, k: nat): seq<Line>
  {
    if cond then [Line(k, OptionLine(name, value, false))] else []
  }

  lemma RenderOptionIf(cond: bool, name: string, value: string, k: nat)
    ensures Block(OptionIf(cond, name, value), k, OptionLinesIf(cond, name, value, k))
  {
    if cond {
      RenderOption(name, value, false, k);
    }
  }

  /** An option statement written only when `cond` holds. */
  method WriteOptionIf(w: IndentedWriter, cond: bool, name: string, value: string)
    modifies w
    ensures w.trace == old(w.trace) + OptionIf(cond, name, value)
  {
    if cond {
      WriteOptionTo(w, name, value, false);
    }
  }

  // ---------------------------------------------------------------------
  // Enum fields (src/LibProtodec/Models/Protobuf/Fields/EnumField.cs)

  function DeprecatedOps(isObsolete: bool): seq<Op>
  {
    if isObsolete then [Text(" [deprecated = true]")] else []
  }

  function DeprecatedText(isObsolete: bool): string
  {
    if isObsolete then " [deprecated = true]" else ""
  }

  lemma ConcatDeprecated(isObsolete: bool)
    ensures AllText(DeprecatedOps(isObsolete)) && Concat(DeprecatedOps(isObsolete)) == DeprecatedText(isObsolete)
  {
    if isObsolete {
      Concat1(" [deprecated = true]");
    }
  }

  /** The calls of EnumField.WriteTo. */
  function EnumFieldOps(f: EnumField): seq<Op>
  {
    [Text(f.name), Text(" = "), Text(IntToString(f.id))] + DeprecatedOps(f.isObsolete) + [EndLine(";")]
  }

  /** An enum value statement `NAME = id;`, marked deprecated when obsolete. */
  function EnumFieldLine(f: EnumField): string
  {
    (f.name + " = " + IntToString(f.id)) + DeprecatedText(f.isObsolete) + ";"
  }

  /** An enum field is exactly one line. */
  lemma RenderEnumField(f: EnumField, k: nat)
    ensures Block(EnumFieldOps(f), k, [Line(k, EnumFieldLine(f))])
  {
    var head := [Text(f.name), Text(" = "), Text(IntToString(f.id))];
    var texts := head + DeprecatedOps(f.isObsolete);
    assert EnumFieldOps(f) == texts + [EndLine(";")];
    Concat3(f.name, " = ", IntToString(f.id));
    ConcatDeprecated(f.isObsolete);
    ConcatAppend(head, DeprecatedOps(f.isObsolete));
    LineBlock(texts, ";", k);
  }

  method WriteEnumFieldTo(w: IndentedWriter, f: EnumField)
    modifies w
    ensures w.trace == old(w.trace) + EnumFieldOps(f)
  {
    ghost var t0 := w.trace;
    w.Write(f.name);
    w.Write(" = ");
    w.Write(IntToString(f.id));
    assert w.trace == t0 + [Text(f.name), Text(" = "), Text(IntToString(f.id))];
    if f.isObsolete {
      w.Write(" [deprecated = true]");
    }
    w.WriteLine(";");
  }

  // ---------------------------------------------------------------------
  // Message fields (src/LibProtodec/Models/Fields/MessageField.cs and
  // src/LibProtodec/Models/Protobuf/Fields/MessageField.cs)

  /** `optional` is written for a field with a Has property outside a oneof, unless it is repeated. */
  predicate IsOptional(f: MessageField, isOneOf: bool)
  {
    f.hasHasProp && !isOneOf && !f.fieldType.RepeatedOf?
  }

  function OptionalOps(f: MessageField, isOneOf: bool): seq<Op>
  {
    if IsOptional(f, isOneOf) then [Text("optional ")] else []
  }

  function OptionalText(f: MessageField, isOneOf: bool): string
  {
    if IsOptional(f, isOneOf) then "optional " else ""
  }

  /** The calls of MessageField.WriteTo, given the text its type is written as. */
  function FieldOps(f: MessageField, typeName: string, isOneOf: bool): seq<Op>
  {
    OptionalOps(f, isOneOf)
    + [Text(typeName), Text(" "), Text(f.name), Text(" = "), Text(IntToString(f.id))]
    + DeprecatedOps(f.isObsolete) + [EndLine(";")]
  }

  /** A field statement `[optional ]type name = id[ [deprecated = true]];`. */
  function FieldLine(f: MessageField, typeName: string, isOneOf: bool): string
  {
    OptionalText(f, isOneOf) + (typeName + " " + f.name + " = " + IntToString(f.id))
    + DeprecatedText(f.isObsolete) + ";"
  }

  /** A message field is exactly one line. */
  lemma RenderField(f: MessageField, typeName: string, isOneOf: bool, k: nat)
    ensures Block(FieldOps(f, typeName, isOneOf), k, [Line(k, FieldLine(f, typeName, isOneOf))])
  {
    var opt := OptionalOps(f, isOneOf);
    var mid := [Text(typeName), Text(" "), Text(f.name), Text(" = "), Text(IntToString(f.id))];
    var dep := DeprecatedOps(f.isObsolete);
    assert FieldOps(f, typeName, isOneOf) == (opt + mid) + dep + [EndLine(";")];
    if IsOptional(f, isOneOf) {
      Concat1("optional ");
    }
    Concat5(typeName, " ", f.name, " = ", IntToString(f.id));
    ConcatDeprecated(f.isObsolete);
    ConcatAppend(opt, mid);
    ConcatAppend(opt + mid, dep);
    LineBlock((opt + mid) + dep, ";", k);
  }

  /** The calls of MessageField.WriteTo after the type name. */
  function FieldTailOps(f: MessageField): seq<Op>
  {
    [Text(" "), Text(f.name), Text(" = "), Text(IntToString(f.id))] + DeprecatedOps(f.isObsolete) + [EndLine(";")]
  }

  lemma FieldOpsSplit(f: MessageField, typeName: string, isOneOf: bool)
    ensures FieldOps(f, typeName, isOneOf) == OptionalOps(f, isOneOf) + [Text(typeName)] + FieldTailOps(f)
  {
  }

  /** The part both field writers share: name, number, deprecation and ';'. */
  method WriteFieldTail(w: IndentedWriter, f: MessageField)
    modifies w
    ensures w.trace == old(w.trace) + FieldTailOps(f)
  {
    ghost var t0 := w.trace;
    w.Write(" ");
    w.Write(f.name);
    w.Write(" = ");
    w.Write(IntToString(f.id));
    assert w.trace == t0 + [Text(" "), Text(f.name), Text(" = "), Text(IntToString(f.id))];
    if f.isObsolete {
      w.Write(" [deprecated = true]");
    }
    w.WriteLine(";");
  }

  /** The Models tree's MessageField.WriteTo: the type named relative to `topLevel`. */
  method WriteFieldTo(w: IndentedWriter, decls: seq<TopLevel>, f: MessageField, topLevel: nat, isOneOf: bool)
    requires ParentsBefore(decls) && RefsIn(f.fieldType, |decls|)
    modifies w
    ensures w.trace == old(w.trace) + FieldOps(f, WrittenTypeName(decls, f.fieldType, topLevel), isOneOf)
  {
    ghost var t0 := w.trace;
    if f.hasHasProp && !isOneOf && !f.fieldType.RepeatedOf? {
      w.Write("optional ");
    }
    assert w.trace == t0 + OptionalOps(f, isOneOf);
    WriteTypeNameTo(w, decls, f.fieldType, topLevel);
    WriteFieldTail(w, f);
    FieldOpsSplit(f, WrittenTypeName(decls, f.fieldType, topLevel), isOneOf);
  }

  /**
   * The Protobuf tree's MessageField.WriteTo: the type named by the
   * declaring message's QualifyTypeName.
   */
  method WriteDeclaredFieldTo(w: IndentedWriter, decls: seq<TopLevel>, declaring: nat, f: MessageField, isOneOf: bool)
    requires ParentsBefore(decls) && RefsIn(f.fieldType, |decls|)
    modifies w
    ensures w.trace == old(w.trace) + FieldOps(f, TypeNameFrom(decls, declaring, f.fieldType), isOneOf)
  {
    ghost var t0 := w.trace;
    if f.hasHasProp && !isOneOf && !f.fieldType.RepeatedOf? {
      w.Write("optional ");
    }
    assert w.trace == t0 + OptionalOps(f, isOneOf);
    var typeName := QualifyTypeName(decls, declaring, f.fieldType);
    w.Write(typeName);
    WriteFieldTail(w, f);
    FieldOpsSplit(f, typeName, isOneOf);
  }

  /** The two field writers make the same calls when `topLevel` is the declaring message. */
  lemma FieldWritersAgree(decls: seq<TopLevel>, f: MessageField, m: nat, isOneOf: bool)
    requires ParentsBefore(decls) && RefsIn(f.fieldType, |decls|)
    ensures FieldOps(f, WrittenTypeName(decls, f.fieldType, m), isOneOf)
            == FieldOps(f, TypeNameFrom(decls, m, f.fieldType), isOneOf)
  {
    WrittenTypeNameIsQualified(decls, f.fieldType, m);
  }

  // ---------------------------------------------------------------------
  // Service methods (src/LibProtodec/Models/Fields/ServiceMethod.cs and
  // src/LibProtodec/Models/Protobuf/Fields/ServiceMethod.cs)

  function StreamOps(isStreamed: bool): seq<Op>
  {
    if isStreamed then [Text("stream ")] else []
  }

  function StreamText(isStreamed: bool): string
  {
    if isStreamed then "stream " else ""
  }

  /**
   * The calls up to and including the closing parenthesis of the response
   * type, for request and response type names `req` and `resp`.
   */
  function RpcOps(name: string, req: string, resp: string, reqStream: bool, respStream: bool): seq<Op>
  {
    [Text("rpc "), Text(name), Text(" (")] + StreamOps(reqStream)
    + [Text(req), Text(") returns (")] + StreamOps(respStream)
    + [Text(resp), Text(")")]
  }

  /** The calls of ServiceMethod.WriteTo once both type names are known. */
  function RpcStatementOps(name: string, req: string, resp: string, reqStream: bool, respStream: bool,
                           isObsolete: bool): seq<Op>
  {
    RpcOps(name, req, resp, reqStream, respStream)
    + if isObsolete
      then [EndLine(" {"), Indent(1)] + OptionOps("deprecated", "true", false) + [Indent(-1), EndLine("}")]
      else [EndLine(";")]
  }

  /** `rpc Name ([stream ]Request) returns ([stream ]Response)`. */
  function RpcText(name: string, req: string, resp: string, reqStream: bool, respStream: bool): string
  {
    ("rpc " + name + " (") + StreamText(reqStream) + (req + ") returns (")
    + StreamText(respStream) + (resp + ")")
  }

  /**
   * An rpc statement: one line ending in ';', or, for an obsolete method, a
   * braced block holding the deprecated option.
   */
  function RpcStatementLines(name: string, req: string, resp: string, reqStream: bool, respStream: bool,
                             isObsolete: bool, k: nat): seq<Line>
  {
    var text := RpcText(name, req, resp, reqStream, respStream);
    if isObsolete
    then [Line(k, text + " {"), Line(k + 1, OptionLine("deprecated", "true", false)), Line(k, "}")]
    else [Line(k, text + ";")]
  }

  lemma ConcatRpc(name: string, req: string, resp: string, reqStream: bool, respStream: bool)
    ensures AllText(RpcOps(name, req, resp, reqStream, respStream))
    ensures Concat(RpcOps(name, req, resp, reqStream, respStream)) == RpcText(name, req, resp, reqStream, respStream)
  {
    var a := [Text("rpc "), Text(name), Text(" (")];
    var b := StreamOps(reqStream);
    var c := [Text(req), Text(") returns (")];
    var d := StreamOps(respStream);
    var e := [Text(resp), Text(")")];
    assert RpcOps(name, req, resp, reqStream, respStream) == a + b + c + d + e;
    Concat3("rpc ", name, " (");
    Concat2(req, ") returns (");
    Concat2(resp, ")");
    if reqStream {
      Concat1("stream ");
    }
    if respStream {
      Concat1("stream ");
    }
    ConcatAppend(a, b);
    ConcatAppend(a + b, c);
    ConcatAppend(a + b + c, d);
    ConcatAppend(a + b + c + d, e);
  }

  /** The tail of an obsolete rpc: a braced block holding the deprecated option. */
  lemma RenderDeprecatedRpc(rpc: seq<Op>, k: nat)
    requires AllText(rpc)
    ensures Block(rpc + ([EndLine(" {"), Indent(1)] + OptionOps("deprecated", "true", false) + [Indent(-1), EndLine("}")]), k,
                  [Line(k, Concat(rpc) + " {"), Line(k + 1, OptionLine("deprecated", "true", false)), Line(k, "}")])
  {
    RenderOption("deprecated", "true", false, k + 1);
    BracedOne(rpc, OptionOps("deprecated", "true", false), k, Line(k + 1, OptionLine("deprecated", "true", false)));
  }

  /** A braced block of one line. */
  lemma BracedOne(head: seq<Op>, body: seq<Op>, k: nat, line: Line)
    requires AllText(head) && Block(body, k + 1, [line])
    ensures Block(head + ([EndLine(" {"), Indent(1)] + body + [Indent(-1), EndLine("}")]), k,
                  [Line(k, Concat(head) + " {"), line, Line(k, "}")])
  {
    BlockBraced(head, body, k, [line]);
    assert head + ([EndLine(" {"), Indent(1)] + body + [Indent(-1), EndLine("}")])
        == head + [EndLine(" {"), Indent(1)] + body + [Indent(-1), EndLine("}")];
    assert [Line(k, Concat(head) + " {")] + [line] + [Line(k, "}")] == [Line(k, Concat(head) + " {"), line, Line(k, "}")];
  }

  /** An rpc statement renders as its lines. */
  lemma RenderRpcStatement(name: string, req: string, resp: string, reqStream: bool, respStream: bool,
                           isObsolete: bool, k: nat)
    ensures Block(RpcStatementOps(name, req, resp, reqStream, respStream, isObsolete), k,
                  RpcStatementLines(name, req, resp, reqStream, respStream, isObsolete, k))
  {
    var rpc := RpcOps(name, req, resp, reqStream, respStream);
    ConcatRpc(name, req, resp, reqStream, respStream);
    if isObsolete {
      RenderDeprecatedRpc(rpc, k);
    } else {
      LineBlock(rpc, ";", k);
    }
  }

  /** The calls of ServiceMethod.WriteTo for method `m` of a service. */
  function ServiceMethodOps(decls: seq<TopLevel>, m: ServiceMethod, topLevel: nat): seq<Op>
    requires ParentsBefore(decls) && RefsIn(m.requestType, |decls|) && RefsIn(m.responseType, |decls|)
  {
    RpcStatementOps(m.name, WrittenTypeName(decls, m.requestType, topLevel),
                    WrittenTypeName(decls, m.responseType, topLevel),
                    m.isRequestStreamed, m.isResponseStreamed, m.isObsolete)
  }

  /** The prefix of ServiceMethod.WriteTo, up to the response type's closing parenthesis. */
  method WriteRpcTo(w: IndentedWriter, decls: seq<TopLevel>, m: ServiceMethod, topLevel: nat)
    requires ParentsBefore(decls) && RefsIn(m.requestType, |decls|) && RefsIn(m.responseType, |decls|)
    modifies w
    ensures w.trace == old(w.trace) + RpcOps(m.name, WrittenTypeName(decls, m.requestType, topLevel),
                                             WrittenTypeName(decls, m.responseType, topLevel),
                                             m.isRequestStreamed, m.isResponseStreamed)
  {
    ghost var t0 := w.trace;
    w.Write("rpc ");
    w.Write(m.name);
    w.Write(" (");
    ghost var a := [Text("rpc "), Text(m.name), Text(" (")];
    assert w.trace == t0 + a;
    WriteStreamTo(w, m.isRequestStreamed);
    ghost var t2 := w.trace;
    WriteTypeNameTo(w, decls, m.requestType, topLevel);
    w.Write(") returns (");
    ghost var c := [Text(WrittenTypeName(decls, m.requestType, topLevel)), Text(") returns (")];
    assert w.trace == t2 + c;
    WriteStreamTo(w, m.isResponseStreamed);
    ghost var t4 := w.trace;
    WriteTypeNameTo(w, decls, m.responseType, topLevel);
    w.Write(")");
    ghost var e := [Text(WrittenTypeName(decls, m.responseType, topLevel)), Text(")")];
    assert w.trace == t4 + e;
    AppendAssoc5(t0, a, StreamOps(m.isRequestStreamed), c, StreamOps(m.isResponseStreamed), e);
  }

  /** `stream ` before a streamed type. */
  method WriteStreamTo(w: IndentedWriter, isStreamed: bool)
    modifies w
    ensures w.trace == old(w.trace) + StreamOps(isStreamed)
  {
    if isStreamed {
      w.Write("stream ");
    }
  }

  /** ServiceMethod.WriteTo (both trees have the same code). */
  method WriteServiceMethodTo(w: IndentedWriter, decls: seq<TopLevel>, m: ServiceMethod, topLevel: nat)
    requires ParentsBefore(decls) && RefsIn(m.requestType, |decls|) && RefsIn(m.responseType, |decls|)
    modifies w
    ensures w.trace == old(w.trace) + ServiceMethodOps(decls, m, topLevel)
  {
    ghost var t0 := w.trace;
    WriteRpcTo(w, decls, m, topLevel);
    ghost var t1 := w.trace;
    if m.isObsolete {
      w.WriteLine(" {");
      w.StepIndent(1);
      WriteOptionTo(w, "deprecated", "true", false);
      w.StepIndent(-1);
      w.WriteLine("}");
      assert w.trace == t1 + [EndLine(" {"), Indent(1)] + OptionOps("deprecated", "true", false)
                       + [Indent(-1), EndLine("}")];
    } else {
      w.WriteLine(";");
    }
  }
}
