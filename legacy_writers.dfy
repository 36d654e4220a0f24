// The .proto serializers of the two earlier revisions, whose object model is
// a tree of messages and enums holding the names and type names already
// translated: the library revision (src/LibProtodec/Message.cs, Enum.cs,
// Protobuf.cs, with LibProtodec/Protobuf.cs its identical copy) and the
// stand-alone tool (ProtobufMessage.cs, ProtobufEnum.cs and the preamble of
// Protodec.cs).
module LegacyWriters {
  import opened Util
  import opened Writer
  import opened ProtoWriter
  import T = TopLevels
  import Extensions

  /** Which revision's serializers run. */
  datatype Revision = Library | Standalone

  /** A field as the dictionaries hold it: optional flag, type name, field name (the key is the id). */
  datatype ProtoField = ProtoField(isOptional: bool, typeName: string, name: string)

  /**
   * A message or an enum of the earlier revisions.  Message dictionaries are
   * sequences of pairs in insertion order; the enum's field list of the
   * library revision may repeat an id.
   */
  datatype Proto =
    | Message(name: string, assemblyName: Option<string>, namespace: Option<string>, imports: seq<string>,
              oneOfs: seq<(string, seq<int>)>, fields: seq<(int, ProtoField)>, nested: seq<(string, Proto)>)
    | Enum(name: string, assemblyName: Option<string>, namespace: Option<string>, enumFields: seq<(int, string)>)

  // ---------------------------------------------------------------------
  // Field lines

  /** Message.WriteField / ProtobufMessage.WriteField: only the library revision writes "optional ". */
  function FieldOps(rev: Revision, id: int, f: ProtoField): seq<Op>
  {
    if rev == Library && f.isOptional then
      [Text("optional "), Text(f.typeName), Text(" "), Text(f.name), Text(" = "), Text(IntToString(id)), EndLine(";")]
    else
      [Text(f.typeName), Text(" "), Text(f.name), Text(" = "), Text(IntToString(id)), EndLine(";")]
  }

  /** `[optional ]type name = id;` */
  function FieldLine(rev: Revision, id: int, f: ProtoField): string
  {
    if rev == Library && f.isOptional then "optional " + f.typeName + " " + f.name + " = " + IntToString(id) + ";"
    else f.typeName + " " + f.name + " = " + IntToString(id) + ";"
  }

  lemma RenderField(rev: Revision, id: int, f: ProtoField, k: nat)
    ensures Block(FieldOps(rev, id, f), k, [Line(k, FieldLine(rev, id, f))])
  {
    if rev == Library && f.isOptional {
      var texts := [Text("optional "), Text(f.typeName), Text(" "), Text(f.name), Text(" = "), Text(IntToString(id))];
      assert FieldOps(rev, id, f) == texts + [EndLine(";")];
      LineBlock(texts, ";", k);
      Concat6("optional ", f.typeName, " ", f.name, " = ", IntToString(id));
    } else {
      var texts := [Text(f.typeName), Text(" "), Text(f.name), Text(" = "), Text(IntToString(id))];
      assert FieldOps(rev, id, f) == texts + [EndLine(";")];
      LineBlock(texts, ";", k);
      Concat5(f.typeName, " ", f.name, " = ", IntToString(id));
    }
  }

  method WriteField(w: IndentedWriter, rev: Revision, id: int, f: ProtoField)
    modifies w
    ensures w.trace == old(w.trace) + FieldOps(rev, id, f)
  {
    if rev == Library && f.isOptional {
      w.Write("optional ");
    }
    w.Write(f.typeName);
    w.Write(" ");
    w.Write(f.name);
    w.Write(" = ");
    w.Write(IntToString(id));
    w.WriteLine(";");
  }

  // ---------------------------------------------------------------------
  // Enums

  /** Some id occurs twice in the field list: Extensions.ContainsDuplicateKey. */
  predicate DuplicateKeys(fields: seq<(int, string)>)
  {
    exists i, j :: 0 <= i < j < |fields| && fields[i].0 == fields[j].0
  }

  function EnumFieldOps(id: int, name: string): seq<Op>
  {
    [Text(name), Text(" = "), Text(IntToString(id)), EndLine(";")]
  }

  function EnumFieldsOps(fields: seq<(int, string)>): seq<Op>
  {
    if |fields| == 0 then []
    else EnumFieldsOps(fields[..|fields| - 1]) + EnumFieldOps(fields[|fields| - 1].0, fields[|fields| - 1].1)
  }

  /** Each entry as `name = id;`, in list order. */
  function EnumFieldsLines(fields: seq<(int, string)>, k: nat): (r: seq<Line>)
    ensures |r| == |fields|
    ensures forall i :: 0 <= i < |fields| ==> r[i] == Line(k, fields[i].1 + " = " + IntToString(fields[i].0) + ";")
  {
    if |fields| == 0 then []
    else
      EnumFieldsLines(fields[..|fields| - 1], k)
      + [Line(k, fields[|fields| - 1].1 + " = " + IntToString(fields[|fields| - 1].0) + ";")]
  }

  lemma {:induction false} RenderEnumFields(fields: seq<(int, string)>, k: nat)
    ensures Block(EnumFieldsOps(fields), k, EnumFieldsLines(fields, k))
  {
    if |fields| > 0 {
      var p := fields[..|fields| - 1];
      var (id, name) := fields[|fields| - 1];
      RenderEnumFields(p, k);
      LineBlock([Text(name), Text(" = "), Text(IntToString(id))], ";", k);
      Concat3(name, " = ", IntToString(id));
      assert [Text(name), Text(" = "), Text(IntToString(id))] + [EndLine(";")] == EnumFieldOps(id, name);
      BlockAppend(EnumFieldsOps(p), EnumFieldOps(id, name), k, EnumFieldsLines(p, k),
                  [Line(k, name + " = " + IntToString(id) + ";")]);
    }
  }

  const AllowAlias := "option allow_alias = true;"

  /** The library revision writes allow_alias iff an id repeats; the stand-alone one never does. */
  function AliasOps(rev: Revision, fields: seq<(int, string)>): seq<Op>
  {
    if rev == Library && DuplicateKeys(fields) then [EndLine(AllowAlias)] else []
  }

  function EnumBodyOps(rev: Revision, fields: seq<(int, string)>): seq<Op>
  {
    AliasOps(rev, fields) + EnumFieldsOps(fields)
  }

  function EnumBodyLines(rev: Revision, fields: seq<(int, string)>, k: nat): seq<Line>
  {
    (if rev == Library && DuplicateKeys(fields) then [Line(k, AllowAlias)] else []) + EnumFieldsLines(fields, k)
  }

  function EnumOps(rev: Revision, name: string, fields: seq<(int, string)>): seq<Op>
  {
    BracedOps("enum ", name, EnumBodyOps(rev, fields), Text("}"))
  }

  /** `enum Name {`, the body one level in, and `}` left open. */
  function EnumLines(rev: Revision, name: string, fields: seq<(int, string)>, k: nat): seq<Line>
  {
    [Line(k, "enum " + name + " {")] + EnumBodyLines(rev, fields, k + 1) + [Line(k, "}")]
  }

  lemma RenderEnum(rev: Revision, name: string, fields: seq<(int, string)>, k: nat)
    ensures Render(EnumOps(rev, name, fields), k) == State(EnumLines(rev, name, fields, k), true, k)
  {
    var lb := EnumBodyLines(rev, fields, k + 1);
    if rev == Library && DuplicateKeys(fields) {
      LineBlock([], AllowAlias, k + 1);
      assert Concat([]) + AllowAlias == AllowAlias;
      assert [] + [EndLine(AllowAlias)] == [EndLine(AllowAlias)];
    } else {
      assert Render([], k + 1) == State([], false, k + 1);
    }
    RenderEnumFields(fields, k + 1);
    BlockAppend(AliasOps(rev, fields), EnumFieldsOps(fields), k + 1,
                if rev == Library && DuplicateKeys(fields) then [Line(k + 1, AllowAlias)] else [],
                EnumFieldsLines(fields, k + 1));
    RenderBraced("enum ", name, EnumBodyOps(rev, fields), Text("}"), k, lb);
  }

  /** Enum.WriteTo / ProtobufEnum.WriteTo. */
  method WriteEnumTo(w: IndentedWriter, rev: Revision, name: string, fields: seq<(int, string)>)
    modifies w
    ensures w.trace == old(w.trace) + EnumOps(rev, name, fields)
  {
    ghost var t0 := w.trace;
    T.OpenBrace(w, "enum ", name);
    WriteEnumBody(w, rev, fields);
    T.CloseBrace(w, Text("}"));
    T.BracedCalls(t0, "enum ", name, EnumBodyOps(rev, fields), Text("}"));
  }

  method WriteEnumBody(w: IndentedWriter, rev: Revision, fields: seq<(int, string)>)
    modifies w
    ensures w.trace == old(w.trace) + EnumBodyOps(rev, fields)
  {
    ghost var t0 := w.trace;
    if rev == Library {
      var duplicate := Extensions.ContainsDuplicateKey(fields);
      if duplicate {
        w.WriteLine(AllowAlias);
      }
    }
    WriteEnumFields(w, fields);
    AppendAssoc(t0, AliasOps(rev, fields), EnumFieldsOps(fields));
  }

  method WriteEnumFields(w: IndentedWriter, fields: seq<(int, string)>)
    modifies w
    ensures w.trace == old(w.trace) + EnumFieldsOps(fields)
  {
    ghost var t0 := w.trace;
    for n := 0 to |fields|
      invariant w.trace == t0 + EnumFieldsOps(fields[..n])
    {
      assert fields[..n + 1][..n] == fields[..n];
      var (id, name) := fields[n];
      AppendAssoc(t0, EnumFieldsOps(fields[..n]), EnumFieldOps(id, name));
      w.Write(name);
      w.Write(" = ");
      w.Write(IntToString(id));
      w.WriteLine(";");
    }
    assert fields[..|fields|] == fields;
  }

  // ---------------------------------------------------------------------
  // Preambles

  const DecompiledComment := "// Decompiled with protodec"
  const Proto3 := "syntax = \"proto3\";"

  /**
   * Protobuf.WritePreambleTo of the library revision: the comment, the
   * assembly comment iff a name is given, a blank line, the syntax line, a
   * blank line, and the namespace option and a blank line iff a namespace
   * is given.
   */
  function LibraryPreambleOps(assemblyName: Option<string>, namespace: Option<string>): seq<Op>
  {
    [EndLine(DecompiledComment)] + AssemblyOps(assemblyName) + SyntaxOps() + NamespaceOps(namespace)
  }

  function AssemblyOps(assemblyName: Option<string>): seq<Op>
  {
    if assemblyName.Some? then [Text("// Assembly: "), EndLine(assemblyName.value)] else []
  }

  function SyntaxOps(): seq<Op>
  {
    [EndLine(""), EndLine(Proto3), EndLine("")]
  }

  function NamespaceOps(namespace: Option<string>): seq<Op>
  {
    if namespace.Some? then [EndLine(NamespaceOption(namespace.value)), EndLine("")] else []
  }

  function NamespaceOption(namespace: string): string
  {
    "option csharp_namespace = \"" + namespace + "\";"
  }

  function AssemblyLines(assemblyName: Option<string>, k: nat): seq<Line>
  {
    if assemblyName.Some? then [Line(k, "// Assembly: " + assemblyName.value)] else []
  }

  function NamespaceLines(namespace: Option<string>, k: nat): seq<Line>
  {
    if namespace.Some? then [Line(k, NamespaceOption(namespace.value)), Line(k, "")] else []
  }

  function LibraryPreambleLines(assemblyName: Option<string>, namespace: Option<string>, k: nat): seq<Line>
  {
    [Line(k, DecompiledComment)] + AssemblyLines(assemblyName, k)
    + [Line(k, ""), Line(k, Proto3), Line(k, "")] + NamespaceLines(namespace, k)
  }

  /** Protodec.WritePreambleTo of the stand-alone tool: four fixed lines. */
  function StandalonePreambleOps(): seq<Op>
  {
    [EndLine(DecompiledComment), EndLine(""), EndLine(Proto3), EndLine("")]
  }

  function StandalonePreambleLines(k: nat): seq<Line>
  {
    [Line(k, DecompiledComment), Line(k, ""), Line(k, Proto3), Line(k, "")]
  }

  /** A run of WriteLine calls writes one line per call, each with its own text. */
  function EndLines(texts: seq<string>): (r: seq<Op>)
    ensures |r| == |texts| && forall i :: 0 <= i < |texts| ==> r[i] == EndLine(texts[i])
  {
    if |texts| == 0 then [] else EndLines(texts[..|texts| - 1]) + [EndLine(texts[|texts| - 1])]
  }

  function LinesOf(texts: seq<string>, k: nat): (r: seq<Line>)
    ensures |r| == |texts| && forall i :: 0 <= i < |texts| ==> r[i] == Line(k, texts[i])
  {
    if |texts| == 0 then [] else LinesOf(texts[..|texts| - 1], k) + [Line(k, texts[|texts| - 1])]
  }

  lemma {:induction false} RenderEndLines(texts: seq<string>, k: nat)
    ensures Block(EndLines(texts), k, LinesOf(texts, k))
  {
    if |texts| > 0 {
      var p := texts[..|texts| - 1];
      var s := texts[|texts| - 1];
      RenderEndLines(p, k);
      LineBlock([], s, k);
      assert Concat([]) + s == s;
      assert [] + [EndLine(s)] == [EndLine(s)];
      BlockAppend(EndLines(p), [EndLine(s)], k, LinesOf(p, k), [Line(k, s)]);
    }
  }

  lemma RenderStandalonePreamble(k: nat)
    ensures Block(StandalonePreambleOps(), k, StandalonePreambleLines(k))
  {
    var texts := [DecompiledComment, "", Proto3, ""];
    RenderEndLines(texts, k);
    assert EndLines(texts) == StandalonePreambleOps();
    assert LinesOf(texts, k) == StandalonePreambleLines(k);
  }

  lemma RenderAssembly(assemblyName: Option<string>, k: nat)
    ensures Block(AssemblyOps(assemblyName), k, AssemblyLines(assemblyName, k))
  {
    if assemblyName.Some? {
      LineBlock([Text("// Assembly: ")], assemblyName.value, k);
      Concat1("// Assembly: ");
      assert [Text("// Assembly: ")] + [EndLine(assemblyName.value)] == AssemblyOps(assemblyName);
    } else {
      assert Render([], k) == State([], false, k);
    }
  }

  lemma RenderNamespace(namespace: Option<string>, k: nat)
    ensures Block(NamespaceOps(namespace), k, NamespaceLines(namespace, k))
  {
    if namespace.Some? {
      var texts := [NamespaceOption(namespace.value), ""];
      RenderEndLines(texts, k);
      assert EndLines(texts) == NamespaceOps(namespace);
      assert LinesOf(texts, k) == NamespaceLines(namespace, k);
    } else {
      assert Render([], k) == State([], false, k);
    }
  }

  lemma RenderSyntax(k: nat)
    ensures Block(SyntaxOps(), k, [Line(k, ""), Line(k, Proto3), Line(k, "")])
  {
    var texts := ["", Proto3, ""];
    RenderEndLines(texts, k);
    assert EndLines(texts) == SyntaxOps();
    assert LinesOf(texts, k) == [Line(k, ""), Line(k, Proto3), Line(k, "")];
  }

  lemma RenderComment(k: nat)
    ensures Block([EndLine(DecompiledComment)], k, [Line(k, DecompiledComment)])
  {
    RenderEndLines([DecompiledComment], k);
    assert EndLines([DecompiledComment]) == [EndLine(DecompiledComment)];
    assert LinesOf([DecompiledComment], k) == [Line(k, DecompiledComment)];
  }

  lemma RenderLibraryPreamble(assemblyName: Option<string>, namespace: Option<string>, k: nat)
    ensures Block(LibraryPreambleOps(assemblyName, namespace), k, LibraryPreambleLines(assemblyName, namespace, k))
  {
    var head := [EndLine(DecompiledComment)];
    var lhead := [Line(k, DecompiledComment)];
    var lmid := [Line(k, ""), Line(k, Proto3), Line(k, "")];
    RenderComment(k);
    RenderAssembly(assemblyName, k);
    RenderSyntax(k);
    RenderNamespace(namespace, k);
    BlockAppend(head, AssemblyOps(assemblyName), k, lhead, AssemblyLines(assemblyName, k));
    BlockAppend(head + AssemblyOps(assemblyName), SyntaxOps(), k, lhead + AssemblyLines(assemblyName, k), lmid);
    BlockAppend(head + AssemblyOps(assemblyName) + SyntaxOps(), NamespaceOps(namespace), k,
                lhead + AssemblyLines(assemblyName, k) + lmid, NamespaceLines(namespace, k));
  }

  method WriteLibraryPreamble(w: IndentedWriter, assemblyName: Option<string>, namespace: Option<string>)
    modifies w
    ensures w.trace == old(w.trace) + LibraryPreambleOps(assemblyName, namespace)
  {
    ghost var t0 := w.trace;
    w.WriteLine(DecompiledComment);
    if assemblyName.Some? {
      w.Write("// Assembly: ");
      w.WriteLine(assemblyName.value);
    }
    ghost var t1 := w.trace;
    assert t1 == t0 + ([EndLine(DecompiledComment)] + AssemblyOps(assemblyName));
    w.WriteLine("");
    w.WriteLine(Proto3);
    w.WriteLine("");
    assert w.trace == t1 + SyntaxOps();
    AppendAssoc(t0, [EndLine(DecompiledComment)] + AssemblyOps(assemblyName), SyntaxOps());
    ghost var t2 := w.trace;
    if namespace.Some? {
      w.WriteLine(NamespaceOption(namespace.value));
      w.WriteLine("");
    }
    assert w.trace == t2 + NamespaceOps(namespace);
    AppendAssoc(t0, [EndLine(DecompiledComment)] + AssemblyOps(assemblyName) + SyntaxOps(), NamespaceOps(namespace));
  }

  method WriteStandalonePreamble(w: IndentedWriter)
    modifies w
    ensures w.trace == old(w.trace) + StandalonePreambleOps()
  {
    w.WriteLine(DecompiledComment);
    w.WriteLine("");
    w.WriteLine(Proto3);
    w.WriteLine("");
  }

  function PreambleOps(rev: Revision, assemblyName: Option<string>, namespace: Option<string>): seq<Op>
  {
    if rev == Library then LibraryPreambleOps(assemblyName, namespace) else StandalonePreambleOps()
  }

  function PreambleLines(rev: Revision, assemblyName: Option<string>, namespace: Option<string>, k: nat): seq<Line>
  {
    if rev == Library then LibraryPreambleLines(assemblyName, namespace, k) else StandalonePreambleLines(k)
  }

  // ---------------------------------------------------------------------
  // Messages

  /** The calls for one entry of the plain-field loop: none when its id is among the oneof ids `flat`. */
  function PlainFieldOps(rev: Revision, field: (int, ProtoField), flat: seq<int>): seq<Op>
  {
    if field.0 in flat then [] else FieldOps(rev, field.0, field.1)
  }

  function PlainFieldLines(rev: Revision, field: (int, ProtoField), flat: seq<int>, k: nat): seq<Line>
  {
    if field.0 in flat then [] else [Line(k, FieldLine(rev, field.0, field.1))]
  }

  /** The plain-field loop over Fields in dictionary order, keyed by the dictionary's ids. */
  function PlainFieldsOps(rev: Revision, fields: seq<(int, ProtoField)>, flat: seq<int>): seq<Op>
  {
    if |fields| == 0 then []
    else PlainFieldsOps(rev, fields[..|fields| - 1], flat) + PlainFieldOps(rev, fields[|fields| - 1], flat)
  }

  function PlainFieldsLines(rev: Revision, fields: seq<(int, ProtoField)>, flat: seq<int>, k: nat): seq<Line>
  {
    if |fields| == 0 then []
    else PlainFieldsLines(rev, fields[..|fields| - 1], flat, k) + PlainFieldLines(rev, fields[|fields| - 1], flat, k)
  }

  lemma {:induction false} RenderPlainFields(rev: Revision, fields: seq<(int, ProtoField)>, flat: seq<int>, k: nat)
    ensures Block(PlainFieldsOps(rev, fields, flat), k, PlainFieldsLines(rev, fields, flat, k))
  {
    if |fields| > 0 {
      var p := fields[..|fields| - 1];
      var f := fields[|fields| - 1];
      RenderPlainFields(rev, p, flat, k);
      if f.0 !in flat {
        RenderField(rev, f.0, f.1, k);
      } else {
        assert Render([], k) == State([], false, k);
      }
      BlockAppend(PlainFieldsOps(rev, p, flat), PlainFieldOps(rev, f, flat), k,
                  PlainFieldsLines(rev, p, flat, k), PlainFieldLines(rev, f, flat, k));
    }
  }

  /** Every field whose id is not a oneof id has its line in the plain section. */
  lemma {:induction false} PlainFieldsComplete(rev: Revision, fields: seq<(int, ProtoField)>, flat: seq<int>, k: nat)
    ensures forall j :: 0 <= j < |fields| && fields[j].0 !in flat ==>
              Line(k, FieldLine(rev, fields[j].0, fields[j].1)) in PlainFieldsLines(rev, fields, flat, k)
  {
    if |fields| > 0 {
      var p := fields[..|fields| - 1];
      var last := |fields| - 1;
      PlainFieldsComplete(rev, p, flat, k);
      var lp := PlainFieldsLines(rev, p, flat, k);
      var ll := PlainFieldLines(rev, fields[last], flat, k);
      assert PlainFieldsLines(rev, fields, flat, k) == lp + ll;
      forall j | 0 <= j < |fields| && fields[j].0 !in flat
        ensures Line(k, FieldLine(rev, fields[j].0, fields[j].1)) in lp + ll
      {
        if j < |p| {
          assert p[j] == fields[j];
        }
      }
    }
  }

  /** Every line of the plain section is the line of a field whose id is not a oneof id. */
  lemma {:induction false} PlainFieldsSound(rev: Revision, fields: seq<(int, ProtoField)>, flat: seq<int>, k: nat)
    ensures forall l :: l in PlainFieldsLines(rev, fields, flat, k) ==>
              exists j :: 0 <= j < |fields| && fields[j].0 !in flat && l == Line(k, FieldLine(rev, fields[j].0, fields[j].1))
  {
    if |fields| > 0 {
      var p := fields[..|fields| - 1];
      var last := |fields| - 1;
      PlainFieldsSound(rev, p, flat, k);
      var lp := PlainFieldsLines(rev, p, flat, k);
      var ll := PlainFieldLines(rev, fields[last], flat, k);
      assert PlainFieldsLines(rev, fields, flat, k) == lp + ll;
      forall l | l in lp + ll
        ensures exists j :: 0 <= j < |fields| && fields[j].0 !in flat && l == Line(k, FieldLine(rev, fields[j].0, fields[j].1))
      {
        if l in lp {
          var j :| 0 <= j < |p| && p[j].0 !in flat && l == Line(k, FieldLine(rev, p[j].0, p[j].1));
          assert p[j] == fields[j];
        } else {
          assert l == Line(k, FieldLine(rev, fields[last].0, fields[last].1));
        }
      }
    }
  }

  /** WriteField(writer, fieldId, Fields[fieldId]), which throws KeyNotFound for an id that is not a key. */
  function FieldByIdTrace(rev: Revision, fields: seq<(int, ProtoField)>, id: int): Trace
  {
    match LookupKey(fields, id)
    case None => Trace([], false)
    case Some(f) => Emit(FieldOps(rev, id, f))
  }

  function FieldByIdLines(rev: Revision, fields: seq<(int, ProtoField)>, id: int, k: nat): seq<Line>
  {
    match LookupKey(fields, id)
    case None => []
    case Some(f) => [Line(k, FieldLine(rev, id, f))]
  }

  /** The Fields dictionary holds the key `id`. */
  predicate IsKey(fields: seq<(int, ProtoField)>, id: int)
  {
    exists i :: 0 <= i < |fields| && fields[i].0 == id
  }

  /** Every id of every oneof is a key of Fields. */
  predicate OneOfIdsKnown(oneOfs: seq<(string, seq<int>)>, fields: seq<(int, ProtoField)>)
  {
    forall g :: 0 <= g < |oneOfs| ==> AllKeys(fields, oneOfs[g].1)
  }

  /** The indexer returns exactly for a key. */
  lemma FieldByIdOk(rev: Revision, fields: seq<(int, ProtoField)>, id: int)
    ensures FieldByIdTrace(rev, fields, id).ok <==> IsKey(fields, id)
  {
    assert LookupKey(fields, id).Some? <==> IsKey(fields, id);
  }

  /** The id loop of one oneof. */
  function GroupTrace(rev: Revision, fields: seq<(int, ProtoField)>, ids: seq<int>): Trace
  {
    if |ids| == 0 then Emit([])
    else Then(GroupTrace(rev, fields, ids[..|ids| - 1]), FieldByIdTrace(rev, fields, ids[|ids| - 1]))
  }

  function GroupLines(rev: Revision, fields: seq<(int, ProtoField)>, ids: seq<int>, k: nat): seq<Line>
  {
    if |ids| == 0 then []
    else GroupLines(rev, fields, ids[..|ids| - 1], k) + FieldByIdLines(rev, fields, ids[|ids| - 1], k)
  }

  /** The id loop returns exactly when every id of the oneof is a field id. */
  lemma {:induction false} GroupOk(rev: Revision, fields: seq<(int, ProtoField)>, ids: seq<int>)
    ensures GroupTrace(rev, fields, ids).ok <==> AllKeys(fields, ids)
  {
    if |ids| > 0 {
      GroupOk(rev, fields, ids[..|ids| - 1]);
      FieldByIdOk(rev, fields, ids[|ids| - 1]);
      AllKeysSnoc(fields, ids);
    }
  }

  /** Every id of `ids` is a key of Fields. */
  predicate AllKeys(fields: seq<(int, ProtoField)>, ids: seq<int>)
  {
    forall n :: 0 <= n < |ids| ==> IsKey(fields, ids[n])
  }

  lemma AllKeysSnoc(fields: seq<(int, ProtoField)>, ids: seq<int>)
    requires |ids| > 0
    ensures AllKeys(fields, ids) <==> AllKeys(fields, ids[..|ids| - 1]) && IsKey(fields, ids[|ids| - 1])
  {
    var p := ids[..|ids| - 1];
    assert forall n :: 0 <= n < |p| ==> p[n] == ids[n];
  }

  lemma {:induction false} RenderGroup(rev: Revision, fields: seq<(int, ProtoField)>, ids: seq<int>, k: nat)
    requires GroupTrace(rev, fields, ids).ok
    ensures Block(GroupTrace(rev, fields, ids).ops, k, GroupLines(rev, fields, ids, k))
  {
    if |ids| > 0 {
      var p := ids[..|ids| - 1];
      var id := ids[|ids| - 1];
      RenderGroup(rev, fields, p, k);
      RenderField(rev, id, LookupKey(fields, id).value, k);
      BlockAppend(GroupTrace(rev, fields, p).ops, FieldByIdTrace(rev, fields, id).ops, k,
                  GroupLines(rev, fields, p, k), FieldByIdLines(rev, fields, id, k));
    }
  }

  lemma {:induction false} GroupFailStays(rev: Revision, fields: seq<(int, ProtoField)>, ids: seq<int>, n: nat)
    requires n <= |ids| && !GroupTrace(rev, fields, ids[..n]).ok
    ensures GroupTrace(rev, fields, ids) == GroupTrace(rev, fields, ids[..n])
  {
    if n < |ids| {
      var p := ids[..|ids| - 1];
      assert p[..n] == ids[..n];
      GroupFailStays(rev, fields, p, n);
    } else {
      assert ids[..n] == ids;
    }
  }

  /** One oneof: `oneof name {`, its fields by id one level in, and a `}` line. */
  function OneOfTrace(rev: Revision, fields: seq<(int, ProtoField)>, oneOf: (string, seq<int>)): Trace
  {
    T.Braced("oneof ", oneOf.0, GroupTrace(rev, fields, oneOf.1), EndLine("}"))
  }

  function OneOfLines(rev: Revision, fields: seq<(int, ProtoField)>, oneOf: (string, seq<int>), k: nat): seq<Line>
  {
    [Line(k, "oneof " + oneOf.0 + " {")] + GroupLines(rev, fields, oneOf.1, k + 1) + [Line(k, "}")]
  }

  lemma RenderOneOf(rev: Revision, fields: seq<(int, ProtoField)>, oneOf: (string, seq<int>), k: nat)
    requires OneOfTrace(rev, fields, oneOf).ok
    ensures Block(OneOfTrace(rev, fields, oneOf).ops, k, OneOfLines(rev, fields, oneOf, k))
  {
    var body := GroupTrace(rev, fields, oneOf.1);
    T.BracedTrace([], "oneof ", oneOf.0, body, EndLine("}"));
    RenderGroup(rev, fields, oneOf.1, k + 1);
    RenderBraced("oneof ", oneOf.0, body.ops, EndLine("}"), k, GroupLines(rev, fields, oneOf.1, k + 1));
  }

  /** The oneof loop, in dictionary order. */
  function OneOfsTrace(rev: Revision, fields: seq<(int, ProtoField)>, oneOfs: seq<(string, seq<int>)>): Trace
  {
    if |oneOfs| == 0 then Emit([])
    else Then(OneOfsTrace(rev, fields, oneOfs[..|oneOfs| - 1]), OneOfTrace(rev, fields, oneOfs[|oneOfs| - 1]))
  }

  function OneOfsLines(rev: Revision, fields: seq<(int, ProtoField)>, oneOfs: seq<(string, seq<int>)>, k: nat)
    : seq<Line>
  {
    if |oneOfs| == 0 then []
    else OneOfsLines(rev, fields, oneOfs[..|oneOfs| - 1], k) + OneOfLines(rev, fields, oneOfs[|oneOfs| - 1], k)
  }

  lemma {:induction false} RenderOneOfs(rev: Revision, fields: seq<(int, ProtoField)>, oneOfs: seq<(string, seq<int>)>,
                                        k: nat)
    requires OneOfsTrace(rev, fields, oneOfs).ok
    ensures Block(OneOfsTrace(rev, fields, oneOfs).ops, k, OneOfsLines(rev, fields, oneOfs, k))
  {
    if |oneOfs| > 0 {
      var p := oneOfs[..|oneOfs| - 1];
      var g := oneOfs[|oneOfs| - 1];
      RenderOneOfs(rev, fields, p, k);
      RenderOneOf(rev, fields, g, k);
      BlockAppend(OneOfsTrace(rev, fields, p).ops, OneOfTrace(rev, fields, g).ops, k,
                  OneOfsLines(rev, fields, p, k), OneOfLines(rev, fields, g, k));
    }
  }

  /** The oneof loop returns exactly when every oneof id is a field id. */
  lemma {:induction false} OneOfsOk(rev: Revision, fields: seq<(int, ProtoField)>, oneOfs: seq<(string, seq<int>)>)
    ensures OneOfsTrace(rev, fields, oneOfs).ok <==> OneOfIdsKnown(oneOfs, fields)
  {
    if |oneOfs| > 0 {
      var g := oneOfs[|oneOfs| - 1];
      OneOfsOk(rev, fields, oneOfs[..|oneOfs| - 1]);
      GroupOk(rev, fields, g.1);
      T.BracedOk("oneof ", g.0, GroupTrace(rev, fields, g.1), EndLine("}"));
      OneOfsOkStep(rev, fields, oneOfs);
    }
  }

  lemma OneOfsOkStep(rev: Revision, fields: seq<(int, ProtoField)>, oneOfs: seq<(string, seq<int>)>)
    requires |oneOfs| > 0
    requires OneOfsTrace(rev, fields, oneOfs[..|oneOfs| - 1]).ok <==> OneOfIdsKnown(oneOfs[..|oneOfs| - 1], fields)
    requires OneOfTrace(rev, fields, oneOfs[|oneOfs| - 1]).ok <==> AllKeys(fields, oneOfs[|oneOfs| - 1].1)
    ensures OneOfsTrace(rev, fields, oneOfs).ok <==> OneOfIdsKnown(oneOfs, fields)
  {
    assert OneOfsTrace(rev, fields, oneOfs).ok
      == (OneOfsTrace(rev, fields, oneOfs[..|oneOfs| - 1]).ok && OneOfTrace(rev, fields, oneOfs[|oneOfs| - 1]).ok);
    OneOfIdsKnownSnoc(oneOfs, fields);
  }

  lemma OneOfIdsKnownSnoc(oneOfs: seq<(string, seq<int>)>, fields: seq<(int, ProtoField)>)
    requires |oneOfs| > 0
    ensures OneOfIdsKnown(oneOfs, fields)
            <==> OneOfIdsKnown(oneOfs[..|oneOfs| - 1], fields) && AllKeys(fields, oneOfs[|oneOfs| - 1].1)
  {
    var p := oneOfs[..|oneOfs| - 1];
    if OneOfIdsKnown(p, fields) && AllKeys(fields, oneOfs[|oneOfs| - 1].1) {
      forall g | 0 <= g < |oneOfs|
        ensures AllKeys(fields, oneOfs[g].1)
      {
        if g < |p| {
          assert oneOfs[g] == p[g];
        }
      }
    }
    if OneOfIdsKnown(oneOfs, fields) {
      forall g | 0 <= g < |p|
        ensures AllKeys(fields, p[g].1)
      {
        assert p[g] == oneOfs[g];
      }
    }
  }

  lemma {:induction false} OneOfsFailStays(rev: Revision, fields: seq<(int, ProtoField)>,
                                           oneOfs: seq<(string, seq<int>)>, n: nat)
    requires n <= |oneOfs| && !OneOfsTrace(rev, fields, oneOfs[..n]).ok
    ensures OneOfsTrace(rev, fields, oneOfs) == OneOfsTrace(rev, fields, oneOfs[..n])
  {
    if n < |oneOfs| {
      var p := oneOfs[..|oneOfs| - 1];
      assert p[..n] == oneOfs[..n];
      OneOfsFailStays(rev, fields, p, n);
    } else {
      assert oneOfs[..n] == oneOfs;
    }
  }

  // ---------------------------------------------------------------------
  // Messages, enums and their nesting

  /** Protobuf.WriteTo / IWritable.WriteTo, by the kind of `p`. */
  function ProtoTrace(rev: Revision, p: Proto): Trace
    decreases p, 2, 0
  {
    match p
    case Enum(name, _, _, fields) => Emit(EnumOps(rev, name, fields))
    case Message(name, _, _, _, _, _, _) => T.Braced("message ", name, BodyTrace(rev, p), Text("}"))
  }

  /**
   * Between the braces of a message: the library revision writes the plain
   * fields, then the oneofs; the stand-alone tool the oneofs, then the plain
   * fields.  The nested declarations come last in both.
   */
  function BodyTrace(rev: Revision, p: Proto): Trace
    requires p.Message?
    decreases p, 1, 0
  {
    var plain := Emit(PlainFieldsOps(rev, p.fields, T.Flatten(p.oneOfs)));
    var oneOfs := OneOfsTrace(rev, p.fields, p.oneOfs);
    var nested := NestedTrace(rev, p, |p.nested|);
    if rev == Library then Then(plain, Then(oneOfs, nested)) else Then(oneOfs, Then(plain, nested))
  }

  /** The first `n` iterations of the nested loop: each nested declaration's WriteTo, then WriteLine(). */
  function NestedTrace(rev: Revision, p: Proto, n: nat): Trace
    requires p.Message? && n <= |p.nested|
    decreases p, 0, n
  {
    if n == 0 then Emit([])
    else Then(NestedTrace(rev, p, n - 1), Then(ProtoTrace(rev, p.nested[n - 1].1), Emit([EndLine("")])))
  }

  /** The lines of a message or enum; its closing `}` is the last line, left open. */
  function ProtoLines(rev: Revision, p: Proto, k: nat): seq<Line>
    decreases p, 2, 0
  {
    match p
    case Enum(name, _, _, fields) => EnumLines(rev, name, fields, k)
    case Message(name, _, _, _, _, _, _) => [Line(k, "message " + name + " {")] + BodyLines(rev, p, k + 1) + [Line(k, "}")]
  }

  function BodyLines(rev: Revision, p: Proto, k: nat): seq<Line>
    requires p.Message?
    decreases p, 1, 0
  {
    var plain := PlainFieldsLines(rev, p.fields, T.Flatten(p.oneOfs), k);
    var oneOfs := OneOfsLines(rev, p.fields, p.oneOfs, k);
    var nested := NestedLines(rev, p, |p.nested|, k);
    if rev == Library then plain + (oneOfs + nested) else oneOfs + (plain + nested)
  }

  /** The first `n` nested declarations' lines, in dictionary order, each one ended. */
  function NestedLines(rev: Revision, p: Proto, n: nat, k: nat): seq<Line>
    requires p.Message? && n <= |p.nested|
    decreases p, 0, n
  {
    if n == 0 then [] else NestedLines(rev, p, n - 1, k) + ProtoLines(rev, p.nested[n - 1].1, k)
  }

  /** A message or enum that returns writes its lines at level `k`, the closing brace left open. */
  lemma {:induction false} RenderProto(rev: Revision, p: Proto, k: nat)
    requires ProtoTrace(rev, p).ok
    ensures Render(ProtoTrace(rev, p).ops, k) == State(ProtoLines(rev, p, k), true, k)
    decreases p, 2, 0
  {
    match p
    case Enum(name, _, _, fields) =>
      RenderEnum(rev, name, fields, k);
    case Message(name, _, _, _, _, _, _) =>
      var body := BodyTrace(rev, p);
      T.BracedTrace([], "message ", name, body, Text("}"));
      RenderBody(rev, p, k + 1);
      RenderBraced("message ", name, body.ops, Text("}"), k, BodyLines(rev, p, k + 1));
  }

  lemma {:induction false} RenderBody(rev: Revision, p: Proto, k: nat)
    requires p.Message? && BodyTrace(rev, p).ok
    ensures Block(BodyTrace(rev, p).ops, k, BodyLines(rev, p, k))
    decreases p, 1, 0
  {
    var flat := T.Flatten(p.oneOfs);
    var plain := PlainFieldsOps(rev, p.fields, flat);
    var lplain := PlainFieldsLines(rev, p.fields, flat, k);
    var g := OneOfsTrace(rev, p.fields, p.oneOfs);
    var lg := OneOfsLines(rev, p.fields, p.oneOfs, k);
    var n := NestedTrace(rev, p, |p.nested|);
    var ln := NestedLines(rev, p, |p.nested|, k);
    RenderPlainFields(rev, p.fields, flat, k);
    RenderOneOfs(rev, p.fields, p.oneOfs, k);
    RenderNested(rev, p, |p.nested|, k);
    if rev == Library {
      BlockAppend(g.ops, n.ops, k, lg, ln);
      BlockAppend(plain, g.ops + n.ops, k, lplain, lg + ln);
    } else {
      BlockAppend(plain, n.ops, k, lplain, ln);
      BlockAppend(g.ops, plain + n.ops, k, lg, lplain + ln);
    }
  }

  lemma {:induction false} RenderNested(rev: Revision, p: Proto, n: nat, k: nat)
    requires p.Message? && n <= |p.nested| && NestedTrace(rev, p, n).ok
    ensures Block(NestedTrace(rev, p, n).ops, k, NestedLines(rev, p, n, k))
    decreases p, 0, n
  {
    if n > 0 {
      var q := p.nested[n - 1].1;
      var t := ProtoTrace(rev, q);
      RenderNested(rev, p, n - 1, k);
      RenderProto(rev, q, k);
      EndOpenLine(t.ops, k, ProtoLines(rev, q, k));
      BlockAppend(NestedTrace(rev, p, n - 1).ops, t.ops + [EndLine("")], k,
                  NestedLines(rev, p, n - 1, k), ProtoLines(rev, q, k));
    }
  }

  /**
   * `p` can be written: an enum, or a message whose oneof ids are all field
   * ids and whose nested declarations can all be written.
   */
  predicate Writable(p: Proto)
  {
    match p
    case Enum(_, _, _, _) => true
    case Message(_, _, _, _, oneOfs, fields, nested) =>
      OneOfIdsKnown(oneOfs, fields) && forall n :: 0 <= n < |nested| ==> Writable(nested[n].1)
  }

  /**
   * WriteTo returns exactly when `p` is Writable: the only exception is the
   * KeyNotFound of a oneof id that is no field id, at any depth of nesting.
   */
  lemma {:induction false} ProtoOk(rev: Revision, p: Proto)
    ensures ProtoTrace(rev, p).ok <==> Writable(p)
    decreases p, 2, 0
  {
    if p.Message? {
      T.BracedOk("message ", p.name, BodyTrace(rev, p), Text("}"));
      BodyOk(rev, p);
    }
  }

  lemma {:induction false} BodyOk(rev: Revision, p: Proto)
    requires p.Message?
    ensures BodyTrace(rev, p).ok <==> Writable(p)
    decreases p, 1, 0
  {
    OneOfsOk(rev, p.fields, p.oneOfs);
    NestedOk(rev, p, |p.nested|);
    assert Writable(p) <==> OneOfIdsKnown(p.oneOfs, p.fields) && WritableUpTo(p.nested, |p.nested|);
  }

  lemma {:induction false} NestedOk(rev: Revision, p: Proto, n: nat)
    requires p.Message? && n <= |p.nested|
    ensures NestedTrace(rev, p, n).ok <==> WritableUpTo(p.nested, n)
    decreases p, 0, n
  {
    if n > 0 {
      NestedOk(rev, p, n - 1);
      ProtoOk(rev, p.nested[n - 1].1);
      NestedOkStep(rev, p, n);
    }
  }

  lemma NestedOkStep(rev: Revision, p: Proto, n: nat)
    requires p.Message? && 0 < n <= |p.nested|
    requires NestedTrace(rev, p, n - 1).ok <==> WritableUpTo(p.nested, n - 1)
    requires ProtoTrace(rev, p.nested[n - 1].1).ok <==> Writable(p.nested[n - 1].1)
    ensures NestedTrace(rev, p, n).ok <==> WritableUpTo(p.nested, n)
  {
    assert NestedTrace(rev, p, n).ok == (NestedTrace(rev, p, n - 1).ok && ProtoTrace(rev, p.nested[n - 1].1).ok);
    NestedWritableStep(p.nested, n);
  }

  /** The first `n` nested declarations can all be written. */
  predicate WritableUpTo(nested: seq<(string, Proto)>, n: nat)
  {
    forall m :: 0 <= m < n && m < |nested| ==> Writable(nested[m].1)
  }

  lemma NestedWritableStep(nested: seq<(string, Proto)>, n: nat)
    requires 0 < n <= |nested|
    ensures WritableUpTo(nested, n) <==> WritableUpTo(nested, n - 1) && Writable(nested[n - 1].1)
  {
  }

  lemma {:induction false} NestedFailStays(rev: Revision, p: Proto, m: nat, n: nat)
    requires p.Message? && m <= n <= |p.nested| && !NestedTrace(rev, p, m).ok
    ensures NestedTrace(rev, p, n) == NestedTrace(rev, p, m)
    decreases n
  {
    if m < n {
      NestedFailStays(rev, p, m, n - 1);
    }
  }

  // ---------------------------------------------------------------------
  // The serializers of messages and enums

  /** Protobuf.WriteTo / IWritable.WriteTo; `ok` is false when it threw, after the calls it had made. */
  method WriteProtoTo(w: IndentedWriter, rev: Revision, p: Proto) returns (ok: bool)
    modifies w
    ensures w.trace == old(w.trace) + ProtoTrace(rev, p).ops && ok == ProtoTrace(rev, p).ok
    decreases p, 3
  {
    match p
    case Enum(name, _, _, fields) =>
      WriteEnumTo(w, rev, name, fields);
      ok := true;
    case Message(_, _, _, _, _, _, _) =>
      ok := WriteMessageTo(w, rev, p);
  }

  /** Message.WriteTo / ProtobufMessage.WriteTo. */
  method WriteMessageTo(w: IndentedWriter, rev: Revision, p: Proto) returns (ok: bool)
    requires p.Message?
    modifies w
    ensures w.trace == old(w.trace) + ProtoTrace(rev, p).ops && ok == ProtoTrace(rev, p).ok
    decreases p, 2
  {
    ghost var t0 := w.trace;
    T.OpenBrace(w, "message ", p.name);
    ok := WriteBody(w, rev, p);
    T.BracedTrace(t0, "message ", p.name, BodyTrace(rev, p), Text("}"));
    if !ok {
      return;
    }
    T.CloseBrace(w, Text("}"));
  }

  /** Between the braces: the plain fields and the oneofs in the revision's order, then the nested loop. */
  method WriteBody(w: IndentedWriter, rev: Revision, p: Proto) returns (ok: bool)
    requires p.Message?
    modifies w
    ensures w.trace == old(w.trace) + BodyTrace(rev, p).ops && ok == BodyTrace(rev, p).ok
    decreases p, 1
  {
    ghost var t0 := w.trace;
    var flat := T.Flatten(p.oneOfs);
    ghost var plain := PlainFieldsOps(rev, p.fields, flat);
    ghost var g := OneOfsTrace(rev, p.fields, p.oneOfs);
    ghost var n := NestedTrace(rev, p, |p.nested|);
    if rev == Library {
      WritePlainFields(w, rev, p.fields, flat);
      ok := WriteOneOfs(w, rev, p.fields, p.oneOfs);
      if !ok {
        return;
      }
      ok := WriteNested(w, rev, p);
      AppendAssoc(t0 + plain, g.ops, n.ops);
      AppendAssoc(t0, plain, g.ops + n.ops);
    } else {
      ok := WriteOneOfs(w, rev, p.fields, p.oneOfs);
      if !ok {
        return;
      }
      WritePlainFields(w, rev, p.fields, flat);
      ok := WriteNested(w, rev, p);
      AppendAssoc(t0 + g.ops, plain, n.ops);
      AppendAssoc(t0, g.ops, plain + n.ops);
    }
  }

  /** The plain-field loop: every field whose id is in no oneof. */
  method WritePlainFields(w: IndentedWriter, rev: Revision, fields: seq<(int, ProtoField)>, flat: seq<int>)
    modifies w
    ensures w.trace == old(w.trace) + PlainFieldsOps(rev, fields, flat)
  {
    ghost var t0 := w.trace;
    for n := 0 to |fields|
      invariant w.trace == t0 + PlainFieldsOps(rev, fields[..n], flat)
    {
      assert fields[..n + 1][..n] == fields[..n];
      var (id, f) := fields[n];
      AppendAssoc(t0, PlainFieldsOps(rev, fields[..n], flat), PlainFieldOps(rev, fields[n], flat));
      if id !in flat {
        WriteField(w, rev, id, f);
      }
    }
    assert fields[..|fields|] == fields;
  }

  /** The oneof loop; it stops at the first oneof that throws. */
  method WriteOneOfs(w: IndentedWriter, rev: Revision, fields: seq<(int, ProtoField)>, oneOfs: seq<(string, seq<int>)>)
    returns (ok: bool)
    modifies w
    ensures w.trace == old(w.trace) + OneOfsTrace(rev, fields, oneOfs).ops
    ensures ok == OneOfsTrace(rev, fields, oneOfs).ok
  {
    ghost var t0 := w.trace;
    ok := true;
    for n := 0 to |oneOfs|
      invariant OneOfsTrace(rev, fields, oneOfs[..n]).ok
      invariant w.trace == t0 + OneOfsTrace(rev, fields, oneOfs[..n]).ops
    {
      assert oneOfs[..n + 1][..n] == oneOfs[..n];
      ok := WriteOneOf(w, rev, fields, oneOfs[n]);
      AppendAssoc(t0, OneOfsTrace(rev, fields, oneOfs[..n]).ops, OneOfTrace(rev, fields, oneOfs[n]).ops);
      if !ok {
        OneOfsFailStays(rev, fields, oneOfs, n + 1);
        return;
      }
    }
    assert oneOfs[..|oneOfs|] == oneOfs;
  }

  /** One oneof: its header, its fields by id, and a `}` line. */
  method WriteOneOf(w: IndentedWriter, rev: Revision, fields: seq<(int, ProtoField)>, oneOf: (string, seq<int>))
    returns (ok: bool)
    modifies w
    ensures w.trace == old(w.trace) + OneOfTrace(rev, fields, oneOf).ops
    ensures ok == OneOfTrace(rev, fields, oneOf).ok
  {
    ghost var t0 := w.trace;
    T.OpenBrace(w, "oneof ", oneOf.0);
    ok := WriteGroup(w, rev, fields, oneOf.1);
    T.BracedTrace(t0, "oneof ", oneOf.0, GroupTrace(rev, fields, oneOf.1), EndLine("}"));
    if !ok {
      return;
    }
    T.CloseBrace(w, EndLine("}"));
  }

  /** The id loop of one oneof: Fields[fieldId] throws for an id that is not a key. */
  method WriteGroup(w: IndentedWriter, rev: Revision, fields: seq<(int, ProtoField)>, ids: seq<int>) returns (ok: bool)
    modifies w
    ensures w.trace == old(w.trace) + GroupTrace(rev, fields, ids).ops
    ensures ok == GroupTrace(rev, fields, ids).ok
  {
    ghost var t0 := w.trace;
    for n := 0 to |ids|
      invariant GroupTrace(rev, fields, ids[..n]).ok
      invariant w.trace == t0 + GroupTrace(rev, fields, ids[..n]).ops
    {
      assert ids[..n + 1][..n] == ids[..n];
      var field := LookupKey(fields, ids[n]);
      if field.None? {
        assert GroupTrace(rev, fields, ids[..n]).ops + [] == GroupTrace(rev, fields, ids[..n]).ops;
        GroupFailStays(rev, fields, ids, n + 1);
        return false;
      }
      AppendAssoc(t0, GroupTrace(rev, fields, ids[..n]).ops, FieldByIdTrace(rev, fields, ids[n]).ops);
      WriteField(w, rev, ids[n], field.value);
    }
    assert ids[..|ids|] == ids;
    ok := true;
  }

  /** The nested loop: each nested declaration, then an empty WriteLine(). */
  method WriteNested(w: IndentedWriter, rev: Revision, p: Proto) returns (ok: bool)
    requires p.Message?
    modifies w
    ensures w.trace == old(w.trace) + NestedTrace(rev, p, |p.nested|).ops
    ensures ok == NestedTrace(rev, p, |p.nested|).ok
    decreases p, 0
  {
    ghost var t0 := w.trace;
    ok := true;
    for n := 0 to |p.nested|
      invariant NestedTrace(rev, p, n).ok
      invariant w.trace == t0 + NestedTrace(rev, p, n).ops
    {
      ghost var t1 := w.trace;
      var q := p.nested[n].1;
      assert q < p;
      ok := WriteProtoTo(w, rev, q);
      if !ok {
        NestedFailed(rev, p, n, t0, t1, w.trace);
        return;
      }
      w.WriteLine("");
      NestedStep(rev, p, n, t0, t1, w.trace);
    }
  }

  /** A nested declaration that threw ends the loop's trace. */
  lemma NestedFailed(rev: Revision, p: Proto, n: nat, t0: seq<Op>, t1: seq<Op>, t2: seq<Op>)
    requires p.Message? && n < |p.nested| && NestedTrace(rev, p, n).ok
    requires t1 == t0 + NestedTrace(rev, p, n).ops && !ProtoTrace(rev, p.nested[n].1).ok
    requires t2 == t1 + ProtoTrace(rev, p.nested[n].1).ops
    ensures t2 == t0 + NestedTrace(rev, p, |p.nested|).ops && !NestedTrace(rev, p, |p.nested|).ok
  {
    AppendAssoc(t0, NestedTrace(rev, p, n).ops, ProtoTrace(rev, p.nested[n].1).ops);
    NestedFailStays(rev, p, n + 1, |p.nested|);
  }

  /** One pass of the nested loop that returned: its calls extend the trace. */
  lemma NestedStep(rev: Revision, p: Proto, n: nat, t0: seq<Op>, t1: seq<Op>, t2: seq<Op>)
    requires p.Message? && n < |p.nested| && NestedTrace(rev, p, n).ok
    requires t1 == t0 + NestedTrace(rev, p, n).ops && ProtoTrace(rev, p.nested[n].1).ok
    requires t2 == (t1 + ProtoTrace(rev, p.nested[n].1).ops) + [EndLine("")]
    ensures NestedTrace(rev, p, n + 1).ok && t2 == t0 + NestedTrace(rev, p, n + 1).ops
  {
    var t := ProtoTrace(rev, p.nested[n].1);
    AppendAssoc(t1, t.ops, [EndLine("")]);
    AppendAssoc(t0, NestedTrace(rev, p, n).ops, t.ops + [EndLine("")]);
  }

  // ---------------------------------------------------------------------
  // Files

  function ImportLine(name: string): string
  {
    "import \"" + name + ".proto\";"
  }

  /** The import loop of WriteFileTo, over Imports in insertion order. */
  function ImportListOps(names: seq<string>): seq<Op>
  {
    if |names| == 0 then []
    else ImportListOps(names[..|names| - 1]) + [Text("import \""), Text(names[|names| - 1]), EndLine(".proto\";")]
  }

  /** One `import "name.proto";` line per import, in order. */
  function ImportLines(names: seq<string>, k: nat): (r: seq<Line>)
    ensures |r| == |names|
    ensures forall i :: 0 <= i < |names| ==> r[i] == Line(k, ImportLine(names[i]))
  {
    if |names| == 0 then [] else ImportLines(names[..|names| - 1], k) + [Line(k, ImportLine(names[|names| - 1]))]
  }

  lemma {:induction false} RenderImportList(names: seq<string>, k: nat)
    ensures Block(ImportListOps(names), k, ImportLines(names, k))
  {
    if |names| > 0 {
      var p := names[..|names| - 1];
      var x := names[|names| - 1];
      RenderImportList(p, k);
      LineBlock([Text("import \""), Text(x)], ".proto\";", k);
      Concat2("import \"", x);
      assert [Text("import \""), Text(x)] + [EndLine(".proto\";")] == [Text("import \""), Text(x), EndLine(".proto\";")];
      BlockAppend(ImportListOps(p), [Text("import \""), Text(x), EndLine(".proto\";")], k, ImportLines(p, k),
                  [Line(k, ImportLine(x))]);
    }
  }

  /** Only a message has imports; they and a blank line are written iff there are any. */
  function FileImportsOps(p: Proto): seq<Op>
  {
    if p.Message? && |p.imports| > 0 then ImportListOps(p.imports) + [EndLine("")] else []
  }

  function FileImportsLines(p: Proto, k: nat): seq<Line>
  {
    if p.Message? && |p.imports| > 0 then ImportLines(p.imports, k) + [Line(k, "")] else []
  }

  lemma RenderFileImports(p: Proto, k: nat)
    ensures Block(FileImportsOps(p), k, FileImportsLines(p, k))
  {
    if p.Message? && |p.imports| > 0 {
      RenderImportList(p.imports, k);
      RenderEndLines([""], k);
      assert EndLines([""]) == [EndLine("")];
      assert LinesOf([""], k) == [Line(k, "")];
      BlockAppend(ImportListOps(p.imports), [EndLine("")], k, ImportLines(p.imports, k), [Line(k, "")]);
    } else {
      assert Render([], k) == State([], false, k);
    }
  }

  /**
   * WriteFileTo of a message or an enum: the revision's preamble (the
   * library revision with the declaration's own assembly name and
   * namespace), a message's imports, then WriteTo.
   */
  function FileTrace(rev: Revision, p: Proto): Trace
  {
    Then(Emit(PreambleOps(rev, p.assemblyName, p.namespace) + FileImportsOps(p)), ProtoTrace(rev, p))
  }

  function FileLines(rev: Revision, p: Proto): seq<Line>
  {
    PreambleLines(rev, p.assemblyName, p.namespace, 0) + FileImportsLines(p, 0) + ProtoLines(rev, p, 0)
  }

  /**
   * WriteFileTo returns exactly when `p` is Writable, and then the file is
   * the preamble, the imports and the declaration, its closing brace the
   * last line, not ended.
   */
  lemma RenderFile(rev: Revision, p: Proto)
    ensures FileTrace(rev, p).ok <==> Writable(p)
    ensures Writable(p) ==> Render(FileTrace(rev, p).ops, 0) == State(FileLines(rev, p), true, 0)
  {
    ProtoOk(rev, p);
    if Writable(p) {
      var pre := PreambleOps(rev, p.assemblyName, p.namespace);
      var lpre := PreambleLines(rev, p.assemblyName, p.namespace, 0);
      if rev == Library {
        RenderLibraryPreamble(p.assemblyName, p.namespace, 0);
      } else {
        RenderStandalonePreamble(0);
      }
      RenderFileImports(p, 0);
      BlockAppend(pre, FileImportsOps(p), 0, lpre, FileImportsLines(p, 0));
      RenderProto(rev, p, 0);
      RenderAppend(pre + FileImportsOps(p), ProtoTrace(rev, p).ops, 0);
    }
  }

  /** Message.WriteFileTo, Enum.WriteFileTo and their stand-alone counterparts. */
  method WriteFileTo(w: IndentedWriter, rev: Revision, p: Proto) returns (ok: bool)
    modifies w
    ensures w.trace == old(w.trace) + FileTrace(rev, p).ops && ok == FileTrace(rev, p).ok
  {
    ghost var t0 := w.trace;
    WritePreamble(w, rev, p.assemblyName, p.namespace);
    WriteFileImports(w, p);
    AppendAssoc(t0, PreambleOps(rev, p.assemblyName, p.namespace), FileImportsOps(p));
    ok := WriteProtoTo(w, rev, p);
    AppendAssoc(t0, PreambleOps(rev, p.assemblyName, p.namespace) + FileImportsOps(p), ProtoTrace(rev, p).ops);
  }

  /** The revision's WritePreambleTo. */
  method WritePreamble(w: IndentedWriter, rev: Revision, assemblyName: Option<string>, namespace: Option<string>)
    modifies w
    ensures w.trace == old(w.trace) + PreambleOps(rev, assemblyName, namespace)
  {
    if rev == Library {
      WriteLibraryPreamble(w, assemblyName, namespace);
    } else {
      WriteStandalonePreamble(w);
    }
  }

  method WriteFileImports(w: IndentedWriter, p: Proto)
    modifies w
    ensures w.trace == old(w.trace) + FileImportsOps(p)
  {
    if p.Message? && |p.imports| > 0 {
      ghost var t0 := w.trace;
      for n := 0 to |p.imports|
        invariant w.trace == t0 + ImportListOps(p.imports[..n])
      {
        assert p.imports[..n + 1][..n] == p.imports[..n];
        AppendAssoc(t0, ImportListOps(p.imports[..n]), [Text("import \""), Text(p.imports[n]), EndLine(".proto\";")]);
        w.Write("import \"");
        w.Write(p.imports[n]);
        w.WriteLine(".proto\";");
      }
      assert p.imports[..|p.imports|] == p.imports;
      w.WriteLine("");
      AppendAssoc(t0, ImportListOps(p.imports), [EndLine("")]);
    }
  }

  // ---------------------------------------------------------------------
  // The single output of every declaration parsed

  /** The loop of WriteAllTo: each declaration's WriteTo, then two WriteLine() calls. */
  function ProtosTrace(rev: Revision, protos: seq<Proto>): Trace
  {
    if |protos| == 0 then Emit([])
    else Then(ProtosTrace(rev, protos[..|protos| - 1]),
              Then(ProtoTrace(rev, protos[|protos| - 1]), Emit([EndLine(""), EndLine("")])))
  }

  /** Each declaration's lines, its closing brace ended, then a blank line. */
  function ProtosLines(rev: Revision, protos: seq<Proto>): seq<Line>
  {
    if |protos| == 0 then []
    else ProtosLines(rev, protos[..|protos| - 1]) + (ProtoLines(rev, protos[|protos| - 1], 0) + [Line(0, "")])
  }

  /**
   * WriteAllTo: the preamble without assembly name or namespace, then the
   * loop (the library's context and Protodec over the values of their
   * dictionary, the stand-alone tool over its messages and then its enums).
   */
  function AllTrace(rev: Revision, protos: seq<Proto>): Trace
  {
    Then(Emit(PreambleOps(rev, None, None)), ProtosTrace(rev, protos))
  }

  function AllLines(rev: Revision, protos: seq<Proto>): seq<Line>
  {
    PreambleLines(rev, None, None, 0) + ProtosLines(rev, protos)
  }

  /** Every declaration of the list can be written. */
  predicate AllWritable(protos: seq<Proto>)
  {
    forall i :: 0 <= i < |protos| ==> Writable(protos[i])
  }

  lemma AllWritableSnoc(protos: seq<Proto>)
    requires |protos| > 0
    ensures AllWritable(protos) <==> AllWritable(protos[..|protos| - 1]) && Writable(protos[|protos| - 1])
  {
    var p := protos[..|protos| - 1];
    assert forall i :: 0 <= i < |p| ==> p[i] == protos[i];
  }

  lemma {:induction false} ProtosOk(rev: Revision, protos: seq<Proto>)
    ensures ProtosTrace(rev, protos).ok <==> AllWritable(protos)
  {
    if |protos| > 0 {
      ProtosOk(rev, protos[..|protos| - 1]);
      ProtoOk(rev, protos[|protos| - 1]);
      AllWritableSnoc(protos);
    }
  }

  lemma {:induction false} RenderProtos(rev: Revision, protos: seq<Proto>)
    requires ProtosTrace(rev, protos).ok
    ensures Block(ProtosTrace(rev, protos).ops, 0, ProtosLines(rev, protos))
  {
    if |protos| > 0 {
      var p := protos[..|protos| - 1];
      var last := protos[|protos| - 1];
      var t := ProtoTrace(rev, last);
      RenderProtos(rev, p);
      RenderProto(rev, last, 0);
      EndOpenLine(t.ops, 0, ProtoLines(rev, last, 0));
      RenderEndLines([""], 0);
      assert EndLines([""]) == [EndLine("")];
      assert LinesOf([""], 0) == [Line(0, "")];
      BlockAppend(t.ops + [EndLine("")], [EndLine("")], 0, ProtoLines(rev, last, 0), [Line(0, "")]);
      assert t.ops + [EndLine("")] + [EndLine("")] == t.ops + [EndLine(""), EndLine("")];
      BlockAppend(ProtosTrace(rev, p).ops, t.ops + [EndLine(""), EndLine("")], 0, ProtosLines(rev, p),
                  ProtoLines(rev, last, 0) + [Line(0, "")]);
    }
  }

  lemma {:induction false} ProtosFailStays(rev: Revision, protos: seq<Proto>, n: nat)
    requires n <= |protos| && !ProtosTrace(rev, protos[..n]).ok
    ensures ProtosTrace(rev, protos) == ProtosTrace(rev, protos[..n])
  {
    if n < |protos| {
      var p := protos[..|protos| - 1];
      assert p[..n] == protos[..n];
      ProtosFailStays(rev, p, n);
    } else {
      assert protos[..n] == protos;
    }
  }

  /**
   * WriteAllTo returns exactly when every declaration is Writable, and then
   * its output is the preamble followed by each declaration and a blank
   * line.
   */
  lemma RenderAll(rev: Revision, protos: seq<Proto>)
    ensures AllTrace(rev, protos).ok <==> AllWritable(protos)
    ensures AllTrace(rev, protos).ok ==> Block(AllTrace(rev, protos).ops, 0, AllLines(rev, protos))
  {
    ProtosOk(rev, protos);
    if ProtosTrace(rev, protos).ok {
      if rev == Library {
        RenderLibraryPreamble(None, None, 0);
      } else {
        RenderStandalonePreamble(0);
      }
      RenderProtos(rev, protos);
      BlockAppend(PreambleOps(rev, None, None), ProtosTrace(rev, protos).ops, 0, PreambleLines(rev, None, None, 0),
                  ProtosLines(rev, protos));
    }
  }

  lemma BlankPairAppended(t2: seq<Op>, ops: seq<Op>, t3: seq<Op>, t4: seq<Op>)
    requires t3 == (t2 + ops) + [EndLine("")] && t4 == t3 + [EndLine("")]
    ensures t4 == t2 + (ops + [EndLine(""), EndLine("")])
  {
  }

  /** WriteAllTo of ProtodecContext and Protodec. */
  method WriteAllTo(w: IndentedWriter, rev: Revision, protos: seq<Proto>) returns (ok: bool)
    modifies w
    ensures w.trace == old(w.trace) + AllTrace(rev, protos).ops && ok == AllTrace(rev, protos).ok
  {
    ghost var t0 := w.trace;
    WritePreamble(w, rev, None, None);
    ghost var t1 := w.trace;
    ok := true;
    for n := 0 to |protos|
      invariant ProtosTrace(rev, protos[..n]).ok
      invariant w.trace == t1 + ProtosTrace(rev, protos[..n]).ops
    {
      assert protos[..n + 1][..n] == protos[..n];
      ghost var t2 := w.trace;
      ghost var t := ProtoTrace(rev, protos[n]);
      ok := WriteProtoTo(w, rev, protos[n]);
      if !ok {
        AppendAssoc(t1, ProtosTrace(rev, protos[..n]).ops, t.ops);
        ProtosFailStays(rev, protos, n + 1);
        AppendAssoc(t0, PreambleOps(rev, None, None), ProtosTrace(rev, protos).ops);
        return;
      }
      w.WriteLine("");
      ghost var t3 := w.trace;
      w.WriteLine("");
      BlankPairAppended(t2, t.ops, t3, w.trace);
      AppendAssoc(t1, ProtosTrace(rev, protos[..n]).ops, t.ops + [EndLine(""), EndLine("")]);
    }
    assert protos[..|protos|] == protos;
    AppendAssoc(t0, PreambleOps(rev, None, None), ProtosTrace(rev, protos).ops);
  }
}
