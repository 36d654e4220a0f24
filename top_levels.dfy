// The serializers of the top-level declarations: Enum (src/LibProtodec/
// Models/TopLevels/Enum.cs), Service and Message (src/LibProtodec/Models/
// Protobuf/TopLevels).  As for the fields, each WriteTo is a writer method
// whose contract is the calls it makes, and the Render lemmas give the lines
// those calls produce.  A message can throw (a oneof id that is not a field),
// so its calls are a Trace: the calls made, and whether it returned.
module TopLevels {
  import opened Util
  import opened Writer
  import opened Schema
  import opened ProtoWriter

  // ---------------------------------------------------------------------
  // The opening and closing calls every braced declaration makes

  /** `keyword`, the name and " {" on one line, then Indent++. */
  method OpenBrace(w: IndentedWriter, keyword: string, name: string)
    modifies w
    ensures w.trace == old(w.trace) + [Text(keyword), Text(name), EndLine(" {"), Indent(1)]
  {
    w.Write(keyword);
    w.Write(name);
    w.WriteLine(" {");
    w.StepIndent(1);
  }

  /** Indent--, then the closing brace by `close`. */
  method CloseBrace(w: IndentedWriter, close: Op)
    requires close == Text("}") || close == EndLine("}")
    modifies w
    ensures w.trace == old(w.trace) + [Indent(-1), close]
  {
    w.StepIndent(-1);
    if close.Text? {
      w.Write("}");
    } else {
      w.WriteLine("}");
    }
  }

  /** OpenBrace, a body and CloseBrace make the calls BracedOps lists. */
  lemma BracedCalls(t: seq<Op>, keyword: string, name: string, body: seq<Op>, close: Op)
    ensures t + [Text(keyword), Text(name), EndLine(" {"), Indent(1)] + body + [Indent(-1), close]
            == t + BracedOps(keyword, name, body, close)
  {
    var h := [Text(keyword), Text(name), EndLine(" {"), Indent(1)];
    AppendAssoc(t, h, body);
    AppendAssoc(t, h + body, [Indent(-1), close]);
  }

  // ---------------------------------------------------------------------
  // Enums

  /** Two fields of the list share an id. */
  predicate HasDuplicateId(fields: seq<EnumField>)
  {
    exists i, j :: 0 <= i < j < |fields| && fields[i].id == fields[j].id
  }

  /**
   * Enum.ContainsDuplicateField: false for fewer than two fields, otherwise
   * the HashSet walk that stops at the first id already added.
   */
  method ContainsDuplicateField(fields: seq<EnumField>) returns (r: bool)
    ensures r <==> HasDuplicateId(fields)
  {
    if |fields| < 2 {
      return false;
    }
    var seen: set<int> := {};
    for n := 0 to |fields|
      invariant seen == set i | 0 <= i < n :: fields[i].id
      invariant forall i, j :: 0 <= i < j < n ==> fields[i].id != fields[j].id
    {
      if fields[n].id in seen {
        ghost var i :| 0 <= i < n && fields[i].id == fields[n].id;
        return true;
      }
      seen := seen + {fields[n].id};
    }
    return false;
  }

  /** The calls of the field loop: each field's WriteTo, in list order. */
  function EnumFieldsOps(fields: seq<EnumField>): seq<Op>
  {
    if |fields| == 0 then [] else EnumFieldsOps(fields[..|fields| - 1]) + EnumFieldOps(fields[|fields| - 1])
  }

  /** One line per field, in list order. */
  function EnumFieldsLines(fields: seq<EnumField>, k: nat): (r: seq<Line>)
    ensures |r| == |fields| && forall n :: 0 <= n < |fields| ==> r[n] == Line(k, EnumFieldLine(fields[n]))
  {
    if |fields| == 0 then []
    else
      var p := fields[..|fields| - 1];
      assert forall n :: 0 <= n < |p| ==> p[n] == fields[n];
      EnumFieldsLines(p, k) + [Line(k, EnumFieldLine(fields[|fields| - 1]))]
  }

  lemma {:induction false} RenderEnumFields(fields: seq<EnumField>, k: nat)
    ensures Block(EnumFieldsOps(fields), k, EnumFieldsLines(fields, k))
  {
    if |fields| > 0 {
      var p := fields[..|fields| - 1];
      RenderEnumFields(p, k);
      RenderEnumField(fields[|fields| - 1], k);
      BlockAppend(EnumFieldsOps(p), EnumFieldOps(fields[|fields| - 1]), k,
                  EnumFieldsLines(p, k), [Line(k, EnumFieldLine(fields[|fields| - 1]))]);
    }
  }

  /** The options, in their fixed order. */
  function EnumOptionsOps(isObsolete: bool, fields: seq<EnumField>, isClosed: bool): seq<Op>
  {
    OptionIf(HasDuplicateId(fields), "allow_alias", "true")
    + OptionIf(isObsolete, "deprecated", "true")
    + OptionIf(isClosed, "features.enum_type", "CLOSED")
  }

  /** The options, then the fields. */
  function EnumBodyOps(isObsolete: bool, fields: seq<EnumField>, isClosed: bool): seq<Op>
  {
    EnumOptionsOps(isObsolete, fields, isClosed) + EnumFieldsOps(fields)
  }

  /**
   * `option allow_alias = true;` iff two fields share an id, then
   * `option deprecated = true;` iff obsolete, then
   * `option features.enum_type = CLOSED;` iff closed, then one line per field.
   */
  function EnumBodyLines(isObsolete: bool, fields: seq<EnumField>, isClosed: bool, k: nat): seq<Line>
  {
    OptionLinesIf(HasDuplicateId(fields), "allow_alias", "true", k)
    + OptionLinesIf(isObsolete, "deprecated", "true", k)
    + OptionLinesIf(isClosed, "features.enum_type", "CLOSED", k)
    + EnumFieldsLines(fields, k)
  }

  lemma RenderEnumBody(isObsolete: bool, fields: seq<EnumField>, isClosed: bool, k: nat)
    ensures Block(EnumBodyOps(isObsolete, fields, isClosed), k, EnumBodyLines(isObsolete, fields, isClosed, k))
  {
    var dup := HasDuplicateId(fields);
    RenderOptionIf(dup, "allow_alias", "true", k);
    RenderOptionIf(isObsolete, "deprecated", "true", k);
    RenderOptionIf(isClosed, "features.enum_type", "CLOSED", k);
    RenderEnumFields(fields, k);
    var a := OptionIf(dup, "allow_alias", "true");
    var b := OptionIf(isObsolete, "deprecated", "true");
    var c := OptionIf(isClosed, "features.enum_type", "CLOSED");
    var la := OptionLinesIf(dup, "allow_alias", "true", k);
    var lb := OptionLinesIf(isObsolete, "deprecated", "true", k);
    var lc := OptionLinesIf(isClosed, "features.enum_type", "CLOSED", k);
    BlockAppend(a, b, k, la, lb);
    BlockAppend(a + b, c, k, la + lb, lc);
    BlockAppend(a + b + c, EnumFieldsOps(fields), k, la + lb + lc, EnumFieldsLines(fields, k));
  }

  /** The calls of Enum.WriteTo. */
  function EnumOps(name: string, isObsolete: bool, fields: seq<EnumField>, isClosed: bool): seq<Op>
  {
    BracedOps("enum ", name, EnumBodyOps(isObsolete, fields, isClosed), Text("}"))
  }

  /** `enum Name {`, the body one level in, and `}` left open. */
  function EnumLines(name: string, isObsolete: bool, fields: seq<EnumField>, isClosed: bool, k: nat): seq<Line>
  {
    [Line(k, "enum " + name + " {")] + EnumBodyLines(isObsolete, fields, isClosed, k + 1) + [Line(k, "}")]
  }

  lemma RenderEnum(name: string, isObsolete: bool, fields: seq<EnumField>, isClosed: bool, k: nat)
    ensures Render(EnumOps(name, isObsolete, fields, isClosed), k)
            == State(EnumLines(name, isObsolete, fields, isClosed, k), true, k)
  {
    RenderEnumBody(isObsolete, fields, isClosed, k + 1);
    RenderBraced("enum ", name, EnumBodyOps(isObsolete, fields, isClosed), Text("}"), k,
                 EnumBodyLines(isObsolete, fields, isClosed, k + 1));
  }

  /** The three conditional options of Enum.WriteTo. */
  method WriteEnumOptions(w: IndentedWriter, isObsolete: bool, fields: seq<EnumField>, isClosed: bool)
    modifies w
    ensures w.trace == old(w.trace) + EnumOptionsOps(isObsolete, fields, isClosed)
  {
    ghost var t0 := w.trace;
    var dup := ContainsDuplicateField(fields);
    WriteOptionIf(w, dup, "allow_alias", "true");
    ghost var a := OptionIf(HasDuplicateId(fields), "allow_alias", "true");
    WriteOptionIf(w, isObsolete, "deprecated", "true");
    ghost var b := OptionIf(isObsolete, "deprecated", "true");
    AppendAssoc(t0, a, b);
    WriteOptionIf(w, isClosed, "features.enum_type", "CLOSED");
    AppendAssoc(t0, a + b, OptionIf(isClosed, "features.enum_type", "CLOSED"));
  }

  /** The field loop of Enum.WriteTo. */
  method WriteEnumFields(w: IndentedWriter, fields: seq<EnumField>)
    modifies w
    ensures w.trace == old(w.trace) + EnumFieldsOps(fields)
  {
    ghost var t0 := w.trace;
    for n := 0 to |fields|
      invariant w.trace == t0 + EnumFieldsOps(fields[..n])
    {
      assert fields[..n + 1][..n] == fields[..n];
      AppendAssoc(t0, EnumFieldsOps(fields[..n]), EnumFieldOps(fields[n]));
      WriteEnumFieldTo(w, fields[n]);
    }
    assert fields[..|fields|] == fields;
  }

  /** Enum.WriteTo between the braces. */
  method WriteEnumBody(w: IndentedWriter, isObsolete: bool, fields: seq<EnumField>, isClosed: bool)
    modifies w
    ensures w.trace == old(w.trace) + EnumBodyOps(isObsolete, fields, isClosed)
  {
    ghost var t0 := w.trace;
    WriteEnumOptions(w, isObsolete, fields, isClosed);
    WriteEnumFields(w, fields);
    AppendAssoc(t0, EnumOptionsOps(isObsolete, fields, isClosed), EnumFieldsOps(fields));
  }

  /** Enum.WriteTo. */
  method WriteEnumTo(w: IndentedWriter, name: string, isObsolete: bool, fields: seq<EnumField>, isClosed: bool)
    modifies w
    ensures w.trace == old(w.trace) + EnumOps(name, isObsolete, fields, isClosed)
  {
    ghost var t0 := w.trace;
    OpenBrace(w, "enum ", name);
    WriteEnumBody(w, isObsolete, fields, isClosed);
    CloseBrace(w, Text("}"));
    BracedCalls(t0, "enum ", name, EnumBodyOps(isObsolete, fields, isClosed), Text("}"));
  }

  // ---------------------------------------------------------------------
  // Services

  /** The calls of the method loop, each method's type names seen from `self`. */
  function MethodsOps(decls: seq<TopLevel>, methods: seq<ServiceMethod>, self: nat): seq<Op>
    requires ParentsBefore(decls) && MethodsIn(methods, |decls|)
  {
    if |methods| == 0 then []
    else MethodsOps(decls, methods[..|methods| - 1], self) + ServiceMethodOps(decls, methods[|methods| - 1], self)
  }

  /** The rpc statement of one method at level `k`. */
  function MethodLines(decls: seq<TopLevel>, m: ServiceMethod, self: nat, k: nat): seq<Line>
    requires ParentsBefore(decls) && RefsIn(m.requestType, |decls|) && RefsIn(m.responseType, |decls|)
  {
    RpcStatementLines(m.name, WrittenTypeName(decls, m.requestType, self),
                      WrittenTypeName(decls, m.responseType, self),
                      m.isRequestStreamed, m.isResponseStreamed, m.isObsolete, k)
  }

  /** The rpc statements of the methods, each exactly once, in list order. */
  function MethodsLines(decls: seq<TopLevel>, methods: seq<ServiceMethod>, self: nat, k: nat): seq<Line>
    requires ParentsBefore(decls) && MethodsIn(methods, |decls|)
  {
    if |methods| == 0 then []
    else MethodsLines(decls, methods[..|methods| - 1], self, k) + MethodLines(decls, methods[|methods| - 1], self, k)
  }

  lemma {:induction false} RenderMethods(decls: seq<TopLevel>, methods: seq<ServiceMethod>, self: nat, k: nat)
    requires ParentsBefore(decls) && MethodsIn(methods, |decls|)
    ensures Block(MethodsOps(decls, methods, self), k, MethodsLines(decls, methods, self, k))
  {
    if |methods| > 0 {
      var p := methods[..|methods| - 1];
      var m := methods[|methods| - 1];
      RenderMethods(decls, p, self, k);
      RenderRpcStatement(m.name, WrittenTypeName(decls, m.requestType, self),
                         WrittenTypeName(decls, m.responseType, self),
                         m.isRequestStreamed, m.isResponseStreamed, m.isObsolete, k);
      BlockAppend(MethodsOps(decls, p, self), ServiceMethodOps(decls, m, self), k,
                  MethodsLines(decls, p, self, k), MethodLines(decls, m, self, k));
    }
  }

  /** The calls of Service.WriteTo for the service `self` with methods `methods`. */
  function ServiceOps(decls: seq<TopLevel>, self: nat, methods: seq<ServiceMethod>): seq<Op>
    requires ParentsBefore(decls) && self < |decls| && MethodsIn(methods, |decls|)
  {
    BracedOps("service ", decls[self].name, ServiceBodyOps(decls, self, methods), Text("}"))
  }

  /** The deprecated option iff obsolete, then the methods. */
  function ServiceBodyOps(decls: seq<TopLevel>, self: nat, methods: seq<ServiceMethod>): seq<Op>
    requires ParentsBefore(decls) && self < |decls| && MethodsIn(methods, |decls|)
  {
    OptionIf(decls[self].isObsolete, "deprecated", "true") + MethodsOps(decls, methods, self)
  }

  /** The deprecated option iff obsolete, then the rpc statements. */
  function ServiceBodyLines(decls: seq<TopLevel>, self: nat, methods: seq<ServiceMethod>, k: nat): seq<Line>
    requires ParentsBefore(decls) && self < |decls| && MethodsIn(methods, |decls|)
  {
    OptionLinesIf(decls[self].isObsolete, "deprecated", "true", k) + MethodsLines(decls, methods, self, k)
  }

  /** `service Name {`, the body one level in, and `}` left open. */
  function ServiceLines(decls: seq<TopLevel>, self: nat, methods: seq<ServiceMethod>, k: nat): seq<Line>
    requires ParentsBefore(decls) && self < |decls| && MethodsIn(methods, |decls|)
  {
    [Line(k, "service " + decls[self].name + " {")] + ServiceBodyLines(decls, self, methods, k + 1) + [Line(k, "}")]
  }

  lemma RenderServiceBody(decls: seq<TopLevel>, self: nat, methods: seq<ServiceMethod>, k: nat)
    requires ParentsBefore(decls) && self < |decls| && MethodsIn(methods, |decls|)
    ensures Block(ServiceBodyOps(decls, self, methods), k, ServiceBodyLines(decls, self, methods, k))
  {
    RenderOptionIf(decls[self].isObsolete, "deprecated", "true", k);
    RenderMethods(decls, methods, self, k);
    BlockAppend(OptionIf(decls[self].isObsolete, "deprecated", "true"), MethodsOps(decls, methods, self), k,
                OptionLinesIf(decls[self].isObsolete, "deprecated", "true", k), MethodsLines(decls, methods, self, k));
  }

  lemma RenderService(decls: seq<TopLevel>, self: nat, methods: seq<ServiceMethod>, k: nat)
    requires ParentsBefore(decls) && self < |decls| && MethodsIn(methods, |decls|)
    ensures Render(ServiceOps(decls, self, methods), k) == State(ServiceLines(decls, self, methods, k), true, k)
  {
    RenderServiceBody(decls, self, methods, k + 1);
    RenderBraced("service ", decls[self].name, ServiceBodyOps(decls, self, methods), Text("}"), k,
                 ServiceBodyLines(decls, self, methods, k + 1));
  }

  /**
   * Service.WriteTo.  The method loop calls ServiceMethod.WriteTo without the
   * top-level argument that method takes; the model passes the service
   * itself, the scope its methods' type names are written from.
   */
  method WriteServiceTo(w: IndentedWriter, decls: seq<TopLevel>, self: nat, methods: seq<ServiceMethod>)
    requires ParentsBefore(decls) && self < |decls| && MethodsIn(methods, |decls|)
    modifies w
    ensures w.trace == old(w.trace) + ServiceOps(decls, self, methods)
  {
    ghost var t0 := w.trace;
    OpenBrace(w, "service ", decls[self].name);
    WriteServiceBody(w, decls, self, methods);
    CloseBrace(w, Text("}"));
    BracedCalls(t0, "service ", decls[self].name, ServiceBodyOps(decls, self, methods), Text("}"));
  }

  /** Service.WriteTo between the braces. */
  method WriteServiceBody(w: IndentedWriter, decls: seq<TopLevel>, self: nat, methods: seq<ServiceMethod>)
    requires ParentsBefore(decls) && self < |decls| && MethodsIn(methods, |decls|)
    modifies w
    ensures w.trace == old(w.trace) + ServiceBodyOps(decls, self, methods)
  {
    ghost var t0 := w.trace;
    WriteOptionIf(w, decls[self].isObsolete, "deprecated", "true");
    WriteServiceMethods(w, decls, self, methods);
    AppendAssoc(t0, OptionIf(decls[self].isObsolete, "deprecated", "true"), MethodsOps(decls, methods, self));
  }

  /** The method loop of Service.WriteTo. */
  method WriteServiceMethods(w: IndentedWriter, decls: seq<TopLevel>, self: nat, methods: seq<ServiceMethod>)
    requires ParentsBefore(decls) && MethodsIn(methods, |decls|)
    modifies w
    ensures w.trace == old(w.trace) + MethodsOps(decls, methods, self)
  {
    ghost var t0 := w.trace;
    for n := 0 to |methods|
      invariant w.trace == t0 + MethodsOps(decls, methods[..n], self)
    {
      var m := methods[n];
      assert RefsIn(m.requestType, |decls|) && RefsIn(m.responseType, |decls|);
      assert MethodsIn(methods[..n + 1], |decls|);
      assert methods[..n + 1][..n] == methods[..n];
      AppendAssoc(t0, MethodsOps(decls, methods[..n], self), ServiceMethodOps(decls, m, self));
      WriteServiceMethodTo(w, decls, m, self);
    }
    assert methods[..|methods|] == methods;
  }

  // ---------------------------------------------------------------------
  // Traces of calls that can throw

  /** OpenBrace, a body that may throw, and CloseBrace unless it did. */
  function Braced(keyword: string, name: string, body: Trace, close: Op): Trace
  {
    Then(Emit([Text(keyword), Text(name), EndLine(" {"), Indent(1)]), Then(body, Emit([Indent(-1), close])))
  }

  /** A braced body returns exactly when the body does. */
  lemma BracedOk(keyword: string, name: string, body: Trace, close: Op)
    ensures Braced(keyword, name, body, close).ok == body.ok
  {
  }

  /** A braced body that returns makes the calls BracedOps lists; one that throws stops after the body. */
  lemma BracedTrace(t: seq<Op>, keyword: string, name: string, body: Trace, close: Op)
    ensures Braced(keyword, name, body, close).ok == body.ok
    ensures body.ok ==> Braced(keyword, name, body, close) == Emit(BracedOps(keyword, name, body.ops, close))
    ensures body.ok ==> t + [Text(keyword), Text(name), EndLine(" {"), Indent(1)] + body.ops + [Indent(-1), close]
                        == t + Braced(keyword, name, body, close).ops
    ensures !body.ok ==> t + [Text(keyword), Text(name), EndLine(" {"), Indent(1)] + body.ops
                         == t + Braced(keyword, name, body, close).ops
  {
    var h := [Text(keyword), Text(name), EndLine(" {"), Indent(1)];
    AppendAssoc(h, body.ops, [Indent(-1), close]);
    AppendAssoc(t, h, body.ops);
    if body.ok {
      BracedCalls(t, keyword, name, body.ops, close);
    }
  }

  // ---------------------------------------------------------------------
  // Messages

  /** `id` is one of the ids of some oneof. */
  predicate InSomeOneOf(oneOfs: seq<(string, seq<int>)>, id: int)
  {
    exists g :: 0 <= g < |oneOfs| && id in oneOfs[g].1
  }

  /** OneOfs.SelectMany(oneOf => oneOf.Value): every oneof's ids, in dictionary order. */
  function Flatten(oneOfs: seq<(string, seq<int>)>): (r: seq<int>)
    ensures forall id :: id in r <==> InSomeOneOf(oneOfs, id)
  {
    if |oneOfs| == 0 then []
    else
      var p := oneOfs[..|oneOfs| - 1];
      assert forall g :: 0 <= g < |p| ==> p[g] == oneOfs[g];
      Flatten(p) + oneOfs[|oneOfs| - 1].1
  }

  /** The line MessageField.WriteTo writes for `f` in message `self`. */
  function FieldLineIn(decls: seq<TopLevel>, self: nat, f: MessageField, isOneOf: bool, k: nat): Line
    requires ParentsBefore(decls) && RefsIn(f.fieldType, |decls|)
  {
    Line(k, FieldLine(f, TypeNameFrom(decls, self, f.fieldType), isOneOf))
  }

  /** The calls for one field of the plain section: none when its id is in a oneof. */
  function PlainFieldOps(decls: seq<TopLevel>, self: nat, f: MessageField, flat: seq<int>): seq<Op>
    requires ParentsBefore(decls) && RefsIn(f.fieldType, |decls|)
  {
    if f.id in flat then [] else FieldOps(f, TypeNameFrom(decls, self, f.fieldType), false)
  }

  function PlainFieldLines(decls: seq<TopLevel>, self: nat, f: MessageField, flat: seq<int>, k: nat): seq<Line>
    requires ParentsBefore(decls) && RefsIn(f.fieldType, |decls|)
  {
    if f.id in flat then [] else [FieldLineIn(decls, self, f, false, k)]
  }

  /** The calls of the plain-field loop, over Fields.Values in dictionary order. */
  function PlainFieldsOps(decls: seq<TopLevel>, self: nat, fields: seq<(int, MessageField)>, flat: seq<int>): seq<Op>
    requires ParentsBefore(decls) && FieldsIn(fields, |decls|)
  {
    if |fields| == 0 then []
    else
      assert FieldsIn(fields[..|fields| - 1], |decls|);
      PlainFieldsOps(decls, self, fields[..|fields| - 1], flat) + PlainFieldOps(decls, self, fields[|fields| - 1].1, flat)
  }

  /** The field lines of the plain section, in dictionary order. */
  function PlainFieldsLines(decls: seq<TopLevel>, self: nat, fields: seq<(int, MessageField)>, flat: seq<int>, k: nat)
    : seq<Line>
    requires ParentsBefore(decls) && FieldsIn(fields, |decls|)
  {
    if |fields| == 0 then []
    else
      assert FieldsIn(fields[..|fields| - 1], |decls|);
      PlainFieldsLines(decls, self, fields[..|fields| - 1], flat, k)
      + PlainFieldLines(decls, self, fields[|fields| - 1].1, flat, k)
  }

  lemma {:induction false} RenderPlainFields(decls: seq<TopLevel>, self: nat, fields: seq<(int, MessageField)>,
                                             flat: seq<int>, k: nat)
    requires ParentsBefore(decls) && FieldsIn(fields, |decls|)
    ensures Block(PlainFieldsOps(decls, self, fields, flat), k, PlainFieldsLines(decls, self, fields, flat, k))
  {
    if |fields| > 0 {
      var p := fields[..|fields| - 1];
      var f := fields[|fields| - 1].1;
      assert FieldsIn(p, |decls|);
      RenderPlainFields(decls, self, p, flat, k);
      if f.id !in flat {
        RenderField(f, TypeNameFrom(decls, self, f.fieldType), false, k);
      }
      BlockAppend(PlainFieldsOps(decls, self, p, flat), PlainFieldOps(decls, self, f, flat), k,
                  PlainFieldsLines(decls, self, p, flat, k), PlainFieldLines(decls, self, f, flat, k));
    }
  }

  /**
   * Every field whose id is not among the oneof ids `flat` has its line in
   * the plain section (Flatten's ids are those of some oneof).
   */
  lemma {:induction false} PlainFieldsComplete(decls: seq<TopLevel>, self: nat, fields: seq<(int, MessageField)>,
                                               flat: seq<int>, k: nat)
    requires ParentsBefore(decls) && FieldsIn(fields, |decls|)
    ensures forall j :: 0 <= j < |fields| && fields[j].1.id !in flat ==>
              FieldLineIn(decls, self, fields[j].1, false, k) in PlainFieldsLines(decls, self, fields, flat, k)
  {
    if |fields| > 0 {
      var p := fields[..|fields| - 1];
      var last := |fields| - 1;
      assert FieldsIn(p, |decls|);
      PlainFieldsComplete(decls, self, p, flat, k);
      var lp := PlainFieldsLines(decls, self, p, flat, k);
      var ll := PlainFieldLines(decls, self, fields[last].1, flat, k);
      assert PlainFieldsLines(decls, self, fields, flat, k) == lp + ll;
      forall j | 0 <= j < |fields| && fields[j].1.id !in flat
        ensures FieldLineIn(decls, self, fields[j].1, false, k) in lp + ll
      {
        if j < |p| {
          assert p[j] == fields[j];
          assert FieldLineIn(decls, self, p[j].1, false, k) in lp;
        } else {
          assert ll == [FieldLineIn(decls, self, fields[j].1, false, k)];
        }
      }
    }
  }

  /** Every line of the plain section is the line of a field whose id is not among `flat`. */
  lemma {:induction false} PlainFieldsSound(decls: seq<TopLevel>, self: nat, fields: seq<(int, MessageField)>,
                                            flat: seq<int>, k: nat)
    requires ParentsBefore(decls) && FieldsIn(fields, |decls|)
    ensures forall l :: l in PlainFieldsLines(decls, self, fields, flat, k) ==>
              exists j :: 0 <= j < |fields| && fields[j].1.id !in flat
                          && l == FieldLineIn(decls, self, fields[j].1, false, k)
  {
    if |fields| > 0 {
      var p := fields[..|fields| - 1];
      var last := |fields| - 1;
      assert FieldsIn(p, |decls|);
      PlainFieldsSound(decls, self, p, flat, k);
      var lp := PlainFieldsLines(decls, self, p, flat, k);
      var ll := PlainFieldLines(decls, self, fields[last].1, flat, k);
      assert PlainFieldsLines(decls, self, fields, flat, k) == lp + ll;
      forall l | l in lp + ll
        ensures exists j :: 0 <= j < |fields| && fields[j].1.id !in flat
                            && l == FieldLineIn(decls, self, fields[j].1, false, k)
      {
        if l in lp {
          var j :| 0 <= j < |p| && p[j].1.id !in flat && l == FieldLineIn(decls, self, p[j].1, false, k);
          assert p[j] == fields[j];
        } else {
          assert l == FieldLineIn(decls, self, fields[last].1, false, k);
        }
      }
    }
  }

  /** A dictionary of fields holds the key `id`. */
  predicate IsKey(fields: seq<(int, MessageField)>, id: int)
  {
    exists i :: 0 <= i < |fields| && fields[i].0 == id
  }

  /** Fields[id].WriteTo(writer, isOneOf: true), which throws KeyNotFound for an id that is not a key. */
  function FieldByIdTrace(decls: seq<TopLevel>, self: nat, fields: seq<(int, MessageField)>, id: int): Trace
    requires ParentsBefore(decls) && FieldsIn(fields, |decls|)
  {
    match LookupKey(fields, id)
    case None => Trace([], false)
    case Some(f) =>
      assert exists i :: 0 <= i < |fields| && fields[i] == (id, f);
      Emit(FieldOps(f, TypeNameFrom(decls, self, f.fieldType), true))
  }

  function FieldByIdLines(decls: seq<TopLevel>, self: nat, fields: seq<(int, MessageField)>, id: int, k: nat)
    : seq<Line>
    requires ParentsBefore(decls) && FieldsIn(fields, |decls|)
  {
    match LookupKey(fields, id)
    case None => []
    case Some(f) =>
      assert exists i :: 0 <= i < |fields| && fields[i] == (id, f);
      [FieldLineIn(decls, self, f, true, k)]
  }

  /** The indexer returns exactly for a key. */
  lemma FieldByIdOk(decls: seq<TopLevel>, self: nat, fields: seq<(int, MessageField)>, id: int)
    requires ParentsBefore(decls) && FieldsIn(fields, |decls|)
    ensures FieldByIdTrace(decls, self, fields, id).ok <==> IsKey(fields, id)
  {
    assert LookupKey(fields, id).Some? <==> IsKey(fields, id);
  }

  /** The calls of one oneof's id loop. */
  function GroupTrace(decls: seq<TopLevel>, self: nat, fields: seq<(int, MessageField)>, ids: seq<int>): Trace
    requires ParentsBefore(decls) && FieldsIn(fields, |decls|)
  {
    if |ids| == 0 then Emit([])
    else Then(GroupTrace(decls, self, fields, ids[..|ids| - 1]), FieldByIdTrace(decls, self, fields, ids[|ids| - 1]))
  }

  /** The field lines of one oneof, in the order of its ids. */
  function GroupLines(decls: seq<TopLevel>, self: nat, fields: seq<(int, MessageField)>, ids: seq<int>, k: nat)
    : seq<Line>
    requires ParentsBefore(decls) && FieldsIn(fields, |decls|)
  {
    if |ids| == 0 then []
    else GroupLines(decls, self, fields, ids[..|ids| - 1], k) + FieldByIdLines(decls, self, fields, ids[|ids| - 1], k)
  }

  /** The id loop returns exactly when every id of the oneof is a field id. */
  lemma {:induction false} GroupOk(decls: seq<TopLevel>, self: nat, fields: seq<(int, MessageField)>, ids: seq<int>)
    requires ParentsBefore(decls) && FieldsIn(fields, |decls|)
    ensures GroupTrace(decls, self, fields, ids).ok <==> AllKeys(fields, ids)
  {
    if |ids| > 0 {
      GroupOk(decls, self, fields, ids[..|ids| - 1]);
      FieldByIdOk(decls, self, fields, ids[|ids| - 1]);
      GroupOkStep(decls, self, fields, ids);
    }
  }

  lemma GroupOkStep(decls: seq<TopLevel>, self: nat, fields: seq<(int, MessageField)>, ids: seq<int>)
    requires ParentsBefore(decls) && FieldsIn(fields, |decls|) && |ids| > 0
    requires GroupTrace(decls, self, fields, ids[..|ids| - 1]).ok <==> AllKeys(fields, ids[..|ids| - 1])
    requires FieldByIdTrace(decls, self, fields, ids[|ids| - 1]).ok <==> IsKey(fields, ids[|ids| - 1])
    ensures GroupTrace(decls, self, fields, ids).ok <==> AllKeys(fields, ids)
  {
    assert GroupTrace(decls, self, fields, ids).ok
      == (GroupTrace(decls, self, fields, ids[..|ids| - 1]).ok && FieldByIdTrace(decls, self, fields, ids[|ids| - 1]).ok);
    AllKeysSnoc(fields, ids);
  }

  /** Every id of `ids` is a key of Fields. */
  predicate AllKeys(fields: seq<(int, MessageField)>, ids: seq<int>)
  {
    forall n :: 0 <= n < |ids| ==> IsKey(fields, ids[n])
  }

  lemma AllKeysSnoc(fields: seq<(int, MessageField)>, ids: seq<int>)
    requires |ids| > 0
    ensures AllKeys(fields, ids) <==> AllKeys(fields, ids[..|ids| - 1]) && IsKey(fields, ids[|ids| - 1])
  {
    var p := ids[..|ids| - 1];
    assert forall n :: 0 <= n < |p| ==> p[n] == ids[n];
  }

  lemma {:induction false} RenderGroup(decls: seq<TopLevel>, self: nat, fields: seq<(int, MessageField)>,
                                       ids: seq<int>, k: nat)
    requires ParentsBefore(decls) && FieldsIn(fields, |decls|)
    requires GroupTrace(decls, self, fields, ids).ok
    ensures Block(GroupTrace(decls, self, fields, ids).ops, k, GroupLines(decls, self, fields, ids, k))
  {
    if |ids| > 0 {
      var p := ids[..|ids| - 1];
      var id := ids[|ids| - 1];
      RenderGroup(decls, self, fields, p, k);
      var f := LookupKey(fields, id).value;
      assert exists i :: 0 <= i < |fields| && fields[i] == (id, f);
      RenderField(f, TypeNameFrom(decls, self, f.fieldType), true, k);
      BlockAppend(GroupTrace(decls, self, fields, p).ops, FieldByIdTrace(decls, self, fields, id).ops, k,
                  GroupLines(decls, self, fields, p, k), FieldByIdLines(decls, self, fields, id, k));
    }
  }

  /** Once the id loop has thrown, the later ids add nothing. */
  lemma {:induction false} GroupFailStays(decls: seq<TopLevel>, self: nat, fields: seq<(int, MessageField)>,
                                          ids: seq<int>, n: nat)
    requires ParentsBefore(decls) && FieldsIn(fields, |decls|)
    requires n <= |ids| && !GroupTrace(decls, self, fields, ids[..n]).ok
    ensures GroupTrace(decls, self, fields, ids) == GroupTrace(decls, self, fields, ids[..n])
  {
    if n < |ids| {
      var p := ids[..|ids| - 1];
      assert p[..n] == ids[..n];
      GroupFailStays(decls, self, fields, p, n);
    } else {
      assert ids[..n] == ids;
    }
  }

  /** The calls for one oneof: `oneof name {`, its fields one level in, and a `}` line. */
  function OneOfTrace(decls: seq<TopLevel>, self: nat, fields: seq<(int, MessageField)>, oneOf: (string, seq<int>))
    : Trace
    requires ParentsBefore(decls) && FieldsIn(fields, |decls|)
  {
    Braced("oneof ", oneOf.0, GroupTrace(decls, self, fields, oneOf.1), EndLine("}"))
  }

  function OneOfLines(decls: seq<TopLevel>, self: nat, fields: seq<(int, MessageField)>, oneOf: (string, seq<int>),
                      k: nat): seq<Line>
    requires ParentsBefore(decls) && FieldsIn(fields, |decls|)
  {
    [Line(k, "oneof " + oneOf.0 + " {")] + GroupLines(decls, self, fields, oneOf.1, k + 1) + [Line(k, "}")]
  }

  lemma RenderOneOf(decls: seq<TopLevel>, self: nat, fields: seq<(int, MessageField)>, oneOf: (string, seq<int>), k: nat)
    requires ParentsBefore(decls) && FieldsIn(fields, |decls|)
    requires OneOfTrace(decls, self, fields, oneOf).ok
    ensures Block(OneOfTrace(decls, self, fields, oneOf).ops, k, OneOfLines(decls, self, fields, oneOf, k))
  {
    var body := GroupTrace(decls, self, fields, oneOf.1);
    BracedTrace([], "oneof ", oneOf.0, body, EndLine("}"));
    RenderGroup(decls, self, fields, oneOf.1, k + 1);
    RenderBraced("oneof ", oneOf.0, body.ops, EndLine("}"), k, GroupLines(decls, self, fields, oneOf.1, k + 1));
  }

  /** The calls of the oneof loop, in dictionary order. */
  function OneOfsTrace(decls: seq<TopLevel>, self: nat, fields: seq<(int, MessageField)>,
                       oneOfs: seq<(string, seq<int>)>): Trace
    requires ParentsBefore(decls) && FieldsIn(fields, |decls|)
  {
    if |oneOfs| == 0 then Emit([])
    else Then(OneOfsTrace(decls, self, fields, oneOfs[..|oneOfs| - 1]),
              OneOfTrace(decls, self, fields, oneOfs[|oneOfs| - 1]))
  }

  function OneOfsLines(decls: seq<TopLevel>, self: nat, fields: seq<(int, MessageField)>,
                       oneOfs: seq<(string, seq<int>)>, k: nat): seq<Line>
    requires ParentsBefore(decls) && FieldsIn(fields, |decls|)
  {
    if |oneOfs| == 0 then []
    else OneOfsLines(decls, self, fields, oneOfs[..|oneOfs| - 1], k)
         + OneOfLines(decls, self, fields, oneOfs[|oneOfs| - 1], k)
  }

  lemma {:induction false} RenderOneOfs(decls: seq<TopLevel>, self: nat, fields: seq<(int, MessageField)>,
                                        oneOfs: seq<(string, seq<int>)>, k: nat)
    requires ParentsBefore(decls) && FieldsIn(fields, |decls|)
    requires OneOfsTrace(decls, self, fields, oneOfs).ok
    ensures Block(OneOfsTrace(decls, self, fields, oneOfs).ops, k, OneOfsLines(decls, self, fields, oneOfs, k))
  {
    if |oneOfs| > 0 {
      var p := oneOfs[..|oneOfs| - 1];
      var g := oneOfs[|oneOfs| - 1];
      RenderOneOfs(decls, self, fields, p, k);
      RenderOneOf(decls, self, fields, g, k);
      BlockAppend(OneOfsTrace(decls, self, fields, p).ops, OneOfTrace(decls, self, fields, g).ops, k,
                  OneOfsLines(decls, self, fields, p, k), OneOfLines(decls, self, fields, g, k));
    }
  }

  /** Every id of every oneof is a field id. */
  predicate OneOfIdsKnown(oneOfs: seq<(string, seq<int>)>, fields: seq<(int, MessageField)>)
  {
    forall g :: 0 <= g < |oneOfs| ==> AllKeys(fields, oneOfs[g].1)
  }

  /** The oneof loop returns exactly when every oneof id is a field id. */
  lemma {:induction false} OneOfsOk(decls: seq<TopLevel>, self: nat, fields: seq<(int, MessageField)>,
                                    oneOfs: seq<(string, seq<int>)>)
    requires ParentsBefore(decls) && FieldsIn(fields, |decls|)
    ensures OneOfsTrace(decls, self, fields, oneOfs).ok <==> OneOfIdsKnown(oneOfs, fields)
  {
    if |oneOfs| > 0 {
      var g := oneOfs[|oneOfs| - 1];
      OneOfsOk(decls, self, fields, oneOfs[..|oneOfs| - 1]);
      GroupOk(decls, self, fields, g.1);
      BracedOk("oneof ", g.0, GroupTrace(decls, self, fields, g.1), EndLine("}"));
      OneOfsOkStep(decls, self, fields, oneOfs);
    }
  }

  lemma OneOfsOkStep(decls: seq<TopLevel>, self: nat, fields: seq<(int, MessageField)>,
                     oneOfs: seq<(string, seq<int>)>)
    requires ParentsBefore(decls) && FieldsIn(fields, |decls|) && |oneOfs| > 0
    requires OneOfsTrace(decls, self, fields, oneOfs[..|oneOfs| - 1]).ok
             <==> OneOfIdsKnown(oneOfs[..|oneOfs| - 1], fields)
    requires OneOfTrace(decls, self, fields, oneOfs[|oneOfs| - 1]).ok <==> AllKeys(fields, oneOfs[|oneOfs| - 1].1)
    ensures OneOfsTrace(decls, self, fields, oneOfs).ok <==> OneOfIdsKnown(oneOfs, fields)
  {
    assert OneOfsTrace(decls, self, fields, oneOfs).ok
      == (OneOfsTrace(decls, self, fields, oneOfs[..|oneOfs| - 1]).ok
          && OneOfTrace(decls, self, fields, oneOfs[|oneOfs| - 1]).ok);
    OneOfIdsKnownSnoc(oneOfs, fields);
  }

  lemma OneOfIdsKnownSnoc(oneOfs: seq<(string, seq<int>)>, fields: seq<(int, MessageField)>)
    requires |oneOfs| > 0
    ensures OneOfIdsKnown(oneOfs, fields)
            <==> OneOfIdsKnown(oneOfs[..|oneOfs| - 1], fields) && AllKeys(fields, oneOfs[|oneOfs| - 1].1)
  {
    var p := oneOfs[..|oneOfs| - 1];
    if OneOfIdsKnown(p, fields) && AllKeys(fields, oneOfs[|oneOfs| - 1].1) {
      forall g | 0 <= g < |oneOfs|
        ensures AllKeys(fields, oneOfs[g].1)
      {
        if g < |p| {
          assert oneOfs[g] == p[g];
        }
      }
    }
    if OneOfIdsKnown(oneOfs, fields) {
      forall g | 0 <= g < |p|
        ensures AllKeys(fields, p[g].1)
      {
        assert p[g] == oneOfs[g];
      }
    }
  }

  lemma {:induction false} OneOfsFailStays(decls: seq<TopLevel>, self: nat, fields: seq<(int, MessageField)>,
                                           oneOfs: seq<(string, seq<int>)>, n: nat)
    requires ParentsBefore(decls) && FieldsIn(fields, |decls|)
    requires n <= |oneOfs| && !OneOfsTrace(decls, self, fields, oneOfs[..n]).ok
    ensures OneOfsTrace(decls, self, fields, oneOfs) == OneOfsTrace(decls, self, fields, oneOfs[..n])
  {
    if n < |oneOfs| {
      var p := oneOfs[..|oneOfs| - 1];
      assert p[..n] == oneOfs[..n];
      OneOfsFailStays(decls, self, fields, p, n);
    } else {
      assert oneOfs[..n] == oneOfs;
    }
  }

  // ---------------------------------------------------------------------
  // Top-levels and their nesting

  /** The calls of TopLevel.WriteTo for entry `i`, by its kind. */
  function TopLevelTrace(decls: seq<TopLevel>, i: nat): Trace
    requires WellFormed(decls) && i < |decls|
    decreases |decls| - i, 3, 0
  {
    match decls[i].body
    case EnumBody(fields, isClosed) => Emit(EnumOps(decls[i].name, decls[i].isObsolete, fields, isClosed))
    case ServiceBody(methods) => Emit(ServiceOps(decls, i, methods))
    case MessageBody(_, _, _) => MessageTrace(decls, i)
  }

  /** The calls of Message.WriteTo. */
  function MessageTrace(decls: seq<TopLevel>, i: nat): Trace
    requires WellFormed(decls) && i < |decls| && decls[i].body.MessageBody?
    decreases |decls| - i, 2, 0
  {
    Braced("message ", decls[i].name, MessageBodyTrace(decls, i), Text("}"))
  }

  /** The plain fields, the oneofs and the nested declarations, after the deprecated option. */
  function MessageBodyTrace(decls: seq<TopLevel>, i: nat): Trace
    requires WellFormed(decls) && i < |decls| && decls[i].body.MessageBody?
    decreases |decls| - i, 1, 0
  {
    var b := decls[i].body;
    assert BodyFits(b, i, |decls|);
    Then(Emit(OptionIf(decls[i].isObsolete, "deprecated", "true") + PlainFieldsOps(decls, i, b.fields, Flatten(b.oneOfs))),
         Then(OneOfsTrace(decls, i, b.fields, b.oneOfs), NestedTrace(decls, i, b.nested)))
  }

  /** The nested loop: each nested declaration's WriteTo, then WriteLine(). */
  function NestedTrace(decls: seq<TopLevel>, self: nat, nested: seq<(string, nat)>): Trace
    requires WellFormed(decls) && self < |decls| && NestedAfter(nested, self, |decls|)
    decreases |decls| - self, 0, |nested|
  {
    if |nested| == 0 then Emit([])
    else
      var j := nested[|nested| - 1].1;
      Then(NestedTrace(decls, self, nested[..|nested| - 1]), Then(TopLevelTrace(decls, j), Emit([EndLine("")])))
  }

  /** The lines of a top-level; its closing `}` is the last line, left open. */
  function TopLevelLines(decls: seq<TopLevel>, i: nat, k: nat): seq<Line>
    requires WellFormed(decls) && i < |decls|
    decreases |decls| - i, 2, 0
  {
    match decls[i].body
    case EnumBody(fields, isClosed) => EnumLines(decls[i].name, decls[i].isObsolete, fields, isClosed, k)
    case ServiceBody(methods) => ServiceLines(decls, i, methods, k)
    case MessageBody(_, _, _) => [Line(k, "message " + decls[i].name + " {")] + MessageBodyLines(decls, i, k + 1) + [Line(k, "}")]
  }

  /** The deprecated option, the plain fields, the oneofs and the nested declarations. */
  function MessageBodyLines(decls: seq<TopLevel>, i: nat, k: nat): seq<Line>
    requires WellFormed(decls) && i < |decls| && decls[i].body.MessageBody?
    decreases |decls| - i, 1, 0
  {
    var b := decls[i].body;
    assert BodyFits(b, i, |decls|);
    (OptionLinesIf(decls[i].isObsolete, "deprecated", "true", k) + PlainFieldsLines(decls, i, b.fields, Flatten(b.oneOfs), k))
    + (OneOfsLines(decls, i, b.fields, b.oneOfs, k) + NestedLines(decls, i, b.nested, k))
  }

  /** The nested declarations' lines, in dictionary order, each one ended. */
  function NestedLines(decls: seq<TopLevel>, self: nat, nested: seq<(string, nat)>, k: nat): seq<Line>
    requires WellFormed(decls) && self < |decls| && NestedAfter(nested, self, |decls|)
    decreases |decls| - self, 0, |nested|
  {
    if |nested| == 0 then []
    else NestedLines(decls, self, nested[..|nested| - 1], k) + TopLevelLines(decls, nested[|nested| - 1].1, k)
  }

  /**
   * A top-level that returns writes its lines at level `k`, the closing
   * brace left open.
   */
  lemma {:induction false} RenderTopLevel(decls: seq<TopLevel>, i: nat, k: nat)
    requires WellFormed(decls) && i < |decls| && TopLevelTrace(decls, i).ok
    ensures Render(TopLevelTrace(decls, i).ops, k) == State(TopLevelLines(decls, i, k), true, k)
    decreases |decls| - i, 2, 0
  {
    assert BodyFits(decls[i].body, i, |decls|);
    match decls[i].body
    case EnumBody(fields, isClosed) =>
      RenderEnum(decls[i].name, decls[i].isObsolete, fields, isClosed, k);
    case ServiceBody(methods) =>
      RenderService(decls, i, methods, k);
    case MessageBody(_, _, _) =>
      var body := MessageBodyTrace(decls, i);
      BracedTrace([], "message ", decls[i].name, body, Text("}"));
      RenderMessageBody(decls, i, k + 1);
      RenderBraced("message ", decls[i].name, body.ops, Text("}"), k, MessageBodyLines(decls, i, k + 1));
  }

  lemma {:induction false} RenderMessageBody(decls: seq<TopLevel>, i: nat, k: nat)
    requires WellFormed(decls) && i < |decls| && decls[i].body.MessageBody? && MessageBodyTrace(decls, i).ok
    ensures Block(MessageBodyTrace(decls, i).ops, k, MessageBodyLines(decls, i, k))
    decreases |decls| - i, 1, 0
  {
    var b := decls[i].body;
    assert BodyFits(b, i, |decls|);
    var o := OptionIf(decls[i].isObsolete, "deprecated", "true");
    var lo := OptionLinesIf(decls[i].isObsolete, "deprecated", "true", k);
    var flat := Flatten(b.oneOfs);
    RenderOptionIf(decls[i].isObsolete, "deprecated", "true", k);
    RenderPlainFields(decls, i, b.fields, flat, k);
    BlockAppend(o, PlainFieldsOps(decls, i, b.fields, flat), k, lo, PlainFieldsLines(decls, i, b.fields, flat, k));
    var g := OneOfsTrace(decls, i, b.fields, b.oneOfs);
    var n := NestedTrace(decls, i, b.nested);
    RenderOneOfs(decls, i, b.fields, b.oneOfs, k);
    RenderNested(decls, i, b.nested, k);
    BlockAppend(g.ops, n.ops, k, OneOfsLines(decls, i, b.fields, b.oneOfs, k), NestedLines(decls, i, b.nested, k));
    BlockAppend(o + PlainFieldsOps(decls, i, b.fields, flat), g.ops + n.ops, k,
                lo + PlainFieldsLines(decls, i, b.fields, flat, k),
                OneOfsLines(decls, i, b.fields, b.oneOfs, k) + NestedLines(decls, i, b.nested, k));
  }

  /** Each nested declaration's lines, each ended by the WriteLine() after it. */
  lemma {:induction false} RenderNested(decls: seq<TopLevel>, self: nat, nested: seq<(string, nat)>, k: nat)
    requires WellFormed(decls) && self < |decls| && NestedAfter(nested, self, |decls|)
    requires NestedTrace(decls, self, nested).ok
    ensures Block(NestedTrace(decls, self, nested).ops, k, NestedLines(decls, self, nested, k))
    decreases |decls| - self, 0, |nested|
  {
    if |nested| > 0 {
      var p := nested[..|nested| - 1];
      var j := nested[|nested| - 1].1;
      var t := TopLevelTrace(decls, j);
      RenderNested(decls, self, p, k);
      RenderTopLevel(decls, j, k);
      EndOpenLine(t.ops, k, TopLevelLines(decls, j, k));
      BlockAppend(NestedTrace(decls, self, p).ops, t.ops + [EndLine("")], k,
                  NestedLines(decls, self, p, k), TopLevelLines(decls, j, k));
    }
  }

  /**
   * Entry `i` can be written: a message whose oneof ids are all field ids
   * and whose nested declarations can all be written.
   */
  predicate Writable(decls: seq<TopLevel>, i: nat)
    requires WellFormed(decls) && i < |decls|
    decreases |decls| - i
  {
    match decls[i].body
    case MessageBody(oneOfs, fields, nested) =>
      assert BodyFits(decls[i].body, i, |decls|);
      OneOfIdsKnown(oneOfs, fields) && forall n :: 0 <= n < |nested| ==> Writable(decls, nested[n].1)
    case _ => true
  }

  /**
   * TopLevel.WriteTo returns exactly when the entry is Writable: the only
   * exception is the KeyNotFound of a oneof id that is no field id, at any
   * depth of nesting.
   */
  lemma {:induction false} TopLevelOk(decls: seq<TopLevel>, i: nat)
    requires WellFormed(decls) && i < |decls|
    ensures TopLevelTrace(decls, i).ok <==> Writable(decls, i)
    decreases |decls| - i, 2, 0
  {
    assert BodyFits(decls[i].body, i, |decls|);
    if decls[i].body.MessageBody? {
      BracedTrace([], "message ", decls[i].name, MessageBodyTrace(decls, i), Text("}"));
      MessageBodyOk(decls, i);
    }
  }

  lemma {:induction false} MessageBodyOk(decls: seq<TopLevel>, i: nat)
    requires WellFormed(decls) && i < |decls| && decls[i].body.MessageBody?
    ensures MessageBodyTrace(decls, i).ok <==> Writable(decls, i)
    decreases |decls| - i, 1, 0
  {
    var b := decls[i].body;
    assert BodyFits(b, i, |decls|);
    OneOfsOk(decls, i, b.fields, b.oneOfs);
    NestedOk(decls, i, b.nested);
  }

  lemma {:induction false} NestedOk(decls: seq<TopLevel>, self: nat, nested: seq<(string, nat)>)
    requires WellFormed(decls) && self < |decls| && NestedAfter(nested, self, |decls|)
    ensures NestedTrace(decls, self, nested).ok <==> AllWritable(decls, self, nested)
    decreases |decls| - self, 0, |nested|
  {
    if |nested| > 0 {
      NestedOk(decls, self, nested[..|nested| - 1]);
      TopLevelOk(decls, nested[|nested| - 1].1);
      NestedOkStep(decls, self, nested);
    }
  }

  lemma NestedOkStep(decls: seq<TopLevel>, self: nat, nested: seq<(string, nat)>)
    requires WellFormed(decls) && self < |decls| && NestedAfter(nested, self, |decls|) && |nested| > 0
    requires NestedTrace(decls, self, nested[..|nested| - 1]).ok <==> AllWritable(decls, self, nested[..|nested| - 1])
    requires TopLevelTrace(decls, nested[|nested| - 1].1).ok <==> Writable(decls, nested[|nested| - 1].1)
    ensures NestedTrace(decls, self, nested).ok <==> AllWritable(decls, self, nested)
  {
    assert NestedTrace(decls, self, nested).ok
      == (NestedTrace(decls, self, nested[..|nested| - 1]).ok && TopLevelTrace(decls, nested[|nested| - 1].1).ok);
    AllWritableSnoc(decls, self, nested);
  }

  /** Every declaration of `nested` can be written. */
  predicate AllWritable(decls: seq<TopLevel>, self: nat, nested: seq<(string, nat)>)
    requires WellFormed(decls) && NestedAfter(nested, self, |decls|)
  {
    forall n :: 0 <= n < |nested| ==> Writable(decls, nested[n].1)
  }

  lemma AllWritableSnoc(decls: seq<TopLevel>, self: nat, nested: seq<(string, nat)>)
    requires WellFormed(decls) && NestedAfter(nested, self, |decls|) && |nested| > 0
    ensures AllWritable(decls, self, nested)
            <==> AllWritable(decls, self, nested[..|nested| - 1]) && Writable(decls, nested[|nested| - 1].1)
  {
    var p := nested[..|nested| - 1];
    assert forall n :: 0 <= n < |p| ==> p[n] == nested[n];
  }

  /** One more nested declaration that returns, and the WriteLine() after it. */
  lemma NestedSnoc(decls: seq<TopLevel>, self: nat, nested: seq<(string, nat)>, n: nat, t0: seq<Op>, t1: seq<Op>)
    requires WellFormed(decls) && self < |decls| && NestedAfter(nested, self, |decls|) && n < |nested|
    requires NestedTrace(decls, self, nested[..n]).ok && TopLevelTrace(decls, nested[n].1).ok
    requires t1 == t0 + NestedTrace(decls, self, nested[..n]).ops
    ensures NestedTrace(decls, self, nested[..n + 1]).ok
    ensures t1 + TopLevelTrace(decls, nested[n].1).ops + [EndLine("")] == t0 + NestedTrace(decls, self, nested[..n + 1]).ops
  {
    var t := TopLevelTrace(decls, nested[n].1);
    assert nested[..n + 1][..n] == nested[..n];
    AppendAssoc(t1, t.ops, [EndLine("")]);
    AppendAssoc(t0, NestedTrace(decls, self, nested[..n]).ops, t.ops + [EndLine("")]);
  }

  lemma {:induction false} NestedFailStays(decls: seq<TopLevel>, self: nat, nested: seq<(string, nat)>, n: nat)
    requires WellFormed(decls) && self < |decls| && NestedAfter(nested, self, |decls|)
    requires n <= |nested| && !NestedTrace(decls, self, nested[..n]).ok
    ensures NestedTrace(decls, self, nested) == NestedTrace(decls, self, nested[..n])
  {
    if n < |nested| {
      var p := nested[..|nested| - 1];
      assert p[..n] == nested[..n];
      NestedFailStays(decls, self, p, n);
    } else {
      assert nested[..n] == nested;
    }
  }

  // ---------------------------------------------------------------------
  // The serializers of messages and top-levels

  /**
   * TopLevel.WriteTo, dispatched on the kind of entry `i`; `ok` is false when
   * it threw, after the calls it had made.
   */
  method WriteTopLevelTo(w: IndentedWriter, decls: seq<TopLevel>, i: nat) returns (ok: bool)
    requires WellFormed(decls) && i < |decls|
    modifies w
    ensures w.trace == old(w.trace) + TopLevelTrace(decls, i).ops && ok == TopLevelTrace(decls, i).ok
    decreases |decls| - i, 3
  {
    assert BodyFits(decls[i].body, i, |decls|);
    match decls[i].body
    case EnumBody(fields, isClosed) =>
      WriteEnumTo(w, decls[i].name, decls[i].isObsolete, fields, isClosed);
      ok := true;
    case ServiceBody(methods) =>
      WriteServiceTo(w, decls, i, methods);
      ok := true;
    case MessageBody(_, _, _) =>
      ok := WriteMessageTo(w, decls, i);
  }

  /** Message.WriteTo. */
  method WriteMessageTo(w: IndentedWriter, decls: seq<TopLevel>, i: nat) returns (ok: bool)
    requires WellFormed(decls) && i < |decls| && decls[i].body.MessageBody?
    modifies w
    ensures w.trace == old(w.trace) + MessageTrace(decls, i).ops && ok == MessageTrace(decls, i).ok
    decreases |decls| - i, 2
  {
    ghost var t0 := w.trace;
    OpenBrace(w, "message ", decls[i].name);
    ok := WriteMessageBody(w, decls, i);
    BracedTrace(t0, "message ", decls[i].name, MessageBodyTrace(decls, i), Text("}"));
    if !ok {
      return;
    }
    CloseBrace(w, Text("}"));
  }

  /** Message.WriteTo between the braces. */
  method WriteMessageBody(w: IndentedWriter, decls: seq<TopLevel>, i: nat) returns (ok: bool)
    requires WellFormed(decls) && i < |decls| && decls[i].body.MessageBody?
    modifies w
    ensures w.trace == old(w.trace) + MessageBodyTrace(decls, i).ops && ok == MessageBodyTrace(decls, i).ok
    decreases |decls| - i, 1
  {
    var b := decls[i].body;
    assert BodyFits(b, i, |decls|);
    ghost var t0 := w.trace;
    ghost var o := OptionIf(decls[i].isObsolete, "deprecated", "true");
    WriteOptionIf(w, decls[i].isObsolete, "deprecated", "true");
    var flat := Flatten(b.oneOfs);
    WritePlainFields(w, decls, i, b.fields, flat);
    ghost var op := o + PlainFieldsOps(decls, i, b.fields, flat);
    AppendAssoc(t0, o, PlainFieldsOps(decls, i, b.fields, flat));
    ghost var g := OneOfsTrace(decls, i, b.fields, b.oneOfs);
    ok := WriteOneOfs(w, decls, i, b.fields, b.oneOfs);
    if !ok {
      AppendAssoc(t0, op, g.ops);
      return;
    }
    ghost var n := NestedTrace(decls, i, b.nested);
    ok := WriteNested(w, decls, i, b.nested);
    AppendAssoc(t0 + op, g.ops, n.ops);
    AppendAssoc(t0, op, g.ops + n.ops);
  }

  /** The plain-field loop: every field whose id is in no oneof, as a plain field. */
  method WritePlainFields(w: IndentedWriter, decls: seq<TopLevel>, self: nat, fields: seq<(int, MessageField)>,
                          flat: seq<int>)
    requires ParentsBefore(decls) && FieldsIn(fields, |decls|)
    modifies w
    ensures w.trace == old(w.trace) + PlainFieldsOps(decls, self, fields, flat)
  {
    ghost var t0 := w.trace;
    for n := 0 to |fields|
      invariant w.trace == t0 + PlainFieldsOps(decls, self, fields[..n], flat)
    {
      var f := fields[n].1;
      assert RefsIn(f.fieldType, |decls|);
      assert FieldsIn(fields[..n + 1], |decls|);
      assert fields[..n + 1][..n] == fields[..n];
      AppendAssoc(t0, PlainFieldsOps(decls, self, fields[..n], flat), PlainFieldOps(decls, self, f, flat));
      if f.id !in flat {
        WriteDeclaredFieldTo(w, decls, self, f, false);
      }
    }
    assert fields[..|fields|] == fields;
  }

  /** The oneof loop; it stops at the first oneof that throws. */
  method WriteOneOfs(w: IndentedWriter, decls: seq<TopLevel>, self: nat, fields: seq<(int, MessageField)>,
                     oneOfs: seq<(string, seq<int>)>) returns (ok: bool)
    requires ParentsBefore(decls) && FieldsIn(fields, |decls|)
    modifies w
    ensures w.trace == old(w.trace) + OneOfsTrace(decls, self, fields, oneOfs).ops
    ensures ok == OneOfsTrace(decls, self, fields, oneOfs).ok
  {
    ghost var t0 := w.trace;
    ok := true;
    for n := 0 to |oneOfs|
      invariant OneOfsTrace(decls, self, fields, oneOfs[..n]).ok
      invariant w.trace == t0 + OneOfsTrace(decls, self, fields, oneOfs[..n]).ops
    {
      assert oneOfs[..n + 1][..n] == oneOfs[..n];
      ok := WriteOneOf(w, decls, self, fields, oneOfs[n]);
      AppendAssoc(t0, OneOfsTrace(decls, self, fields, oneOfs[..n]).ops,
                  OneOfTrace(decls, self, fields, oneOfs[n]).ops);
      if !ok {
        OneOfsFailStays(decls, self, fields, oneOfs, n + 1);
        return;
      }
    }
    assert oneOfs[..|oneOfs|] == oneOfs;
  }

  /** One oneof: its header, its fields by id, and a `}` line. */
  method WriteOneOf(w: IndentedWriter, decls: seq<TopLevel>, self: nat, fields: seq<(int, MessageField)>,
                    oneOf: (string, seq<int>)) returns (ok: bool)
    requires ParentsBefore(decls) && FieldsIn(fields, |decls|)
    modifies w
    ensures w.trace == old(w.trace) + OneOfTrace(decls, self, fields, oneOf).ops
    ensures ok == OneOfTrace(decls, self, fields, oneOf).ok
  {
    ghost var t0 := w.trace;
    OpenBrace(w, "oneof ", oneOf.0);
    ok := WriteGroup(w, decls, self, fields, oneOf.1);
    BracedTrace(t0, "oneof ", oneOf.0, GroupTrace(decls, self, fields, oneOf.1), EndLine("}"));
    if !ok {
      return;
    }
    CloseBrace(w, EndLine("}"));
  }

  /** The id loop of one oneof: Fields[fieldId] throws for an id that is not a key. */
  method WriteGroup(w: IndentedWriter, decls: seq<TopLevel>, self: nat, fields: seq<(int, MessageField)>,
                    ids: seq<int>) returns (ok: bool)
    requires ParentsBefore(decls) && FieldsIn(fields, |decls|)
    modifies w
    ensures w.trace == old(w.trace) + GroupTrace(decls, self, fields, ids).ops
    ensures ok == GroupTrace(decls, self, fields, ids).ok
  {
    ghost var t0 := w.trace;
    for n := 0 to |ids|
      invariant GroupTrace(decls, self, fields, ids[..n]).ok
      invariant w.trace == t0 + GroupTrace(decls, self, fields, ids[..n]).ops
    {
      assert ids[..n + 1][..n] == ids[..n];
      var field := LookupKey(fields, ids[n]);
      if field.None? {
        assert GroupTrace(decls, self, fields, ids[..n]).ops + [] == GroupTrace(decls, self, fields, ids[..n]).ops;
        GroupFailStays(decls, self, fields, ids, n + 1);
        return false;
      }
      assert exists j :: 0 <= j < |fields| && fields[j] == (ids[n], field.value);
      AppendAssoc(t0, GroupTrace(decls, self, fields, ids[..n]).ops, FieldByIdTrace(decls, self, fields, ids[n]).ops);
      WriteDeclaredFieldTo(w, decls, self, field.value, true);
    }
    assert ids[..|ids|] == ids;
    ok := true;
  }

  /** The nested loop: each nested declaration, then an empty WriteLine(). */
  method WriteNested(w: IndentedWriter, decls: seq<TopLevel>, self: nat, nested: seq<(string, nat)>) returns (ok: bool)
    requires WellFormed(decls) && self < |decls| && NestedAfter(nested, self, |decls|)
    modifies w
    ensures w.trace == old(w.trace) + NestedTrace(decls, self, nested).ops
    ensures ok == NestedTrace(decls, self, nested).ok
    decreases |decls| - self, 0
  {
    ghost var t0 := w.trace;
    ok := true;
    for n := 0 to |nested|
      invariant NestedTrace(decls, self, nested[..n]).ok
      invariant w.trace == t0 + NestedTrace(decls, self, nested[..n]).ops
    {
      assert nested[..n + 1][..n] == nested[..n];
      var j := nested[n].1;
      ghost var t1 := w.trace;
      ghost var t := TopLevelTrace(decls, j);
      ok := WriteTopLevelTo(w, decls, j);
      if !ok {
        AppendAssoc(t0, NestedTrace(decls, self, nested[..n]).ops, t.ops);
        NestedFailStays(decls, self, nested, n + 1);
        return;
      }
      w.WriteLine("");
      NestedSnoc(decls, self, nested, n, t0, t1);
    }
    assert nested[..|nested|] == nested;
  }
}
