// The stand-alone protodec engine of the original command-line tool: a
// Protodec object with two dictionaries, Messages and Enums, filled by
// ParseMessage, which walks a message class's properties with one index for
// both the properties and the id constants, and by ParseType and ParseEnum
// for the field types.  Unlike the library engine it keeps no descent set:
// a message is recorded only after its property loop, so a class that
// reaches itself through its fields recurses until the runtime's stack is
// gone.  The functions below are the specification; class Protodec holds
// the two dictionaries and its methods are proved to follow the functions.
module StandaloneEngine {
  import opened Util
  import opened Reflection
  import opened LegacyWriters
  import LibraryParsing
  import Writer
  import N = Naming

  /** The dictionaries Messages and Enums, keyed by CLR type name, in insertion order. */
  datatype Tables = Tables(messages: seq<(string, Proto)>, enums: seq<(string, Proto)>)

  /** What ParseMessage leaves: the exception it threw, if any, and the dictionaries. */
  datatype MessageParsed = MessageParsed(thrown: Option<Error>, tables: Tables)

  /** What ParseType leaves: also the message being built, and the type name it returns. */
  datatype TypeParsed = TypeParsed(thrown: Option<Error>, tables: Tables, message: Proto, typeName: string)

  /** What the property loop and ParseEnum leave: also the message being built. */
  datatype Looped = Looped(thrown: Option<Error>, tables: Tables, message: Proto)

  /** Both dictionaries only grow at their ends. */
  predicate Grows(d: Tables, d2: Tables)
  {
    d.messages <= d2.messages && d.enums <= d2.enums
  }

  // ---------------------------------------------------------------------
  // Names

  /** TranslateMessageFieldName: a beebyted name as it is, any other in lower snake case. */
  function FieldName(name: string): (r: string)
    ensures !N.IsBeebyted(name) ==> forall k :: 0 <= k < |r| ==> !N.IsAsciiUpper(r[k])
  {
    N.SnakeLowerHasNoUpper(name);
    if N.IsBeebyted(name) then name else N.SnakeLower(name)
  }

  /** TranslateEnumFieldName: a beebyted name as it is, any other in upper snake case, with no enum prefix. */
  function EnumFieldName(name: string): (r: string)
    ensures !N.IsBeebyted(name) ==> forall k :: 0 <= k < |r| ==> !N.IsAsciiLower(r[k])
  {
    N.SnakeUpperHasNoLower(name);
    if N.IsBeebyted(name) then name else N.SnakeUpper(name)
  }

  /**
   * An enum member's name: the string argument of its one
   * OriginalNameAttribute, else the translated CLR name; several such
   * attributes make SingleOrDefault throw.
   */
  function MemberName(field: StaticField): (r: Result<string>)
    ensures r.Failure? <==> |OriginalNameAttributes(field.attributes)| > 1
    ensures r.Success? && OriginalNameAttributes(field.attributes) == [] ==> r.value == EnumFieldName(field.name)
  {
    var original :- OriginalName(field.attributes);
    Success(if original.Some? then original.value else EnumFieldName(field.name))
  }

  // ---------------------------------------------------------------------
  // Enum members

  predicate HasMemberId(members: seq<(int, string)>, id: int)
  {
    exists k :: 0 <= k < |members| && members[k].0 == id
  }

  /** No two fields of the enum share a constant. */
  predicate DistinctConstants(fields: seq<StaticField>)
  {
    forall i, j :: 0 <= i < j < |fields| ==> fields[i].constant != fields[j].constant
  }

  /** Some field carries more than one OriginalNameAttribute. */
  predicate SomeNameAmbiguous(fields: seq<StaticField>)
  {
    exists i :: 0 <= i < |fields| && |OriginalNameAttributes(fields[i].attributes)| > 1
  }

  /** The members are the fields in order, each under its constant and its member name. */
  predicate MembersNamed(fields: seq<StaticField>, members: seq<(int, string)>)
  {
    |members| == |fields|
    && forall i :: 0 <= i < |fields| ==> MemberName(fields[i]) == Success(members[i].1) && members[i].0 == fields[i].constant
  }

  /**
   * The foreach of ParseEnum: each field's id and name, then Fields.Add,
   * which throws on an id already present.
   */
  function Members(fields: seq<StaticField>): (r: Result<seq<(int, string)>>)
    ensures r.Success? <==> !SomeNameAmbiguous(fields) && DistinctConstants(fields)
    ensures r.Success? ==> MembersNamed(fields, r.value)
  {
    if |fields| == 0 then Success([])
    else
      var p := fields[..|fields| - 1];
      var last := fields[|fields| - 1];
      assert fields == p + [last];
      MembersSnoc(p, last);
      match Members(p)
      case Failure(e) => Failure(e)
      case Success(done) =>
        match MemberName(last)
        case Failure(e) => Failure(e)
        case Success(name) =>
          MemberIdsSnoc(p, last, done);
          if HasMemberId(done, last.constant) then Failure(DuplicateKey)
          else Success(done + [(last.constant, name)])
  }

  lemma MembersSnoc(p: seq<StaticField>, last: StaticField)
    ensures SomeNameAmbiguous(p + [last]) <==> SomeNameAmbiguous(p) || |OriginalNameAttributes(last.attributes)| > 1
    ensures DistinctConstants(p + [last]) <==>
              DistinctConstants(p) && forall i :: 0 <= i < |p| ==> p[i].constant != last.constant
  {
    var f := p + [last];
    if SomeNameAmbiguous(f) {
      var i :| 0 <= i < |f| && |OriginalNameAttributes(f[i].attributes)| > 1;
      if i < |p| { assert p[i] == f[i]; }
    }
    if SomeNameAmbiguous(p) {
      var i :| 0 <= i < |p| && |OriginalNameAttributes(p[i].attributes)| > 1;
      assert f[i] == p[i];
    }
    if DistinctConstants(f) {
      forall i | 0 <= i < |p| ensures p[i].constant != last.constant {
        assert f[i] == p[i] && f[|p|] == last;
      }
      forall i, j | 0 <= i < j < |p| ensures p[i].constant != p[j].constant {
        assert f[i] == p[i] && f[j] == p[j];
      }
    }
    if DistinctConstants(p) && forall i :: 0 <= i < |p| ==> p[i].constant != last.constant {
      forall i, j | 0 <= i < j < |f| ensures f[i].constant != f[j].constant {
        assert f[i] == p[i];
        if j < |p| { assert f[j] == p[j]; } else { assert f[j] == last; }
      }
    }
  }

  lemma MemberIdsSnoc(p: seq<StaticField>, last: StaticField, done: seq<(int, string)>)
    requires MembersNamed(p, done)
    ensures HasMemberId(done, last.constant) <==> exists i :: 0 <= i < |p| && p[i].constant == last.constant
    ensures forall name :: MemberName(last) == Success(name) ==> MembersNamed(p + [last], done + [(last.constant, name)])
  {
    if HasMemberId(done, last.constant) {
      var k :| 0 <= k < |done| && done[k].0 == last.constant;
      assert p[k].constant == last.constant;
    }
    forall name | MemberName(last) == Success(name) ensures MembersNamed(p + [last], done + [(last.constant, name)]) {
      var f, m := p + [last], done + [(last.constant, name)];
      forall i | 0 <= i < |f| ensures MemberName(f[i]) == Success(m[i].1) && m[i].0 == f[i].constant {
        if i < |p| { assert f[i] == p[i] && m[i] == done[i]; }
      }
    }
  }

  // ---------------------------------------------------------------------
  // The parse, as functions

  /** The oneof test: an enum declared directly in the message class (by simple name). */
  predicate IsOneOf(u: seq<ClrType>, t: TypeId, p: Property)
  {
    t < |u| && p.propertyType < |u| && u[p.propertyType].isEnum && u[p.propertyType].declaringTypeName == Some(u[t].name)
  }

  /**
   * ParseEnum: nothing when the enum is nested and already in the message,
   * or is in Enums; otherwise its members, then nested into the message, or
   * imported by the message and added to Enums.
   */
  function ParseEnumS(u: seq<ClrType>, d: Tables, t: TypeId, msg: Proto): (r: Looped)
    requires t < |u| && msg.Message?
    ensures Grows(d, r.tables) && LibraryParsing.Extends(msg, r.message)
    ensures (u[t].isNested && LibraryParsing.HasProto(msg.nested, u[t].name)) || LibraryParsing.HasProto(d.enums, u[t].name) ==>
              r == Looped(None, d, msg)
  {
    var e := u[t];
    if (e.isNested && LibraryParsing.HasProto(msg.nested, e.name)) || LibraryParsing.HasProto(d.enums, e.name) then
      Looped(None, d, msg)
    else
      match Members(e.staticFields)
      case Failure(err) => Looped(Some(err), d, msg)
      case Success(members) =>
        var p := Enum(e.name, None, None, members);
        if e.isNested then Looped(None, d, msg.(nested := msg.nested + [(e.name, p)]))
        else Looped(None, d.(enums := d.enums + [(e.name, p)]), msg.(imports := LibraryParsing.AddImport(msg.imports, e.name)))
  }

  /**
   * ParseMessage: a class is required; a name already in Messages ends it;
   * otherwise the property loop one stack frame deeper, then Messages.Add.
   * `depth` is how many nested ParseMessage frames the runtime's stack has
   * room for.
   */
  function ParseMessageS(u: seq<ClrType>, d: Tables, t: TypeId, skipEnums: bool, depth: nat): (r: MessageParsed)
    requires WellFormed(u) && t < |u|
    ensures Grows(d, r.tables)
    ensures !u[t].isClass ==> r == MessageParsed(Some(GuardFailed), d)
    ensures u[t].isClass && LibraryParsing.HasProto(d.messages, u[t].name) ==> r == MessageParsed(None, d)
    decreases depth, 0, 0
  {
    var c := u[t];
    if !c.isClass then MessageParsed(Some(GuardFailed), d)
    else if LibraryParsing.HasProto(d.messages, c.name) then MessageParsed(None, d)
    else if depth == 0 then MessageParsed(Some(StackExhausted), d)
    else
      var l := LoopS(u, d, t, skipEnums, depth - 1, Message(c.name, None, None, [], [], [], []), 0);
      if l.thrown.Some? then MessageParsed(l.thrown, l.tables)
      else if LibraryParsing.HasProto(l.tables.messages, c.name) then MessageParsed(Some(DuplicateKey), l.tables)
      else MessageParsed(None, l.tables.(messages := l.tables.messages + [(c.name, l.message)]))
  }

  /** The property loop from index `i`, up to the first exception. */
  function LoopS(u: seq<ClrType>, d: Tables, t: TypeId, skipEnums: bool, depth: nat, msg: Proto, i: nat): (r: Looped)
    requires WellFormed(u) && t < |u| && msg.Message?
    ensures Grows(d, r.tables) && r.message.Message? && r.message.name == msg.name
    decreases depth, 3, |u[t].properties| - i
  {
    if i >= |u[t].properties| then Looped(None, d, msg)
    else
      var s := StepS(u, d, t, skipEnums, depth, msg, i);
      if s.thrown.Some? then s else LoopS(u, s.tables, t, skipEnums, depth, s.message, i + 1)
  }

  /**
   * The loop body for property `i`.  A oneof: OneOfs.Add of the translated
   * name and the enum's positive constants.  Any other property: the id
   * field at the SAME index `i` must exist, be a literal and an Int32; then
   * the type is parsed and Fields.Add files the field under the id.
   */
  function StepS(u: seq<ClrType>, d: Tables, t: TypeId, skipEnums: bool, depth: nat, msg: Proto, i: nat): (r: Looped)
    requires WellFormed(u) && t < |u| && msg.Message? && i < |u[t].properties|
    ensures Grows(d, r.tables) && r.message.Message? && r.message.name == msg.name
    ensures r.thrown.None? && IsOneOf(u, t, u[t].properties[i]) ==>
              r.message.fields == msg.fields && r.message.oneOfs == msg.oneOfs + [OneOfEntry(u, t, i)]
    ensures r.thrown.None? && !IsOneOf(u, t, u[t].properties[i]) ==>
              r.message.oneOfs == msg.oneOfs && |r.message.fields| == |msg.fields| + 1
              && r.message.fields[..|msg.fields|] == msg.fields && FieldFits(u, t, r.message.fields[|msg.fields|], i)
    decreases depth, 2, 0
  {
    var prop := u[t].properties[i];
    if IsOneOf(u, t, prop) then
      var name := FieldName(prop.name);
      if LibraryParsing.HasOneOf(msg.oneOfs, name) then Looped(Some(DuplicateKey), d, msg)
      else Looped(None, d, msg.(oneOfs := msg.oneOfs + [(name, PositiveConstants(u[prop.propertyType].staticFields))]))
    else
      var idFields := u[t].staticFields;
      if i >= |idFields| then Looped(Some(IndexOutOfRange), d, msg)
      else if !idFields[i].isLiteral || idFields[i].fieldTypeName != "Int32" then Looped(Some(GuardFailed), d, msg)
      else
        var ft := TypeS(u, d, prop.propertyType, skipEnums, depth, msg);
        var id := idFields[i].constant;
        if ft.thrown.Some? then Looped(ft.thrown, ft.tables, ft.message)
        else if LibraryParsing.HasFieldId(ft.message.fields, id) then Looped(Some(DuplicateKey), ft.tables, ft.message)
        else Looped(None, ft.tables, ft.message.(fields := ft.message.fields + [(id, ProtoField(false, ft.typeName, FieldName(prop.name)))]))
  }

  /**
   * ParseType: the switch on the CLR name (scalars, RepeatedField`1,
   * MapField`2), then an enum (int32 when enums are skipped), then a
   * message, parsed and imported.
   */
  function TypeS(u: seq<ClrType>, d: Tables, t: TypeId, skipEnums: bool, depth: nat, msg: Proto): (r: TypeParsed)
    requires WellFormed(u) && t < |u| && msg.Message?
    ensures Grows(d, r.tables) && LibraryParsing.Extends(msg, r.message)
    decreases depth, 1, t
  {
    var ty := u[t];
    var ga := ty.genericArguments;
    var scalar := ScalarTypeName(ty.name);
    if scalar.Some? then TypeParsed(None, d, msg, scalar.value)
    else if ty.name == "RepeatedField`1" then
      if |ga| == 0 then TypeParsed(Some(IndexOutOfRange), d, msg, "")
      else
        var a := TypeS(u, d, ga[0], skipEnums, depth, msg);
        if a.thrown.Some? then a else a.(typeName := "repeated " + a.typeName)
    else if ty.name == "MapField`2" then
      if |ga| == 0 then TypeParsed(Some(IndexOutOfRange), d, msg, "")
      else
        var a := TypeS(u, d, ga[0], skipEnums, depth, msg);
        if a.thrown.Some? then a
        else if |ga| == 1 then TypeParsed(Some(IndexOutOfRange), a.tables, a.message, "")
        else
          var b := TypeS(u, a.tables, ga[1], skipEnums, depth, a.message);
          LibraryParsing.ExtendsTrans(msg, a.message, b.message);
          if b.thrown.Some? then b else b.(typeName := "map<" + a.typeName + ", " + b.typeName + ">")
    else if ty.isEnum then
      if skipEnums then TypeParsed(None, d, msg, "int32")
      else
        var e := ParseEnumS(u, d, t, msg);
        TypeParsed(e.thrown, e.tables, e.message, if e.thrown.Some? then "" else ty.name)
    else
      var m := ParseMessageS(u, d, t, skipEnums, depth);
      if m.thrown.Some? then TypeParsed(m.thrown, m.tables, msg, "")
      else TypeParsed(None, m.tables, msg.(imports := LibraryParsing.AddImport(msg.imports, ty.name)), ty.name)
  }

  // ---------------------------------------------------------------------
  // What the property loop builds

  /** The oneof property `i` adds: its translated name and the enum's positive constants. */
  function OneOfEntry(u: seq<ClrType>, t: TypeId, i: nat): (string, seq<int>)
    requires t < |u| && i < |u[t].properties|
  {
    var prop := u[t].properties[i];
    (FieldName(prop.name), if prop.propertyType < |u| then PositiveConstants(u[prop.propertyType].staticFields) else [])
  }

  /** A field entry made from property `i`: the id constant at index `i`, the translated property name. */
  predicate FieldFits(u: seq<ClrType>, t: TypeId, e: (int, ProtoField), i: nat)
  {
    t < |u| && i < |u[t].properties| && i < |u[t].staticFields|
    && e.0 == u[t].staticFields[i].constant
    && e.1.name == FieldName(u[t].properties[i].name) && !e.1.isOptional
  }

  /** The oneofs from property `i` on, in property order. */
  function OneOfsFrom(u: seq<ClrType>, t: TypeId, i: nat): seq<(string, seq<int>)>
    requires t < |u|
    decreases |u[t].properties| - i
  {
    if i >= |u[t].properties| then []
    else (if IsOneOf(u, t, u[t].properties[i]) then [OneOfEntry(u, t, i)] else []) + OneOfsFrom(u, t, i + 1)
  }

  /** The indices from `i` on of the properties that are not oneofs. */
  function FieldIndices(u: seq<ClrType>, t: TypeId, i: nat): (r: seq<nat>)
    requires t < |u|
    ensures forall k :: 0 <= k < |r| ==> i <= r[k] < |u[t].properties| && !IsOneOf(u, t, u[t].properties[r[k]])
    decreases |u[t].properties| - i
  {
    if i >= |u[t].properties| then []
    else (if IsOneOf(u, t, u[t].properties[i]) then [] else [i]) + FieldIndices(u, t, i + 1)
  }

  /** The fields came, in order, from the properties at `js`. */
  predicate FieldsFrom(u: seq<ClrType>, t: TypeId, fields: seq<(int, ProtoField)>, js: seq<nat>)
  {
    |fields| == |js| && forall k :: 0 <= k < |js| ==> FieldFits(u, t, fields[k], js[k])
  }

  lemma FieldsFromCons(u: seq<ClrType>, t: TypeId, e: (int, ProtoField), fields: seq<(int, ProtoField)>, j: nat, js: seq<nat>)
    requires FieldFits(u, t, e, j) && FieldsFrom(u, t, fields, js)
    ensures FieldsFrom(u, t, [e] + fields, [j] + js)
  {
    var f, g := [e] + fields, [j] + js;
    forall k | 0 <= k < |g| ensures FieldFits(u, t, f[k], g[k]) {
      if k > 0 { assert f[k] == fields[k - 1] && g[k] == js[k - 1]; }
    }
  }

  lemma StepThenRest(before: seq<(int, ProtoField)>, mid: seq<(int, ProtoField)>, after: seq<(int, ProtoField)>,
                     rest: seq<(int, ProtoField)>)
    requires |mid| == |before| + 1 && mid[..|before|] == before && after == mid + rest
    ensures after == before + ([mid[|before|]] + rest)
  {
    assert mid == before + [mid[|before|]];
  }

  /**
   * A loop that completes adds, after what the message had, exactly the
   * oneofs of the remaining properties, and one field per remaining
   * non-oneof property, numbered by the id constant at that property's own
   * index.
   */
  lemma {:induction false} LoopBuilds(u: seq<ClrType>, d: Tables, t: TypeId, skipEnums: bool, depth: nat, msg: Proto, i: nat,
                                      r: Looped)
    returns (added: seq<(int, ProtoField)>)
    requires WellFormed(u) && t < |u| && msg.Message?
    requires r == LoopS(u, d, t, skipEnums, depth, msg, i) && r.thrown.None?
    ensures r.message.oneOfs == msg.oneOfs + OneOfsFrom(u, t, i)
    ensures r.message.fields == msg.fields + added && FieldsFrom(u, t, added, FieldIndices(u, t, i))
    decreases |u[t].properties| - i
  {
    if i >= |u[t].properties| {
      added := [];
    } else {
      var s := StepS(u, d, t, skipEnums, depth, msg, i);
      assert s.thrown.None? && r == LoopS(u, s.tables, t, skipEnums, depth, s.message, i + 1);
      var rest := LoopBuilds(u, s.tables, t, skipEnums, depth, s.message, i + 1, r);
      added := BuildsStep(u, t, i, msg, s.message, r.message, rest);
    }
  }

  /** Property `i`'s step, then the rest of the loop, adds what LoopBuilds says from `i` on. */
  lemma BuildsStep(u: seq<ClrType>, t: TypeId, i: nat, msg: Proto, sm: Proto, rm: Proto,
                   rest: seq<(int, ProtoField)>) returns (added: seq<(int, ProtoField)>)
    requires t < |u| && i < |u[t].properties| && msg.Message? && sm.Message? && rm.Message?
    requires IsOneOf(u, t, u[t].properties[i]) ==> sm.fields == msg.fields && sm.oneOfs == msg.oneOfs + [OneOfEntry(u, t, i)]
    requires !IsOneOf(u, t, u[t].properties[i]) ==>
               sm.oneOfs == msg.oneOfs && |sm.fields| == |msg.fields| + 1
               && sm.fields[..|msg.fields|] == msg.fields && FieldFits(u, t, sm.fields[|msg.fields|], i)
    requires rm.oneOfs == sm.oneOfs + OneOfsFrom(u, t, i + 1)
    requires rm.fields == sm.fields + rest && FieldsFrom(u, t, rest, FieldIndices(u, t, i + 1))
    ensures rm.oneOfs == msg.oneOfs + OneOfsFrom(u, t, i)
    ensures rm.fields == msg.fields + added && FieldsFrom(u, t, added, FieldIndices(u, t, i))
  {
    if IsOneOf(u, t, u[t].properties[i]) {
      added := rest;
      assert OneOfsFrom(u, t, i) == [OneOfEntry(u, t, i)] + OneOfsFrom(u, t, i + 1);
      assert FieldIndices(u, t, i) == FieldIndices(u, t, i + 1);
      SeqAssoc(msg.oneOfs, [OneOfEntry(u, t, i)], OneOfsFrom(u, t, i + 1));
    } else {
      assert OneOfsFrom(u, t, i) == OneOfsFrom(u, t, i + 1);
      assert FieldIndices(u, t, i) == [i] + FieldIndices(u, t, i + 1);
      var e := sm.fields[|msg.fields|];
      added := [e] + rest;
      StepThenRest(msg.fields, sm.fields, rm.fields, rest);
      FieldsFromCons(u, t, e, rest, i, FieldIndices(u, t, i + 1));
    }
  }

  lemma SeqAssoc<T>(a: seq<T>, b: seq<T>, c: seq<T>)
    ensures (a + b) + c == a + (b + c)
  {
  }

  // ---------------------------------------------------------------------
  // What ParseMessage promises

  /**
   * A class parsed without an exception is in Messages; the first time, it
   * comes last, named by its CLR name, with the oneofs of its properties
   * and one field per other property, the k-th such field numbered by the
   * id constant at that property's index (not at k).
   */
  lemma ParsedMessageShape(u: seq<ClrType>, d: Tables, t: TypeId, skipEnums: bool, depth: nat)
    requires WellFormed(u) && t < |u|
    ensures var r := ParseMessageS(u, d, t, skipEnums, depth);
            r.thrown.None? && !LibraryParsing.HasProto(d.messages, u[t].name) ==>
              var m := r.tables.messages[|r.tables.messages| - 1];
              && m.0 == u[t].name && m.1.Message? && m.1.name == u[t].name
              && m.1.oneOfs == OneOfsFrom(u, t, 0) && FieldsFrom(u, t, m.1.fields, FieldIndices(u, t, 0))
  {
    var r := ParseMessageS(u, d, t, skipEnums, depth);
    if r.thrown.None? && !LibraryParsing.HasProto(d.messages, u[t].name) {
      var msg0 := Message(u[t].name, None, None, [], [], [], []);
      var l := ParsedMessageLast(u, d, t, skipEnums, depth);
      var added := LoopBuilds(u, d, t, skipEnums, depth - 1, msg0, 0, l);
      assert msg0.fields + added == added && msg0.oneOfs + OneOfsFrom(u, t, 0) == OneOfsFrom(u, t, 0);
    }
  }

  /** A class parsed for the first time is added last, as the loop built it. */
  lemma ParsedMessageLast(u: seq<ClrType>, d: Tables, t: TypeId, skipEnums: bool, depth: nat) returns (l: Looped)
    requires WellFormed(u) && t < |u| && !LibraryParsing.HasProto(d.messages, u[t].name)
    requires ParseMessageS(u, d, t, skipEnums, depth).thrown.None?
    ensures depth > 0 && l == LoopS(u, d, t, skipEnums, depth - 1, Message(u[t].name, None, None, [], [], [], []), 0)
    ensures l.thrown.None? && l.message.Message?
    ensures var ms := ParseMessageS(u, d, t, skipEnums, depth).tables.messages;
            |ms| > 0 && ms[|ms| - 1] == (u[t].name, l.message)
  {
    l := LoopS(u, d, t, skipEnums, depth - 1, Message(u[t].name, None, None, [], [], [], []), 0);
  }

  /** A class parsed without an exception is in Messages. */
  lemma ParsedMessageStored(u: seq<ClrType>, d: Tables, t: TypeId, skipEnums: bool, depth: nat)
    requires WellFormed(u) && t < |u|
    ensures var r := ParseMessageS(u, d, t, skipEnums, depth);
            r.thrown.None? ==> u[t].isClass && LibraryParsing.HasProto(r.tables.messages, u[t].name)
  {
    var r := ParseMessageS(u, d, t, skipEnums, depth);
    if r.thrown.None? && !LibraryParsing.HasProto(d.messages, u[t].name) {
      var l := ParsedMessageLast(u, d, t, skipEnums, depth);
      assert r.tables.messages[|r.tables.messages| - 1].0 == u[t].name;
    }
  }

  /**
   * A non-oneof property `i` throws IndexOutOfRange when there is no id
   * constant at index `i` and GuardFailed when that constant is not a
   * literal Int32; otherwise it adds a field under an id the message did
   * not have.
   */
  lemma FieldPropertyOutcome(u: seq<ClrType>, d: Tables, t: TypeId, skipEnums: bool, depth: nat, msg: Proto, i: nat)
    requires WellFormed(u) && t < |u| && msg.Message? && i < |u[t].properties| && !IsOneOf(u, t, u[t].properties[i])
    ensures var r := StepS(u, d, t, skipEnums, depth, msg, i);
            var idFields := u[t].staticFields;
            && (i >= |idFields| ==> r == Looped(Some(IndexOutOfRange), d, msg))
            && (i < |idFields| && !(idFields[i].isLiteral && idFields[i].fieldTypeName == "Int32") ==>
                  r == Looped(Some(GuardFailed), d, msg))
            && (r.thrown.None? ==> !LibraryParsing.HasFieldId(msg.fields, r.message.fields[|msg.fields|].0))
  {
  }

  /** The property loop keeps the field ids distinct. */
  lemma {:induction false} LoopKeepsIdsDistinct(u: seq<ClrType>, d: Tables, t: TypeId, skipEnums: bool, depth: nat, msg: Proto,
                                                i: nat, r: Looped)
    requires WellFormed(u) && t < |u| && msg.Message?
    requires r == LoopS(u, d, t, skipEnums, depth, msg, i) && r.thrown.None?
    requires LibraryParsing.DistinctIds(msg.fields)
    ensures LibraryParsing.DistinctIds(r.message.fields)
    decreases |u[t].properties| - i
  {
    if i < |u[t].properties| {
      var s := StepS(u, d, t, skipEnums, depth, msg, i);
      assert s.thrown.None? && r == LoopS(u, s.tables, t, skipEnums, depth, s.message, i + 1);
      if !IsOneOf(u, t, u[t].properties[i]) {
        FieldPropertyOutcome(u, d, t, skipEnums, depth, msg, i);
        var e := s.message.fields[|msg.fields|];
        assert s.message.fields == msg.fields + [e];
        LibraryParsing.DistinctIdsSnoc(msg.fields, e);
      }
      LoopKeepsIdsDistinct(u, s.tables, t, skipEnums, depth, s.message, i + 1, r);
    }
  }

  /** A message ParseMessage adds has no two fields with one id. */
  lemma ParsedMessageIdsDistinct(u: seq<ClrType>, d: Tables, t: TypeId, skipEnums: bool, depth: nat)
    requires WellFormed(u) && t < |u| && !LibraryParsing.HasProto(d.messages, u[t].name)
    requires ParseMessageS(u, d, t, skipEnums, depth).thrown.None?
    ensures var ms := ParseMessageS(u, d, t, skipEnums, depth).tables.messages;
            |ms| > 0 && ms[|ms| - 1].1.Message? && LibraryParsing.DistinctIds(ms[|ms| - 1].1.fields)
  {
    var l := ParsedMessageLast(u, d, t, skipEnums, depth);
    LoopKeepsIdsDistinct(u, d, t, skipEnums, depth - 1, Message(u[t].name, None, None, [], [], [], []), 0, l);
  }

  /** Parsing a class again after it was parsed changes nothing. */
  lemma ReparseIsNoOp(u: seq<ClrType>, d: Tables, t: TypeId, skipEnums: bool, depth: nat, depth2: nat)
    requires WellFormed(u) && t < |u| && ParseMessageS(u, d, t, skipEnums, depth).thrown.None?
    ensures var r := ParseMessageS(u, d, t, skipEnums, depth);
            ParseMessageS(u, r.tables, t, skipEnums, depth2) == MessageParsed(None, r.tables)
  {
    ParsedMessageStored(u, d, t, skipEnums, depth);
  }

  /** A property that is not a oneof, at an index past the id constants, makes the parse throw. */
  lemma FieldPastIdFieldsThrows(u: seq<ClrType>, d: Tables, t: TypeId, skipEnums: bool, depth: nat, j: nat)
    requires WellFormed(u) && t < |u| && u[t].isClass && !LibraryParsing.HasProto(d.messages, u[t].name)
    requires |u[t].staticFields| <= j < |u[t].properties| && !IsOneOf(u, t, u[t].properties[j])
    ensures ParseMessageS(u, d, t, skipEnums, depth).thrown.Some?
  {
    var k := FieldIndexOf(u, t, 0, j);
    ParsedMessageShape(u, d, t, skipEnums, depth);
  }

  /** Every non-oneof property from `i` on has a place in FieldIndices. */
  lemma {:induction false} FieldIndexOf(u: seq<ClrType>, t: TypeId, i: nat, j: nat) returns (k: nat)
    requires t < |u| && i <= j < |u[t].properties| && !IsOneOf(u, t, u[t].properties[j])
    ensures k < |FieldIndices(u, t, i)| && FieldIndices(u, t, i)[k] == j
    decreases j - i
  {
    var head: seq<nat> := if IsOneOf(u, t, u[t].properties[i]) then [] else [i];
    assert FieldIndices(u, t, i) == head + FieldIndices(u, t, i + 1);
    if i == j {
      k := 0;
    } else {
      var k1 := FieldIndexOf(u, t, i + 1, j);
      k := |head| + k1;
    }
  }

  /**
   * A oneof before a field: the field still reads the id constant at its
   * own property index, so with one id constant per field the parse throws.
   */
  lemma OneOfShiftsIdIndex(u: seq<ClrType>, d: Tables, t: TypeId, skipEnums: bool, depth: nat)
    requires WellFormed(u) && t < |u| && u[t].isClass && !LibraryParsing.HasProto(d.messages, u[t].name)
    requires |u[t].properties| == 2 && IsOneOf(u, t, u[t].properties[0]) && !IsOneOf(u, t, u[t].properties[1])
    requires |u[t].staticFields| == 1
    ensures ParseMessageS(u, d, t, skipEnums, depth).thrown.Some?
  {
    FieldPastIdFieldsThrows(u, d, t, skipEnums, depth, 1);
  }

  /**
   * Nothing is recorded before the property loop ends, so a class whose
   * first property has the class itself as its type (with a valid id
   * constant) recurses until the stack is gone, however deep it is.
   */
  lemma {:induction false} SelfReferenceExhaustsStack(u: seq<ClrType>, d: Tables, t: TypeId, skipEnums: bool, depth: nat)
    requires WellFormed(u) && t < |u|
    requires var c := u[t];
             c.isClass && !c.isEnum && !LibraryParsing.HasProto(d.messages, c.name)
             && ScalarTypeName(c.name).None? && c.name != "RepeatedField`1" && c.name != "MapField`2"
             && |c.properties| > 0 && c.properties[0].propertyType == t
             && |c.staticFields| > 0 && c.staticFields[0].isLiteral && c.staticFields[0].fieldTypeName == "Int32"
    ensures ParseMessageS(u, d, t, skipEnums, depth) == MessageParsed(Some(StackExhausted), d)
    decreases depth
  {
    if depth > 0 {
      SelfReferenceExhaustsStack(u, d, t, skipEnums, depth - 1);
      var msg0 := Message(u[t].name, None, None, [], [], [], []);
      assert !IsOneOf(u, t, u[t].properties[0]);
      assert TypeS(u, d, t, skipEnums, depth - 1, msg0).thrown == Some(StackExhausted);
      assert StepS(u, d, t, skipEnums, depth - 1, msg0, 0) == Looped(Some(StackExhausted), d, msg0);
    }
  }

  /**
   * The field types: a scalar by name, a repeated or map type from its type
   * arguments, an enum as int32 when enums are skipped or else by its name,
   * and a message by its name, imported.
   */
  lemma TypeResolution(u: seq<ClrType>, d: Tables, t: TypeId, skipEnums: bool, depth: nat, msg: Proto)
    requires WellFormed(u) && t < |u| && msg.Message?
    ensures var r := TypeS(u, d, t, skipEnums, depth, msg);
            && (ScalarTypeName(u[t].name).Some? ==> r == TypeParsed(None, d, msg, ScalarTypeName(u[t].name).value))
            && (u[t].name == "RepeatedField`1" && |u[t].genericArguments| == 0 ==> r.thrown == Some(IndexOutOfRange))
            && (u[t].name == "RepeatedField`1" && |u[t].genericArguments| > 0 && r.thrown.None? ==>
                  r.typeName == "repeated " + TypeS(u, d, u[t].genericArguments[0], skipEnums, depth, msg).typeName)
            && (u[t].name == "MapField`2" && |u[t].genericArguments| < 2 ==> r.thrown.Some?)
            && (ScalarTypeName(u[t].name).None? && u[t].name != "RepeatedField`1" && u[t].name != "MapField`2" ==>
                  && (u[t].isEnum && skipEnums ==> r == TypeParsed(None, d, msg, "int32"))
                  && (!(u[t].isEnum && skipEnums) && r.thrown.None? ==> r.typeName == u[t].name)
                  && (!u[t].isEnum && r.thrown.None? ==>
                        u[t].name in r.message.imports && LibraryParsing.HasProto(r.tables.messages, u[t].name)))
  {
    var ty := u[t];
    if ScalarTypeName(ty.name).None? && ty.name != "RepeatedField`1" && ty.name != "MapField`2" && !ty.isEnum {
      ParsedMessageStored(u, d, t, skipEnums, depth);
    }
    if ty.name == "MapField`2" && |ty.genericArguments| == 1 && ScalarTypeName(ty.name).None? {
      var a := TypeS(u, d, ty.genericArguments[0], skipEnums, depth, msg);
      assert a.thrown.Some? || TypeS(u, d, t, skipEnums, depth, msg).thrown == Some(IndexOutOfRange);
    }
  }

  /**
   * ParseEnum that does not skip: a nested enum goes into the message
   * only; a top-level one is imported and added to Enums.  One whose name
   * is already in Enums is skipped, so a second message using it does not
   * import it, and a nested enum of that name is not nested either.
   */
  lemma ParsedEnumPlacement(u: seq<ClrType>, d: Tables, t: TypeId, msg: Proto)
    requires t < |u| && msg.Message?
    ensures var r := ParseEnumS(u, d, t, msg);
            && (LibraryParsing.HasProto(d.enums, u[t].name) ==> r.message.imports == msg.imports)
            && (r.thrown.None? && u[t].isNested && !LibraryParsing.HasProto(d.enums, u[t].name) ==>
                  LibraryParsing.HasProto(r.message.nested, u[t].name) && r.tables == d)
            && (r.thrown.None? && !u[t].isNested && !LibraryParsing.HasProto(d.enums, u[t].name) ==>
                  u[t].name in r.message.imports
                  && r.tables.enums[|r.tables.enums| - 1].0 == u[t].name
                  && r.message.nested == msg.nested)
    ensures var r := ParseEnumS(u, d, t, msg);
            r.thrown.None? && !LibraryParsing.HasProto(d.enums, u[t].name)
            && !(u[t].isNested && LibraryParsing.HasProto(msg.nested, u[t].name)) ==>
              (if u[t].isNested then r.message.nested[|r.message.nested| - 1].1 else r.tables.enums[|r.tables.enums| - 1].1)
              .Enum? && MembersNamed(u[t].staticFields, (if u[t].isNested then r.message.nested[|r.message.nested| - 1].1
                                                         else r.tables.enums[|r.tables.enums| - 1].1).enumFields)
  {
    var r := ParseEnumS(u, d, t, msg);
    if r.thrown.None? && u[t].isNested && !LibraryParsing.HasProto(msg.nested, u[t].name)
       && !LibraryParsing.HasProto(d.enums, u[t].name) {
      assert r.message.nested[|r.message.nested| - 1].0 == u[t].name;
    }
  }

  // ---------------------------------------------------------------------
  // The Protodec object

  /** The Protodec class: its two dictionaries, over a universe of loaded types. */
  class Protodec {
    const types: seq<ClrType>
    var messages: seq<(string, Proto)>
    var enums: seq<(string, Proto)>

    constructor(types: seq<ClrType>)
      ensures this.types == types && messages == [] && enums == []
    {
      this.types := types;
      messages := [];
      enums := [];
    }

    function Dictionaries(): (r: Tables)
      reads this
      ensures r.messages == messages && r.enums == enums
    {
      Tables(messages, enums)
    }

    /** WriteAllTo: the plain preamble, then every message and then every enum, each followed by two blank lines. */
    method WriteAllTo(w: Writer.IndentedWriter) returns (ok: bool)
      modifies w
      ensures w.trace == old(w.trace) + AllTrace(Standalone, LibraryParsing.Values(messages) + LibraryParsing.Values(enums)).ops
      ensures ok == AllTrace(Standalone, LibraryParsing.Values(messages) + LibraryParsing.Values(enums)).ok
    {
      ok := LegacyWriters.WriteAllTo(w, Standalone, LibraryParsing.Values(messages) + LibraryParsing.Values(enums));
    }

    /** ParseMessage, with `depth` nested frames of stack left. */
    method ParseMessage(t: TypeId, skipEnums: bool, depth: nat) returns (thrown: Option<Error>)
      requires WellFormed(types) && t < |types|
      modifies this
      ensures MessageParsed(thrown, Dictionaries()) == ParseMessageS(types, old(Dictionaries()), t, skipEnums, depth)
      decreases depth, 0, 0
    {
      var c := types[t];
      if !c.isClass {
        return Some(GuardFailed);
      }
      if LibraryParsing.HasProto(messages, c.name) {
        return None;
      }
      if depth == 0 {
        return Some(StackExhausted);
      }
      var message;
      thrown, message := ParseProperties(t, skipEnums, depth - 1, Message(c.name, None, None, [], [], [], []));
      if thrown.Some? {
        return;
      }
      if LibraryParsing.HasProto(messages, c.name) {
        return Some(DuplicateKey);
      }
      messages := messages + [(c.name, message)];
      thrown := None;
    }

    /** The loop of ParseMessage over the class's properties. */
    method ParseProperties(t: TypeId, skipEnums: bool, depth: nat, message0: Proto)
      returns (thrown: Option<Error>, message: Proto)
      requires WellFormed(types) && t < |types| && message0.Message?
      modifies this
      ensures Looped(thrown, Dictionaries(), message) == LoopS(types, old(Dictionaries()), t, skipEnums, depth, message0, 0)
      decreases depth, 4, 0
    {
      message := message0;
      ghost var whole := LoopS(types, Dictionaries(), t, skipEnums, depth, message, 0);
      for i := 0 to |types[t].properties|
        invariant message.Message?
        invariant LoopS(types, Dictionaries(), t, skipEnums, depth, message, i) == whole
      {
        thrown, message := ParseProperty(t, skipEnums, depth, message, i);
        if thrown.Some? {
          return;
        }
      }
      thrown := None;
    }

    /** The body of ParseMessage's loop for property `i`. */
    method ParseProperty(t: TypeId, skipEnums: bool, depth: nat, message: Proto, i: nat)
      returns (thrown: Option<Error>, message2: Proto)
      requires WellFormed(types) && t < |types| && message.Message? && i < |types[t].properties|
      modifies this
      ensures Looped(thrown, Dictionaries(), message2) == StepS(types, old(Dictionaries()), t, skipEnums, depth, message, i)
      decreases depth, 2, 0
    {
      var prop := types[t].properties[i];
      if IsOneOf(types, t, prop) {
        var name := FieldName(prop.name);
        if LibraryParsing.HasOneOf(message.oneOfs, name) {
          return Some(DuplicateKey), message;
        }
        return None, message.(oneOfs := message.oneOfs + [(name, PositiveConstants(types[prop.propertyType].staticFields))]);
      }
      var idFields := types[t].staticFields;
      if i >= |idFields| {
        return Some(IndexOutOfRange), message;
      }
      if !idFields[i].isLiteral || idFields[i].fieldTypeName != "Int32" {
        return Some(GuardFailed), message;
      }
      var id := idFields[i].constant;
      var typeName;
      thrown, message2, typeName := ParseType(prop.propertyType, skipEnums, depth, message);
      if thrown.Some? {
        return;
      }
      if LibraryParsing.HasFieldId(message2.fields, id) {
        return Some(DuplicateKey), message2;
      }
      message2 := message2.(fields := message2.fields + [(id, ProtoField(false, typeName, FieldName(prop.name)))]);
    }

    /** ParseType, building into `message`. */
    method ParseType(t: TypeId, skipEnums: bool, depth: nat, message: Proto)
      returns (thrown: Option<Error>, message2: Proto, typeName: string)
      requires WellFormed(types) && t < |types| && message.Message?
      modifies this
      ensures TypeParsed(thrown, Dictionaries(), message2, typeName) == TypeS(types, old(Dictionaries()), t, skipEnums, depth, message)
      decreases depth, 1, t
    {
      var ty := types[t];
      var ga := ty.genericArguments;
      var scalar := ScalarTypeName(ty.name);
      if scalar.Some? {
        return None, message, scalar.value;
      }
      if ty.name == "RepeatedField`1" {
        if |ga| == 0 {
          return Some(IndexOutOfRange), message, "";
        }
        thrown, message2, typeName := ParseType(ga[0], skipEnums, depth, message);
        if thrown.None? {
          typeName := "repeated " + typeName;
        }
        return;
      }
      if ty.name == "MapField`2" {
        if |ga| == 0 {
          return Some(IndexOutOfRange), message, "";
        }
        var t1;
        thrown, message2, t1 := ParseType(ga[0], skipEnums, depth, message);
        if thrown.Some? {
          return thrown, message2, t1;
        }
        if |ga| == 1 {
          return Some(IndexOutOfRange), message2, "";
        }
        var t2;
        thrown, message2, t2 := ParseType(ga[1], skipEnums, depth, message2);
        typeName := if thrown.Some? then t2 else "map<" + t1 + ", " + t2 + ">";
        return;
      }
      if ty.isEnum {
        if skipEnums {
          return None, message, "int32";
        }
        thrown, message2 := ParseEnum(t, message);
        typeName := if thrown.Some? then "" else ty.name;
        return;
      }
      thrown := ParseMessage(t, skipEnums, depth);
      if thrown.Some? {
        return thrown, message, "";
      }
      return None, message.(imports := LibraryParsing.AddImport(message.imports, ty.name)), ty.name;
    }

    /** ParseEnum, into `message` and Enums. */
    method ParseEnum(t: TypeId, message: Proto) returns (thrown: Option<Error>, message2: Proto)
      requires t < |types| && message.Message?
      modifies this
      ensures Looped(thrown, Dictionaries(), message2) == ParseEnumS(types, old(Dictionaries()), t, message)
    {
      var e := types[t];
      if (e.isNested && LibraryParsing.HasProto(message.nested, e.name)) || LibraryParsing.HasProto(enums, e.name) {
        return None, message;
      }
      var r := EnumMembers(e.staticFields);
      if r.Failure? {
        return Some(r.error), message;
      }
      var p := Enum(e.name, None, None, r.value);
      if e.isNested {
        return None, message.(nested := message.nested + [(e.name, p)]);
      }
      message2 := message.(imports := LibraryParsing.AddImport(message.imports, e.name));
      enums := enums + [(e.name, p)];
      thrown := None;
    }

    /** The foreach of ParseEnum over the enum's fields, up to the first exception. */
    method EnumMembers(fields: seq<StaticField>) returns (r: Result<seq<(int, string)>>)
      ensures r == Members(fields)
    {
      var members: seq<(int, string)> := [];
      for i := 0 to |fields|
        invariant Members(fields[..i]) == Success(members)
      {
        var field := fields[i];
        var name := MemberName(field);
        MembersUnfold(fields, i, members);
        if name.Failure? {
          EnumMembersFailureStays(fields, i + 1);
          return Failure(name.error);
        }
        if HasMemberId(members, field.constant) {
          EnumMembersFailureStays(fields, i + 1);
          return Failure(DuplicateKey);
        }
        members := members + [(field.constant, name.value)];
      }
      assert fields[..|fields|] == fields;
      r := Success(members);
    }
  }

  /** Members of one more field, after a prefix that succeeded. */
  lemma MembersUnfold(fields: seq<StaticField>, i: nat, members: seq<(int, string)>)
    requires i < |fields| && Members(fields[..i]) == Success(members)
    ensures MemberName(fields[i]).Failure? ==> Members(fields[..i + 1]) == Failure(MemberName(fields[i]).error)
    ensures MemberName(fields[i]).Success? && HasMemberId(members, fields[i].constant) ==>
              Members(fields[..i + 1]) == Failure(DuplicateKey)
    ensures MemberName(fields[i]).Success? && !HasMemberId(members, fields[i].constant) ==>
              Members(fields[..i + 1]) == Success(members + [(fields[i].constant, MemberName(fields[i]).value)])
  {
    assert fields[..i + 1][..i] == fields[..i];
  }

  lemma MembersSnocFailure(fields: seq<StaticField>, i: nat)
    requires i < |fields| && Members(fields[..i]).Failure?
    ensures Members(fields[..i + 1]) == Members(fields[..i])
  {
    assert fields[..i + 1][..i] == fields[..i];
  }

  /** Once a prefix of the fields fails, the members of all of them fail the same way. */
  lemma {:induction false} EnumMembersFailureStays(fields: seq<StaticField>, i: nat)
    requires i <= |fields| && Members(fields[..i]).Failure?
    ensures Members(fields) == Members(fields[..i])
    decreases |fields| - i
  {
    if i < |fields| {
      MembersSnocFailure(fields, i);
      EnumMembersFailureStays(fields, i + 1);
    } else {
      assert fields[..i] == fields;
    }
  }
}
