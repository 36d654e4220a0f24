// The reflection-driven parser of the earlier library revision: how
// ProtodecContext (src/LibProtodec/ProtodecContext.cs) and its predecessor
// Protodec (src/LibProtodec/Protodec.cs) turn a protoc-generated C# class
// into a message tree.  These functions are the specification the methods
// of ProtodecContexts.ProtodecContext are proved against.
module LibraryParsing {
  import opened Util
  import opened Reflection
  import N = Naming
  import opened LegacyWriters

  /**
   * The two files differ in one test only: whether a oneof enum's declaring
   * type is compared with the class's CLR name (ProtodecContext.cs) or with
   * the translated message name (Protodec.cs).
   */
  datatype EngineRevision = ProtodecContextEngine | ProtodecEngine

  /**
   * What is fixed for a context: the revision, the loaded types and the two
   * lookup callbacks, each a map that holds the names it answers for.
   */
  datatype Config = Config(
    revision: EngineRevision, types: seq<ClrType>,
    customTypeLookup: map<string, string>, customNameLookup: map<string, string>)

  predicate ValidConfig(cfg: Config)
  {
    WellFormed(cfg.types)
  }

  /** What a context holds: the top-level protobufs in insertion order, and the current descent. */
  datatype Store = Store(protobufs: seq<(string, Proto)>, descent: set<string>)

  /** After parsing a message or an enum: the exception thrown, if any, the store, the parent message. */
  datatype Parsed = Parsed(thrown: Option<Error>, store: Store, parent: Option<Proto>)

  /** After ParseFieldType: the exception, the store, the message being built, the field type name. */
  datatype Typed = Typed(thrown: Option<Error>, store: Store, message: Proto, typeName: string)

  /** After a message's properties: the exception, the store, the message being built. */
  datatype Built = Built(thrown: Option<Error>, store: Store, message: Proto)

  /** After a public ParseMessage or ParseEnum call. */
  datatype Outcome = Outcome(thrown: Option<Error>, store: Store)

  // ---------------------------------------------------------------------
  // Dictionary keys

  predicate HasProto(pairs: seq<(string, Proto)>, name: string)
  {
    exists i :: 0 <= i < |pairs| && pairs[i].0 == name
  }

  predicate HasOneOf(oneOfs: seq<(string, seq<int>)>, name: string)
  {
    exists i :: 0 <= i < |oneOfs| && oneOfs[i].0 == name
  }

  predicate HasFieldId(fields: seq<(int, ProtoField)>, id: int)
  {
    exists i :: 0 <= i < |fields| && fields[i].0 == id
  }

  /** A key stays once a dictionary only grows at its end. */
  lemma HasProtoPrefix(pairs: seq<(string, Proto)>, more: seq<(string, Proto)>, name: string)
    requires pairs <= more && HasProto(pairs, name)
    ensures HasProto(more, name)
  {
    var i :| 0 <= i < |pairs| && pairs[i].0 == name;
    assert more[i] == pairs[i];
  }

  /** The values of a dictionary, in insertion order. */
  function Values(pairs: seq<(string, Proto)>): (r: seq<Proto>)
    ensures |r| == |pairs| && forall i :: 0 <= i < |pairs| ==> r[i] == pairs[i].1
  {
    if |pairs| == 0 then [] else [pairs[0].1] + Values(pairs[1..])
  }

  /** HashSet.Add on the message's imports: insertion order, no repeats. */
  function AddImport(imports: seq<string>, name: string): (r: seq<string>)
    ensures imports <= r && name in r
    ensures forall x :: x in r <==> x in imports || x == name
  {
    if name in imports then imports else imports + [name]
  }

  // ---------------------------------------------------------------------
  // Name translation

  /**
   * TranslateName: the name lookup's answer when it has one (and then the
   * name counts as translated); otherwise the name itself, counted as
   * translated exactly when it is beebyted.
   */
  function TranslateName(names: map<string, string>, name: string): (bool, string)
  {
    if name in names then (true, names[name]) else (N.IsBeebyted(name), name)
  }

  /** TranslateProtobufName: the name lookup's answer, or the CLR name unchanged. */
  function TranslateProtobufName(names: map<string, string>, name: string): string
  {
    if name in names then names[name] else name
  }

  /** TranslateOneOfName: the trailing "Case" goes, an untranslated name is snake-cased. */
  function TranslateOneOfName(names: map<string, string>, name: string): string
  {
    var (translated, tn) := TranslateName(names, name);
    if translated then N.TrimEnd(tn, "Case") else N.SnakeLower(N.TrimEnd(name, "Case"))
  }

  /** TranslateMessageFieldName: the translation, or the name in lower snake case. */
  function TranslateMessageFieldName(names: map<string, string>, name: string): string
  {
    var (translated, tn) := TranslateName(names, name);
    if translated then tn else N.SnakeLower(name)
  }

  /**
   * TranslateEnumFieldName: an OriginalNameAttribute's string wins, then a
   * translation, else ENUM_NAME_FIELD_NAME in upper snake case (a beebyted
   * enum name kept as it is).
   */
  function TranslateEnumFieldName(names: map<string, string>, field: StaticField, enumName: string): (r: Result<string>)
    ensures r.Failure? <==> |OriginalNameAttributes(field.attributes)| > 1
    ensures r.Success? && field.name in names && OriginalNameAttributes(field.attributes) == [] ==>
              r.value == names[field.name]
  {
    var original :- OriginalName(field.attributes);
    if original.Some? then Success(original.value)
    else
      var (translated, tn) := TranslateName(names, field.name);
      if translated then Success(tn)
      else
        var prefix := if N.IsBeebyted(enumName) then enumName else N.SnakeUpper(enumName);
        Success(prefix + "_" + N.SnakeUpper(field.name))
  }

  /** A property name the lookup does not know and that is not beebyted becomes lower snake case. */
  lemma MessageFieldNameIsSnakeCase(names: map<string, string>, name: string)
    ensures name in names ==> TranslateMessageFieldName(names, name) == names[name]
    ensures name !in names && N.IsBeebyted(name) ==> TranslateMessageFieldName(names, name) == name
    ensures name !in names && !N.IsBeebyted(name) ==>
              forall k :: 0 <= k < |TranslateMessageFieldName(names, name)| ==>
                !N.IsAsciiUpper(TranslateMessageFieldName(names, name)[k])
  {
    N.SnakeLowerHasNoUpper(name);
  }

  /** The property of a oneof `XCase` gives the oneof `x`, snake-cased without its suffix. */
  lemma OneOfNameDropsCase(names: map<string, string>, stem: string)
    requires stem + "Case" !in names
    ensures TranslateOneOfName(names, stem + "Case") == N.SnakeLower(stem)
  {
    N.TrimEndOfAppended(stem, "Case");
    var name := stem + "Case";
    assert name[|name| - 1] == 'e';
    N.UpperCountAppend(name[..|name| - 1], [name[|name| - 1]]);
    assert name[..|name| - 1] + [name[|name| - 1]] == name;
  }

  /**
   * An enum member with no OriginalNameAttribute and an untranslated name
   * gets a generated name with no ASCII lower-case letter in it.
   */
  lemma GeneratedEnumFieldNameIsUpper(names: map<string, string>, field: StaticField, enumName: string)
    requires OriginalNameAttributes(field.attributes) == []
    requires field.name !in names && !N.IsBeebyted(field.name)
    ensures TranslateEnumFieldName(names, field, enumName).Success?
    ensures var r := TranslateEnumFieldName(names, field, enumName).value;
            forall k :: 0 <= k < |r| ==> !N.IsAsciiLower(r[k])
  {
    N.SnakeUpperHasNoLower(enumName);
    N.SnakeUpperHasNoLower(field.name);
    N.BeebytedMeansElevenCapitals(enumName);
    var prefix := if N.IsBeebyted(enumName) then enumName else N.SnakeUpper(enumName);
    var r := prefix + "_" + N.SnakeUpper(field.name);
    assert TranslateEnumFieldName(names, field, enumName) == Success(r);
    forall k | 0 <= k < |r|
      ensures !N.IsAsciiLower(r[k])
    {
      if k < |prefix| {
        assert r[k] == prefix[k];
      } else if k > |prefix| {
        assert r[k] == N.SnakeUpper(field.name)[k - |prefix| - 1];
      }
    }
  }

  /** Some member of the enum carries several OriginalNameAttributes. */
  predicate SomeNameAmbiguous(fields: seq<StaticField>)
  {
    exists i :: 0 <= i < |fields| && |OriginalNameAttributes(fields[i].attributes)| > 1
  }

  /** Each member is numbered by its field's constant and named by TranslateEnumFieldName. */
  predicate MembersFollow(names: map<string, string>, fields: seq<StaticField>, enumName: string, members: seq<(int, string)>)
  {
    |members| == |fields|
    && forall i :: 0 <= i < |fields| ==>
         TranslateEnumFieldName(names, fields[i], enumName) == Success(members[i].1)
         && members[i].0 == fields[i].constant
  }

  /** The member names of an enum, in declaration order, or the first exception. */
  function EnumFieldsOf(names: map<string, string>, fields: seq<StaticField>, enumName: string): (r: Result<seq<(int, string)>>)
    ensures r.Failure? <==> SomeNameAmbiguous(fields)
    ensures r.Success? ==> MembersFollow(names, fields, enumName, r.value)
  {
    if |fields| == 0 then Success([])
    else
      var p := fields[..|fields| - 1];
      var last := fields[|fields| - 1];
      assert fields == p + [last];
      AmbiguousSnoc(p, last);
      match EnumFieldsOf(names, p, enumName)
      case Failure(e) => Failure(e)
      case Success(done) =>
        match TranslateEnumFieldName(names, last, enumName)
        case Failure(e) => Failure(e)
        case Success(n) =>
          MembersSnoc(names, p, last, enumName, done, n);
          Success(done + [(last.constant, n)])
  }

  /** The loop over the members stops at the first exception: a failing prefix decides the result. */
  lemma {:induction false} EnumFieldsFailureStays(names: map<string, string>, fields: seq<StaticField>, i: nat, enumName: string)
    requires i <= |fields| && EnumFieldsOf(names, fields[..i], enumName).Failure?
    ensures EnumFieldsOf(names, fields, enumName) == EnumFieldsOf(names, fields[..i], enumName)
    decreases |fields| - i
  {
    if i < |fields| {
      assert fields[..i + 1][..i] == fields[..i];
      EnumFieldsFailureStays(names, fields, i + 1, enumName);
    } else {
      assert fields[..i] == fields;
    }
  }

  lemma AmbiguousSnoc(p: seq<StaticField>, last: StaticField)
    ensures SomeNameAmbiguous(p + [last]) <==> SomeNameAmbiguous(p) || |OriginalNameAttributes(last.attributes)| > 1
  {
    var all := p + [last];
    assert all[|p|] == last;
    if SomeNameAmbiguous(all) {
      var i :| 0 <= i < |all| && |OriginalNameAttributes(all[i].attributes)| > 1;
      if i < |p| { assert p[i] == all[i]; }
    }
    if SomeNameAmbiguous(p) {
      var i :| 0 <= i < |p| && |OriginalNameAttributes(p[i].attributes)| > 1;
      assert p[i] == all[i];
    }
  }

  lemma MembersSnoc(names: map<string, string>, p: seq<StaticField>, last: StaticField, enumName: string,
                    done: seq<(int, string)>, n: string)
    requires MembersFollow(names, p, enumName, done) && TranslateEnumFieldName(names, last, enumName) == Success(n)
    ensures MembersFollow(names, p + [last], enumName, done + [(last.constant, n)])
  {
    var all := p + [last];
    var members := done + [(last.constant, n)];
    assert forall i :: 0 <= i < |p| ==> all[i] == p[i] && members[i] == done[i];
  }

  // ---------------------------------------------------------------------
  // The property cursor

  /**
   * A property that produces something: a oneof, or a field numbered by
   * the id field `idField`, optional when its "Has" companion follows it.
   */
  datatype Slot = OneOfSlot(property: nat) | FieldSlot(property: nat, idField: nat, isOptional: bool)

  /**
   * The first test of the loop: no getter, a virtual getter, or (when asked)
   * no GeneratedCodeAttribute("protoc").  Both files test the same three
   * conditions, in different orders.
   */
  predicate Skipped(p: Property, skipAttr: bool)
  {
    p.getterIsVirtual != Some(false) || (skipAttr && !HasProtocAttribute(p.attributes))
  }

  /** The oneof test: an enum property type declared inside the message class. */
  predicate IsOneOf(cfg: Config, t: TypeId, messageName: string, p: Property)
  {
    t < |cfg.types| && p.propertyType < |cfg.types|
    && var pt := cfg.types[p.propertyType];
       pt.isEnum
       && pt.declaringTypeName == Some(if cfg.revision == ProtodecContextEngine then cfg.types[t].name else messageName)
  }

  /** The property after `q` is a read-only Boolean: the "Has" companion of an optional field. */
  predicate HasCompanion(cfg: Config, t: TypeId, q: nat)
  {
    t < |cfg.types|
    && var props := cfg.types[t].properties;
       q + 1 < |props| && props[q + 1].propertyType < |cfg.types|
       && cfg.types[props[q + 1].propertyType].name == "Boolean" && !props[q + 1].canWrite
  }

  predicate SlotsIn(slots: seq<Slot>, n: nat)
  {
    forall j :: 0 <= j < |slots| ==> slots[j].property < n
  }

  /** The property after a slot that the loop looks at next. */
  function NextProperty(s: Slot): nat
  {
    if s.FieldSlot? && s.isOptional then s.property + 2 else s.property + 1
  }

  /** The loop over the properties from `pi` on, the id field cursor at `fi`. */
  function Plan(cfg: Config, t: TypeId, skipAttr: bool, messageName: string, pi: nat, fi: nat): (r: seq<Slot>)
    requires ValidConfig(cfg) && t < |cfg.types|
    ensures SlotsIn(r, |cfg.types[t].properties|)
    decreases |cfg.types[t].properties| - pi
  {
    var props := cfg.types[t].properties;
    if pi >= |props| then []
    else if Skipped(props[pi], skipAttr) then Plan(cfg, t, skipAttr, messageName, pi + 1, fi)
    else if IsOneOf(cfg, t, messageName, props[pi]) then [OneOfSlot(pi)] + Plan(cfg, t, skipAttr, messageName, pi + 1, fi)
    else
      var optional := HasCompanion(cfg, t, pi);
      [FieldSlot(pi, fi, optional)] + Plan(cfg, t, skipAttr, messageName, if optional then pi + 2 else pi + 1, fi + 1)
  }

  /** The field slots, in order. */
  function FieldSlotsOf(slots: seq<Slot>): (r: seq<Slot>)
    ensures forall k :: 0 <= k < |r| ==> r[k].FieldSlot? && r[k] in slots
  {
    if |slots| == 0 then []
    else (if slots[0].FieldSlot? then [slots[0]] else []) + FieldSlotsOf(slots[1..])
  }

  /** The field slots read id fields start, start + 1, start + 2, ... */
  predicate IdsCountFrom(fs: seq<Slot>, start: nat)
  {
    forall k :: 0 <= k < |fs| ==> fs[k].FieldSlot? && fs[k].idField == start + k
  }

  lemma IdsCountFromCons(s: Slot, fs: seq<Slot>, start: nat)
    requires s.FieldSlot? && s.idField == start && IdsCountFrom(fs, start + 1)
    ensures IdsCountFrom([s] + fs, start)
  {
    var all := [s] + fs;
    forall k | 0 <= k < |all|
      ensures all[k].FieldSlot? && all[k].idField == start + k
    {
      if k > 0 { assert all[k] == fs[k - 1]; }
    }
  }

  /**
   * Skipped properties and oneofs do not move the id field cursor: the k-th
   * field the loop produces reads the k-th public static field.
   */
  lemma {:induction false} PlanReadsIdFieldsInOrder(cfg: Config, t: TypeId, skipAttr: bool, messageName: string, pi: nat, fi: nat)
    requires ValidConfig(cfg) && t < |cfg.types|
    ensures IdsCountFrom(FieldSlotsOf(Plan(cfg, t, skipAttr, messageName, pi, fi)), fi)
    decreases |cfg.types[t].properties| - pi
  {
    var props := cfg.types[t].properties;
    var plan := Plan(cfg, t, skipAttr, messageName, pi, fi);
    if pi < |props| {
      if Skipped(props[pi], skipAttr) {
        PlanReadsIdFieldsInOrder(cfg, t, skipAttr, messageName, pi + 1, fi);
      } else {
        PlanStep(cfg, t, skipAttr, messageName, pi, fi);
        var isOneOf := IsOneOf(cfg, t, messageName, props[pi]);
        var optional := HasCompanion(cfg, t, pi);
        var next := if isOneOf || !optional then pi + 1 else pi + 2;
        var nfi := if isOneOf then fi else fi + 1;
        PlanReadsIdFieldsInOrder(cfg, t, skipAttr, messageName, next, nfi);
        var rest := FieldSlotsOf(plan[1..]);
        assert FieldSlotsOf(plan) == (if isOneOf then [] else [plan[0]]) + rest;
        if !isOneOf {
          IdsCountFromCons(plan[0], rest, fi);
        }
      }
    }
  }

  /** The slot that the loop visits at property `pi`, with the cursors after it. */
  lemma PlanStep(cfg: Config, t: TypeId, skipAttr: bool, messageName: string, pi: nat, fi: nat)
    requires ValidConfig(cfg) && t < |cfg.types|
    requires pi < |cfg.types[t].properties| && !Skipped(cfg.types[t].properties[pi], skipAttr)
    ensures var plan := Plan(cfg, t, skipAttr, messageName, pi, fi);
            var isOneOf := IsOneOf(cfg, t, messageName, cfg.types[t].properties[pi]);
            var optional := HasCompanion(cfg, t, pi);
            var next := if isOneOf || !optional then pi + 1 else pi + 2;
            var nfi := if isOneOf then fi else fi + 1;
            && |plan| > 0
            && plan[0] == (if isOneOf then OneOfSlot(pi) else FieldSlot(pi, fi, optional))
            && NextProperty(plan[0]) == next <= |cfg.types[t].properties|
            && plan[1..] == Plan(cfg, t, skipAttr, messageName, next, nfi)
  {
  }

  /**
   * The slots come in property order from `from` on, each leaves the loop
   * within the properties, and an optional field's companion is passed over.
   */
  predicate InPropertyOrder(slots: seq<Slot>, from: nat, n: nat)
  {
    && (forall j :: 0 <= j < |slots| ==> from <= slots[j].property && NextProperty(slots[j]) <= n)
    && (forall j :: 0 <= j < |slots| - 1 ==> NextProperty(slots[j]) <= slots[j + 1].property)
  }

  /**
   * A slot's property is not skipped, it is a oneof exactly when the oneof
   * test holds, and a field is optional exactly when its companion follows.
   */
  predicate SlotFits(cfg: Config, t: TypeId, skipAttr: bool, messageName: string, s: Slot)
  {
    t < |cfg.types| && s.property < |cfg.types[t].properties|
    && var p := cfg.types[t].properties[s.property];
    && !Skipped(p, skipAttr)
    && (s.OneOfSlot? <==> IsOneOf(cfg, t, messageName, p))
    && (s.FieldSlot? ==> s.isOptional == HasCompanion(cfg, t, s.property))
  }

  predicate AllSlotsFit(cfg: Config, t: TypeId, skipAttr: bool, messageName: string, slots: seq<Slot>)
  {
    forall j :: 0 <= j < |slots| ==> SlotFits(cfg, t, skipAttr, messageName, slots[j])
  }

  lemma InPropertyOrderCons(s: Slot, rest: seq<Slot>, from: nat, n: nat)
    requires from <= s.property && NextProperty(s) <= n && InPropertyOrder(rest, NextProperty(s), n)
    ensures InPropertyOrder([s] + rest, from, n)
  {
    var all := [s] + rest;
    assert forall j :: 1 <= j < |all| ==> all[j] == rest[j - 1];
  }

  lemma AllSlotsFitCons(cfg: Config, t: TypeId, skipAttr: bool, messageName: string, s: Slot, rest: seq<Slot>)
    requires ValidConfig(cfg) && t < |cfg.types|
    requires s.property < |cfg.types[t].properties| && SlotsIn(rest, |cfg.types[t].properties|)
    requires SlotFits(cfg, t, skipAttr, messageName, s) && AllSlotsFit(cfg, t, skipAttr, messageName, rest)
    ensures SlotsIn([s] + rest, |cfg.types[t].properties|)
    ensures AllSlotsFit(cfg, t, skipAttr, messageName, [s] + rest)
  {
    var all := [s] + rest;
    assert forall j :: 1 <= j < |all| ==> all[j] == rest[j - 1];
  }

  /**
   * What the loop does with each property from `pi` on: the slots come in
   * property order, a companion gets no slot of its own, and every slot fits
   * its property.
   */
  lemma {:induction false} PlanSlotsFollowProperties(cfg: Config, t: TypeId, skipAttr: bool, messageName: string, pi: nat, fi: nat)
    requires ValidConfig(cfg) && t < |cfg.types|
    ensures InPropertyOrder(Plan(cfg, t, skipAttr, messageName, pi, fi), pi, |cfg.types[t].properties|)
    ensures AllSlotsFit(cfg, t, skipAttr, messageName, Plan(cfg, t, skipAttr, messageName, pi, fi))
    decreases |cfg.types[t].properties| - pi
  {
    var props := cfg.types[t].properties;
    var plan := Plan(cfg, t, skipAttr, messageName, pi, fi);
    if pi < |props| {
      if Skipped(props[pi], skipAttr) {
        PlanSlotsFollowProperties(cfg, t, skipAttr, messageName, pi + 1, fi);
      } else {
        PlanStep(cfg, t, skipAttr, messageName, pi, fi);
        var isOneOf := IsOneOf(cfg, t, messageName, props[pi]);
        var optional := HasCompanion(cfg, t, pi);
        var next := if isOneOf || !optional then pi + 1 else pi + 2;
        var nfi := if isOneOf then fi else fi + 1;
        PlanSlotsFollowProperties(cfg, t, skipAttr, messageName, next, nfi);
        assert plan == [plan[0]] + plan[1..];
        InPropertyOrderCons(plan[0], plan[1..], pi, |props|);
        AllSlotsFitCons(cfg, t, skipAttr, messageName, plan[0], plan[1..]);
      }
    }
  }

  /** `s` is an optional field whose "Has" companion is property `q`. */
  predicate Consumes(s: Slot, q: nat)
  {
    s.FieldSlot? && s.isOptional && s.property + 1 == q
  }

  predicate NoneConsumes(slots: seq<Slot>, q: nat)
  {
    forall j :: 0 <= j < |slots| ==> !Consumes(slots[j], q)
  }

  predicate HasSlotFor(slots: seq<Slot>, q: nat)
  {
    exists j :: 0 <= j < |slots| && slots[j].property == q
  }

  lemma ConsSlots(s: Slot, rest: seq<Slot>, q: nat)
    ensures NoneConsumes([s] + rest, q) ==> NoneConsumes(rest, q) && !Consumes(s, q)
    ensures HasSlotFor(rest, q) ==> HasSlotFor([s] + rest, q)
    ensures s.property == q ==> HasSlotFor([s] + rest, q)
  {
    var all := [s] + rest;
    assert forall j :: 1 <= j < |all| ==> all[j] == rest[j - 1];
    if NoneConsumes(all, q) {
      assert !Consumes(all[0], q);
      forall j | 0 <= j < |rest|
        ensures !Consumes(rest[j], q)
      {
        assert rest[j] == all[j + 1];
      }
    }
    if HasSlotFor(rest, q) {
      var j :| 0 <= j < |rest| && rest[j].property == q;
      assert all[j + 1].property == q;
    }
    if s.property == q {
      assert all[0].property == q;
    }
  }

  /**
   * Nothing is dropped: a property from `pi` on that is not skipped and is
   * not the companion of an optional field gets a slot.
   */
  lemma {:induction false} PlanCoversProperties(cfg: Config, t: TypeId, skipAttr: bool, messageName: string, pi: nat, fi: nat, q: nat)
    requires ValidConfig(cfg) && t < |cfg.types|
    requires pi <= q < |cfg.types[t].properties| && !Skipped(cfg.types[t].properties[q], skipAttr)
    requires NoneConsumes(Plan(cfg, t, skipAttr, messageName, pi, fi), q)
    ensures HasSlotFor(Plan(cfg, t, skipAttr, messageName, pi, fi), q)
    decreases q - pi
  {
    var props := cfg.types[t].properties;
    var plan := Plan(cfg, t, skipAttr, messageName, pi, fi);
    if Skipped(props[pi], skipAttr) {
      PlanCoversProperties(cfg, t, skipAttr, messageName, pi + 1, fi, q);
    } else {
      PlanStep(cfg, t, skipAttr, messageName, pi, fi);
      assert plan == [plan[0]] + plan[1..];
      ConsSlots(plan[0], plan[1..], q);
      if pi != q {
        var isOneOf := IsOneOf(cfg, t, messageName, props[pi]);
        var optional := HasCompanion(cfg, t, pi);
        var next := if isOneOf || !optional then pi + 1 else pi + 2;
        var nfi := if isOneOf then fi else fi + 1;
        PlanCoversProperties(cfg, t, skipAttr, messageName, next, nfi, q);
      }
    }
  }

  // ---------------------------------------------------------------------
  // Parsing

  /**
   * IsParsed: the dictionary the type goes in (the parent's nested ones for
   * a nested type met while building a message, the context's otherwise)
   * already has its CLR name, or the name is already in the descent; the
   * name joins the descent unless the dictionary had it.
   */
  function IsParsedF(cfg: Config, st: Store, t: TypeId, parent: Option<Proto>): (r: (bool, Store))
    requires t < |cfg.types| && (parent.Some? ==> parent.value.Message?)
    ensures r.1.protobufs == st.protobufs
    ensures r.0 <==> HasProto(Target(cfg, st, t, parent), cfg.types[t].name) || cfg.types[t].name in st.descent
    ensures r.1.descent == if HasProto(Target(cfg, st, t, parent), cfg.types[t].name) then st.descent
                           else st.descent + {cfg.types[t].name}
  {
    var name := cfg.types[t].name;
    if HasProto(Target(cfg, st, t, parent), name) then (true, st)
    else (name in st.descent, st.(descent := st.descent + {name}))
  }

  predicate NestedTarget(cfg: Config, t: TypeId, parent: Option<Proto>)
    requires t < |cfg.types|
  {
    parent.Some? && cfg.types[t].isNested
  }

  /** The dictionary a type is stored in. */
  function Target(cfg: Config, st: Store, t: TypeId, parent: Option<Proto>): seq<(string, Proto)>
    requires t < |cfg.types| && (parent.Some? ==> parent.value.Message?)
  {
    if NestedTarget(cfg, t, parent) then parent.value.nested else st.protobufs
  }

  /** `protobufs.Add(name, p)`, which throws when the name is there. */
  function AddTo(cfg: Config, st: Store, t: TypeId, parent: Option<Proto>, name: string, p: Proto): (r: Parsed)
    requires t < |cfg.types| && (parent.Some? ==> parent.value.Message?)
    ensures r.store.descent == st.descent && st.protobufs <= r.store.protobufs
    ensures Nests(parent, r.parent)
  {
    if HasProto(Target(cfg, st, t, parent), name) then Parsed(Some(DuplicateKey), st, parent)
    else if NestedTarget(cfg, t, parent) then
      Parsed(None, st, Some(parent.value.(nested := parent.value.nested + [(name, p)])))
    else Parsed(None, st.(protobufs := st.protobufs + [(name, p)]), parent)
  }

  /** Both are messages with the same name, origin, oneofs and fields. */
  predicate SameHead(m: Proto, m2: Proto)
  {
    m.Message? && m2.Message?
    && m2.name == m.name && m2.assemblyName == m.assemblyName && m2.namespace == m.namespace
    && m2.oneOfs == m.oneOfs && m2.fields == m.fields
  }

  /** The message `m2` is `m` with possibly more imports and nested declarations at their ends. */
  predicate Extends(m: Proto, m2: Proto)
  {
    SameHead(m, m2) && m.imports <= m2.imports && m.nested <= m2.nested
  }

  /** The parent after parsing a child: at most a nested declaration more. */
  predicate Nests(parent: Option<Proto>, parent2: Option<Proto>)
  {
    (parent.None? ==> parent2.None?)
    && (parent.Some? ==>
          parent2.Some? && SameHead(parent.value, parent2.value)
          && parent2.value.imports == parent.value.imports && parent.value.nested <= parent2.value.nested)
  }

  /** A name that only a loaded top-level type can give the imports. */
  predicate Importable(cfg: Config, name: string)
  {
    exists t :: 0 <= t < |cfg.types| && cfg.types[t].name == name && !cfg.types[t].isNested
  }

  /** Every import `m2` has that `m` lacks names a loaded top-level type. */
  predicate ImportsFrom(cfg: Config, m: Proto, m2: Proto)
    requires m.Message? && m2.Message?
  {
    forall x :: x in m2.imports ==> x in m.imports || Importable(cfg, x)
  }

  lemma ExtendsTrans(m1: Proto, m2: Proto, m3: Proto)
    requires Extends(m1, m2) && Extends(m2, m3)
    ensures Extends(m1, m3)
  {
  }

  /** ParseEnumInternal. */
  function ParseEnumF(cfg: Config, st: Store, t: TypeId, parent: Option<Proto>): (r: Parsed)
    requires t < |cfg.types| && (parent.Some? ==> parent.value.Message?)
    ensures st.descent <= r.store.descent && st.protobufs <= r.store.protobufs
    ensures Nests(parent, r.parent)
    ensures cfg.types[t].name in st.descent || HasProto(Target(cfg, st, t, parent), cfg.types[t].name) ==>
              r == Parsed(None, st, parent)
  {
    var (parsed, st1) := IsParsedF(cfg, st, t, parent);
    if parsed then Parsed(None, st1, parent)
    else
      var e := cfg.types[t];
      var name := TranslateProtobufName(cfg.customNameLookup, e.name);
      match EnumFieldsOf(cfg.customNameLookup, e.staticFields, name)
      case Failure(err) => Parsed(Some(err), st1, parent)
      case Success(fields) => AddTo(cfg, st1, t, parent, name, Enum(name, e.assemblyName, e.namespace, fields))
  }

  /** ParseMessageInternal. */
  function ParseMessageF(cfg: Config, st: Store, t: TypeId, skipEnums: bool, skipAttr: bool, parent: Option<Proto>): (r: Parsed)
    requires ValidConfig(cfg) && t < |cfg.types| && (parent.Some? ==> parent.value.Message?)
    ensures st.descent <= r.store.descent && st.protobufs <= r.store.protobufs
    ensures Nests(parent, r.parent)
    ensures cfg.types[t].name in st.descent || HasProto(Target(cfg, st, t, parent), cfg.types[t].name) ==>
              r == Parsed(None, st, parent)
    decreases Unseen(cfg.types, st.descent), 0, 0
  {
    var (parsed, st1) := IsParsedF(cfg, st, t, parent);
    if parsed then Parsed(None, st1, parent)
    else
      var c := cfg.types[t];
      var name := TranslateProtobufName(cfg.customNameLookup, c.name);
      UnseenAdd(cfg.types, st.descent, t);
      var b := BuildF(cfg, st1, t, skipEnums, skipAttr, Message(name, c.assemblyName, c.namespace, [], [], [], []),
                      Plan(cfg, t, skipAttr, name, 0, 0));
      if b.thrown.Some? then Parsed(b.thrown, b.store, parent)
      else AddTo(cfg, b.store, t, parent, name, b.message)
  }

  /** The property loop, one slot at a time, up to the first exception. */
  function BuildF(cfg: Config, st: Store, t: TypeId, skipEnums: bool, skipAttr: bool, msg: Proto, slots: seq<Slot>): (r: Built)
    requires ValidConfig(cfg) && t < |cfg.types| && msg.Message? && SlotsIn(slots, |cfg.types[t].properties|)
    ensures st.descent <= r.store.descent && st.protobufs <= r.store.protobufs
    ensures r.message.Message? && r.message.name == msg.name
    ensures r.message.assemblyName == msg.assemblyName && r.message.namespace == msg.namespace
    decreases Unseen(cfg.types, st.descent), 3, |slots|
  {
    if |slots| == 0 then Built(None, st, msg)
    else
      var b := StepF(cfg, st, t, skipEnums, skipAttr, msg, slots[0]);
      if b.thrown.Some? then b
      else
        UnseenMonotone(cfg.types, st.descent, b.store.descent);
        assert SlotsIn(slots[1..], |cfg.types[t].properties|);
        BuildF(cfg, b.store, t, skipEnums, skipAttr, b.message, slots[1..])
  }

  /** The property loop on a first slot and the rest: the step, then the rest unless the step threw. */
  lemma BuildCons(cfg: Config, st: Store, t: TypeId, skipEnums: bool, skipAttr: bool, msg: Proto, s: Slot, rest: seq<Slot>)
    requires ValidConfig(cfg) && t < |cfg.types| && msg.Message?
    requires s.property < |cfg.types[t].properties| && SlotsIn(rest, |cfg.types[t].properties|)
    ensures var b := StepF(cfg, st, t, skipEnums, skipAttr, msg, s);
            BuildF(cfg, st, t, skipEnums, skipAttr, msg, [s] + rest)
            == if b.thrown.Some? then b else BuildF(cfg, b.store, t, skipEnums, skipAttr, b.message, rest)
  {
    assert ([s] + rest)[1..] == rest;
  }

  /** The slot the loop makes of a property it does not skip. */
  function SlotAt(cfg: Config, t: TypeId, messageName: string, pi: nat, fi: nat): Slot
    requires t < |cfg.types| && pi < |cfg.types[t].properties|
  {
    if IsOneOf(cfg, t, messageName, cfg.types[t].properties[pi]) then OneOfSlot(pi) else FieldSlot(pi, fi, HasCompanion(cfg, t, pi))
  }

  /** The id field cursor after a slot. */
  function NextIdField(s: Slot, fi: nat): nat
  {
    if s.FieldSlot? then fi + 1 else fi
  }

  /**
   * The loop from a property on: a skipped property changes nothing, any
   * other is one step followed by the loop from the next property.
   */
  lemma BuildAt(cfg: Config, st: Store, t: TypeId, skipEnums: bool, skipAttr: bool, messageName: string, msg: Proto, pi: nat, fi: nat)
    requires ValidConfig(cfg) && t < |cfg.types| && msg.Message? && pi < |cfg.types[t].properties|
    ensures Skipped(cfg.types[t].properties[pi], skipAttr) ==>
              Plan(cfg, t, skipAttr, messageName, pi, fi) == Plan(cfg, t, skipAttr, messageName, pi + 1, fi)
    ensures !Skipped(cfg.types[t].properties[pi], skipAttr) ==>
              var s := SlotAt(cfg, t, messageName, pi, fi);
              var b := StepF(cfg, st, t, skipEnums, skipAttr, msg, s);
              && NextProperty(s) <= |cfg.types[t].properties|
              && BuildF(cfg, st, t, skipEnums, skipAttr, msg, Plan(cfg, t, skipAttr, messageName, pi, fi))
                 == if b.thrown.Some? then b
                    else BuildF(cfg, b.store, t, skipEnums, skipAttr, b.message,
                                Plan(cfg, t, skipAttr, messageName, NextProperty(s), NextIdField(s, fi)))
  {
    if !Skipped(cfg.types[t].properties[pi], skipAttr) {
      PlanStep(cfg, t, skipAttr, messageName, pi, fi);
      var plan := Plan(cfg, t, skipAttr, messageName, pi, fi);
      assert plan == [plan[0]] + plan[1..];
      BuildCons(cfg, st, t, skipEnums, skipAttr, msg, plan[0], plan[1..]);
    }
  }

  /**
   * The body of the property loop for one slot.  A oneof: OneOfs.Add of the
   * translated name and the enum's positive constants.  A field: the id
   * field at the cursor must exist, be a literal and an Int32; then the
   * field type is parsed and Fields.Add files the field under the id.
   */
  function StepF(cfg: Config, st: Store, t: TypeId, skipEnums: bool, skipAttr: bool, msg: Proto, s: Slot): (r: Built)
    requires ValidConfig(cfg) && t < |cfg.types| && msg.Message? && s.property < |cfg.types[t].properties|
    ensures st.descent <= r.store.descent && st.protobufs <= r.store.protobufs
    ensures r.message.Message? && r.message.name == msg.name
    ensures r.message.assemblyName == msg.assemblyName && r.message.namespace == msg.namespace
    ensures r.thrown.None? ==> r.message.oneOfs == msg.oneOfs + OneOfEntry(cfg, t, s)
    ensures r.thrown.None? && s.OneOfSlot? ==> r.message.fields == msg.fields
    ensures r.thrown.None? && s.FieldSlot? ==>
              |r.message.fields| == |msg.fields| + 1 && r.message.fields[..|msg.fields|] == msg.fields
              && FieldFits(cfg, t, r.message.fields[|msg.fields|], s)
    decreases Unseen(cfg.types, st.descent), 3, 0
  {
    var prop := cfg.types[t].properties[s.property];
    match s
    case OneOfSlot(_) =>
      var oneOfName := TranslateOneOfName(cfg.customNameLookup, prop.name);
      var ids := PositiveConstants(cfg.types[prop.propertyType].staticFields);
      if HasOneOf(msg.oneOfs, oneOfName) then Built(Some(DuplicateKey), st, msg)
      else Built(None, st, msg.(oneOfs := msg.oneOfs + [(oneOfName, ids)]))
    case FieldSlot(_, fi, optional) =>
      var idFields := cfg.types[t].staticFields;
      if fi >= |idFields| then Built(Some(IndexOutOfRange), st, msg)
      else if !idFields[fi].isLiteral || idFields[fi].fieldTypeName != "Int32" then Built(Some(GuardFailed), st, msg)
      else
        var ft := FieldTypeF(cfg, st, prop.propertyType, skipEnums, skipAttr, msg);
        var id := idFields[fi].constant;
        if ft.thrown.Some? then Built(ft.thrown, ft.store, ft.message)
        else if HasFieldId(ft.message.fields, id) then Built(Some(DuplicateKey), ft.store, ft.message)
        else
          var field := ProtoField(optional, ft.typeName, TranslateMessageFieldName(cfg.customNameLookup, prop.name));
          Built(None, ft.store, ft.message.(fields := ft.message.fields + [(id, field)]))
  }

  /** ParseFieldType: the field type's name, parsing the message or enum it names on the way. */
  function FieldTypeF(cfg: Config, st: Store, t: TypeId, skipEnums: bool, skipAttr: bool, msg: Proto): (r: Typed)
    requires ValidConfig(cfg) && t < |cfg.types| && msg.Message?
    ensures st.descent <= r.store.descent && st.protobufs <= r.store.protobufs
    ensures Extends(msg, r.message)
    decreases Unseen(cfg.types, st.descent), 2, t
  {
    var ty := cfg.types[t];
    var scalar := ScalarTypeName(ty.name);
    if scalar.Some? then Typed(None, st, msg, scalar.value)
    else if |ty.genericArguments| == 1 then
      var a := FieldTypeF(cfg, st, ty.genericArguments[0], skipEnums, skipAttr, msg);
      if a.thrown.Some? then a else a.(typeName := "repeated " + a.typeName)
    else if |ty.genericArguments| == 2 then
      var a := FieldTypeF(cfg, st, ty.genericArguments[0], skipEnums, skipAttr, msg);
      if a.thrown.Some? then a
      else
        UnseenMonotone(cfg.types, st.descent, a.store.descent);
        var b := FieldTypeF(cfg, a.store, ty.genericArguments[1], skipEnums, skipAttr, a.message);
        ExtendsTrans(msg, a.message, b.message);
        if b.thrown.Some? then b else b.(typeName := "map<" + a.typeName + ", " + b.typeName + ">")
    else if ty.name in cfg.customTypeLookup then Typed(None, st, msg, cfg.customTypeLookup[ty.name])
    else if ty.isEnum && skipEnums then Typed(None, st, msg, "int32")
    else NamedTypeF(cfg, st, t, skipEnums, skipAttr, msg)
  }

  /**
   * The end of ParseFieldType for a message or enum type: parse it into the
   * message being built, import it unless it is nested, and name it.
   */
  function NamedTypeF(cfg: Config, st: Store, t: TypeId, skipEnums: bool, skipAttr: bool, msg: Proto): (r: Typed)
    requires ValidConfig(cfg) && t < |cfg.types| && msg.Message?
    ensures st.descent <= r.store.descent && st.protobufs <= r.store.protobufs
    ensures Extends(msg, r.message)
    decreases Unseen(cfg.types, st.descent), 1, 0
  {
    var ty := cfg.types[t];
    var p := if ty.isEnum then ParseEnumF(cfg, st, t, Some(msg))
             else ParseMessageF(cfg, st, t, skipEnums, skipAttr, Some(msg));
    var m := p.parent.value;
    if p.thrown.Some? then Typed(p.thrown, p.store, m, "")
    else if ty.isNested then Typed(None, p.store, m, ty.name)
    else Typed(None, p.store, m.(imports := AddImport(m.imports, ty.name)), ty.name)
  }

  /** The public ParseMessage: a class is required; the descent is cleared when nothing was thrown. */
  function ParseMessageTop(cfg: Config, st: Store, t: TypeId, skipEnums: bool, skipAttr: bool): (r: Outcome)
    requires ValidConfig(cfg) && t < |cfg.types|
    ensures st.protobufs <= r.store.protobufs
    ensures !cfg.types[t].isClass ==> r == Outcome(Some(GuardFailed), st)
    ensures r.thrown.None? ==> r.store.descent == {}
    ensures r.thrown.Some? ==> st.descent <= r.store.descent
    ensures cfg.types[t].isClass && (cfg.types[t].name in st.descent || HasProto(st.protobufs, cfg.types[t].name)) ==>
              r == Outcome(None, st.(descent := {}))
  {
    if !cfg.types[t].isClass then Outcome(Some(GuardFailed), st)
    else
      var p := ParseMessageF(cfg, st, t, skipEnums, skipAttr, None);
      if p.thrown.Some? then Outcome(p.thrown, p.store) else Outcome(None, p.store.(descent := {}))
  }

  /** The public ParseEnum: an enum is required; the descent is cleared when nothing was thrown. */
  function ParseEnumTop(cfg: Config, st: Store, t: TypeId): (r: Outcome)
    requires t < |cfg.types|
    ensures st.protobufs <= r.store.protobufs
    ensures !cfg.types[t].isEnum ==> r == Outcome(Some(GuardFailed), st)
    ensures r.thrown.None? ==> r.store.descent == {}
    ensures r.thrown.Some? ==> st.descent <= r.store.descent
    ensures cfg.types[t].isEnum && (cfg.types[t].name in st.descent || HasProto(st.protobufs, cfg.types[t].name)) ==>
              r == Outcome(None, st.(descent := {}))
  {
    if !cfg.types[t].isEnum then Outcome(Some(GuardFailed), st)
    else
      var p := ParseEnumF(cfg, st, t, None);
      if p.thrown.Some? then Outcome(p.thrown, p.store) else Outcome(None, p.store.(descent := {}))
  }

  // ---------------------------------------------------------------------
  // What a parse produces

  lemma SeqAssoc<T>(a: seq<T>, b: seq<T>, c: seq<T>)
    ensures a + (b + c) == (a + b) + c
  {
  }

  /** The oneof a slot declares, if it is a oneof slot: translated name, positive constants of the enum. */
  function OneOfEntry(cfg: Config, t: TypeId, s: Slot): seq<(string, seq<int>)>
  {
    if s.OneOfSlot? && t < |cfg.types| && s.property < |cfg.types[t].properties|
       && cfg.types[t].properties[s.property].propertyType < |cfg.types| then
      var prop := cfg.types[t].properties[s.property];
      [(TranslateOneOfName(cfg.customNameLookup, prop.name), PositiveConstants(cfg.types[prop.propertyType].staticFields))]
    else []
  }

  /** The oneofs the slots declare, in order. */
  function OneOfsOf(cfg: Config, t: TypeId, slots: seq<Slot>): seq<(string, seq<int>)>
  {
    if |slots| == 0 then [] else OneOfEntry(cfg, t, slots[0]) + OneOfsOf(cfg, t, slots[1..])
  }

  /**
   * A field entry made by a field slot: numbered by its id field's constant,
   * optional as the slot says, named after its property.
   */
  predicate FieldFits(cfg: Config, t: TypeId, e: (int, ProtoField), s: Slot)
    requires t < |cfg.types|
  {
    s.FieldSlot? && s.property < |cfg.types[t].properties| && s.idField < |cfg.types[t].staticFields|
    && e.0 == cfg.types[t].staticFields[s.idField].constant
    && e.1.isOptional == s.isOptional
    && e.1.name == TranslateMessageFieldName(cfg.customNameLookup, cfg.types[t].properties[s.property].name)
  }

  predicate FieldsFollow(cfg: Config, t: TypeId, fields: seq<(int, ProtoField)>, fs: seq<Slot>)
    requires t < |cfg.types|
  {
    |fields| == |fs| && forall k :: 0 <= k < |fs| ==> FieldFits(cfg, t, fields[k], fs[k])
  }

  lemma FieldsFollowCons(cfg: Config, t: TypeId, e: (int, ProtoField), fields: seq<(int, ProtoField)>, s: Slot, fs: seq<Slot>)
    requires t < |cfg.types| && FieldFits(cfg, t, e, s) && FieldsFollow(cfg, t, fields, fs)
    ensures FieldsFollow(cfg, t, [e] + fields, [s] + fs)
  {
    var all := [s] + fs;
    var es := [e] + fields;
    assert forall k :: 1 <= k < |all| ==> all[k] == fs[k - 1] && es[k] == fields[k - 1];
  }

  /** What the property loop adds to the oneofs when nothing is thrown: one per oneof slot, in order. */
  lemma {:induction false} BuildOneOfsFollowSlots(cfg: Config, st: Store, t: TypeId, skipEnums: bool, skipAttr: bool, msg: Proto, slots: seq<Slot>)
    requires ValidConfig(cfg) && t < |cfg.types| && msg.Message? && SlotsIn(slots, |cfg.types[t].properties|)
    ensures var r := BuildF(cfg, st, t, skipEnums, skipAttr, msg, slots);
            r.thrown.None? ==> r.message.oneOfs == msg.oneOfs + OneOfsOf(cfg, t, slots)
    decreases |slots|
  {
    if |slots| > 0 {
      var b := StepF(cfg, st, t, skipEnums, skipAttr, msg, slots[0]);
      if b.thrown.None? {
        assert SlotsIn(slots[1..], |cfg.types[t].properties|);
        BuildOneOfsFollowSlots(cfg, b.store, t, skipEnums, skipAttr, b.message, slots[1..]);
        SeqAssoc(msg.oneOfs, OneOfEntry(cfg, t, slots[0]), OneOfsOf(cfg, t, slots[1..]));
      }
    }
  }

  /**
   * What the property loop adds to the fields when nothing is thrown: one
   * per field slot, in order, after the fields already there.
   */
  lemma {:induction false} BuildFieldsFollowSlots(cfg: Config, st: Store, t: TypeId, skipEnums: bool, skipAttr: bool, msg: Proto, slots: seq<Slot>)
    returns (added: seq<(int, ProtoField)>)
    requires ValidConfig(cfg) && t < |cfg.types| && msg.Message? && SlotsIn(slots, |cfg.types[t].properties|)
    ensures var r := BuildF(cfg, st, t, skipEnums, skipAttr, msg, slots);
            r.thrown.None? ==> r.message.fields == msg.fields + added && FieldsFollow(cfg, t, added, FieldSlotsOf(slots))
    decreases |slots|
  {
    added := [];
    if |slots| > 0 {
      var b := StepF(cfg, st, t, skipEnums, skipAttr, msg, slots[0]);
      if b.thrown.None? {
        assert SlotsIn(slots[1..], |cfg.types[t].properties|);
        var rest := BuildFieldsFollowSlots(cfg, b.store, t, skipEnums, skipAttr, b.message, slots[1..]);
        if BuildF(cfg, b.store, t, skipEnums, skipAttr, b.message, slots[1..]).thrown.None? {
          added := FieldsAfterStep(cfg, t, msg.fields, b.message.fields, slots[0], rest, FieldSlotsOf(slots[1..]));
        }
      }
    }
  }

  /** One step of the loop followed by the rest, on the fields alone. */
  lemma FieldsAfterStep(cfg: Config, t: TypeId, before: seq<(int, ProtoField)>, mid: seq<(int, ProtoField)>, s: Slot,
                        rest: seq<(int, ProtoField)>, fs: seq<Slot>)
    returns (added: seq<(int, ProtoField)>)
    requires t < |cfg.types|
    requires s.OneOfSlot? ==> mid == before
    requires s.FieldSlot? ==> |mid| == |before| + 1 && mid[..|before|] == before && FieldFits(cfg, t, mid[|before|], s)
    requires FieldsFollow(cfg, t, rest, fs)
    ensures mid + rest == before + added
    ensures FieldsFollow(cfg, t, added, (if s.FieldSlot? then [s] else []) + fs)
  {
    if s.FieldSlot? {
      var e := mid[|before|];
      assert mid == before + [e];
      FieldsFollowCons(cfg, t, e, rest, s, fs);
      SeqAssoc(before, [e], rest);
      added := [e] + rest;
    } else {
      added := rest;
    }
  }

  /** The k-th field is numbered by the k-th public static field. */
  predicate NumberedInOrder(fields: seq<(int, ProtoField)>, idFields: seq<StaticField>)
  {
    |fields| <= |idFields| && forall k :: 0 <= k < |fields| ==> fields[k].0 == idFields[k].constant
  }

  /**
   * The property loop run over a class's plan, from an empty message, when
   * nothing is thrown: the oneofs of its oneof properties, and one field per
   * field slot numbered by the static fields in order.
   */
  lemma PlannedMessageShape(cfg: Config, st: Store, t: TypeId, skipEnums: bool, skipAttr: bool, msg0: Proto)
    requires ValidConfig(cfg) && t < |cfg.types| && msg0.Message? && msg0.oneOfs == [] && msg0.fields == []
    ensures var plan := Plan(cfg, t, skipAttr, msg0.name, 0, 0);
            var b := BuildF(cfg, st, t, skipEnums, skipAttr, msg0, plan);
            b.thrown.None? ==>
              && b.message.oneOfs == OneOfsOf(cfg, t, plan)
              && FieldsFollow(cfg, t, b.message.fields, FieldSlotsOf(plan))
              && NumberedInOrder(b.message.fields, cfg.types[t].staticFields)
  {
    var plan := Plan(cfg, t, skipAttr, msg0.name, 0, 0);
    BuildOneOfsFollowSlots(cfg, st, t, skipEnums, skipAttr, msg0, plan);
    var added := BuildFieldsFollowSlots(cfg, st, t, skipEnums, skipAttr, msg0, plan);
    var b := BuildF(cfg, st, t, skipEnums, skipAttr, msg0, plan);
    if b.thrown.None? {
      assert b.message.fields == added;
      assert b.message.oneOfs == OneOfsOf(cfg, t, plan);
      PlanReadsIdFieldsInOrder(cfg, t, skipAttr, msg0.name, 0, 0);
      FollowingFieldsNumbered(cfg, t, added, FieldSlotsOf(plan));
    }
  }

  /** Fields that follow field slots reading the id fields 0, 1, 2, ... are numbered in order. */
  lemma FollowingFieldsNumbered(cfg: Config, t: TypeId, fields: seq<(int, ProtoField)>, fs: seq<Slot>)
    requires t < |cfg.types| && FieldsFollow(cfg, t, fields, fs) && IdsCountFrom(fs, 0)
    ensures NumberedInOrder(fields, cfg.types[t].staticFields)
  {
    forall k | 0 <= k < |fields|
      ensures k < |cfg.types[t].staticFields| && fields[k].0 == cfg.types[t].staticFields[k].constant
    {
      assert FieldFits(cfg, t, fields[k], fs[k]);
      assert fs[k].idField == 0 + k;
    }
    if |fields| > 0 {
      assert fields[|fields| - 1].0 == cfg.types[t].staticFields[|fields| - 1].constant;
    }
  }

  /** ParseMessageInternal of a class not met before, when nothing is thrown. */
  lemma ParsedMessageStored(cfg: Config, st: Store, t: TypeId, skipEnums: bool, skipAttr: bool)
    returns (b: Built)
    requires ValidConfig(cfg) && t < |cfg.types|
    requires cfg.types[t].name !in st.descent && !HasProto(st.protobufs, cfg.types[t].name)
    requires ParseMessageF(cfg, st, t, skipEnums, skipAttr, None).thrown.None?
    ensures var c := cfg.types[t];
            var name := TranslateProtobufName(cfg.customNameLookup, c.name);
            var msg0 := Message(name, c.assemblyName, c.namespace, [], [], [], []);
            && ValidConfig(cfg) && b.thrown.None?
            && b == BuildF(cfg, st.(descent := st.descent + {c.name}), t, skipEnums, skipAttr, msg0, Plan(cfg, t, skipAttr, name, 0, 0))
            && ParseMessageF(cfg, st, t, skipEnums, skipAttr, None).store.protobufs == b.store.protobufs + [(name, b.message)]
  {
    var c := cfg.types[t];
    var name := TranslateProtobufName(cfg.customNameLookup, c.name);
    UnseenAdd(cfg.types, st.descent, t);
    b := BuildF(cfg, st.(descent := st.descent + {c.name}), t, skipEnums, skipAttr,
                Message(name, c.assemblyName, c.namespace, [], [], [], []), Plan(cfg, t, skipAttr, name, 0, 0));
  }

  /**
   * A successful top-level ParseMessage of a class not met before stores,
   * last, a message under the translated name, with the class's origin, the
   * oneofs of its oneof properties, and its k-th field numbered by the k-th
   * public static field.
   */
  lemma ParsedMessageShape(cfg: Config, st: Store, t: TypeId, skipEnums: bool, skipAttr: bool)
    requires ValidConfig(cfg) && t < |cfg.types| && cfg.types[t].isClass
    requires cfg.types[t].name !in st.descent && !HasProto(st.protobufs, cfg.types[t].name)
    requires ParseMessageTop(cfg, st, t, skipEnums, skipAttr).thrown.None?
    ensures var r := ParseMessageTop(cfg, st, t, skipEnums, skipAttr);
            var c := cfg.types[t];
            var name := TranslateProtobufName(cfg.customNameLookup, c.name);
            var plan := Plan(cfg, t, skipAttr, name, 0, 0);
            && |r.store.protobufs| > |st.protobufs|
            && var m := r.store.protobufs[|r.store.protobufs| - 1];
               && m.0 == name && m.1.Message? && m.1.name == name
               && m.1.assemblyName == c.assemblyName && m.1.namespace == c.namespace
               && m.1.oneOfs == OneOfsOf(cfg, t, plan)
               && FieldsFollow(cfg, t, m.1.fields, FieldSlotsOf(plan))
               && NumberedInOrder(m.1.fields, c.staticFields)
  {
    var c := cfg.types[t];
    var name := TranslateProtobufName(cfg.customNameLookup, c.name);
    var msg0 := Message(name, c.assemblyName, c.namespace, [], [], [], []);
    var b := ParsedMessageStored(cfg, st, t, skipEnums, skipAttr);
    PlannedMessageShape(cfg, st.(descent := st.descent + {c.name}), t, skipEnums, skipAttr, msg0);
    var r := ParseMessageTop(cfg, st, t, skipEnums, skipAttr);
    assert r.store.protobufs == b.store.protobufs + [(name, b.message)];
    assert r.store.protobufs[|r.store.protobufs| - 1] == (name, b.message);
    assert |r.store.protobufs| > |st.protobufs|;
    assert b.message.oneOfs == OneOfsOf(cfg, t, Plan(cfg, t, skipAttr, name, 0, 0));
    assert FieldsFollow(cfg, t, b.message.fields, FieldSlotsOf(Plan(cfg, t, skipAttr, name, 0, 0)));
    assert NumberedInOrder(b.message.fields, c.staticFields);
  }

  /**
   * A successful top-level ParseEnum of an enum not met before stores, last,
   * an enum under the translated name whose members carry the enum's
   * constants in declaration order.
   */
  lemma ParsedEnumShape(cfg: Config, st: Store, t: TypeId)
    requires t < |cfg.types| && cfg.types[t].isEnum
    requires cfg.types[t].name !in st.descent && !HasProto(st.protobufs, cfg.types[t].name)
    requires ParseEnumTop(cfg, st, t).thrown.None?
    ensures var r := ParseEnumTop(cfg, st, t);
            var c := cfg.types[t];
            var name := TranslateProtobufName(cfg.customNameLookup, c.name);
            && |r.store.protobufs| == |st.protobufs| + 1
            && var m := r.store.protobufs[|st.protobufs|];
               && m.0 == name && m.1.Enum? && m.1.name == name
               && m.1.assemblyName == c.assemblyName && m.1.namespace == c.namespace
               && |m.1.enumFields| == |c.staticFields|
               && forall i :: 0 <= i < |c.staticFields| ==> m.1.enumFields[i].0 == c.staticFields[i].constant
  {
  }

  /**
   * Types are looked up by CLR name but stored by translated name: when the
   * name lookup renames a class and its new name is already stored, parsing
   * it again in a later call always throws.
   */
  lemma RenamedClassReparseThrows(cfg: Config, st: Store, t: TypeId, skipEnums: bool, skipAttr: bool)
    requires ValidConfig(cfg) && t < |cfg.types| && cfg.types[t].isClass
    requires cfg.types[t].name !in st.descent && !HasProto(st.protobufs, cfg.types[t].name)
    requires HasProto(st.protobufs, TranslateProtobufName(cfg.customNameLookup, cfg.types[t].name))
    ensures ParseMessageTop(cfg, st, t, skipEnums, skipAttr).thrown.Some?
  {
    var c := cfg.types[t];
    var name := TranslateProtobufName(cfg.customNameLookup, c.name);
    var st1 := st.(descent := st.descent + {c.name});
    UnseenAdd(cfg.types, st.descent, t);
    var b := BuildF(cfg, st1, t, skipEnums, skipAttr, Message(name, c.assemblyName, c.namespace, [], [], [], []),
                    Plan(cfg, t, skipAttr, name, 0, 0));
    if b.thrown.None? {
      HasProtoPrefix(st.protobufs, b.store.protobufs, name);
    }
  }

  /**
   * An exception leaves the class in the descent, which only a successful
   * call clears: a later ParseMessage of the same class silently does
   * nothing.
   */
  lemma ThrownParseLeavesClassSkipped(cfg: Config, st: Store, t: TypeId, skipEnums: bool, skipAttr: bool)
    requires ValidConfig(cfg) && t < |cfg.types| && cfg.types[t].isClass
    requires cfg.types[t].name !in st.descent && !HasProto(st.protobufs, cfg.types[t].name)
    requires ParseMessageTop(cfg, st, t, skipEnums, skipAttr).thrown.Some?
    ensures var st2 := ParseMessageTop(cfg, st, t, skipEnums, skipAttr).store;
            cfg.types[t].name in st2.descent
            && ParseMessageTop(cfg, st2, t, skipEnums, skipAttr) == Outcome(None, st2.(descent := {}))
  {
    var c := cfg.types[t];
    var st1 := st.(descent := st.descent + {c.name});
    assert IsParsedF(cfg, st, t, None) == (false, st1);
    UnseenAdd(cfg.types, st.descent, t);
  }

  /** No two fields share an id: the keys of the Fields dictionary. */
  predicate DistinctIds(fields: seq<(int, ProtoField)>)
  {
    forall i, j :: 0 <= i < j < |fields| ==> fields[i].0 != fields[j].0
  }

  lemma DistinctIdsSnoc(fields: seq<(int, ProtoField)>, e: (int, ProtoField))
    requires DistinctIds(fields) && !HasFieldId(fields, e.0)
    ensures DistinctIds(fields + [e])
  {
    var f := fields + [e];
    forall i, j | 0 <= i < j < |f| ensures f[i].0 != f[j].0 {
      assert f[i] == fields[i];
      if j < |fields| { assert f[j] == fields[j]; }
    }
  }

  /**
   * A field slot throws IndexOutOfRange when the cursor is past the id
   * fields and GuardFailed when its id field is not a literal Int32;
   * otherwise it adds a field under an id the message did not have.
   */
  lemma FieldSlotOutcome(cfg: Config, st: Store, t: TypeId, skipEnums: bool, skipAttr: bool, msg: Proto, s: Slot)
    requires ValidConfig(cfg) && t < |cfg.types| && msg.Message? && s.FieldSlot? && s.property < |cfg.types[t].properties|
    ensures var r := StepF(cfg, st, t, skipEnums, skipAttr, msg, s);
            var idFields := cfg.types[t].staticFields;
            && (s.idField >= |idFields| ==> r == Built(Some(IndexOutOfRange), st, msg))
            && (s.idField < |idFields| && !(idFields[s.idField].isLiteral && idFields[s.idField].fieldTypeName == "Int32") ==>
                  r == Built(Some(GuardFailed), st, msg))
            && (r.thrown.None? ==> !HasFieldId(msg.fields, r.message.fields[|msg.fields|].0))
  {
  }

  /** The property loop keeps the field ids distinct. */
  lemma {:induction false} BuildKeepsIdsDistinct(cfg: Config, st: Store, t: TypeId, skipEnums: bool, skipAttr: bool, msg: Proto,
                                                 slots: seq<Slot>, r: Built)
    requires ValidConfig(cfg) && t < |cfg.types| && msg.Message? && SlotsIn(slots, |cfg.types[t].properties|)
    requires r == BuildF(cfg, st, t, skipEnums, skipAttr, msg, slots) && r.thrown.None?
    requires DistinctIds(msg.fields)
    ensures DistinctIds(r.message.fields)
    decreases |slots|
  {
    if |slots| > 0 {
      var b := StepF(cfg, st, t, skipEnums, skipAttr, msg, slots[0]);
      assert b.thrown.None?;
      if slots[0].FieldSlot? {
        FieldSlotOutcome(cfg, st, t, skipEnums, skipAttr, msg, slots[0]);
        var e := b.message.fields[|msg.fields|];
        assert b.message.fields == msg.fields + [e];
        DistinctIdsSnoc(msg.fields, e);
      }
      assert SlotsIn(slots[1..], |cfg.types[t].properties|);
      BuildKeepsIdsDistinct(cfg, b.store, t, skipEnums, skipAttr, b.message, slots[1..], r);
    }
  }

  /** A message stored by a successful top-level ParseMessage has no two fields with one id. */
  lemma ParsedMessageIdsDistinct(cfg: Config, st: Store, t: TypeId, skipEnums: bool, skipAttr: bool)
    requires ValidConfig(cfg) && t < |cfg.types| && cfg.types[t].isClass
    requires cfg.types[t].name !in st.descent && !HasProto(st.protobufs, cfg.types[t].name)
    requires ParseMessageTop(cfg, st, t, skipEnums, skipAttr).thrown.None?
    ensures var ps := ParseMessageTop(cfg, st, t, skipEnums, skipAttr).store.protobufs;
            |ps| > 0 && ps[|ps| - 1].1.Message? && DistinctIds(ps[|ps| - 1].1.fields)
  {
    var c := cfg.types[t];
    var name := TranslateProtobufName(cfg.customNameLookup, c.name);
    var b := ParsedMessageStored(cfg, st, t, skipEnums, skipAttr);
    BuildKeepsIdsDistinct(cfg, st.(descent := st.descent + {c.name}), t, skipEnums, skipAttr,
                          Message(name, c.assemblyName, c.namespace, [], [], [], []), Plan(cfg, t, skipAttr, name, 0, 0), b);
    var ps := ParseMessageTop(cfg, st, t, skipEnums, skipAttr).store.protobufs;
    assert ps == b.store.protobufs + [(name, b.message)];
    assert ps[|ps| - 1] == (name, b.message);
  }

  /**
   * The order ParseFieldType resolves a type in: the scalar names, then one
   * type argument (repeated) or two (map), then the type lookup, then an
   * enum as int32 when enums are skipped; anything else is parsed, named
   * by its CLR name and imported unless nested.
   */
  lemma FieldTypeResolution(cfg: Config, st: Store, t: TypeId, skipEnums: bool, skipAttr: bool, msg: Proto)
    requires ValidConfig(cfg) && t < |cfg.types| && msg.Message?
    ensures var ty := cfg.types[t];
            var ga := ty.genericArguments;
            var r := FieldTypeF(cfg, st, t, skipEnums, skipAttr, msg);
            && (ScalarTypeName(ty.name).Some? ==> r == Typed(None, st, msg, ScalarTypeName(ty.name).value))
            && (ScalarTypeName(ty.name).None? && |ga| == 1 && r.thrown.None? ==>
                  r.typeName == "repeated " + FieldTypeF(cfg, st, ga[0], skipEnums, skipAttr, msg).typeName)
            && (ScalarTypeName(ty.name).None? && |ga| != 1 && |ga| != 2 ==>
                  && (ty.name in cfg.customTypeLookup ==> r == Typed(None, st, msg, cfg.customTypeLookup[ty.name]))
                  && (ty.name !in cfg.customTypeLookup && ty.isEnum && skipEnums ==> r == Typed(None, st, msg, "int32"))
                  && (ty.name !in cfg.customTypeLookup && !(ty.isEnum && skipEnums) && r.thrown.None? ==>
                        r.typeName == ty.name && (!ty.isNested ==> ty.name in r.message.imports)
                        && (ty.isNested ==> r.message.imports == msg.imports)))
  {
  }
}
