// The schema reconstruction engine of the library, as an object: ProtodecContext
// (src/LibProtodec/ProtodecContext.cs) and its predecessor Protodec
// (src/LibProtodec/Protodec.cs), told apart by the configuration's revision.
// The context holds the protobufs parsed so far and the current descent, and
// its methods update them as the C# methods do.  Each method is proved to
// leave exactly the state, and return exactly the result, that the functions
// of LibraryParsing describe; the properties of a parse are proved there.
//
// The message being built is a value handed down and back up: in the source
// it is an object that only the call building it, and the calls it makes on
// its property types, can see, so no alias of it is ever observed.
module ProtodecContexts {
  import opened Util
  import opened Reflection
  import opened LegacyWriters
  import opened LibraryParsing
  import Writer

  class ProtodecContext {
    /** The loaded types, the lookup callbacks (CustomTypeLookup, CustomNameLookup) and the revision. */
    const config: Config
    /** `_protobufs`: the top-level messages and enums under their translated names. */
    var protobufs: seq<(string, Proto)>
    /** `_currentDescent`: the CLR names of the types met since the last successful public call. */
    var currentDescent: set<string>

    constructor (config: Config)
      ensures this.config == config && protobufs == [] && currentDescent == {}
    {
      this.config := config;
      protobufs := [];
      currentDescent := {};
    }

    function State(): Store
      reads this
    {
      Store(protobufs, currentDescent)
    }

    /** The Protobufs property. */
    function Protobufs(): (r: seq<(string, Proto)>)
      reads this
      ensures r == State().protobufs
    {
      protobufs
    }

    /** WriteAllTo: the preamble, then every top-level protobuf followed by two line ends. */
    method WriteAllTo(w: Writer.IndentedWriter) returns (ok: bool)
      modifies w
      ensures w.trace == old(w.trace) + AllTrace(Library, Values(protobufs)).ops
      ensures ok == AllTrace(Library, Values(protobufs)).ok
    {
      ok := LegacyWriters.WriteAllTo(w, Library, Values(protobufs));
    }

    /** The public ParseMessage. */
    method ParseMessage(t: TypeId, skipEnums: bool, skipPropertiesWithoutProtocAttribute: bool) returns (thrown: Option<Error>)
      requires ValidConfig(config) && t < |config.types|
      modifies this
      ensures Outcome(thrown, State()) == ParseMessageTop(config, old(State()), t, skipEnums, skipPropertiesWithoutProtocAttribute)
    {
      if !config.types[t].isClass {
        return Some(GuardFailed);
      }
      var parent;
      thrown, parent := ParseMessageInternal(t, skipEnums, skipPropertiesWithoutProtocAttribute, None);
      if thrown.None? {
        currentDescent := {};
      }
    }

    /** The public ParseEnum. */
    method ParseEnum(t: TypeId) returns (thrown: Option<Error>)
      requires t < |config.types|
      modifies this
      ensures Outcome(thrown, State()) == ParseEnumTop(config, old(State()), t)
    {
      if !config.types[t].isEnum {
        return Some(GuardFailed);
      }
      var parent;
      thrown, parent := ParseEnumInternal(t, None);
      if thrown.None? {
        currentDescent := {};
      }
    }

    /** IsParsed, with the dictionary it picks recomputed by Target where it is needed. */
    method IsParsed(t: TypeId, parent: Option<Proto>) returns (parsed: bool)
      requires t < |config.types| && (parent.Some? ==> parent.value.Message?)
      modifies this
      ensures (parsed, State()) == IsParsedF(config, old(State()), t, parent)
    {
      var name := config.types[t].name;
      var target := if parent.Some? && config.types[t].isNested then parent.value.nested else protobufs;
      if HasProto(target, name) {
        return true;
      }
      parsed := name in currentDescent;
      currentDescent := currentDescent + {name};
    }

    /** `protobufs.Add(name, p)` on the dictionary IsParsed picked. */
    method AddProto(t: TypeId, parent: Option<Proto>, name: string, p: Proto) returns (thrown: Option<Error>, parent2: Option<Proto>)
      requires t < |config.types| && (parent.Some? ==> parent.value.Message?)
      modifies this
      ensures Parsed(thrown, State(), parent2) == AddTo(config, old(State()), t, parent, name, p)
    {
      if parent.Some? && config.types[t].isNested {
        if HasProto(parent.value.nested, name) {
          return Some(DuplicateKey), parent;
        }
        return None, Some(parent.value.(nested := parent.value.nested + [(name, p)]));
      }
      if HasProto(protobufs, name) {
        return Some(DuplicateKey), parent;
      }
      protobufs := protobufs + [(name, p)];
      return None, parent;
    }

    /** ParseEnumInternal: one member per public static field, in order. */
    method ParseEnumInternal(t: TypeId, parent: Option<Proto>) returns (thrown: Option<Error>, parent2: Option<Proto>)
      requires t < |config.types| && (parent.Some? ==> parent.value.Message?)
      modifies this
      ensures Parsed(thrown, State(), parent2) == ParseEnumF(config, old(State()), t, parent)
    {
      var parsed := IsParsed(t, parent);
      if parsed {
        return None, parent;
      }
      var e := config.types[t];
      var name := TranslateProtobufName(config.customNameLookup, e.name);
      var fields := EnumMembers(e.staticFields, name);
      if fields.Failure? {
        return Some(fields.error), parent;
      }
      thrown, parent2 := AddProto(t, parent, name, Enum(name, e.assemblyName, e.namespace, fields.value));
    }

    /** The foreach loop of ParseEnumInternal: each member's constant and translated name, up to the first exception. */
    method EnumMembers(staticFields: seq<StaticField>, enumName: string) returns (r: Result<seq<(int, string)>>)
      ensures r == EnumFieldsOf(config.customNameLookup, staticFields, enumName)
    {
      var fields: seq<(int, string)> := [];
      for i := 0 to |staticFields|
        invariant EnumFieldsOf(config.customNameLookup, staticFields[..i], enumName) == Success(fields)
      {
        assert staticFields[..i + 1][..i] == staticFields[..i];
        var fieldName := TranslateEnumFieldName(config.customNameLookup, staticFields[i], enumName);
        if fieldName.Failure? {
          EnumFieldsFailureStays(config.customNameLookup, staticFields, i + 1, enumName);
          return Failure(fieldName.error);
        }
        fields := fields + [(staticFields[i].constant, fieldName.value)];
      }
      assert staticFields[..|staticFields|] == staticFields;
      return Success(fields);
    }

    /**
     * ParseFieldType: a scalar's name, a repeated or map type of its
     * arguments' names, a looked-up name, "int32" for a skipped enum, or the
     * name of the message or enum it parses into `message`.
     */
    method ParseFieldType(t: TypeId, skipEnums: bool, skipAttr: bool, message: Proto)
      returns (thrown: Option<Error>, message2: Proto, typeName: string)
      requires ValidConfig(config) && t < |config.types| && message.Message?
      modifies this
      ensures Typed(thrown, State(), message2, typeName) == FieldTypeF(config, old(State()), t, skipEnums, skipAttr, message)
      decreases Unseen(config.types, currentDescent), 2, t
    {
      var ty := config.types[t];
      var scalar := ScalarTypeName(ty.name);
      if scalar.Some? {
        return None, message, scalar.value;
      }
      if |ty.genericArguments| == 1 {
        var element;
        thrown, message2, element := ParseFieldType(ty.genericArguments[0], skipEnums, skipAttr, message);
        if thrown.Some? {
          return thrown, message2, element;
        }
        return None, message2, "repeated " + element;
      }
      if |ty.genericArguments| == 2 {
        ghost var d0 := currentDescent;
        var key;
        thrown, message2, key := ParseFieldType(ty.genericArguments[0], skipEnums, skipAttr, message);
        if thrown.Some? {
          return thrown, message2, key;
        }
        UnseenMonotone(config.types, d0, currentDescent);
        var value;
        thrown, message2, value := ParseFieldType(ty.genericArguments[1], skipEnums, skipAttr, message2);
        if thrown.Some? {
          return thrown, message2, value;
        }
        return None, message2, "map<" + key + ", " + value + ">";
      }
      if ty.name in config.customTypeLookup {
        return None, message, config.customTypeLookup[ty.name];
      }
      if ty.isEnum && skipEnums {
        return None, message, "int32";
      }
      var parent;
      if ty.isEnum {
        thrown, parent := ParseEnumInternal(t, Some(message));
      } else {
        thrown, parent := ParseMessageInternal(t, skipEnums, skipAttr, Some(message));
      }
      message2 := parent.value;
      if thrown.Some? {
        return thrown, message2, "";
      }
      if !ty.isNested {
        message2 := message2.(imports := AddImport(message2.imports, ty.name));
      }
      typeName := ty.name;
    }

    /**
     * ParseMessageInternal: the loop over the public instance properties
     * with the property cursor `pi` and the id field cursor `fi`, then
     * `protobufs.Add`.  The invariant: what is left of the loop, run from
     * here, ends where the whole loop run from the start ends.
     */
    method ParseMessageInternal(t: TypeId, skipEnums: bool, skipAttr: bool, parent: Option<Proto>)
      returns (thrown: Option<Error>, parent2: Option<Proto>)
      requires ValidConfig(config) && t < |config.types| && (parent.Some? ==> parent.value.Message?)
      modifies this
      ensures Parsed(thrown, State(), parent2) == ParseMessageF(config, old(State()), t, skipEnums, skipAttr, parent)
      decreases Unseen(config.types, currentDescent), 0, 0
    {
      ghost var d0 := currentDescent;
      var parsed := IsParsed(t, parent);
      if parsed {
        return None, parent;
      }
      var c := config.types[t];
      var name := TranslateProtobufName(config.customNameLookup, c.name);
      UnseenAdd(config.types, d0, t);
      var message := Message(name, c.assemblyName, c.namespace, [], [], [], []);
      thrown, message := ParseProperties(t, skipEnums, skipAttr, name, message);
      if thrown.Some? {
        return thrown, parent;
      }
      thrown, parent2 := AddProto(t, parent, name, message);
    }

    /**
     * The property loop of ParseMessageInternal, with the property cursor
     * `pi` and the id field cursor `fi`: a skipped property moves neither
     * cursor, a oneof only the first, a field both, and the "Has" companion
     * of an optional field is passed over.  The invariant: what is left of
     * the loop, run from here, ends where the whole loop run from the start
     * ends.
     */
    method ParseProperties(t: TypeId, skipEnums: bool, skipAttr: bool, name: string, message0: Proto)
      returns (thrown: Option<Error>, message: Proto)
      requires ValidConfig(config) && t < |config.types| && message0.Message?
      modifies this
      ensures Built(thrown, State(), message)
              == BuildF(config, old(State()), t, skipEnums, skipAttr, message0, Plan(config, t, skipAttr, name, 0, 0))
      decreases Unseen(config.types, currentDescent), 4, 0
    {
      ghost var d0 := currentDescent;
      ghost var whole := BuildF(config, State(), t, skipEnums, skipAttr, message0, Plan(config, t, skipAttr, name, 0, 0));
      var properties := config.types[t].properties;
      message := message0;
      var pi, fi := 0, 0;
      while pi < |properties|
        invariant pi <= |properties| && message.Message?
        invariant d0 <= currentDescent
        invariant BuildF(config, State(), t, skipEnums, skipAttr, message, Plan(config, t, skipAttr, name, pi, fi)) == whole
        decreases |properties| - pi
      {
        BuildAt(config, State(), t, skipEnums, skipAttr, name, message, pi, fi);
        if Skipped(properties[pi], skipAttr) {
          pi := pi + 1;
          continue;
        }
        var slot := SlotAt(config, t, name, pi, fi);
        UnseenMonotone(config.types, d0, currentDescent);
        thrown, message := ParseProperty(t, skipEnums, skipAttr, name, slot, message);
        if thrown.Some? {
          return;
        }
        pi, fi := NextProperty(slot), NextIdField(slot, fi);
      }
      thrown := None;
    }

    /**
     * One property of the loop.  A oneof: OneOfs.Add of its translated name
     * and the enum's positive constants.  A field: the id field at the
     * cursor must exist, be a literal and an Int32; the field type is parsed
     * and Fields.Add files the field under the id.
     */
    method ParseProperty(t: TypeId, skipEnums: bool, skipAttr: bool, name: string, slot: Slot, message: Proto)
      returns (thrown: Option<Error>, message2: Proto)
      requires ValidConfig(config) && t < |config.types| && message.Message? && slot.property < |config.types[t].properties|
      modifies this
      ensures Built(thrown, State(), message2) == StepF(config, old(State()), t, skipEnums, skipAttr, message, slot)
      decreases Unseen(config.types, currentDescent), 3, 0
    {
      var property := config.types[t].properties[slot.property];
      if slot.OneOfSlot? {
        var oneOfName := TranslateOneOfName(config.customNameLookup, property.name);
        var oneOfProtoFieldIds := PositiveConstants(config.types[property.propertyType].staticFields);
        if HasOneOf(message.oneOfs, oneOfName) {
          return Some(DuplicateKey), message;
        }
        return None, message.(oneOfs := message.oneOfs + [(oneOfName, oneOfProtoFieldIds)]);
      }
      var idFields := config.types[t].staticFields;
      if slot.idField >= |idFields| {
        return Some(IndexOutOfRange), message;
      }
      var idField := idFields[slot.idField];
      if !idField.isLiteral || idField.fieldTypeName != "Int32" {
        return Some(GuardFailed), message;
      }
      var msgFieldId := idField.constant;
      var msgFieldType;
      thrown, message2, msgFieldType := ParseFieldType(property.propertyType, skipEnums, skipAttr, message);
      if thrown.Some? {
        return;
      }
      var msgFieldName := TranslateMessageFieldName(config.customNameLookup, property.name);
      if HasFieldId(message2.fields, msgFieldId) {
        return Some(DuplicateKey), message2;
      }
      message2 := message2.(fields := message2.fields + [(msgFieldId, ProtoField(slot.isOptional, msgFieldType, msgFieldName))]);
    }
  }
}
