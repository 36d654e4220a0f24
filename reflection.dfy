// What the schema reconstruction engines read of System.Type through
// reflection: a type's name and flags, its generic arguments, its public
// instance properties and its public static fields, with the custom
// attributes the engines look at.  The loaded types form a universe indexed
// by TypeId, since property types refer back into it and may form cycles.
module Reflection {
  import opened Util
  import N = Naming

  type TypeId = nat

  /** A custom attribute: its type's name, and its first constructor argument when that is a string. */
  datatype CustomAttribute = CustomAttribute(typeName: string, firstArgument: Option<string>)

  /** A public static field: an id constant of a message class, or an enum member. */
  datatype StaticField = StaticField(
    name: string, isLiteral: bool, fieldTypeName: string, constant: int, attributes: seq<CustomAttribute>)

  /** A public instance property; `getterIsVirtual` is None when there is no get accessor. */
  datatype Property = Property(
    name: string, propertyType: TypeId, getterIsVirtual: Option<bool>, canWrite: bool,
    attributes: seq<CustomAttribute>)

  datatype ClrType = ClrType(
    name: string, isClass: bool, isEnum: bool, isNested: bool, declaringTypeName: Option<string>,
    assemblyName: Option<string>, namespace: Option<string>, genericArguments: seq<TypeId>,
    properties: seq<Property>, staticFields: seq<StaticField>)

  /**
   * Property types are loaded types, and a generic instantiation only
   * mentions types that come before it (a type is never its own type
   * argument, directly or not).
   */
  predicate WellFormed(u: seq<ClrType>)
  {
    forall t :: 0 <= t < |u| ==>
      (forall a :: 0 <= a < |u[t].genericArguments| ==> u[t].genericArguments[a] < t)
      && (forall p :: 0 <= p < |u[t].properties| ==> u[t].properties[p].propertyType < |u|)
  }

  /** The names of all loaded types. */
  function AllNames(u: seq<ClrType>): set<string>
  {
    set t | 0 <= t < |u| :: u[t].name
  }

  /** The loaded type names a descent set does not hold yet. */
  function Unseen(u: seq<ClrType>, descent: set<string>): nat
  {
    |AllNames(u) - descent|
  }

  lemma {:induction false} SubsetCard<T>(a: set<T>, b: set<T>)
    requires a <= b
    ensures |a| <= |b|
    decreases |a|
  {
    if a != {} {
      var x :| x in a;
      SubsetCard(a - {x}, b - {x});
    }
  }

  /** A larger descent set leaves no more names unseen. */
  lemma UnseenMonotone(u: seq<ClrType>, d1: set<string>, d2: set<string>)
    requires d1 <= d2
    ensures Unseen(u, d2) <= Unseen(u, d1)
  {
    SubsetCard(AllNames(u) - d2, AllNames(u) - d1);
  }

  /** Adding a loaded type's name that was not there leaves one name fewer unseen. */
  lemma UnseenAdd(u: seq<ClrType>, d: set<string>, t: TypeId)
    requires t < |u| && u[t].name !in d
    ensures Unseen(u, d + {u[t].name}) == Unseen(u, d) - 1
  {
    assert AllNames(u) - (d + {u[t].name}) == (AllNames(u) - d) - {u[t].name};
  }

  /**
   * The switch on type names that opens ParseFieldType and ParseType: the
   * nine CLR scalar types and Google.Protobuf's ByteString.
   */
  function ScalarTypeName(clrName: string): (r: Option<string>)
    ensures r.Some? ==> r.value in {"bytes", "string", "bool", "double", "uint32", "uint64", "int32", "int64", "float"}
    ensures clrName == "String" ==> r == Some("string")
    ensures clrName == "Int32" ==> r == Some("int32")
    ensures clrName == "ByteString" ==> r == Some("bytes")
  {
    match clrName
    case "ByteString" => Some("bytes")
    case "String" => Some("string")
    case "Boolean" => Some("bool")
    case "Double" => Some("double")
    case "UInt32" => Some("uint32")
    case "UInt64" => Some("uint64")
    case "Int32" => Some("int32")
    case "Int64" => Some("int64")
    case "Single" => Some("float")
    case _ => None
  }

  /**
   * HasProtocAttribute: some attribute is a GeneratedCodeAttribute whose
   * first argument is "protoc".
   */
  predicate HasProtocAttribute(attributes: seq<CustomAttribute>)
  {
    exists i :: 0 <= i < |attributes| && attributes[i].typeName == "GeneratedCodeAttribute"
                && attributes[i].firstArgument == Some("protoc")
  }

  /** The attributes named OriginalNameAttribute, in order. */
  function OriginalNameAttributes(attributes: seq<CustomAttribute>): (r: seq<CustomAttribute>)
    ensures forall a :: a in r <==> a in attributes && a.typeName == "OriginalNameAttribute"
  {
    if |attributes| == 0 then []
    else
      var p := OriginalNameAttributes(attributes[..|attributes| - 1]);
      var a := attributes[|attributes| - 1];
      assert attributes == attributes[..|attributes| - 1] + [a];
      if a.typeName == "OriginalNameAttribute" then p + [a] else p
  }

  /**
   * SingleOrDefault over the OriginalNameAttribute attributes, then its
   * first argument as a string: none when there is no such attribute or its
   * argument is not a string, InvalidOperation when there are several.
   */
  function OriginalName(attributes: seq<CustomAttribute>): (r: Result<Option<string>>)
    ensures r.Failure? <==> |OriginalNameAttributes(attributes)| > 1
    ensures r.Success? && r.value.Some? ==>
              CustomAttribute("OriginalNameAttribute", r.value) in attributes
  {
    var found := OriginalNameAttributes(attributes);
    if |found| == 0 then Success(None)
    else if |found| == 1 then
      assert found[0] in found;
      Success(found[0].firstArgument)
    else Failure(InvalidOperation)
  }

  /**
   * The oneof ids: the raw constants of the enum's fields, those above zero,
   * in declaration order.
   */
  function PositiveConstants(fields: seq<StaticField>): (r: seq<int>)
    ensures |r| <= |fields|
    ensures forall k :: 0 <= k < |r| ==> r[k] > 0
    ensures forall x :: x in r <==> exists i :: 0 <= i < |fields| && fields[i].constant == x && x > 0
  {
    if |fields| == 0 then []
    else
      var p := fields[..|fields| - 1];
      var c := fields[|fields| - 1].constant;
      var r := PositiveConstants(p);
      assert forall i :: 0 <= i < |p| ==> p[i] == fields[i];
      if c > 0 then r + [c] else r
  }

  /** Every constant of the enum, in declaration order. */
  function Constants(fields: seq<StaticField>): (r: seq<int>)
    ensures |r| == |fields| && forall i :: 0 <= i < |fields| ==> r[i] == fields[i].constant
  {
    if |fields| == 0 then [] else Constants(fields[..|fields| - 1]) + [fields[|fields| - 1].constant]
  }

  /** The positive constants are the constants with the others filtered out, order kept. */
  lemma {:induction false} PositiveConstantsFilter(fields: seq<StaticField>)
    ensures PositiveConstants(fields) == Positive(Constants(fields))
  {
    if |fields| > 0 {
      var p := fields[..|fields| - 1];
      PositiveConstantsFilter(p);
      var cs := Constants(fields);
      assert cs[..|cs| - 1] == Constants(p);
    }
  }

  /** The elements of `xs` above zero, in order. */
  function Positive(xs: seq<int>): seq<int>
  {
    if |xs| == 0 then [] else Positive(xs[..|xs| - 1]) + (if xs[|xs| - 1] > 0 then [xs[|xs| - 1]] else [])
  }
}
