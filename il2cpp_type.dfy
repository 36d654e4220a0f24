// Il2CppType: a type of the IL2CPP metadata.  Type definitions are an
// indexed table (an index stands for the definition object); the handles the
// decompiler hands out are objects kept unique per name by a lookup table,
// and each handle builds its generic arguments once.
module Il2CppTypes {
  import opened Util

  /** TypeAttributes.ClassSemanticsMask; the Class semantics is the value 0. */
  const ClassSemanticsMask: bv32 := 0x20
  /** TypeAttributes.Sealed. */
  const SealedFlag: bv32 := 0x100

  /**
   * Il2CppTypeDefinition as the decompiler reads it.  `baseDef` is the
   * definition behind BaseType?.baseType and `interfaces` the definitions
   * behind Interfaces[i].baseType.
   */
  datatype TypeDef = TypeDef(
    name: string,
    fullName: string,
    namespace: Option<string>,
    attributes: bv32,
    isAbstract: bool,
    isValueType: bool,
    isEnumType: bool,
    isInterface: bool,
    declaringTypeIndex: int,
    parentIndex: int,
    baseDef: Option<nat>,
    interfaces: seq<nat>)

  /** Every definition named by another is in the table. */
  predicate ValidDefs(defs: seq<TypeDef>)
  {
    forall d :: d in defs ==>
      (d.baseDef.Some? ==> d.baseDef.value < |defs|) && forall i :: i in d.interfaces ==> i < |defs|
  }

  predicate IsClass(d: TypeDef)
  {
    d.attributes & ClassSemanticsMask == 0 && !d.isValueType
  }

  predicate IsNested(d: TypeDef)
  {
    d.declaringTypeIndex >= 0
  }

  predicate IsSealed(d: TypeDef)
  {
    d.attributes & SealedFlag != 0
  }

  // ---------------------------------------------------------- assignability

  /**
   * The static IsAssignableTo: an interface of the type that is the target
   * interface, the type itself, or else the same question for its base type.
   * `fuel` is the depth of the call stack; a base chain longer than it
   * (a cyclic one in particular) exhausts the stack.
   */
  function IsAssignableTo(defs: seq<TypeDef>, thisType: nat, baseType: nat, fuel: nat): (r: Result<bool>)
    requires ValidDefs(defs) && thisType < |defs| && baseType < |defs|
    ensures r.Failure? ==> r.error == StackExhausted
    ensures fuel > 0 && thisType == baseType ==> r == Success(true)
    ensures fuel > 0 && defs[thisType].baseDef.None? ==> r == Success(Matches(defs, thisType, baseType))
    decreases fuel
  {
    if fuel == 0 then Failure(StackExhausted)
    else if defs[baseType].isInterface && baseType in defs[thisType].interfaces then Success(true)
    else if thisType == baseType then Success(true)
    else
      match defs[thisType].baseDef
      case None => Success(false)
      case Some(parent) =>
        assert defs[thisType] in defs;
        IsAssignableTo(defs, parent, baseType, fuel - 1)
  }

  /** The type `k` steps up the base chain of `t`, if the chain is that long. */
  function Ancestor(defs: seq<TypeDef>, t: nat, k: nat): (a: Option<nat>)
    requires ValidDefs(defs) && t < |defs|
    ensures a.Some? ==> a.value < |defs|
    decreases k
  {
    if k == 0 then Some(t)
    else
      match defs[t].baseDef
      case None => None
      case Some(parent) =>
        assert defs[t] in defs;
        Ancestor(defs, parent, k - 1)
  }

  /** `c` is the target itself or lists the target interface among its interfaces. */
  predicate Matches(defs: seq<TypeDef>, c: nat, baseType: nat)
    requires c < |defs| && baseType < |defs|
  {
    c == baseType || (defs[baseType].isInterface && baseType in defs[c].interfaces)
  }

  predicate MatchesAt(defs: seq<TypeDef>, t: nat, baseType: nat, k: nat)
    requires ValidDefs(defs) && t < |defs| && baseType < |defs|
  {
    Ancestor(defs, t, k).Some? && Matches(defs, Ancestor(defs, t, k).value, baseType)
  }

  /**
   * The recursion against its reference definition over the base chain: it
   * answers true exactly when an ancestor within `fuel` steps matches; it
   * answers false only when the chain ends before `fuel` steps without a
   * match; it exhausts the stack only when the first `fuel` ancestors exist
   * and none matches.
   */
  lemma {:induction false} IsAssignableToChain(defs: seq<TypeDef>, t: nat, baseType: nat, fuel: nat)
    requires ValidDefs(defs) && t < |defs| && baseType < |defs|
    ensures IsAssignableTo(defs, t, baseType, fuel) == Success(true) <==>
              exists k: nat :: k < fuel && MatchesAt(defs, t, baseType, k)
    ensures IsAssignableTo(defs, t, baseType, fuel) == Success(false) ==>
              (forall k: nat :: !MatchesAt(defs, t, baseType, k)) && Ancestor(defs, t, fuel).None?
    ensures IsAssignableTo(defs, t, baseType, fuel).Failure? ==>
              forall k: nat :: k < fuel ==> Ancestor(defs, t, k).Some? && !MatchesAt(defs, t, baseType, k)
    decreases fuel
  {
    if fuel > 0 && !Matches(defs, t, baseType) {
      assert !MatchesAt(defs, t, baseType, 0);
      match defs[t].baseDef
      case None =>
        forall k: nat ensures !MatchesAt(defs, t, baseType, k) {
          if k > 0 { assert Ancestor(defs, t, k).None?; }
        }
      case Some(parent) =>
        assert defs[t] in defs;
        IsAssignableToChain(defs, parent, baseType, fuel - 1);
        forall k: nat | k > 0 ensures MatchesAt(defs, t, baseType, k) == MatchesAt(defs, parent, baseType, k - 1) {
          assert Ancestor(defs, t, k) == Ancestor(defs, parent, k - 1);
        }
        if exists k: nat :: k < fuel && MatchesAt(defs, t, baseType, k) {
          var k: nat :| k < fuel && MatchesAt(defs, t, baseType, k);
          assert MatchesAt(defs, parent, baseType, k - 1);
        }
        if exists k: nat :: k < fuel - 1 && MatchesAt(defs, parent, baseType, k) {
          var k: nat :| k < fuel - 1 && MatchesAt(defs, parent, baseType, k);
          assert MatchesAt(defs, t, baseType, k + 1);
        }
        if IsAssignableTo(defs, t, baseType, fuel) == Success(false) {
          forall k: nat ensures !MatchesAt(defs, t, baseType, k) {
            if k > 0 { assert !MatchesAt(defs, parent, baseType, k - 1); }
          }
          assert Ancestor(defs, t, fuel) == Ancestor(defs, parent, fuel - 1);
        }
        if IsAssignableTo(defs, t, baseType, fuel).Failure? {
          forall k: nat | k < fuel ensures Ancestor(defs, t, k).Some? {
            if k > 0 { assert Ancestor(defs, t, k) == Ancestor(defs, parent, k - 1); }
          }
        }
    } else if fuel > 0 {
      assert MatchesAt(defs, t, baseType, 0);
    }
  }

  /** A definite answer does not change with a deeper stack. */
  lemma {:induction false} IsAssignableToMoreFuel(defs: seq<TypeDef>, t: nat, baseType: nat, fuel: nat, more: nat)
    requires ValidDefs(defs) && t < |defs| && baseType < |defs|
    requires fuel <= more && IsAssignableTo(defs, t, baseType, fuel).Success?
    ensures IsAssignableTo(defs, t, baseType, more) == IsAssignableTo(defs, t, baseType, fuel)
    decreases fuel
  {
    if !Matches(defs, t, baseType) && defs[t].baseDef.Some? {
      assert defs[t] in defs;
      IsAssignableToMoreFuel(defs, defs[t].baseDef.value, baseType, fuel - 1, more - 1);
    }
  }

  // ------------------------------------------------------------ the handles

  /**
   * Il2CppTypeReflectionData: whether it denotes a type, the definition it
   * instantiates, its generic parameters, and its ToString() text, which is
   * the lookup key.
   */
  datatype TypeData = TypeData(isType: bool, baseType: nat, genericParams: seq<TypeData>, text: string)

  /** A type handle: a definition and the generic arguments it was created with. */
  class Il2CppType {
    const definition: nat
    const genericArgs: seq<TypeData>
    var genericTypeArguments: Option<seq<Option<Il2CppType>>>

    constructor (definition: nat, genericArgs: seq<TypeData>)
      ensures this.definition == definition && this.genericArgs == genericArgs
      ensures genericTypeArguments == None
    {
      this.definition := definition;
      this.genericArgs := genericArgs;
      genericTypeArguments := None;
    }

    /**
     * GenericTypeArguments: on the first read, a handle for every generic
     * argument, stored into the cached array one by one; later reads give
     * the cached array.  An argument that is not a type fails the guard and
     * leaves the partly filled array cached.
     */
    method GenericTypeArguments(lookup: TypeLookup) returns (r: Result<seq<Option<Il2CppType>>>)
      modifies this, lookup
      ensures old(genericTypeArguments).Some? ==>
                r == Success(old(genericTypeArguments).value) && genericTypeArguments == old(genericTypeArguments)
                && lookup.table == old(lookup.table)
      ensures old(genericTypeArguments).None? ==>
                genericTypeArguments.Some? && |genericTypeArguments.value| == |genericArgs|
                && (r.Success? <==> forall i :: 0 <= i < |genericArgs| ==> genericArgs[i].isType)
                && (r.Success? ==> genericTypeArguments == Some(r.value)
                                   && forall i :: 0 <= i < |genericArgs| ==>
                                        r.value[i].Some? && genericArgs[i].text in lookup.table
                                        && lookup.table[genericArgs[i].text] == r.value[i].value)
                && (r.Failure? ==> r.error == GuardFailed)
      ensures forall k :: k in old(lookup.table) ==> k in lookup.table && lookup.table[k] == old(lookup.table)[k]
    {
      if genericTypeArguments.Some? {
        return Success(genericTypeArguments.value);
      }
      var n := |genericArgs|;
      genericTypeArguments := Some(seq(n, _ => None));
      var i := 0;
      while i < n
        invariant 0 <= i <= n
        invariant genericTypeArguments.Some? && |genericTypeArguments.value| == n
        invariant forall j :: 0 <= j < i ==> genericArgs[j].isType
        invariant forall j :: 0 <= j < i ==>
                    genericTypeArguments.value[j].Some? && genericArgs[j].text in lookup.table
                    && lookup.table[genericArgs[j].text] == genericTypeArguments.value[j].value
        invariant forall k :: k in old(lookup.table) ==> k in lookup.table && lookup.table[k] == old(lookup.table)[k]
      {
        var t := lookup.GetOrCreate(genericArgs[i]);
        if t.Failure? {
          return Failure(t.error);
        }
        genericTypeArguments := Some(genericTypeArguments.value[i := Some(t.value)]);
        i := i + 1;
      }
      return Success(genericTypeArguments.value);
    }
  }

  /** A handle of either runtime: one of this model, or another loader's. */
  datatype AnyCilType = Il2CppHandle(t: Il2CppType) | OtherCilType

  /**
   * TypeLookup, the table of handles by name, together with the metadata the
   * handles are read from: the definitions, and the reflection data of the
   * binary's type at an index.
   */
  class TypeLookup {
    const defs: seq<TypeDef>
    const reflectType: int -> Result<TypeData>
    var table: map<string, Il2CppType>

    constructor (defs: seq<TypeDef>, reflectType: int -> Result<TypeData>)
      ensures this.defs == defs && this.reflectType == reflectType && table == map[]
    {
      this.defs := defs;
      this.reflectType := reflectType;
      table := map[];
    }

    /** GetOrCreate(Il2CppTypeDefinition): keyed by the full name, without generic arguments. */
    method GetOrCreateDefinition(d: nat) returns (t: Il2CppType)
      requires d < |defs|
      modifies this
      ensures defs[d].fullName in old(table) ==> t == old(table)[defs[d].fullName] && table == old(table)
      ensures defs[d].fullName !in old(table) ==>
                fresh(t) && t.definition == d && t.genericArgs == [] && t.genericTypeArguments == None
                && table == old(table)[defs[d].fullName := t]
    {
      var key := defs[d].fullName;
      if key in table {
        return table[key];
      }
      t := new Il2CppType(d, []);
      table := table[key := t];
    }

    /** GetOrCreate(Il2CppTypeReflectionData): guarded to types, keyed by the text. */
    method GetOrCreate(data: TypeData) returns (r: Result<Il2CppType>)
      modifies this
      ensures !data.isType ==> r == Failure(GuardFailed) && table == old(table)
      ensures data.isType && data.text in old(table) ==> r == Success(old(table)[data.text]) && table == old(table)
      ensures data.isType && data.text !in old(table) ==>
                r.Success? && fresh(r.value) && r.value.definition == data.baseType
                && r.value.genericArgs == data.genericParams && r.value.genericTypeArguments == None
                && table == old(table)[data.text := r.value]
    {
      if !data.isType {
        return Failure(GuardFailed);
      }
      if data.text in table {
        return Success(table[data.text]);
      }
      var t := new Il2CppType(data.baseType, data.genericParams);
      table := table[data.text := t];
      return Success(t);
    }

    /** BaseType: none when ParentIndex is -1, else the handle of the parent type. */
    method BaseType(t: Il2CppType) returns (r: Result<Option<Il2CppType>>)
      requires t.definition < |defs|
      modifies this
      ensures defs[t.definition].parentIndex == -1 ==> r == Success(None) && table == old(table)
      ensures defs[t.definition].parentIndex != -1 && r.Success? ==> r.value.Some?
      ensures defs[t.definition].parentIndex != -1 && reflectType(defs[t.definition].parentIndex).Failure? ==>
                r == Failure(reflectType(defs[t.definition].parentIndex).error) && table == old(table)
      ensures defs[t.definition].parentIndex != -1 && reflectType(defs[t.definition].parentIndex).Success? ==>
                var d := reflectType(defs[t.definition].parentIndex).value;
                (!d.isType ==> r == Failure(GuardFailed) && table == old(table))
                && (d.isType ==> r.Success? && r.value.Some? && d.text in table && table[d.text] == r.value.value)
                && (d.isType && d.text in old(table) ==> r.value.value == old(table)[d.text] && table == old(table))
                && (d.isType && d.text !in old(table) ==>
                      fresh(r.value.value) && r.value.value.definition == d.baseType
                      && r.value.value.genericArgs == d.genericParams
                      && table == old(table)[d.text := r.value.value])
      ensures forall k :: k in old(table) ==> k in table && table[k] == old(table)[k]
    {
      var parentIndex := defs[t.definition].parentIndex;
      if parentIndex == -1 {
        return Success(None);
      }
      var data :- reflectType(parentIndex);
      var parent :- GetOrCreate(data);
      return Success(Some(parent));
    }

    /** DeclaringType: the handle of the enclosing type exactly for a nested type. */
    method DeclaringType(t: Il2CppType) returns (r: Result<Option<Il2CppType>>)
      requires t.definition < |defs|
      modifies this
      ensures !IsNested(defs[t.definition]) ==> r == Success(None) && table == old(table)
      ensures IsNested(defs[t.definition]) && r.Success? ==> r.value.Some?
      ensures IsNested(defs[t.definition]) && reflectType(defs[t.definition].declaringTypeIndex).Failure? ==>
                r == Failure(reflectType(defs[t.definition].declaringTypeIndex).error) && table == old(table)
      ensures IsNested(defs[t.definition]) && reflectType(defs[t.definition].declaringTypeIndex).Success? ==>
                var d := reflectType(defs[t.definition].declaringTypeIndex).value;
                (!d.isType ==> r == Failure(GuardFailed) && table == old(table))
                && (d.isType ==> r.Success? && r.value.Some? && d.text in table && table[d.text] == r.value.value)
                && (d.isType && d.text in old(table) ==> r.value.value == old(table)[d.text] && table == old(table))
                && (d.isType && d.text !in old(table) ==>
                      fresh(r.value.value) && r.value.value.definition == d.baseType
                      && r.value.value.genericArgs == d.genericParams
                      && table == old(table)[d.text := r.value.value])
      ensures forall k :: k in old(table) ==> k in table && table[k] == old(table)[k]
    {
      if !IsNested(defs[t.definition]) {
        return Success(None);
      }
      var data :- reflectType(defs[t.definition].declaringTypeIndex);
      var declaring :- GetOrCreate(data);
      return Success(Some(declaring));
    }

    /** The instance IsAssignableTo: only a handle of this runtime can be compared. */
    method IsAssignableToType(t: Il2CppType, other: AnyCilType, fuel: nat) returns (r: Result<bool>)
      requires ValidDefs(defs) && t.definition < |defs|
      requires other.Il2CppHandle? ==> other.t.definition < |defs|
      ensures other.Il2CppHandle? ==> r == IsAssignableTo(defs, t.definition, other.t.definition, fuel)
      ensures other.OtherCilType? ==> r == Failure(NotSupported)
    {
      if other.Il2CppHandle? {
        return IsAssignableTo(defs, t.definition, other.t.definition, fuel);
      }
      return Failure(NotSupported);
    }
  }

  /** Two requests with the same key give the same handle. */
  method SameKeySameHandle(lookup: TypeLookup, a: TypeData, b: TypeData) returns (x: Il2CppType, y: Il2CppType)
    requires a.isType && b.isType && a.text == b.text
    modifies lookup
    ensures x == y
  {
    var rx := lookup.GetOrCreate(a);
    var ry := lookup.GetOrCreate(b);
    x, y := rx.value, ry.value;
  }
}
