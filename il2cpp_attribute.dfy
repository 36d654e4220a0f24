// Il2CppAttribute: a custom attribute found by the IL2CPP metadata walk, made
// of the definition of the attribute type and, from metadata version 29 on,
// the decoded constructor arguments.
module Il2CppAttribute {
  import opened Util
  import opened Il2CppBlob

  /**
   * `typeDef` indexes the type definitions of the metadata; `ctorArgValues`
   * is None for attributes read from metadata older than version 29.
   */
  datatype Attribute = Attribute(typeDef: nat, ctorArgValues: Option<seq<Value>>)

  /**
   * The definition Il2CppType.GetOrCreate turns into the attribute's Type;
   * it is there whether or not the arguments are.
   */
  function TypeDefinition(a: Attribute): nat
  {
    a.typeDef
  }

  /** CanReadConstructorArgumentValues. */
  predicate CanReadConstructorArgumentValues(a: Attribute)
  {
    a.ctorArgValues.Some?
  }

  /**
   * ConstructorArgumentValues: the supplied arguments, or NotSupported when
   * the metadata was too old to carry them.
   */
  function ConstructorArgumentValues(a: Attribute): (r: Result<seq<Value>>)
    ensures r.Success? <==> CanReadConstructorArgumentValues(a)
    ensures r.Success? ==> Some(r.value) == a.ctorArgValues
    ensures r.Failure? ==> r.error == NotSupported
  {
    match a.ctorArgValues
    case Some(args) => Success(args)
    case None => Failure(NotSupported)
  }
}
