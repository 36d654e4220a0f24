// CilAssemblyLoader: the three well-known types the decompiler looks for in
// the loaded assemblies, each found once and then remembered.  FindType
// belongs to the concrete loaders and is a function parameter here; the
// lookups made are recorded so that "found at most once" can be stated.
module CilAssemblyLoaders {
  import opened Util

  const IMessageName := "Google.Protobuf.IMessage"
  const IMessageAssembly := "Google.Protobuf"
  const ClientBaseName := "Grpc.Core.ClientBase"
  const BindServiceMethodAttributeName := "Grpc.Core.BindServiceMethodAttribute"
  const GrpcAssembly := "Grpc.Core.Api"

  /** One call of FindType: a full type name and an assembly simple name. */
  datatype Lookup = Lookup(typeFullName: string, assemblySimpleName: string)

  class CilAssemblyLoader<T> {
    const findType: (string, string) -> T
    const loadedTypes: seq<T>
    var iMessage: Option<T>
    var clientBase: Option<T>
    var bindServiceMethodAttribute: Option<T>
    /** The FindType calls made so far, oldest first. */
    ghost var lookups: seq<Lookup>

    constructor (findType: (string, string) -> T, loadedTypes: seq<T>)
      ensures this.findType == findType && this.loadedTypes == loadedTypes
      ensures iMessage == None && clientBase == None && bindServiceMethodAttribute == None
      ensures lookups == []
    {
      this.findType := findType;
      this.loadedTypes := loadedTypes;
      iMessage := None;
      clientBase := None;
      bindServiceMethodAttribute := None;
      lookups := [];
    }

    /** Every cached type is what FindType gives for its fixed names. */
    ghost predicate Valid()
      reads this
    {
      && (iMessage.Some? ==> iMessage.value == findType(IMessageName, IMessageAssembly)
                             && Lookup(IMessageName, IMessageAssembly) in lookups)
      && (clientBase.Some? ==> clientBase.value == findType(ClientBaseName, GrpcAssembly)
                               && Lookup(ClientBaseName, GrpcAssembly) in lookups)
      && (bindServiceMethodAttribute.Some? ==>
            bindServiceMethodAttribute.value == findType(BindServiceMethodAttributeName, GrpcAssembly)
            && Lookup(BindServiceMethodAttributeName, GrpcAssembly) in lookups)
    }

    /** _iMessage ??= FindType("Google.Protobuf.IMessage", "Google.Protobuf") */
    method IMessage() returns (t: T)
      requires Valid()
      modifies this
      ensures Valid()
      ensures t == findType(IMessageName, IMessageAssembly) && iMessage == Some(t)
      ensures lookups == old(lookups) + (if old(iMessage).None? then [Lookup(IMessageName, IMessageAssembly)] else [])
      ensures old(iMessage).Some? ==> t == old(iMessage).value
      ensures clientBase == old(clientBase) && bindServiceMethodAttribute == old(bindServiceMethodAttribute)
    {
      if iMessage.None? {
        iMessage := Some(findType(IMessageName, IMessageAssembly));
        lookups := lookups + [Lookup(IMessageName, IMessageAssembly)];
      }
      t := iMessage.value;
    }

    /** _clientBase ??= FindType("Grpc.Core.ClientBase", "Grpc.Core.Api") */
    method ClientBase() returns (t: T)
      requires Valid()
      modifies this
      ensures Valid()
      ensures t == findType(ClientBaseName, GrpcAssembly) && clientBase == Some(t)
      ensures lookups == old(lookups) + (if old(clientBase).None? then [Lookup(ClientBaseName, GrpcAssembly)] else [])
      ensures old(clientBase).Some? ==> t == old(clientBase).value
      ensures iMessage == old(iMessage) && bindServiceMethodAttribute == old(bindServiceMethodAttribute)
    {
      if clientBase.None? {
        clientBase := Some(findType(ClientBaseName, GrpcAssembly));
        lookups := lookups + [Lookup(ClientBaseName, GrpcAssembly)];
      }
      t := clientBase.value;
    }

    /** _bindServiceMethodAttribute ??= FindType("Grpc.Core.BindServiceMethodAttribute", "Grpc.Core.Api") */
    method BindServiceMethodAttribute() returns (t: T)
      requires Valid()
      modifies this
      ensures Valid()
      ensures t == findType(BindServiceMethodAttributeName, GrpcAssembly) && bindServiceMethodAttribute == Some(t)
      ensures lookups == old(lookups)
                         + (if old(bindServiceMethodAttribute).None?
                            then [Lookup(BindServiceMethodAttributeName, GrpcAssembly)] else [])
      ensures old(bindServiceMethodAttribute).Some? ==> t == old(bindServiceMethodAttribute).value
      ensures iMessage == old(iMessage) && clientBase == old(clientBase)
    {
      if bindServiceMethodAttribute.None? {
        bindServiceMethodAttribute := Some(findType(BindServiceMethodAttributeName, GrpcAssembly));
        lookups := lookups + [Lookup(BindServiceMethodAttributeName, GrpcAssembly)];
      }
      t := bindServiceMethodAttribute.value;
    }

    /** Dispose does nothing in the base loader. */
    method Dispose()
      modifies this
      ensures iMessage == old(iMessage) && clientBase == old(clientBase)
      ensures bindServiceMethodAttribute == old(bindServiceMethodAttribute) && lookups == old(lookups)
    {
    }
  }

  /** Two reads of IMessage make one lookup and give the same type. */
  method IMessageTwice<T>(loader: CilAssemblyLoader<T>) returns (a: T, b: T)
    requires loader.Valid() && loader.iMessage.None?
    modifies loader
    ensures a == b
    ensures loader.lookups == old(loader.lookups) + [Lookup(IMessageName, IMessageAssembly)]
  {
    a := loader.IMessage();
    b := loader.IMessage();
  }
}
