// The declarations a decompiled .proto file is made of (the model classes
// under src/LibProtodec/Models): top-level messages, enums and services,
// their fields, and field types.  A top-level refers to its parent, and a
// field to its type, by reference; here every top-level is an entry of one
// table `decls` and a reference is its index, so that `Parent == topLevel`
// compares indices exactly as the C# compares references.
module Schema {
  import opened Util

  /** IType / IProtobufType. */
  datatype FieldType =
    | Named(name: string)                       // Scalar, WellKnown, External
    | MapOf(key: FieldType, value: FieldType)   // Map
    | RepeatedOf(element: FieldType)            // Repeated
    | Ref(decl: nat)                            // a top-level message or enum

  datatype EnumField = EnumField(name: string, id: int, isObsolete: bool)

  datatype MessageField =
    MessageField(fieldType: FieldType, name: string, id: int, isObsolete: bool, hasHasProp: bool)

  datatype ServiceMethod = ServiceMethod(
    name: string, requestType: FieldType, responseType: FieldType,
    isRequestStreamed: bool, isResponseStreamed: bool, isObsolete: bool)

  /**
   * What a top-level declares.  The dictionaries of Message are sequences of
   * key/value pairs in enumeration (insertion) order.
   */
  datatype Body =
    | EnumBody(enumFields: seq<EnumField>, isClosed: bool)
    | MessageBody(oneOfs: seq<(string, seq<int>)>, fields: seq<(int, MessageField)>, nested: seq<(string, nat)>)
    | ServiceBody(methods: seq<ServiceMethod>)

  datatype TopLevel = TopLevel(name: string, isObsolete: bool, parent: Option<nat>, body: Body)

  /** Dictionary keys are distinct. */
  predicate UniqueKeys<K(==), V>(pairs: seq<(K, V)>)
  {
    forall i, j :: 0 <= i < j < |pairs| ==> pairs[i].0 != pairs[j].0
  }

  /** Every top-level's parent comes before it, so no parent chain has a cycle. */
  predicate ParentsBefore(decls: seq<TopLevel>)
  {
    forall i :: 0 <= i < |decls| && decls[i].parent.Some? ==> decls[i].parent.value < i
  }

  /** The type refers only to top-levels of the table. */
  predicate RefsIn(t: FieldType, n: nat)
  {
    match t
    case Named(_) => true
    case MapOf(k, v) => RefsIn(k, n) && RefsIn(v, n)
    case RepeatedOf(e) => RefsIn(e, n)
    case Ref(i) => i < n
  }

  predicate FieldsIn(fields: seq<(int, MessageField)>, n: nat)
  {
    forall k :: 0 <= k < |fields| ==> RefsIn(fields[k].1.fieldType, n)
  }

  predicate MethodsIn(methods: seq<ServiceMethod>, n: nat)
  {
    forall k :: 0 <= k < |methods| ==> RefsIn(methods[k].requestType, n) && RefsIn(methods[k].responseType, n)
  }

  /** A nested declaration comes after the one it is nested in. */
  predicate NestedAfter(nested: seq<(string, nat)>, self: nat, n: nat)
  {
    forall k :: 0 <= k < |nested| ==> self < nested[k].1 < n
  }

  /** The body of entry `self` of a table of `n` entries fits the table. */
  predicate BodyFits(body: Body, self: nat, n: nat)
  {
    match body
    case EnumBody(_, _) => true
    case MessageBody(oneOfs, fields, nested) =>
      UniqueKeys(oneOfs) && UniqueKeys(fields) && FieldsIn(fields, n)
      && UniqueKeys(nested) && NestedAfter(nested, self, n)
    case ServiceBody(methods) => MethodsIn(methods, n)
  }

  /**
   * The table is a well-formed object graph: parents form chains without
   * cycles, references stay in the table, dictionary keys are distinct and
   * nesting has no cycle.
   */
  predicate WellFormed(decls: seq<TopLevel>)
  {
    ParentsBefore(decls) && forall i :: 0 <= i < |decls| ==> BodyFits(decls[i].body, i, |decls|)
  }

  /** IType.Name: a top-level answers its own bare name. */
  function TypeName(decls: seq<TopLevel>, t: FieldType): string
    requires RefsIn(t, |decls|)
  {
    match t
    case Named(name) => name
    case MapOf(k, v) => "map<" + TypeName(decls, k) + ", " + TypeName(decls, v) + ">"
    case RepeatedOf(e) => "repeated " + TypeName(decls, e)
    case Ref(i) => decls[i].name
  }

  /**
   * The ancestors the qualification walks visit, innermost first: from `p`
   * along Parent until there is none or the walk reaches `stop`.
   */
  function Ancestors(decls: seq<TopLevel>, p: Option<nat>, stop: nat): (r: seq<nat>)
    requires ParentsBefore(decls) && (p.Some? ==> p.value < |decls|)
    ensures forall j :: 0 <= j < |r| ==> r[j] < |decls|
    decreases if p.Some? then p.value + 1 else 0
  {
    if p.None? || p.value == stop then []
    else [p.value] + Ancestors(decls, decls[p.value].parent, stop)
  }

  /**
   * The walk starts at `p`, goes from each top-level to its parent, never
   * visits `stop`, and ends at a top-level whose parent is missing or is
   * `stop`; it visits nothing when `p` is missing or is `stop` itself.
   */
  lemma {:induction false} AncestorsWalk(decls: seq<TopLevel>, p: Option<nat>, stop: nat)
    requires ParentsBefore(decls) && (p.Some? ==> p.value < |decls|)
    ensures var r := Ancestors(decls, p, stop);
            && (|r| == 0 <==> p.None? || p.value == stop)
            && (|r| > 0 ==> r[0] == p.value)
            && (forall j :: 0 <= j < |r| ==> r[j] != stop)
            && (forall j :: 0 <= j < |r| - 1 ==> decls[r[j]].parent == Some(r[j + 1]))
            && (|r| > 0 ==> decls[r[|r| - 1]].parent.None? || decls[r[|r| - 1]].parent == Some(stop))
    decreases if p.Some? then p.value + 1 else 0
  {
    if p.Some? && p.value != stop {
      var q := decls[p.value].parent;
      AncestorsWalk(decls, q, stop);
      var rest := Ancestors(decls, q, stop);
      var r := Ancestors(decls, p, stop);
      assert r == [p.value] + rest;
      if |rest| > 0 {
        assert r[1] == rest[0] == q.value;
        assert forall j :: 1 <= j < |r| - 1 ==> r[j] == rest[j - 1] && r[j + 1] == rest[j];
      }
    }
  }

  /** The names of the given top-levels. */
  function NamesOf(decls: seq<TopLevel>, idx: seq<nat>): (r: seq<string>)
    requires forall j :: 0 <= j < |idx| ==> idx[j] < |decls|
    ensures |r| == |idx| && forall j :: 0 <= j < |idx| ==> r[j] == decls[idx[j]].name
  {
    seq(|idx|, j requires 0 <= j < |idx| => decls[idx[j]].name)
  }

  /**
   * The segments of the name of `self` seen from `stop`: the visited
   * ancestors outermost first, then the name of `self`.
   */
  function Segments(decls: seq<TopLevel>, self: nat, stop: nat): seq<string>
    requires ParentsBefore(decls) && self < |decls|
  {
    Reverse([decls[self].name] + NamesOf(decls, Ancestors(decls, decls[self].parent, stop)))
  }

  /** TopLevel.QualifyName(stop): the segments joined with '.'. */
  function QualifiedName(decls: seq<TopLevel>, self: nat, stop: nat): string
    requires ParentsBefore(decls) && self < |decls|
  {
    JoinWith(Segments(decls, self, stop), ".")
  }

  /**
   * The qualified name has one segment per visited ancestor plus one, the
   * outermost first; it ends with the declaration's own name; the top-level
   * it is seen from never takes a segment.
   */
  lemma SegmentsShape(decls: seq<TopLevel>, self: nat, stop: nat)
    requires ParentsBefore(decls) && self < |decls|
    ensures var a := Ancestors(decls, decls[self].parent, stop);
            var s := Segments(decls, self, stop);
            && |s| == |a| + 1
            && s[|s| - 1] == decls[self].name
            && (forall j :: 0 <= j < |a| ==> s[j] == decls[a[|a| - 1 - j]].name)
            && stop !in a
    ensures EndsWith(QualifiedName(decls, self, stop), decls[self].name)
  {
    var s := Segments(decls, self, stop);
    AncestorsWalk(decls, decls[self].parent, stop);
    JoinWithEndsWithLast(s, ".");
  }

  /** Without a parent, or seen from its own parent, a declaration is its bare name. */
  lemma UnqualifiedAtTop(decls: seq<TopLevel>, self: nat, stop: nat)
    requires ParentsBefore(decls) && self < |decls|
    requires decls[self].parent.None? || decls[self].parent == Some(stop)
    ensures QualifiedName(decls, self, stop) == decls[self].name
  {
    assert Segments(decls, self, stop) == [decls[self].name];
  }

  /**
   * The loop both trees share: the name of `self`, then the name of each
   * parent up to (not including) `stop` or the outermost declaration.
   */
  method WalkParents(decls: seq<TopLevel>, self: nat, stop: nat) returns (names: seq<string>)
    requires ParentsBefore(decls) && self < |decls|
    ensures names == [decls[self].name] + NamesOf(decls, Ancestors(decls, decls[self].parent, stop))
  {
    names := [decls[self].name];
    ghost var visited: seq<nat> := [];
    var parent := decls[self].parent;
    while parent.Some? && parent.value != stop
      invariant parent.Some? ==> parent.value < |decls|
      invariant forall j :: 0 <= j < |visited| ==> visited[j] < |decls|
      invariant Ancestors(decls, decls[self].parent, stop) == visited + Ancestors(decls, parent, stop)
      invariant names == [decls[self].name] + NamesOf(decls, visited)
      decreases if parent.Some? then parent.value + 1 else 0
    {
      var p := parent.value;
      WalkStep(decls, decls[self].parent, stop, visited, p);
      NamesSnoc(decls, visited, p);
      names := names + [decls[p].name];
      visited := visited + [p];
      parent := decls[p].parent;
    }
    assert visited == Ancestors(decls, decls[self].parent, stop);
  }

  /** One step of the walk: `p` is visited, and the walk goes on from its parent. */
  lemma WalkStep(decls: seq<TopLevel>, start: Option<nat>, stop: nat, visited: seq<nat>, p: nat)
    requires ParentsBefore(decls) && (start.Some? ==> start.value < |decls|) && p < |decls| && p != stop
    requires Ancestors(decls, start, stop) == visited + Ancestors(decls, Some(p), stop)
    ensures Ancestors(decls, start, stop) == (visited + [p]) + Ancestors(decls, decls[p].parent, stop)
  {
    assert Ancestors(decls, Some(p), stop) == [p] + Ancestors(decls, decls[p].parent, stop);
    assert visited + ([p] + Ancestors(decls, decls[p].parent, stop)) == (visited + [p]) + Ancestors(decls, decls[p].parent, stop);
  }

  lemma NamesSnoc(decls: seq<TopLevel>, idx: seq<nat>, p: nat)
    requires (forall j :: 0 <= j < |idx| ==> idx[j] < |decls|) && p < |decls|
    ensures NamesOf(decls, idx + [p]) == NamesOf(decls, idx) + [decls[p].name]
  {
  }

  /** The Models tree's QualifyName: walks the parent chain, then reverses. */
  method QualifyName(decls: seq<TopLevel>, self: nat, topLevel: nat) returns (r: string)
    requires ParentsBefore(decls) && self < |decls|
    ensures r == QualifiedName(decls, self, topLevel)
  {
    var names := WalkParents(decls, self, topLevel);
    names := Reverse(names);
    r := JoinWith(names, ".");
  }

  /**
   * The name of a field type as seen from top-level `self`: a top-level is
   * qualified, any other type keeps its name.
   */
  function TypeNameFrom(decls: seq<TopLevel>, self: nat, t: FieldType): string
    requires ParentsBefore(decls) && RefsIn(t, |decls|)
  {
    if t.Ref? then QualifiedName(decls, t.decl, self) else TypeName(decls, t)
  }

  /**
   * The Protobuf tree's QualifyTypeName, seen from `self`: the early return
   * for a top-level without a parent, or whose parent is `self`, gives the
   * same name the walk would.
   */
  method QualifyTypeName(decls: seq<TopLevel>, self: nat, t: FieldType) returns (r: string)
    requires ParentsBefore(decls) && RefsIn(t, |decls|)
    ensures r == TypeNameFrom(decls, self, t)
  {
    if !t.Ref? {
      return TypeName(decls, t);
    }
    var tl := t.decl;
    if decls[tl].parent.None? || decls[tl].parent == Some(self) {
      UnqualifiedAtTop(decls, tl, self);
      return decls[tl].name;
    }
    var names := WalkParents(decls, tl, self);
    names := Reverse(names);
    r := JoinWith(names, ".");
  }

  /**
   * Protobuf.WriteTypeNameTo's choice of text: the qualified name for a
   * top-level with a parent other than `topLevel`, the bare name otherwise.
   */
  function WrittenTypeName(decls: seq<TopLevel>, t: FieldType, topLevel: nat): string
    requires ParentsBefore(decls) && RefsIn(t, |decls|)
  {
    if t.Ref? && decls[t.decl].parent.Some? && decls[t.decl].parent != Some(topLevel)
    then QualifiedName(decls, t.decl, topLevel)
    else TypeName(decls, t)
  }

  /**
   * The two trees name a field type alike: WriteTypeNameTo relative to a
   * top-level writes what that top-level's QualifyTypeName answers.
   */
  lemma WrittenTypeNameIsQualified(decls: seq<TopLevel>, t: FieldType, topLevel: nat)
    requires ParentsBefore(decls) && RefsIn(t, |decls|)
    ensures WrittenTypeName(decls, t, topLevel) == TypeNameFrom(decls, topLevel, t)
  {
    if t.Ref? && !(decls[t.decl].parent.Some? && decls[t.decl].parent != Some(topLevel)) {
      UnqualifiedAtTop(decls, t.decl, topLevel);
    }
  }
}
